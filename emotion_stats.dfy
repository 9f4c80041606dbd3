/** The affective-state dynamics of module/emotion/emotion_stats.py: the
    current 32-label vector is decayed by per-label half-lives, blended with
    a new reading at an adaptive rate, limited per call, cross-inhibited,
    pulled toward its mean and normalised to 100. */
module EmotionStats {
  import opened Wrappers
  import opened Dicts
  import opened Values
  import opened VectorMath
  import Text
  import Params

  /** An emotion vector: Japanese label to percentage. */
  type Vector = Dict<string, real>

  /** `HALF_LIFE_SEC` and `DEFAULT_HALF_LIFE` */
  const HalfLifeSec: map<string, real> := map[
    "驚き" := 15.0, "怒り" := 40.0, "嫌悪" := 60.0, "恐れ" := 60.0,
    "喜び" := 120.0, "楽観" := 120.0, "歓喜" := 90.0, "期待" := 90.0, "好奇心" := 90.0,
    "悲しみ" := 180.0, "失望" := 150.0, "絶望" := 240.0, "感傷" := 200.0,
    "恥" := 200.0, "罪悪感" := 220.0, "自責" := 220.0,
    "信頼" := 300.0, "愛" := 300.0, "希望" := 180.0, "優位" := 150.0]
  const DefaultHalfLife: real := 120.0

  /** `FAST_DECAY` and `STICKY` */
  const FastDecay: set<string> := {"驚き", "怒り", "嫌悪"}
  const Sticky: set<string> := {"悲しみ", "恥", "罪悪感", "自責", "信頼", "愛", "絶望"}

  /** `CROSS_INHIBIT`, in its order of definition: each source with its
      sinks and their coefficients. */
  const CrossInhibitTable: seq<(string, seq<(string, real)>)> := [
    ("怒り", [("信頼", 0.08), ("愛", 0.05), ("恐れ", 0.03), ("悲しみ", 0.02)]),
    ("悲しみ", [("怒り", 0.04), ("楽観", 0.05)]),
    ("驚き", [("信頼", 0.02)]),
    ("恐れ", [("優位", 0.05)]),
    ("信頼", [("不信", 0.08), ("怒り", 0.03)]),
    ("愛", [("軽蔑", 0.06), ("怒り", 0.02)])]

  const MaxDeltaUp: real := 25.0
  const MaxDeltaDown: real := 20.0
  const BigSpikeThreshold: real := 35.0
  const HomeostasisStrength: real := 0.02
  const AlphaMin: real := 0.15
  const AlphaMax: real := 0.45

  function HalfLife(k: string): real {
    if k in HalfLifeSec then HalfLifeSec[k] else DefaultHalfLife
  }

  // ---------------------------------------------------------------------
  // normalize_composition_vector

  /** `float(raw.get(label, 0))` */
  function LabelValue(raw: Dict<string, Value>, name: string, floatOf: string -> Option<real>): Option<real> {
    ToFloat(GetOr(raw, name, Int(0)), floatOf)
  }

  predicate AllConvert(raw: Dict<string, Value>, labels: seq<string>, floatOf: string -> Option<real>) {
    forall i | 0 <= i < |labels| :: LabelValue(raw, labels[i], floatOf).Some?
  }

  /** The labels of `emotion_map_reverse`, which are the 32 Japanese names
      (`Params.ReverseKeys`). */
  function Labels(): seq<string> {
    Params.EmotionMapReverse().keys
  }

  /** `{e: float(raw.get(e, 0)) for e in emotion_map_reverse.keys()}`;
      `None` where a `float()` raises. */
  function NormalizeCompositionVector(raw: Dict<string, Value>, floatOf: string -> Option<real>): (r: Option<Vector>)
    ensures r.Some? <==> AllConvert(raw, Labels(), floatOf)
    ensures r.Some? ==> r.value.keys == Labels()
    ensures r.Some? ==> forall i | 0 <= i < |Labels()| ::
      Labels()[i] in r.value.vals && Some(r.value.vals[Labels()[i]]) == LabelValue(raw, Labels()[i], floatOf)
  {
    Params.ReverseValid();
    var labels := Labels();
    if AllConvert(raw, labels, floatOf) then
      Some(FromKeys(labels, (e: string) => LabelValue(raw, e, floatOf).GetOr(0.0)))
    else None
  }

  // ---------------------------------------------------------------------
  // _apply_time_decay

  /** `0.5 ** (dt / max(1.0, hl))`, with the power supplied as `halfPow`. */
  function DecayFactor(k: string, dt: real, halfPow: real -> real): real {
    halfPow(dt / Max(1.0, HalfLife(k)))
  }

  /** `max(0.0, fv * 0.5 ** (dt / max(1.0, hl)))` */
  function Decayed(k: string, x: real, dt: real, halfPow: real -> real): real {
    Max(0.0, DecayFactor(k, dt, halfPow) * x)
  }

  /** The first `n` entries of `vec` whose value `float()` accepts, each
      scaled by its factor and clamped at 0. */
  function DecayUpTo(vec: Dict<string, Value>, n: nat, dt: real, halfPow: real -> real,
                     floatOf: string -> Option<real>): Dict<string, Value>
    requires n <= |vec.keys|
  {
    if n == 0 then Empty()
    else
      var prior := DecayUpTo(vec, n - 1, dt, halfPow, floatOf);
      var k := vec.keys[n - 1];
      var x := ToFloat(GetOr(vec, k, Null), floatOf);
      if x.None? then prior else Put(prior, k, Float(Decayed(k, x.value, dt, halfPow)))
  }

  function TimeDecay(vec: Dict<string, Value>, dt: real, halfPow: real -> real,
                     floatOf: string -> Option<real>): Dict<string, Value>
    requires Valid(vec)
  {
    if dt <= 0.0 then vec
    else DecayUpTo(vec, |vec.keys|, dt, halfPow, floatOf)
  }

  /** `_apply_time_decay` */
  method ApplyTimeDecay(vec: Dict<string, Value>, dt: real, halfPow: real -> real,
                        floatOf: string -> Option<real>) returns (out: Dict<string, Value>)
    requires Valid(vec)
    ensures out == TimeDecay(vec, dt, halfPow, floatOf)
  {
    if dt <= 0.0 {
      return vec;
    }
    out := Empty();
    for i := 0 to |vec.keys|
      invariant out == DecayUpTo(vec, i, dt, halfPow, floatOf)
    {
      var k := vec.keys[i];
      var v := ToFloat(vec.vals[k], floatOf);
      DecayStep(vec, i + 1, dt, halfPow, floatOf);
      if v.Some? {
        out := Put(out, k, Float(Decayed(k, v.value, dt, halfPow)));
      }
    }
  }

  lemma DecayStep(vec: Dict<string, Value>, n: nat, dt: real, halfPow: real -> real, floatOf: string -> Option<real>)
    requires 0 < n <= |vec.keys| && Valid(vec)
    ensures vec.keys[n - 1] in vec.vals
    ensures ToFloat(vec.vals[vec.keys[n - 1]], floatOf).None? ==>
      DecayUpTo(vec, n, dt, halfPow, floatOf) == DecayUpTo(vec, n - 1, dt, halfPow, floatOf)
    ensures ToFloat(vec.vals[vec.keys[n - 1]], floatOf).Some? ==>
      DecayUpTo(vec, n, dt, halfPow, floatOf) == Put(DecayUpTo(vec, n - 1, dt, halfPow, floatOf), vec.keys[n - 1],
        Float(Decayed(vec.keys[n - 1], ToFloat(vec.vals[vec.keys[n - 1]], floatOf).value, dt, halfPow)))
  {
  }

  /** A power of one half at a positive exponent lies in (0, 1]. */
  ghost predicate HalfPowInRange(halfPow: real -> real) {
    forall x :: x > 0.0 ==> 0.0 < halfPow(x) <= 1.0
  }

  lemma DecayFactorInRange(k: string, dt: real, halfPow: real -> real)
    requires dt > 0.0 && HalfPowInRange(halfPow)
    ensures 0.0 < DecayFactor(k, dt, halfPow) <= 1.0
  {
    var hl := Max(1.0, HalfLife(k));
    assert dt / hl > 0.0;
  }

  /** A decayed value is never negative, and never exceeds a
      non-negative original. */
  lemma DecayedInRange(k: string, x: real, dt: real, halfPow: real -> real)
    requires dt > 0.0 && HalfPowInRange(halfPow)
    ensures 0.0 <= Decayed(k, x, dt, halfPow)
    ensures x >= 0.0 ==> Decayed(k, x, dt, halfPow) <= x
  {
    DecayFactorInRange(k, dt, halfPow);
    if x >= 0.0 {
      ScaleBetween(DecayFactor(k, dt, halfPow), x);
    }
  }

  lemma {:induction false} DecayUpToKeys(vec: Dict<string, Value>, n: nat, dt: real, halfPow: real -> real,
                                         floatOf: string -> Option<real>)
    requires n <= |vec.keys| && Distinct(vec.keys)
    ensures Valid(DecayUpTo(vec, n, dt, halfPow, floatOf))
    ensures forall k :: k in DecayUpTo(vec, n, dt, halfPow, floatOf).vals <==>
      (k in vec.keys[..n] && ToFloat(GetOr(vec, k, Null), floatOf).Some?)
  {
    if n > 0 {
      var prior := DecayUpTo(vec, n - 1, dt, halfPow, floatOf);
      var r := DecayUpTo(vec, n, dt, halfPow, floatOf);
      var k := vec.keys[n - 1];
      var x := ToFloat(GetOr(vec, k, Null), floatOf);
      assert Valid(prior) && forall j :: j in prior.vals <==> (j in vec.keys[..n - 1] && ToFloat(GetOr(vec, j, Null), floatOf).Some?) by {
        DecayUpToKeys(vec, n - 1, dt, halfPow, floatOf);
      }
      assert forall j :: j in vec.keys[..n] <==> j in vec.keys[..n - 1] || j == k by {
        assert vec.keys[..n] == vec.keys[..n - 1] + [k];
      }
      if x.Some? {
        var y := Float(Decayed(k, x.value, dt, halfPow));
        assert r == Put(prior, k, y);
        assert k !in prior.keys by {
          assert forall i | 0 <= i < n - 1 :: vec.keys[i] != k;
          assert k !in vec.keys[..n - 1];
        }
        PutNew(prior, k, y);
        PutValid(prior, k, y);
      } else {
        assert r == prior;
      }
    }
  }

  /** The first `n` keys of `vec` whose value `float()` accepts, in order. */
  function NumericKeys(vec: Dict<string, Value>, n: nat, floatOf: string -> Option<real>): seq<string>
    requires n <= |vec.keys|
  {
    if n == 0 then []
    else
      var k := vec.keys[n - 1];
      NumericKeys(vec, n - 1, floatOf) + (if ToFloat(GetOr(vec, k, Null), floatOf).Some? then [k] else [])
  }

  /** Decaying keeps the surviving keys in the order of the input. */
  lemma {:induction false} DecayUpToOrder(vec: Dict<string, Value>, n: nat, dt: real, halfPow: real -> real,
                                          floatOf: string -> Option<real>)
    requires n <= |vec.keys| && Distinct(vec.keys)
    ensures DecayUpTo(vec, n, dt, halfPow, floatOf).keys == NumericKeys(vec, n, floatOf)
  {
    if n > 0 {
      var prior := DecayUpTo(vec, n - 1, dt, halfPow, floatOf);
      var k := vec.keys[n - 1];
      DecayUpToOrder(vec, n - 1, dt, halfPow, floatOf);
      var x := ToFloat(GetOr(vec, k, Null), floatOf);
      if x.Some? {
        DecayUpToKeys(vec, n - 1, dt, halfPow, floatOf);
        assert k !in prior.vals by {
          assert forall i | 0 <= i < n - 1 :: vec.keys[i] != k;
          assert k !in vec.keys[..n - 1];
        }
      }
    }
  }

  lemma {:induction false} DecayUpToAt(vec: Dict<string, Value>, n: nat, dt: real, halfPow: real -> real,
                                       floatOf: string -> Option<real>, k: string)
    requires n <= |vec.keys| && Valid(vec)
    requires dt > 0.0 && HalfPowInRange(halfPow)
    requires k in DecayUpTo(vec, n, dt, halfPow, floatOf).vals
    ensures k in vec.vals && ToFloat(vec.vals[k], floatOf).Some?
    ensures DecayUpTo(vec, n, dt, halfPow, floatOf).vals[k].Float?
    ensures 0.0 <= DecayUpTo(vec, n, dt, halfPow, floatOf).vals[k].x
    ensures ToFloat(vec.vals[k], floatOf).value >= 0.0 ==>
      DecayUpTo(vec, n, dt, halfPow, floatOf).vals[k].x <= ToFloat(vec.vals[k], floatOf).value
  {
    var last := vec.keys[n - 1];
    var v := ToFloat(vec.vals[last], floatOf);
    if k == last && v.Some? {
      DecayedInRange(k, v.value, dt, halfPow);
    } else {
      DecayUpToAt(vec, n - 1, dt, halfPow, floatOf, k);
    }
  }

  /** An empty or negative elapsed time leaves the vector as it is.  Any
      other drops the values `float()` rejects, keeps the rest in their
      order, and scales each remaining
      value by a factor in (0, 1], clamped at 0, so a non-negative value
      never grows. */
  lemma TimeDecaySpec(vec: Dict<string, Value>, dt: real, halfPow: real -> real, floatOf: string -> Option<real>)
    requires Valid(vec) && HalfPowInRange(halfPow)
    ensures Valid(TimeDecay(vec, dt, halfPow, floatOf))
    ensures dt <= 0.0 ==> TimeDecay(vec, dt, halfPow, floatOf) == vec
    ensures dt > 0.0 ==> forall k :: k in TimeDecay(vec, dt, halfPow, floatOf).vals <==>
      (k in vec.vals && ToFloat(vec.vals[k], floatOf).Some?)
    ensures dt > 0.0 ==> forall k | k in TimeDecay(vec, dt, halfPow, floatOf).vals ::
      var out := TimeDecay(vec, dt, halfPow, floatOf).vals[k];
      var x := ToFloat(vec.vals[k], floatOf).value;
      out.Float? && 0.0 <= out.x && (x >= 0.0 ==> out.x <= x)
    ensures dt > 0.0 ==> TimeDecay(vec, dt, halfPow, floatOf).keys == NumericKeys(vec, |vec.keys|, floatOf)
  {
    if dt > 0.0 {
      DecayUpToOrder(vec, |vec.keys|, dt, halfPow, floatOf);
      var factor := k => DecayFactor(k, dt, halfPow);
      forall k
        ensures 0.0 < DecayFactor(k, dt, halfPow) <= 1.0
      {
        DecayFactorInRange(k, dt, halfPow);
      }
      DecayUpToKeys(vec, |vec.keys|, dt, halfPow, floatOf);
      assert vec.keys[..|vec.keys|] == vec.keys;
      assert forall k | k in vec.vals :: GetOr(vec, k, Null) == vec.vals[k];
      forall k | k in DecayUpTo(vec, |vec.keys|, dt, halfPow, floatOf).vals
        ensures var out := DecayUpTo(vec, |vec.keys|, dt, halfPow, floatOf).vals[k];
          var x := ToFloat(vec.vals[k], floatOf).value;
          out.Float? && 0.0 <= out.x && (x >= 0.0 ==> out.x <= x)
      {
        DecayUpToAt(vec, |vec.keys|, dt, halfPow, floatOf, k);
      }
    }
  }

  // ---------------------------------------------------------------------
  // _bounded_delta and _adaptive_alpha

  /** `_bounded_delta`: move from `prev` toward `target`, by at most 25 up
      and 20 down. */
  function BoundedDelta(prev: real, target: real): (r: real)
    ensures Min(prev, target) <= r <= Max(prev, target)
    ensures prev - MaxDeltaDown <= r <= prev + MaxDeltaUp
    ensures -MaxDeltaDown <= target - prev <= MaxDeltaUp ==> r == target
  {
    var delta := target - prev;
    if delta >= 0.0 then prev + Min(delta, MaxDeltaUp)
    else prev + Max(delta, -MaxDeltaDown)
  }

  /** The sum over `HIGH_AROUSAL` of `new_vec.get(e, 0.0)`. */
  function ArousalSum(newVec: Vector): real {
    GetOr(newVec, "怒り", 0.0) + GetOr(newVec, "驚き", 0.0) + GetOr(newVec, "恐れ", 0.0)
  }

  /** `_adaptive_alpha` */
  function AdaptiveAlpha(newVec: Vector): (alpha: real)
    ensures AlphaMin <= alpha <= AlphaMax
  {
    var arousal := Max(0.0, Min(100.0, ArousalSum(newVec))) / 100.0;
    AlphaMin + (AlphaMax - AlphaMin) * arousal
  }

  /** More high-arousal weight never slows the blend down. */
  lemma AlphaMonotone(v1: Vector, v2: Vector)
    requires ArousalSum(v1) <= ArousalSum(v2)
    ensures AdaptiveAlpha(v1) <= AdaptiveAlpha(v2)
  {
  }

  // ---------------------------------------------------------------------
  // _cross_inhibit

  /** `max(0.0, v * (1.0 - coeff * s / 100.0))` */
  function Inhibited(v: real, coeff: real, s: real): real {
    Max(0.0, v * (1.0 - coeff * s / 100.0))
  }

  /** A positive source and a non-negative coefficient never raise a
      non-negative sink, nor push it below 0. */
  lemma InhibitedRange(v: real, coeff: real, s: real)
    requires v >= 0.0 && coeff >= 0.0 && s > 0.0
    ensures 0.0 <= Inhibited(v, coeff, s) <= v
    ensures v == 0.0 ==> Inhibited(v, coeff, s) == 0.0
  {
    var f := 1.0 - coeff * s / 100.0;
    assert coeff * s >= 0.0;
    if f >= 0.0 {
      ScaleBetween(f, v);
      assert v * f == f * v;
    } else {
      assert v * f <= 0.0;
    }
  }

  /** The sinks of one source with their coefficients, in table order. */
  type Sinks<K> = seq<(K, real)>

  /** The targets a list of sinks names. */
  function Targets<K>(sinks: Sinks<K>): set<K> {
    if sinks == [] then {} else {sinks[0].0} + Targets(sinks[1..])
  }

  /** Every key some source of the table inhibits. */
  function SinksOf<K>(table: seq<(K, Sinks<K>)>): set<K> {
    if table == [] then {} else Targets(table[0].1) + SinksOf(table[1..])
  }

  predicate CoefficientsNonNeg<K>(table: seq<(K, Sinks<K>)>) {
    forall i, j | 0 <= i < |table| && 0 <= j < |table[i].1| :: table[i].1[j].1 >= 0.0
  }

  /** The inner loop: `out[tgt] = max(0.0, out.get(tgt, 0.0) * (1.0 - coeff * s_val / 100.0))`
      for each sink in order. */
  function InhibitSinks<K(==)>(out: Dict<K, real>, s: real, sinks: Sinks<K>): Dict<K, real>
    decreases |sinks|
  {
    if sinks == [] then out
    else InhibitSinks(Put(out, sinks[0].0, Inhibited(GetOr(out, sinks[0].0, 0.0), sinks[0].1, s)), s, sinks[1..])
  }

  /** The outer loop over the sources, each reading `out` as the sources
      before it left it. */
  function InhibitFrom<K(==)>(out: Dict<K, real>, table: seq<(K, Sinks<K>)>): Dict<K, real>
    decreases |table|
  {
    if table == [] then out
    else
      var s := GetOr(out, table[0].0, 0.0);
      InhibitFrom(if s <= 0.0 then out else InhibitSinks(out, s, table[0].1), table[1..])
  }

  /** `_cross_inhibit` over `CROSS_INHIBIT`. */
  function CrossInhibit(vec: Vector): Vector {
    InhibitFrom(vec, CrossInhibitTable)
  }

  /** `_cross_inhibit`, with the table as a parameter: `out` starts as a
      copy of `vec` and is updated in place. */
  method InhibitWith<K(==)>(vec: Dict<K, real>, table: seq<(K, Sinks<K>)>) returns (out: Dict<K, real>)
    ensures out == InhibitFrom(vec, table)
  {
    out := vec;
    for i := 0 to |table|
      invariant InhibitFrom(out, table[i..]) == InhibitFrom(vec, table)
    {
      assert table[i..][1..] == table[i + 1..];
      var src := table[i].0;
      var sinks := table[i].1;
      var sVal := GetOr(out, src, 0.0);
      if sVal > 0.0 {
        ghost var before := out;
        for j := 0 to |sinks|
          invariant InhibitSinks(out, sVal, sinks[j..]) == InhibitSinks(before, sVal, sinks)
        {
          assert sinks[j..][1..] == sinks[j + 1..];
          var tgt := sinks[j].0;
          var coeff := sinks[j].1;
          out := Put(out, tgt, Inhibited(GetOr(out, tgt, 0.0), coeff, sVal));
        }
      }
    }
  }

  /** One source's pass, seen from a single key `k`: a key it does not name
      keeps its value; a non-negative value never grows nor turns negative;
      a key that was missing can only appear as a target, with value 0. */
  lemma {:induction false} InhibitSinksAt<K>(out: Dict<K, real>, s: real, sinks: Sinks<K>, k: K)
    requires s > 0.0
    requires forall j | 0 <= j < |sinks| :: sinks[j].1 >= 0.0
    ensures k !in Targets(sinks) ==> (k in InhibitSinks(out, s, sinks).vals <==> k in out.vals)
    ensures k !in Targets(sinks) && k in out.vals ==> InhibitSinks(out, s, sinks).vals[k] == out.vals[k]
    ensures k in out.vals && out.vals[k] >= 0.0 ==>
      k in InhibitSinks(out, s, sinks).vals && 0.0 <= InhibitSinks(out, s, sinks).vals[k] <= out.vals[k]
    ensures k !in out.vals && k in InhibitSinks(out, s, sinks).vals ==>
      k in Targets(sinks) && InhibitSinks(out, s, sinks).vals[k] == 0.0
    decreases |sinks|
  {
    if sinks != [] {
      var tgt := sinks[0].0;
      var next := Put(out, tgt, Inhibited(GetOr(out, tgt, 0.0), sinks[0].1, s));
      InhibitSinksAt(next, s, sinks[1..], k);
      if k == tgt && (k !in out.vals || out.vals[k] >= 0.0) {
        InhibitedRange(GetOr(out, tgt, 0.0), sinks[0].1, s);
      }
    }
  }

  /** The whole table, seen from a single key `k`. */
  lemma {:induction false} InhibitFromAt<K>(out: Dict<K, real>, table: seq<(K, Sinks<K>)>, k: K)
    requires CoefficientsNonNeg(table)
    ensures k !in SinksOf(table) ==> (k in InhibitFrom(out, table).vals <==> k in out.vals)
    ensures k !in SinksOf(table) && k in out.vals ==> InhibitFrom(out, table).vals[k] == out.vals[k]
    ensures k in out.vals && out.vals[k] >= 0.0 ==>
      k in InhibitFrom(out, table).vals && 0.0 <= InhibitFrom(out, table).vals[k] <= out.vals[k]
    ensures k !in out.vals && k in InhibitFrom(out, table).vals ==>
      k in SinksOf(table) && InhibitFrom(out, table).vals[k] == 0.0
    decreases |table|
  {
    if table != [] {
      var sVal := GetOr(out, table[0].0, 0.0);
      var next := if sVal <= 0.0 then out else InhibitSinks(out, sVal, table[0].1);
      assert CoefficientsNonNeg(table[1..]) by {
        forall i, j | 0 <= i < |table[1..]| && 0 <= j < |table[1..][i].1|
          ensures table[1..][i].1[j].1 >= 0.0
        {
          assert table[1..][i] == table[i + 1];
        }
      }
      InhibitFromAt(next, table[1..], k);
      if sVal > 0.0 {
        assert forall j | 0 <= j < |table[0].1| :: table[0].1[j].1 >= 0.0;
        InhibitSinksAt(out, sVal, table[0].1, k);
      }
    }
  }

  /** A key the table adds was named by some source `i` whose value was
      positive when its turn came, that is, in the state the first `i`
      sources left (an earlier suppression may have changed it). */
  lemma {:induction false} InhibitFromAdds<K>(out: Dict<K, real>, table: seq<(K, Sinks<K>)>, k: K)
    requires CoefficientsNonNeg(table)
    requires k !in out.vals && k in InhibitFrom(out, table).vals
    ensures exists i | 0 <= i < |table| ::
      k in Targets(table[i].1) && GetOr(InhibitFrom(out, table[..i]), table[i].0, 0.0) > 0.0
    decreases |table|
  {
    var sVal := GetOr(out, table[0].0, 0.0);
    var next := if sVal <= 0.0 then out else InhibitSinks(out, sVal, table[0].1);
    assert table[..0] == [];
    if k in next.vals {
      assert forall j | 0 <= j < |table[0].1| :: table[0].1[j].1 >= 0.0;
      InhibitSinksAt(out, sVal, table[0].1, k);
      assert k in Targets(table[0].1) && GetOr(InhibitFrom(out, table[..0]), table[0].0, 0.0) > 0.0;
    } else {
      assert CoefficientsNonNeg(table[1..]) by {
        forall i, j | 0 <= i < |table[1..]| && 0 <= j < |table[1..][i].1|
          ensures table[1..][i].1[j].1 >= 0.0
        {
          assert table[1..][i] == table[i + 1];
        }
      }
      InhibitFromAdds(next, table[1..], k);
      var i :| 0 <= i < |table[1..]| && k in Targets(table[1..][i].1)
               && GetOr(InhibitFrom(next, table[1..][..i]), table[1..][i].0, 0.0) > 0.0;
      assert table[..i + 1][0] == table[0];
      assert table[..i + 1][1..] == table[1..][..i];
      assert InhibitFrom(out, table[..i + 1]) == InhibitFrom(next, table[1..][..i]);
      assert table[i + 1] == table[1..][i];
    }
  }

  /** Assigning keeps a dict valid along each pass. */
  lemma {:induction false} InhibitSinksValid<K>(out: Dict<K, real>, s: real, sinks: Sinks<K>)
    requires Valid(out)
    ensures Valid(InhibitSinks(out, s, sinks))
    ensures out.keys <= InhibitSinks(out, s, sinks).keys
    decreases |sinks|
  {
    if sinks != [] {
      var next := Put(out, sinks[0].0, Inhibited(GetOr(out, sinks[0].0, 0.0), sinks[0].1, s));
      PutValid(out, sinks[0].0, Inhibited(GetOr(out, sinks[0].0, 0.0), sinks[0].1, s));
      InhibitSinksValid(next, s, sinks[1..]);
    }
  }

  lemma {:induction false} InhibitFromValid<K>(out: Dict<K, real>, table: seq<(K, Sinks<K>)>)
    requires Valid(out)
    ensures Valid(InhibitFrom(out, table))
    ensures out.keys <= InhibitFrom(out, table).keys
    decreases |table|
  {
    if table != [] {
      var sVal := GetOr(out, table[0].0, 0.0);
      var next := if sVal <= 0.0 then out else InhibitSinks(out, sVal, table[0].1);
      if sVal > 0.0 {
        InhibitSinksValid(out, sVal, table[0].1);
      }
      InhibitFromValid(next, table[1..]);
    }
  }

  /** When no source is positive nothing is inhibited. */
  lemma {:induction false} InhibitIdle<K>(out: Dict<K, real>, table: seq<(K, Sinks<K>)>)
    requires forall i | 0 <= i < |table| :: GetOr(out, table[i].0, 0.0) <= 0.0
    ensures InhibitFrom(out, table) == out
    decreases |table|
  {
    if table != [] {
      assert forall i | 0 <= i < |table[1..]| :: table[1..][i] == table[i + 1];
      InhibitIdle(out, table[1..]);
    }
  }

  lemma CrossInhibitCoefficients()
    ensures CoefficientsNonNeg(CrossInhibitTable)
  {
  }

  /** `_cross_inhibit` keeps the vector valid with its keys first, keeps
      every non-negative value in [0, its old value], leaves keys no
      source inhibits as they were, adds only sink keys and only with
      value 0, each named by a source that was positive at its turn, and
      changes nothing while no source is positive. */
  lemma InhibitSpec<K>(vec: Dict<K, real>, table: seq<(K, Sinks<K>)>)
    requires Valid(vec) && CoefficientsNonNeg(table)
    ensures Valid(InhibitFrom(vec, table)) && vec.keys <= InhibitFrom(vec, table).keys
    ensures forall k | k in vec.vals && vec.vals[k] >= 0.0 ::
      k in InhibitFrom(vec, table).vals && 0.0 <= InhibitFrom(vec, table).vals[k] <= vec.vals[k]
    ensures forall k | k !in SinksOf(table) ::
      (k in InhibitFrom(vec, table).vals <==> k in vec.vals) &&
      (k in vec.vals ==> InhibitFrom(vec, table).vals[k] == vec.vals[k])
    ensures forall k | k in InhibitFrom(vec, table).vals && k !in vec.vals ::
      k in SinksOf(table) && InhibitFrom(vec, table).vals[k] == 0.0
    ensures forall k | k in InhibitFrom(vec, table).vals && k !in vec.vals ::
      exists i | 0 <= i < |table| ::
        k in Targets(table[i].1) && GetOr(InhibitFrom(vec, table[..i]), table[i].0, 0.0) > 0.0
    ensures (forall i | 0 <= i < |table| :: GetOr(vec, table[i].0, 0.0) <= 0.0) ==> InhibitFrom(vec, table) == vec
  {
    InhibitFromValid(vec, table);
    var r := InhibitFrom(vec, table);
    forall k | k in vec.vals && vec.vals[k] >= 0.0
      ensures k in r.vals && 0.0 <= r.vals[k] <= vec.vals[k]
    {
      InhibitFromAt(vec, table, k);
    }
    forall k | k !in SinksOf(table)
      ensures (k in r.vals <==> k in vec.vals) && (k in vec.vals ==> r.vals[k] == vec.vals[k])
    {
      InhibitFromAt(vec, table, k);
    }
    forall k | k in r.vals && k !in vec.vals
      ensures k in SinksOf(table) && r.vals[k] == 0.0
      ensures exists i | 0 <= i < |table| ::
        k in Targets(table[i].1) && GetOr(InhibitFrom(vec, table[..i]), table[i].0, 0.0) > 0.0
    {
      InhibitFromAt(vec, table, k);
      InhibitFromAdds(vec, table, k);
    }
    if forall i | 0 <= i < |table| :: GetOr(vec, table[i].0, 0.0) <= 0.0 {
      InhibitIdle(vec, table);
    }
  }

  // ---------------------------------------------------------------------
  // _homeostasis_pull

  /** `v + (mean - v) * HOMEOSTASIS_STRENGTH`, set to 0 when negative. */
  function Pull(v: real, mean: real): real {
    var o := v + (mean - v) * HomeostasisStrength;
    if o < 0.0 then 0.0 else o
  }

  /** `sum(vec.values()) / len(vec)` */
  function Mean<K(==)>(vec: Dict<K, real>): real
    requires |vec.keys| > 0
  {
    Sum(vec) / |vec.keys| as real
  }

  /** The loop of `_homeostasis_pull` over the first `n` keys. */
  function PullUpTo<K(==)>(vec: Dict<K, real>, n: nat, mean: real): Dict<K, real>
    requires n <= |vec.keys|
  {
    if n == 0 then Empty()
    else Put(PullUpTo(vec, n - 1, mean), vec.keys[n - 1], PulledAt(vec, vec.keys[n - 1], mean))
  }

  /** The new value of key `k`. */
  function PulledAt<K(==)>(vec: Dict<K, real>, k: K, mean: real): real {
    Pull(GetOr(vec, k, 0.0), mean)
  }

  function Homeostasis<K(==)>(vec: Dict<K, real>): Dict<K, real> {
    if |vec.keys| == 0 then vec else PullUpTo(vec, |vec.keys|, Mean(vec))
  }

  /** `_homeostasis_pull` */
  method HomeostasisPull<K(==)>(vec: Dict<K, real>) returns (out: Dict<K, real>)
    ensures out == Homeostasis(vec)
  {
    if |vec.keys| == 0 {
      return vec;
    }
    var mean := Sum(vec) / |vec.keys| as real;
    out := Empty();
    for i := 0 to |vec.keys|
      invariant out == PullUpTo(vec, i, mean)
    {
      var k := vec.keys[i];
      out := Put(out, k, PulledAt(vec, k, mean));
    }
  }

  lemma {:induction false} PullAsBuild<K>(vec: Dict<K, real>, n: nat, mean: real, f: K -> real)
    requires n <= |vec.keys|
    requires forall k :: f(k) == PulledAt(vec, k, mean)
    ensures PullUpTo(vec, n, mean) == BuildUpTo(vec.keys, n, f)
  {
    if n > 0 {
      PullAsBuild(vec, n - 1, mean, f);
    }
  }

  lemma PullUpToSpec<K>(vec: Dict<K, real>, n: nat, mean: real)
    requires Valid(vec) && n <= |vec.keys|
    ensures Valid(PullUpTo(vec, n, mean)) && PullUpTo(vec, n, mean).keys == vec.keys[..n]
    ensures forall i | 0 <= i < n ::
      vec.keys[i] in PullUpTo(vec, n, mean).vals && PullUpTo(vec, n, mean).vals[vec.keys[i]] == PulledAt(vec, vec.keys[i], mean)
  {
    var f := k => PulledAt(vec, k, mean);
    PullAsBuild(vec, n, mean, f);
    BuildSpec(vec.keys, n, f);
  }

  /** Moving every value 2% toward `m` moves the total by 2% of the
      difference between `m` times the count and the total. */
  lemma {:induction false} SumPulled(s: seq<real>, t: seq<real>, m: real)
    requires |s| == |t|
    requires forall i | 0 <= i < |s| :: t[i] == s[i] + (m - s[i]) * HomeostasisStrength
    ensures SumSeq(t) == SumSeq(s) + (m * |s| as real - SumSeq(s)) * HomeostasisStrength
    decreases |s|
  {
    if s != [] {
      var n := |s|;
      SumPulled(s[..n - 1], t[..n - 1], m);
      assert m * n as real == m * (n - 1) as real + m;
    }
  }

  /** Pulling toward the mean itself keeps the total. */
  lemma SumPulledToMean(s: seq<real>, t: seq<real>, m: real)
    requires |s| == |t| && m * |s| as real == SumSeq(s)
    requires forall i | 0 <= i < |s| :: t[i] == s[i] + (m - s[i]) * HomeostasisStrength
    ensures SumSeq(t) == SumSeq(s)
  {
    SumPulled(s, t, m);
    var d := m * |s| as real - SumSeq(s);
    assert d == 0.0;
    assert d * HomeostasisStrength == 0.0;
  }

  predicate NonNegative<K>(vec: Dict<K, real>) {
    forall k | k in vec.vals :: vec.vals[k] >= 0.0
  }

  /** Pulling a non-negative value toward a non-negative mean never
      clamps. */
  lemma PullUnclamped(v: real, mean: real)
    requires v >= 0.0 && mean >= 0.0
    ensures Pull(v, mean) == v + (mean - v) * HomeostasisStrength
    ensures Pull(v, mean) - mean == (v - mean) * (1.0 - HomeostasisStrength)
  {
  }

  lemma MeanNonNeg<K>(vec: Dict<K, real>)
    requires Valid(vec) && NonNegative(vec) && |vec.keys| > 0
    ensures Mean(vec) >= 0.0
  {
    var s := RealValues(vec);
    assert forall i | 0 <= i < |s| :: s[i] == vec.vals[vec.keys[i]];
    SumSeqNonNeg(s);
  }

  /** `_homeostasis_pull` leaves an empty vector alone and otherwise keeps
      the keys in order. */
  lemma HomeostasisShape<K>(vec: Dict<K, real>)
    requires Valid(vec)
    ensures |vec.keys| == 0 ==> Homeostasis(vec) == vec
    ensures Valid(Homeostasis(vec)) && Homeostasis(vec).keys == vec.keys
    ensures Homeostasis(vec).vals.Keys == vec.vals.Keys
  {
    var n := |vec.keys|;
    if n > 0 {
      PullUpToSpec(vec, n, Mean(vec));
      assert vec.keys[..n] == vec.keys;
    }
  }

  /** On a non-negative vector every value moves 2% of the way to the
      mean. */
  lemma HomeostasisToward<K>(vec: Dict<K, real>)
    requires Valid(vec) && NonNegative(vec) && |vec.keys| > 0
    ensures forall k | k in vec.vals ::
      (k in Homeostasis(vec).vals && Homeostasis(vec).vals[k] - Mean(vec) == (vec.vals[k] - Mean(vec)) * (1.0 - HomeostasisStrength))
  {
    var n := |vec.keys|;
    var m := Mean(vec);
    MeanNonNeg(vec);
    PullUpToSpec(vec, n, m);
    forall k | k in vec.vals
      ensures k in Homeostasis(vec).vals && Homeostasis(vec).vals[k] - m == (vec.vals[k] - m) * (1.0 - HomeostasisStrength)
    {
      var i :| 0 <= i < n && vec.keys[i] == k;
      PullUnclamped(vec.vals[k], m);
    }
  }

  lemma MeanTimesCount<K>(vec: Dict<K, real>)
    requires |vec.keys| > 0
    ensures Mean(vec) * |vec.keys| as real == Sum(vec)
  {
  }

  /** The pulled values, in key order, of a non-negative vector. */
  lemma PulledValues<K>(vec: Dict<K, real>)
    requires Valid(vec) && NonNegative(vec) && |vec.keys| > 0
    ensures |RealValues(Homeostasis(vec))| == |RealValues(vec)|
    ensures forall i | 0 <= i < |vec.keys| ::
      RealValues(Homeostasis(vec))[i] == RealValues(vec)[i] + (Mean(vec) - RealValues(vec)[i]) * HomeostasisStrength
  {
    var n := |vec.keys|;
    var mean := Mean(vec);
    MeanNonNeg(vec);
    PullUpToSpec(vec, n, mean);
    var s := RealValues(vec);
    var t := RealValues(Homeostasis(vec));
    forall i | 0 <= i < n ensures t[i] == s[i] + (mean - s[i]) * HomeostasisStrength {
      var k := vec.keys[i];
      assert s[i] == vec.vals[k];
      assert t[i] == PulledAt(vec, k, mean);
      PullUnclamped(s[i], mean);
    }
  }

  /** On a non-negative vector the pull keeps the total exactly. */
  lemma HomeostasisTotal<K>(vec: Dict<K, real>)
    requires Valid(vec) && NonNegative(vec)
    ensures Sum(Homeostasis(vec)) == Sum(vec)
  {
    if |vec.keys| > 0 {
      var s, t, m := RealValues(vec), RealValues(Homeostasis(vec)), Mean(vec);
      MeanTimesCount(vec);
      assert m * |s| as real == SumSeq(s);
      PulledValues(vec);
      SumPulledToMean(s, t, m);
      assert SumSeq(t) == SumSeq(s);
    }
  }

  // ---------------------------------------------------------------------
  // _normalize

  /** `max(0.0, float(v))` for every value */
  function Positives<K>(vec: Dict<K, real>): Dict<K, real> {
    MapValues(vec, (v: real) => Max(0.0, v))
  }

  /** `sum(max(0.0, float(v)) for v in vec.values())` */
  function PositiveTotal<K(==)>(vec: Dict<K, real>): real {
    Sum(Positives(vec))
  }

  /** `100.0 * max(0.0, float(v)) / total` */
  function Share(v: real, total: real): real
    requires total > 0.0
  {
    100.0 * Max(0.0, v) / total
  }

  /** Every value as its share of `total`. */
  function Shares<K>(vec: Dict<K, real>, total: real): Dict<K, real>
    requires total > 0.0
  {
    MapValues(vec, (v: real) => Share(v, total))
  }

  /** The shares before rounding. */
  function NormalizeRaw<K(==)>(vec: Dict<K, real>): Dict<K, real> {
    var total := PositiveTotal(vec);
    if total <= 0.0 then MapValues(vec, (v: real) => 0.0) else Shares(vec, total)
  }

  /** `_normalize` */
  function Normalize<K(==)>(vec: Dict<K, real>): Dict<K, real> {
    var total := PositiveTotal(vec);
    if total <= 0.0 then MapValues(vec, (v: real) => 0.0)
    else MapValues(vec, (v: real) => RoundPlaces(Share(v, total), 2))
  }

  lemma {:induction false} SumScaled(s: seq<real>, t: seq<real>, c: real)
    requires |s| == |t|
    requires forall i | 0 <= i < |s| :: t[i] == c * s[i]
    ensures SumSeq(t) == c * SumSeq(s)
    decreases |s|
  {
    if s != [] {
      var n := |s|;
      SumScaled(s[..n - 1], t[..n - 1], c);
      assert c * SumSeq(s) == c * SumSeq(s[..n - 1]) + c * s[n - 1];
    }
  }

  lemma {:induction false} ElemAtMostSum(s: seq<real>, i: nat)
    requires i < |s|
    requires forall j | 0 <= j < |s| :: s[j] >= 0.0
    ensures s[i] <= SumSeq(s)
    decreases |s|
  {
    var n := |s|;
    SumSeqNonNeg(s[..n - 1]);
    if i < n - 1 {
      ElemAtMostSum(s[..n - 1], i);
    }
  }

  lemma ShareScaled(v: real, total: real)
    requires total > 0.0
    ensures Share(v, total) == (100.0 / total) * Max(0.0, v)
  {
  }

  lemma ShareRange(v: real, total: real)
    requires total > 0.0 && Max(0.0, v) <= total
    ensures 0.0 <= Share(v, total) <= 100.0
  {
    var p := Max(0.0, v);
    assert 100.0 * p <= 100.0 * total;
    assert 100.0 * p / total <= 100.0 * total / total;
  }

  lemma PositivesSpec<K>(vec: Dict<K, real>)
    requires Valid(vec)
    ensures |RealValues(Positives(vec))| == |vec.keys|
    ensures forall i | 0 <= i < |vec.keys| ::
      RealValues(Positives(vec))[i] == Max(0.0, vec.vals[vec.keys[i]]) && RealValues(Positives(vec))[i] >= 0.0
    ensures PositiveTotal(vec) == SumSeq(RealValues(Positives(vec)))
  {
  }

  /** Each positive part is at most the positive total. */
  lemma PositiveAtMostTotal<K>(vec: Dict<K, real>, k: K)
    requires Valid(vec) && k in vec.vals
    ensures 0.0 <= Max(0.0, vec.vals[k]) <= PositiveTotal(vec)
  {
    PositivesSpec(vec);
    var i :| 0 <= i < |vec.keys| && vec.keys[i] == k;
    ElemAtMostSum(RealValues(Positives(vec)), i);
  }

  /** `_normalize` keeps the keys, and a vector with no positive value
      normalizes to all zeros. */
  lemma NormalizeShape<K>(vec: Dict<K, real>)
    requires Valid(vec)
    ensures Valid(Normalize(vec)) && Normalize(vec).keys == vec.keys
    ensures Normalize(vec).vals.Keys == vec.vals.Keys
    ensures PositiveTotal(vec) <= 0.0 ==> forall k | k in vec.vals :: Normalize(vec).vals[k] == 0.0
  {
  }

  /** Otherwise each value is its share rounded to two places, and both
      the share and the rounded value lie in [0, 100]. */
  lemma NormalizeRange<K>(vec: Dict<K, real>)
    requires Valid(vec) && PositiveTotal(vec) > 0.0
    ensures forall k | k in vec.vals ::
      && 0.0 <= NormalizeRaw(vec).vals[k] <= 100.0
      && Normalize(vec).vals[k] == RoundPlaces(NormalizeRaw(vec).vals[k], 2)
      && 0.0 <= Normalize(vec).vals[k] <= 100.0
  {
    var total := PositiveTotal(vec);
    forall k | k in vec.vals
      ensures 0.0 <= NormalizeRaw(vec).vals[k] <= 100.0
      ensures Normalize(vec).vals[k] == RoundPlaces(NormalizeRaw(vec).vals[k], 2)
      ensures 0.0 <= Normalize(vec).vals[k] <= 100.0
    {
      PositiveAtMostTotal(vec, k);
      ShareRange(vec.vals[k], total);
      RoundPlacesWithin(Share(vec.vals[k], total), 2, 0, 100);
    }
  }

  /** Each share, in key order, is the positive part scaled by
      `100 / total`. */
  lemma SharesValues<K>(vec: Dict<K, real>, total: real)
    requires Valid(vec) && total > 0.0
    ensures |RealValues(Shares(vec, total))| == |RealValues(Positives(vec))|
    ensures forall i | 0 <= i < |vec.keys| ::
      RealValues(Shares(vec, total))[i] == (100.0 / total) * RealValues(Positives(vec))[i]
  {
    var s := RealValues(Positives(vec));
    var t := RealValues(Shares(vec, total));
    forall i | 0 <= i < |vec.keys| ensures t[i] == (100.0 / total) * s[i] {
      var k := vec.keys[i];
      assert t[i] == Share(vec.vals[k], total);
      assert s[i] == Max(0.0, vec.vals[k]);
      ShareScaled(vec.vals[k], total);
    }
  }

  lemma SumOfShares(s: seq<real>, t: seq<real>, total: real)
    requires |s| == |t| && total > 0.0 && SumSeq(s) == total
    requires forall i | 0 <= i < |s| :: t[i] == (100.0 / total) * s[i]
    ensures SumSeq(t) == 100.0
  {
    SumScaled(s, t, 100.0 / total);
  }

  /** The unrounded shares add up to exactly 100. */
  lemma NormalizeTotal<K>(vec: Dict<K, real>)
    requires Valid(vec) && PositiveTotal(vec) > 0.0
    ensures Sum(NormalizeRaw(vec)) == 100.0
  {
    var total := PositiveTotal(vec);
    assert NormalizeRaw(vec) == Shares(vec, total);
    SharesValues(vec, total);
    SumOfShares(RealValues(Positives(vec)), RealValues(Shares(vec, total)), total);
  }
}

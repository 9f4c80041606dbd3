/** `merge_emotion_vectors` and `summarize_feeling` of
    module/emotion/emotion_stats.py: the stages of the merge, each the fold
    of one loop of the source, the whole merge as their composition, and
    the 32-to-6 summary. */
module EmotionMerge {
  import opened Wrappers
  import opened Dicts
  import opened Values
  import opened VectorMath
  import opened EmotionStats
  import Text

  // ---------------------------------------------------------------------
  // 1) 型補正: keys are cut at the first colon, values go through float()

  /** `k.split(":", 1)[0].strip()` when `k` holds a colon, else `k`. */
  function CorrectKey(k: string): string {
    if ':' in k then Text.Strip(Text.Split(k, ':')[0]) else k
  }

  /** A corrected key holds no colon, so correcting it again keeps it. */
  lemma CorrectKeySpec(k: string)
    ensures ':' !in CorrectKey(k)
    ensures CorrectKey(CorrectKey(k)) == CorrectKey(k)
    ensures ':' !in k ==> CorrectKey(k) == k
  {
    if ':' in k {
      var piece := Text.Split(k, ':')[0];
      Text.SplitJoin(k, ':');
      assert ':' !in piece;
      Text.StripShape(piece);
      var p, q :| 0 <= p <= q <= |piece| && Text.Strip(piece) == piece[p..q];
      assert forall c | c in piece[p..q] :: c in piece;
    }
  }

  /** `float(v)` of the `i`-th entry of the new reading. */
  function Converted(incoming: Dict<string, Value>, i: nat, floatOf: string -> Option<real>): Option<real>
    requires i < |incoming.keys|
  {
    ToFloat(GetOr(incoming, incoming.keys[i], Null), floatOf)
  }

  /** The loop of step 1 over the first `n` entries: an entry `float()`
      rejects is skipped, any other is stored under its corrected key. */
  function CorrectUpTo(incoming: Dict<string, Value>, n: nat, floatOf: string -> Option<real>): Vector
    requires n <= |incoming.keys|
  {
    if n == 0 then Empty()
    else
      var prior := CorrectUpTo(incoming, n - 1, floatOf);
      var x := Converted(incoming, n - 1, floatOf);
      if x.None? then prior else Put(prior, CorrectKey(incoming.keys[n - 1]), x.value)
  }

  function CorrectNew(incoming: Dict<string, Value>, floatOf: string -> Option<real>): Vector {
    CorrectUpTo(incoming, |incoming.keys|, floatOf)
  }

  /** Step 1 of `merge_emotion_vectors`. */
  method CorrectTypes(incoming: Dict<string, Value>, floatOf: string -> Option<real>) returns (corr: Vector)
    ensures corr == CorrectNew(incoming, floatOf)
  {
    corr := Empty();
    for i := 0 to |incoming.keys|
      invariant corr == CorrectUpTo(incoming, i, floatOf)
    {
      var k := incoming.keys[i];
      var x := ToFloat(GetOr(incoming, k, Null), floatOf);
      if x.Some? {
        corr := Put(corr, CorrectKey(k), x.value);
      }
    }
  }

  /** Entry `i` (of the first `n`) is where key `kk` got its value `x`: it
      corrects to `kk`, converts to `x`, and no later entry correcting to
      `kk` converts. */
  predicate SourceAt(incoming: Dict<string, Value>, n: nat, floatOf: string -> Option<real>, kk: string, x: real, i: nat)
    requires i < n <= |incoming.keys|
  {
    && CorrectKey(incoming.keys[i]) == kk
    && Converted(incoming, i, floatOf) == Some(x)
    && forall j | i < j < n :: CorrectKey(incoming.keys[j]) == kk ==> Converted(incoming, j, floatOf).None?
  }

  ghost predicate LastSource(incoming: Dict<string, Value>, n: nat, floatOf: string -> Option<real>, kk: string, x: real)
    requires n <= |incoming.keys|
  {
    exists i | 0 <= i < n :: SourceAt(incoming, n, floatOf, kk, x, i)
  }

  /** Step 1 keeps a corrected key for every entry that converts, and each
      key it keeps holds the value of the last entry that corrects to it
      and converts. */
  lemma {:induction false} CorrectUpToSpec(incoming: Dict<string, Value>, n: nat, floatOf: string -> Option<real>)
    requires n <= |incoming.keys|
    ensures Valid(CorrectUpTo(incoming, n, floatOf))
    ensures forall i | 0 <= i < n && Converted(incoming, i, floatOf).Some? ::
      CorrectKey(incoming.keys[i]) in CorrectUpTo(incoming, n, floatOf).vals
    ensures forall kk | kk in CorrectUpTo(incoming, n, floatOf).vals ::
      LastSource(incoming, n, floatOf, kk, CorrectUpTo(incoming, n, floatOf).vals[kk])
  {
    if n > 0 {
      CorrectUpToSpec(incoming, n - 1, floatOf);
      var prior := CorrectUpTo(incoming, n - 1, floatOf);
      var x := Converted(incoming, n - 1, floatOf);
      var last := CorrectKey(incoming.keys[n - 1]);
      var r := CorrectUpTo(incoming, n, floatOf);
      if x.Some? {
        assert r == Put(prior, last, x.value);
        PutValid(prior, last, x.value);
        forall kk | kk in r.vals ensures LastSource(incoming, n, floatOf, kk, r.vals[kk]) {
          if kk == last {
            assert SourceAt(incoming, n, floatOf, kk, r.vals[kk], n - 1);
          } else {
            SourceKept(incoming, n, floatOf, kk, prior.vals[kk]);
          }
        }
      } else {
        assert r == prior;
        forall kk | kk in prior.vals ensures LastSource(incoming, n, floatOf, kk, prior.vals[kk]) {
          SourceKept(incoming, n, floatOf, kk, prior.vals[kk]);
        }
      }
    }
  }

  /** A key whose last source is among the first `n - 1` entries keeps it
      when entry `n - 1` does not set that key. */
  lemma SourceKept(incoming: Dict<string, Value>, n: nat, floatOf: string -> Option<real>, kk: string, x: real)
    requires 0 < n <= |incoming.keys| && LastSource(incoming, n - 1, floatOf, kk, x)
    requires CorrectKey(incoming.keys[n - 1]) == kk ==> Converted(incoming, n - 1, floatOf).None?
    ensures LastSource(incoming, n, floatOf, kk, x)
  {
    var i :| 0 <= i < n - 1 && SourceAt(incoming, n - 1, floatOf, kk, x, i);
    assert SourceAt(incoming, n, floatOf, kk, x, i);
  }

  // ---------------------------------------------------------------------
  // 2) elapsed time and 3) blend rate

  /** `_seconds_since(ts)`: no timestamp, an empty one or one `_parse_ts`
      cannot read gives 0; otherwise the seconds from it to `now`, never
      negative.  `parse` stands for `_parse_ts` on a non-empty string, as
      seconds since the epoch, and `now` for the clock. */
  function SecondsSince(ts: Option<string>, parse: string -> Option<real>, now: real): (dt: real)
    ensures dt >= 0.0
    ensures ts.None? || ts == Some("") ==> dt == 0.0
    ensures ts.Some? && ts.value != "" && parse(ts.value).Some? && parse(ts.value).value <= now ==>
      dt == now - parse(ts.value).value
  {
    if ts.None? || ts.value == "" then 0.0
    else
      match parse(ts.value)
      case None => 0.0
      case Some(t) => Max(0.0, now - t)
  }

  /** `_adaptive_alpha(corr_new) if weight_new is None else float(weight_new)` */
  function MergeAlpha(corr: Vector, weightNew: Option<Value>, floatOf: string -> Option<real>): (r: Option<real>)
    ensures weightNew.None? ==> r.Some? && AlphaMin <= r.value <= AlphaMax
    ensures weightNew.Some? ==> r == ToFloat(weightNew.value, floatOf)
  {
    if weightNew.None? then Some(AdaptiveAlpha(corr)) else ToFloat(weightNew.value, floatOf)
  }

  // ---------------------------------------------------------------------
  // 4) the blend target

  /** `set(decayed.keys()) | set(corr_new.keys())`, listed as the keys of
      `a` followed by the keys of `b` not yet listed. */
  function UnionKeys<K(==)>(a: seq<K>, b: seq<K>): seq<K>
    decreases |b|
  {
    if b == [] then a
    else
      var u := UnionKeys(a, b[..|b| - 1]);
      if b[|b| - 1] in u then u else u + [b[|b| - 1]]
  }

  lemma {:induction false} UnionKeysSpec<K>(a: seq<K>, b: seq<K>)
    requires Distinct(a)
    ensures Distinct(UnionKeys(a, b)) && a <= UnionKeys(a, b)
    ensures forall k :: k in UnionKeys(a, b) <==> k in a || k in b
    decreases |b|
  {
    if b != [] {
      var init := b[..|b| - 1];
      UnionKeysSpec(a, init);
      assert forall k :: k in b <==> k in init || k == b[|b| - 1];
    }
  }

  /** The rate of one label: `FAST_DECAY` labels move 15% faster (at most
      1), `STICKY` ones 15% slower. */
  function LabelRate(k: string, alpha: real): real {
    var a := if k in FastDecay then Min(1.0, alpha * 1.15) else alpha;
    if k in Sticky then Max(0.0, a * 0.85) else a
  }

  lemma LabelRateRange(k: string, alpha: real)
    requires 0.0 <= alpha <= 1.0
    ensures 0.0 <= LabelRate(k, alpha) <= 1.0
    ensures k in FastDecay ==> alpha <= LabelRate(k, alpha)
    ensures k in Sticky ==> LabelRate(k, alpha) <= alpha
    ensures k !in FastDecay && k !in Sticky ==> LabelRate(k, alpha) == alpha
  {
    assert FastDecay * Sticky == {};
  }

  /** `float(decayed.get(k, 0.0))` */
  function OldValue(decayed: Dict<string, Value>, k: string, floatOf: string -> Option<real>): Option<real> {
    ToFloat(GetOr(decayed, k, Float(0.0)), floatOf)
  }

  /** `max(0.0, (1.0 - a) * before + a * nv)` */
  function Target(before: real, nv: real, a: real): real {
    Max(0.0, Ema(before, nv, a))
  }

  /** A target is never negative, never above both inputs, and at rate 1
      is the new value. */
  lemma TargetRange(before: real, nv: real, a: real)
    requires 0.0 <= a <= 1.0
    ensures 0.0 <= Target(before, nv, a) <= Max(0.0, Max(before, nv))
    ensures a == 1.0 ==> Target(before, nv, a) == Max(0.0, nv)
    ensures before == nv ==> Target(before, nv, a) == Max(0.0, nv)
  {
    EmaBetween(before, nv, a);
  }

  /** The loop of step 4 over the first `n` keys; `None` where a
      `float()` raises. */
  function BlendUpTo(keys: seq<string>, n: nat, decayed: Dict<string, Value>, corr: Vector, alpha: real,
                     floatOf: string -> Option<real>): Option<Vector>
    requires n <= |keys|
  {
    if n == 0 then Some(Empty())
    else
      match BlendUpTo(keys, n - 1, decayed, corr, alpha, floatOf)
      case None => None
      case Some(prior) =>
        var k := keys[n - 1];
        match OldValue(decayed, k, floatOf)
        case None => None
        case Some(before) => Some(Put(prior, k, Target(before, GetOr(corr, k, 0.0), LabelRate(k, alpha))))
  }

  lemma {:induction false} BlendStaysFailed(keys: seq<string>, m: nat, n: nat, decayed: Dict<string, Value>,
                                            corr: Vector, alpha: real, floatOf: string -> Option<real>)
    requires m <= n <= |keys| && BlendUpTo(keys, m, decayed, corr, alpha, floatOf).None?
    ensures BlendUpTo(keys, n, decayed, corr, alpha, floatOf).None?
    decreases n
  {
    if n > m {
      BlendStaysFailed(keys, m, n - 1, decayed, corr, alpha, floatOf);
    }
  }

  /** Step 4 of `merge_emotion_vectors`. */
  method BlendTargets(keys: seq<string>, decayed: Dict<string, Value>, corr: Vector, alpha: real,
                      floatOf: string -> Option<real>) returns (target: Option<Vector>)
    ensures target == BlendUpTo(keys, |keys|, decayed, corr, alpha, floatOf)
  {
    var out := Empty();
    for i := 0 to |keys|
      invariant BlendUpTo(keys, i, decayed, corr, alpha, floatOf) == Some(out)
    {
      var k := keys[i];
      var before := OldValue(decayed, k, floatOf);
      if before.None? {
        BlendStaysFailed(keys, i + 1, |keys|, decayed, corr, alpha, floatOf);
        return None;
      }
      var nv := GetOr(corr, k, 0.0);
      out := Put(out, k, Target(before.value, nv, LabelRate(k, alpha)));
    }
    return Some(out);
  }

  lemma {:induction false} BlendSucceeds(keys: seq<string>, n: nat, decayed: Dict<string, Value>, corr: Vector,
                                         alpha: real, floatOf: string -> Option<real>)
    requires n <= |keys|
    ensures BlendUpTo(keys, n, decayed, corr, alpha, floatOf).Some? <==>
      forall i | 0 <= i < n :: OldValue(decayed, keys[i], floatOf).Some?
  {
    if n > 0 {
      BlendSucceeds(keys, n - 1, decayed, corr, alpha, floatOf);
    }
  }

  /** The target of key `k`. */
  function TargetOf(decayed: Dict<string, Value>, corr: Vector, alpha: real, floatOf: string -> Option<real>, k: string): real {
    Target(OldValue(decayed, k, floatOf).GetOr(0.0), GetOr(corr, k, 0.0), LabelRate(k, alpha))
  }

  lemma {:induction false} BlendAsBuild(keys: seq<string>, n: nat, decayed: Dict<string, Value>, corr: Vector,
                                        alpha: real, floatOf: string -> Option<real>, f: string -> real)
    requires n <= |keys|
    requires forall i | 0 <= i < n :: OldValue(decayed, keys[i], floatOf).Some?
    requires forall k :: f(k) == TargetOf(decayed, corr, alpha, floatOf, k)
    ensures BlendUpTo(keys, n, decayed, corr, alpha, floatOf) == Some(BuildUpTo(keys, n, f))
  {
    if n > 0 {
      BlendAsBuild(keys, n - 1, decayed, corr, alpha, floatOf, f);
    }
  }

  /** Step 4 succeeds exactly when every old value converts, and then
      gives each key, in order, its target. */
  lemma BlendSpec(keys: seq<string>, decayed: Dict<string, Value>, corr: Vector,
                  alpha: real, floatOf: string -> Option<real>)
    requires Distinct(keys)
    ensures BlendUpTo(keys, |keys|, decayed, corr, alpha, floatOf).Some? <==>
      forall i | 0 <= i < |keys| :: OldValue(decayed, keys[i], floatOf).Some?
    ensures BlendUpTo(keys, |keys|, decayed, corr, alpha, floatOf).Some? ==>
      var t := BlendUpTo(keys, |keys|, decayed, corr, alpha, floatOf).value;
      && Valid(t) && t.keys == keys
      && forall i | 0 <= i < |keys| :: keys[i] in t.vals &&
           t.vals[keys[i]] == Target(OldValue(decayed, keys[i], floatOf).value, GetOr(corr, keys[i], 0.0), LabelRate(keys[i], alpha))
  {
    BlendSucceeds(keys, |keys|, decayed, corr, alpha, floatOf);
    if forall i | 0 <= i < |keys| :: OldValue(decayed, keys[i], floatOf).Some? {
      var f := k => TargetOf(decayed, corr, alpha, floatOf, k);
      BlendAsBuild(keys, |keys|, decayed, corr, alpha, floatOf, f);
      BuildSpec(keys, |keys|, f);
      assert keys[..|keys|] == keys;
    }
  }

  // ---------------------------------------------------------------------
  // 5) spike control

  /** `corr_new.get(k, 0.0) - decayed.get(k, 0.0) >= BIG_SPIKE_THRESHOLD`;
      the subtraction raises (`None`) unless the decayed value is a
      number. */
  function SpikeAt(decayed: Dict<string, Value>, corr: Vector, k: string): Option<bool> {
    match NumOf(GetOr(decayed, k, Float(0.0)))
    case None => None
    case Some(d) => Some(GetOr(corr, k, 0.0) - d >= BigSpikeThreshold)
  }

  /** `any(...)` over the keys in order: it stops at the first jump. */
  function SpikeScan(keys: seq<string>, decayed: Dict<string, Value>, corr: Vector): Option<bool>
    decreases |keys|
  {
    if keys == [] then Some(false)
    else
      match SpikeAt(decayed, corr, keys[0])
      case None => None
      case Some(b) => if b then Some(true) else SpikeScan(keys[1..], decayed, corr)
  }

  /** The scan answers whether some key jumps when every decayed value
      is a number; a `true` answer always names such a key, and a raise
      always comes from a key whose decayed value is not a number. */
  lemma {:induction false} SpikeScanSpec(keys: seq<string>, decayed: Dict<string, Value>, corr: Vector)
    ensures (forall i | 0 <= i < |keys| :: SpikeAt(decayed, corr, keys[i]).Some?) ==>
      SpikeScan(keys, decayed, corr) == Some(exists i | 0 <= i < |keys| :: SpikeAt(decayed, corr, keys[i]) == Some(true))
    ensures SpikeScan(keys, decayed, corr) == Some(true) ==>
      exists i | 0 <= i < |keys| :: SpikeAt(decayed, corr, keys[i]) == Some(true)
    ensures SpikeScan(keys, decayed, corr) == Some(false) ==>
      forall i | 0 <= i < |keys| :: SpikeAt(decayed, corr, keys[i]) == Some(false)
    ensures SpikeScan(keys, decayed, corr).None? ==>
      exists i | 0 <= i < |keys| :: SpikeAt(decayed, corr, keys[i]).None?
    decreases |keys|
  {
    if keys != [] {
      SpikeScanSpec(keys[1..], decayed, corr);
      assert forall i | 0 <= i < |keys[1..]| :: keys[1..][i] == keys[i + 1];
      if SpikeAt(decayed, corr, keys[0]) == Some(false) {
        if exists i | 0 <= i < |keys| :: SpikeAt(decayed, corr, keys[i]) == Some(true) {
          var i :| 0 <= i < |keys| && SpikeAt(decayed, corr, keys[i]) == Some(true);
          assert keys[1..][i - 1] == keys[i];
        }
      }
    }
  }

  /** One label after spike control: after a big spike a `FAST_DECAY`
      label rises at most `MAX_DELTA_UP * 0.5`; then the bounded step. */
  function SpikeLimited(k: string, prev: real, val: real, bigSpike: bool): real {
    BoundedDelta(prev, if bigSpike && k in FastDecay then Min(val, prev + MaxDeltaUp * 0.5) else val)
  }

  /** Spike control stays within the bounded step of the old value, lets
      a fast label rise at most 12.5 after a big spike, keeps the result
      non-negative, and without a spike is the plain bounded step. */
  lemma SpikeLimitedRange(k: string, prev: real, val: real, bigSpike: bool)
    ensures prev - MaxDeltaDown <= SpikeLimited(k, prev, val, bigSpike) <= prev + MaxDeltaUp
    ensures bigSpike && k in FastDecay ==> SpikeLimited(k, prev, val, bigSpike) <= prev + MaxDeltaUp * 0.5
    ensures prev >= 0.0 && val >= 0.0 ==> SpikeLimited(k, prev, val, bigSpike) >= 0.0
    ensures !bigSpike || k !in FastDecay ==> SpikeLimited(k, prev, val, bigSpike) == BoundedDelta(prev, val)
  {
  }

  /** The loop of step 5 over the first `n` keys. */
  function SpikeUpTo(keys: seq<string>, n: nat, decayed: Dict<string, Value>, target: Vector, bigSpike: bool,
                     floatOf: string -> Option<real>): Option<Vector>
    requires n <= |keys|
  {
    if n == 0 then Some(Empty())
    else
      match SpikeUpTo(keys, n - 1, decayed, target, bigSpike, floatOf)
      case None => None
      case Some(prior) =>
        var k := keys[n - 1];
        match OldValue(decayed, k, floatOf)
        case None => None
        case Some(prev) => Some(Put(prior, k, SpikeLimited(k, prev, GetOr(target, k, 0.0), bigSpike)))
  }

  lemma {:induction false} SpikeStaysFailed(keys: seq<string>, m: nat, n: nat, decayed: Dict<string, Value>,
                                            target: Vector, bigSpike: bool, floatOf: string -> Option<real>)
    requires m <= n <= |keys| && SpikeUpTo(keys, m, decayed, target, bigSpike, floatOf).None?
    ensures SpikeUpTo(keys, n, decayed, target, bigSpike, floatOf).None?
    decreases n
  {
    if n > m {
      SpikeStaysFailed(keys, m, n - 1, decayed, target, bigSpike, floatOf);
    }
  }

  /** Step 5 of `merge_emotion_vectors`, after the scan. */
  method SpikeControl(keys: seq<string>, decayed: Dict<string, Value>, target: Vector, bigSpike: bool,
                      floatOf: string -> Option<real>) returns (merged: Option<Vector>)
    ensures merged == SpikeUpTo(keys, |keys|, decayed, target, bigSpike, floatOf)
  {
    var out := Empty();
    for i := 0 to |keys|
      invariant SpikeUpTo(keys, i, decayed, target, bigSpike, floatOf) == Some(out)
    {
      var k := keys[i];
      var prev := OldValue(decayed, k, floatOf);
      if prev.None? {
        SpikeStaysFailed(keys, i + 1, |keys|, decayed, target, bigSpike, floatOf);
        return None;
      }
      var val := GetOr(target, k, 0.0);
      out := Put(out, k, SpikeLimited(k, prev.value, val, bigSpike));
    }
    return Some(out);
  }

  lemma {:induction false} SpikeSucceeds(keys: seq<string>, n: nat, decayed: Dict<string, Value>, target: Vector,
                                         bigSpike: bool, floatOf: string -> Option<real>)
    requires n <= |keys|
    ensures SpikeUpTo(keys, n, decayed, target, bigSpike, floatOf).Some? <==>
      forall i | 0 <= i < n :: OldValue(decayed, keys[i], floatOf).Some?
  {
    if n > 0 {
      SpikeSucceeds(keys, n - 1, decayed, target, bigSpike, floatOf);
    }
  }

  /** The limited value of key `k`. */
  function LimitedOf(decayed: Dict<string, Value>, target: Vector, bigSpike: bool, floatOf: string -> Option<real>, k: string): real {
    SpikeLimited(k, OldValue(decayed, k, floatOf).GetOr(0.0), GetOr(target, k, 0.0), bigSpike)
  }

  lemma {:induction false} SpikeAsBuild(keys: seq<string>, n: nat, decayed: Dict<string, Value>, target: Vector,
                                        bigSpike: bool, floatOf: string -> Option<real>, f: string -> real)
    requires n <= |keys|
    requires forall i | 0 <= i < n :: OldValue(decayed, keys[i], floatOf).Some?
    requires forall k :: f(k) == LimitedOf(decayed, target, bigSpike, floatOf, k)
    ensures SpikeUpTo(keys, n, decayed, target, bigSpike, floatOf) == Some(BuildUpTo(keys, n, f))
  {
    if n > 0 {
      SpikeAsBuild(keys, n - 1, decayed, target, bigSpike, floatOf, f);
    }
  }

  /** Step 5 succeeds exactly when every old value converts, and then
      gives each key, in order, its limited value. */
  lemma SpikeSpec(keys: seq<string>, decayed: Dict<string, Value>, target: Vector,
                  bigSpike: bool, floatOf: string -> Option<real>)
    requires Distinct(keys)
    ensures SpikeUpTo(keys, |keys|, decayed, target, bigSpike, floatOf).Some? <==>
      forall i | 0 <= i < |keys| :: OldValue(decayed, keys[i], floatOf).Some?
    ensures SpikeUpTo(keys, |keys|, decayed, target, bigSpike, floatOf).Some? ==>
      var m := SpikeUpTo(keys, |keys|, decayed, target, bigSpike, floatOf).value;
      && Valid(m) && m.keys == keys
      && forall i | 0 <= i < |keys| :: keys[i] in m.vals &&
           m.vals[keys[i]] == SpikeLimited(keys[i], OldValue(decayed, keys[i], floatOf).value, GetOr(target, keys[i], 0.0), bigSpike)
  {
    SpikeSucceeds(keys, |keys|, decayed, target, bigSpike, floatOf);
    if forall i | 0 <= i < |keys| :: OldValue(decayed, keys[i], floatOf).Some? {
      SpikeValues(keys, decayed, target, bigSpike, floatOf);
    }
  }

  lemma SpikeValues(keys: seq<string>, decayed: Dict<string, Value>, target: Vector,
                    bigSpike: bool, floatOf: string -> Option<real>)
    requires Distinct(keys)
    requires forall i | 0 <= i < |keys| :: OldValue(decayed, keys[i], floatOf).Some?
    ensures SpikeUpTo(keys, |keys|, decayed, target, bigSpike, floatOf).Some?
    ensures
      var m := SpikeUpTo(keys, |keys|, decayed, target, bigSpike, floatOf).value;
      && Valid(m) && m.keys == keys
      && forall i | 0 <= i < |keys| :: keys[i] in m.vals &&
           m.vals[keys[i]] == SpikeLimited(keys[i], OldValue(decayed, keys[i], floatOf).value, GetOr(target, keys[i], 0.0), bigSpike)
  {
    var f := k => LimitedOf(decayed, target, bigSpike, floatOf, k);
    SpikeAsBuild(keys, |keys|, decayed, target, bigSpike, floatOf, f);
    BuildSpec(keys, |keys|, f);
    assert keys[..|keys|] == keys;
    var m := BuildUpTo(keys, |keys|, f);
    forall i | 0 <= i < |keys| ensures
      m.vals[keys[i]] == SpikeLimited(keys[i], OldValue(decayed, keys[i], floatOf).value, GetOr(target, keys[i], 0.0), bigSpike)
    {
      assert m.vals[keys[i]] == f(keys[i]);
    }
  }

  // ---------------------------------------------------------------------
  // the whole merge

  /** `_seconds_since(current_timestamp)` and step 2. */
  function DecayedCurrent(current: Dict<string, Value>, ts: Option<string>, parse: string -> Option<real>, now: real,
                          halfPow: real -> real, floatOf: string -> Option<real>): Dict<string, Value>
    requires Valid(current)
  {
    TimeDecay(current, SecondsSince(ts, parse, now), halfPow, floatOf)
  }

  /** Steps 1 to 5 of `merge_emotion_vectors`: the vector after spike
      control, `None` where the source raises. */
  function SpikeStage(current: Dict<string, Value>, incoming: Dict<string, Value>, weightNew: Option<Value>,
                      ts: Option<string>, parse: string -> Option<real>, now: real,
                      halfPow: real -> real, floatOf: string -> Option<real>): Option<Vector>
    requires Valid(current)
  {
    var corr := CorrectNew(incoming, floatOf);
    var decayed := DecayedCurrent(current, ts, parse, now, halfPow, floatOf);
    var keys := UnionKeys(decayed.keys, corr.keys);
    match MergeAlpha(corr, weightNew, floatOf)
    case None => None
    case Some(alpha) =>
      match BlendUpTo(keys, |keys|, decayed, corr, alpha, floatOf)
      case None => None
      case Some(target) =>
        match SpikeScan(keys, decayed, corr)
        case None => None
        case Some(bigSpike) => SpikeUpTo(keys, |keys|, decayed, target, bigSpike, floatOf)
  }

  /** `merge_emotion_vectors(current, new, weight_new, normalize=normalize,
      current_timestamp=ts)`, with `None` where the source raises.
      `decay_factor` is accepted by the source and never read, so it is
      not a parameter here. */
  function MergeSpec(current: Dict<string, Value>, incoming: Dict<string, Value>, weightNew: Option<Value>,
                     normalize: bool, ts: Option<string>, parse: string -> Option<real>, now: real,
                     halfPow: real -> real, floatOf: string -> Option<real>): Option<Vector>
    requires Valid(current)
  {
    match SpikeStage(current, incoming, weightNew, ts, parse, now, halfPow, floatOf)
    case None => None
    case Some(limited) =>
      var pulled := Homeostasis(CrossInhibit(limited));
      Some(if normalize then Normalize(pulled) else pulled)
  }

  /** `merge_emotion_vectors`: the steps in the source's order. */
  method MergeEmotionVectors(current: Dict<string, Value>, incoming: Dict<string, Value>, weightNew: Option<Value>,
                             normalize: bool, ts: Option<string>, parse: string -> Option<real>, now: real,
                             halfPow: real -> real, floatOf: string -> Option<real>) returns (r: Option<Vector>)
    requires Valid(current)
    ensures r == MergeSpec(current, incoming, weightNew, normalize, ts, parse, now, halfPow, floatOf)
  {
    var corr := CorrectTypes(incoming, floatOf);
    var dt := SecondsSince(ts, parse, now);
    var decayed := ApplyTimeDecay(current, dt, halfPow, floatOf);
    var alpha := MergeAlpha(corr, weightNew, floatOf);
    if alpha.None? {
      return None;
    }
    var keys := UnionKeys(decayed.keys, corr.keys);
    var target := BlendTargets(keys, decayed, corr, alpha.value, floatOf);
    if target.None? {
      return None;
    }
    var bigSpike := SpikeScan(keys, decayed, corr);
    if bigSpike.None? {
      return None;
    }
    var limited := SpikeControl(keys, decayed, target.value, bigSpike.value, floatOf);
    if limited.None? {
      return None;
    }
    var merged := InhibitWith(limited.value, CrossInhibitTable);
    merged := HomeostasisPull(merged);
    if normalize {
      merged := Normalize(merged);
    }
    return Some(merged);
  }

  /** After a scan that did not raise, spike control keeps each key in the
      bounded step of its old value, and when some key jumps, every
      `FAST_DECAY` label rises by at most `MAX_DELTA_UP * 0.5`. */
  lemma SpikeBounds(keys: seq<string>, decayed: Dict<string, Value>, corr: Vector, target: Vector,
                    floatOf: string -> Option<real>)
    requires Distinct(keys) && SpikeScan(keys, decayed, corr).Some?
    requires forall i | 0 <= i < |keys| :: OldValue(decayed, keys[i], floatOf).Some?
    ensures var m := SpikeUpTo(keys, |keys|, decayed, target, SpikeScan(keys, decayed, corr).value, floatOf);
      && m.Some? && Valid(m.value) && m.value.keys == keys
      && (forall i | 0 <= i < |keys| ::
            OldValue(decayed, keys[i], floatOf).value - MaxDeltaDown <= m.value.vals[keys[i]]
            <= OldValue(decayed, keys[i], floatOf).value + MaxDeltaUp)
      && ((exists i | 0 <= i < |keys| :: SpikeAt(decayed, corr, keys[i]) == Some(true)) ==>
            forall i | 0 <= i < |keys| && keys[i] in FastDecay ::
              m.value.vals[keys[i]] <= OldValue(decayed, keys[i], floatOf).value + MaxDeltaUp * 0.5)
  {
    var big := SpikeScan(keys, decayed, corr).value;
    SpikeScanSpec(keys, decayed, corr);
    SpikeSpec(keys, decayed, target, big, floatOf);
    var m := SpikeUpTo(keys, |keys|, decayed, target, big, floatOf).value;
    forall i | 0 <= i < |keys|
      ensures OldValue(decayed, keys[i], floatOf).value - MaxDeltaDown <= m.vals[keys[i]]
        <= OldValue(decayed, keys[i], floatOf).value + MaxDeltaUp
      ensures big && keys[i] in FastDecay ==>
        m.vals[keys[i]] <= OldValue(decayed, keys[i], floatOf).value + MaxDeltaUp * 0.5
    {
      SpikeLimitedRange(keys[i], OldValue(decayed, keys[i], floatOf).value, GetOr(target, keys[i], 0.0), big);
    }
  }

  /** Steps 1 to 5 fail exactly when `float(weight_new)`, an old value's
      `float()` or the spike test's subtraction raises. */
  lemma SpikeStageFails(current: Dict<string, Value>, incoming: Dict<string, Value>, weightNew: Option<Value>,
                        ts: Option<string>, parse: string -> Option<real>, now: real,
                        halfPow: real -> real, floatOf: string -> Option<real>)
    requires Valid(current) && HalfPowInRange(halfPow)
    ensures var corr := CorrectNew(incoming, floatOf);
      var decayed := DecayedCurrent(current, ts, parse, now, halfPow, floatOf);
      var keys := UnionKeys(decayed.keys, corr.keys);
      SpikeStage(current, incoming, weightNew, ts, parse, now, halfPow, floatOf).Some? <==>
        && MergeAlpha(corr, weightNew, floatOf).Some?
        && (forall i | 0 <= i < |keys| :: OldValue(decayed, keys[i], floatOf).Some?)
        && SpikeScan(keys, decayed, corr).Some?
  {
    var corr := CorrectNew(incoming, floatOf);
    var decayed := DecayedCurrent(current, ts, parse, now, halfPow, floatOf);
    var keys := UnionKeys(decayed.keys, corr.keys);
    var alpha := MergeAlpha(corr, weightNew, floatOf);
    if alpha.Some? {
      BlendSucceeds(keys, |keys|, decayed, corr, alpha.value, floatOf);
      var target := BlendUpTo(keys, |keys|, decayed, corr, alpha.value, floatOf);
      var big := SpikeScan(keys, decayed, corr);
      if target.Some? && big.Some? {
        SpikeSucceeds(keys, |keys|, decayed, target.value, big.value, floatOf);
      }
    }
  }

  /** When steps 1 to 5 succeed, every key of either vector is present,
      in the bounded step of its old value; and when some key's new value
      exceeds its decayed one by at least `BIG_SPIKE_THRESHOLD`, every
      `FAST_DECAY` label rises by at most `MAX_DELTA_UP * 0.5`. */
  lemma SpikeStageSpec(current: Dict<string, Value>, incoming: Dict<string, Value>, weightNew: Option<Value>,
                       ts: Option<string>, parse: string -> Option<real>, now: real,
                       halfPow: real -> real, floatOf: string -> Option<real>)
    requires Valid(current) && HalfPowInRange(halfPow)
    requires SpikeStage(current, incoming, weightNew, ts, parse, now, halfPow, floatOf).Some?
    ensures var corr := CorrectNew(incoming, floatOf);
      var decayed := DecayedCurrent(current, ts, parse, now, halfPow, floatOf);
      var keys := UnionKeys(decayed.keys, corr.keys);
      var r := SpikeStage(current, incoming, weightNew, ts, parse, now, halfPow, floatOf).value;
      && Valid(r) && r.keys == keys
      && (forall k :: k in r.vals <==> k in decayed.vals || k in corr.vals)
      && (forall i | 0 <= i < |keys| ::
            && keys[i] in r.vals && OldValue(decayed, keys[i], floatOf).Some?
            && OldValue(decayed, keys[i], floatOf).value - MaxDeltaDown <= r.vals[keys[i]]
               <= OldValue(decayed, keys[i], floatOf).value + MaxDeltaUp)
      && ((exists i | 0 <= i < |keys| :: SpikeAt(decayed, corr, keys[i]) == Some(true)) ==>
            forall i | 0 <= i < |keys| && keys[i] in FastDecay ::
              && keys[i] in r.vals && OldValue(decayed, keys[i], floatOf).Some?
              && r.vals[keys[i]] <= OldValue(decayed, keys[i], floatOf).value + MaxDeltaUp * 0.5)
  {
    var corr := CorrectNew(incoming, floatOf);
    var decayed := DecayedCurrent(current, ts, parse, now, halfPow, floatOf);
    var keys := UnionKeys(decayed.keys, corr.keys);
    TimeDecaySpec(current, SecondsSince(ts, parse, now), halfPow, floatOf);
    CorrectUpToSpec(incoming, |incoming.keys|, floatOf);
    UnionKeysSpec(decayed.keys, corr.keys);
    SpikeStageFails(current, incoming, weightNew, ts, parse, now, halfPow, floatOf);
    var alpha := MergeAlpha(corr, weightNew, floatOf).value;
    var target := BlendUpTo(keys, |keys|, decayed, corr, alpha, floatOf).value;
    SpikeBounds(keys, decayed, corr, target, floatOf);
    var bigSpike := SpikeScan(keys, decayed, corr).value;
    var r := SpikeStage(current, incoming, weightNew, ts, parse, now, halfPow, floatOf).value;
    assert r == SpikeUpTo(keys, |keys|, decayed, target, bigSpike, floatOf).value;
    forall k ensures k in r.vals <==> k in decayed.vals || k in corr.vals {
      assert k in r.vals <==> k in keys;
      assert k in decayed.keys <==> k in decayed.vals;
      assert k in corr.keys <==> k in corr.vals;
    }
  }

  /** The merge fails exactly when steps 1 to 5 do.  Otherwise the result
      is a valid vector listing every key of either input first (the
      cross-inhibition may append sink labels); normalised, every value
      lies in [0, 100]. */
  lemma MergeSpecProperties(current: Dict<string, Value>, incoming: Dict<string, Value>, weightNew: Option<Value>,
                            normalize: bool, ts: Option<string>, parse: string -> Option<real>, now: real,
                            halfPow: real -> real, floatOf: string -> Option<real>)
    requires Valid(current) && HalfPowInRange(halfPow)
    ensures var r := MergeSpec(current, incoming, weightNew, normalize, ts, parse, now, halfPow, floatOf);
      var s := SpikeStage(current, incoming, weightNew, ts, parse, now, halfPow, floatOf);
      && (r.Some? <==> s.Some?)
      && (r.Some? ==> Valid(r.value) && s.value.keys <= r.value.keys)
      && (r.Some? && normalize ==> forall k | k in r.value.vals :: 0.0 <= r.value.vals[k] <= 100.0)
  {
    var s := SpikeStage(current, incoming, weightNew, ts, parse, now, halfPow, floatOf);
    if s.Some? {
      SpikeStageSpec(current, incoming, weightNew, ts, parse, now, halfPow, floatOf);
      CrossInhibitCoefficients();
      InhibitSpec(s.value, CrossInhibitTable);
      var inhibited := CrossInhibit(s.value);
      HomeostasisShape(inhibited);
      var pulled := Homeostasis(inhibited);
      NormalizeShape(pulled);
      if normalize && PositiveTotal(pulled) > 0.0 {
        NormalizeRange(pulled);
      }
    }
  }

  // ---------------------------------------------------------------------
  // summarize_feeling

  /** The six axes, in the order of the summary literal. */
  const Axes: seq<string> := ["喜び", "怒り", "悲しみ", "楽しさ", "自信", "困惑"]

  /** The weighted sums of the six axes, in axis order. */
  function AxisSums(fv: Vector): seq<real> {
    var w := (x: string) => GetOr(fv, x, 0.0);
    [ 0.45 * w("喜び") + 0.25 * w("楽観") + 0.15 * w("歓喜") + 0.15 * w("愛"),
      0.6 * w("怒り") + 0.25 * w("憤慨") + 0.15 * w("軽蔑"),
      0.4 * w("悲しみ") + 0.25 * w("失望") + 0.2 * w("絶望") + 0.15 * w("感傷"),
      0.5 * w("好奇心") + 0.3 * w("期待") + 0.2 * w("喜び"),
      0.6 * w("優位") + 0.4 * w("誇り"),
      0.45 * w("恐れ") + 0.35 * w("不安") + 0.2 * w("不信") ]
  }

  /** `int(round(min(100.0, max(0.0, v)) / 10.0))` */
  function AxisScore(v: real): int {
    RoundHalfEven(Min(100.0, Max(0.0, v)) / 10.0)
  }

  /** A score is an integer in 0..10, and a larger sum never scores
      lower. */
  lemma AxisScoreRange(v: real, w: real)
    ensures 0 <= AxisScore(v) <= 10
    ensures v <= w ==> AxisScore(v) <= AxisScore(w)
  {
    RoundWithin(Min(100.0, Max(0.0, v)) / 10.0, 0, 10);
    if v <= w {
      RoundMonotone(Min(100.0, Max(0.0, v)) / 10.0, Min(100.0, Max(0.0, w)) / 10.0);
    }
  }

  lemma AxesDistinct()
    ensures Distinct(Axes)
  {
  }

  /** `summarize_feeling` */
  function SummarizeFeeling(fv: Vector): Dict<string, int> {
    AxesDistinct();
    var sums := AxisSums(fv);
    FromParallel(Axes, seq(6, i requires 0 <= i < 6 => AxisScore(sums[i])))
  }

  /** The summary has exactly the six axes, in order, each scored in
      0..10 from its weighted sum. */
  lemma SummarizeFeelingSpec(fv: Vector)
    ensures Valid(SummarizeFeeling(fv)) && SummarizeFeeling(fv).keys == Axes
    ensures forall i | 0 <= i < 6 ::
      (Axes[i] in SummarizeFeeling(fv).vals && SummarizeFeeling(fv).vals[Axes[i]] == AxisScore(AxisSums(fv)[i]))
    ensures forall k | k in SummarizeFeeling(fv).vals :: 0 <= SummarizeFeeling(fv).vals[k] <= 10
  {
    var r := SummarizeFeeling(fv);
    forall k | k in r.vals ensures 0 <= r.vals[k] <= 10 {
      var i :| 0 <= i < 6 && Axes[i] == k;
      AxisScoreRange(AxisSums(fv)[i], AxisSums(fv)[i]);
    }
  }
}

/** The steps module/live2d/live2d_processing.py and
    module/voice/voice_processing.py share: translating composition keys to
    English, picking the heaviest emotions, the subtotal they are divided
    by, and the exponential smoothing of the output values.  Each file has
    its own copy of `_clip`, `_ema` and `_to_en_keys`; they differ only in
    the table whose keys count as English and in `_ema`'s default alpha,
    which every caller passes explicitly. */
module Expression {
  import opened Wrappers
  import opened Dicts
  import opened VectorMath
  import Ranking

  // ---------------------------------------------------------------------
  // _to_en_keys

  /** Where `_to_en_keys` puts key `k`: an English key of the preset table
      stays, a Japanese key of `emotion_map_reverse` becomes its English
      name, and any other key is dropped. */
  function EnTarget<P>(k: string, known: Dict<string, P>, reverse: Dict<string, string>): Option<string> {
    if k in known.vals then Some(k)
    else if k in reverse.vals then Some(reverse.vals[k])
    else None
  }

  /** `out` after the first `n` keys of the composition. */
  function EnKeysUpTo<P>(comp: Dict<string, real>, n: nat, known: Dict<string, P>, reverse: Dict<string, string>): Dict<string, real>
    requires n <= |comp.keys|
  {
    if n == 0 then Empty()
    else
      var k := comp.keys[n - 1];
      var prev := EnKeysUpTo(comp, n - 1, known, reverse);
      match EnTarget(k, known, reverse)
      case Some(e) => Put(prev, e, GetOr(comp, k, 0.0))
      case None => prev
  }

  function EnKeys<P>(comp: Dict<string, real>, known: Dict<string, P>, reverse: Dict<string, string>): Dict<string, real> {
    EnKeysUpTo(comp, |comp.keys|, known, reverse)
  }

  /** Key `i` of the composition is the last one translated to `e` among
      the first `n`, and `e` holds its value. */
  predicate LastSource<P>(comp: Dict<string, real>, n: nat, known: Dict<string, P>, reverse: Dict<string, string>,
                          out: Dict<string, real>, e: string, i: nat)
    requires n <= |comp.keys| && e in out.vals
  {
    && i < n
    && EnTarget(comp.keys[i], known, reverse) == Some(e)
    && out.vals[e] == GetOr(comp, comp.keys[i], 0.0)
    && forall j | i < j < n :: EnTarget(comp.keys[j], known, reverse) != Some(e)
  }

  /** The translated dict is valid; it has a key exactly when some key of
      the composition translates to it, and holds the value of the last
      such key. */
  lemma {:induction false} EnKeysUpToSpec<P>(comp: Dict<string, real>, n: nat, known: Dict<string, P>, reverse: Dict<string, string>)
    requires n <= |comp.keys|
    ensures Valid(EnKeysUpTo(comp, n, known, reverse))
    ensures forall e :: e in EnKeysUpTo(comp, n, known, reverse).vals <==>
      exists i | 0 <= i < n :: EnTarget(comp.keys[i], known, reverse) == Some(e)
    ensures forall e | e in EnKeysUpTo(comp, n, known, reverse).vals ::
      exists i: nat :: LastSource(comp, n, known, reverse, EnKeysUpTo(comp, n, known, reverse), e, i)
  {
    EnKeysUpToMembers(comp, n, known, reverse);
    EnKeysUpToSources(comp, n, known, reverse);
  }

  lemma {:induction false} EnKeysUpToMembers<P>(comp: Dict<string, real>, n: nat, known: Dict<string, P>, reverse: Dict<string, string>)
    requires n <= |comp.keys|
    ensures Valid(EnKeysUpTo(comp, n, known, reverse))
    ensures forall e :: e in EnKeysUpTo(comp, n, known, reverse).vals <==>
      exists i | 0 <= i < n :: EnTarget(comp.keys[i], known, reverse) == Some(e)
  {
    if n > 0 {
      var prev := EnKeysUpTo(comp, n - 1, known, reverse);
      var out := EnKeysUpTo(comp, n, known, reverse);
      var k := comp.keys[n - 1];
      assert Valid(prev) && forall e :: e in prev.vals <==>
        exists i | 0 <= i < n - 1 :: EnTarget(comp.keys[i], known, reverse) == Some(e) by {
        EnKeysUpToMembers(comp, n - 1, known, reverse);
      }
      match EnTarget(k, known, reverse)
      case Some(t) =>
        PutValid(prev, t, GetOr(comp, k, 0.0));
        assert out == Put(prev, t, GetOr(comp, k, 0.0));
      case None =>
        assert out == prev;
    }
  }

  lemma {:induction false} EnKeysUpToSources<P>(comp: Dict<string, real>, n: nat, known: Dict<string, P>, reverse: Dict<string, string>)
    requires n <= |comp.keys|
    ensures forall e | e in EnKeysUpTo(comp, n, known, reverse).vals ::
      exists i: nat :: LastSource(comp, n, known, reverse, EnKeysUpTo(comp, n, known, reverse), e, i)
  {
    if n > 0 {
      var m := n - 1;
      var prev := EnKeysUpTo(comp, m, known, reverse);
      var out := EnKeysUpTo(comp, n, known, reverse);
      var k := comp.keys[m];
      assert forall e | e in prev.vals :: exists i: nat :: LastSource(comp, m, known, reverse, prev, e, i) by {
        EnKeysUpToSources(comp, m, known, reverse);
      }
      match EnTarget(k, known, reverse)
      case Some(t) =>
        assert out == Put(prev, t, GetOr(comp, k, 0.0));
        forall e | e in out.vals
          ensures exists i: nat :: LastSource(comp, n, known, reverse, out, e, i)
        {
          if e == t {
            assert LastSource(comp, n, known, reverse, out, e, m);
          } else {
            EnSourceKept(comp, m, n, known, reverse, prev, out, e);
          }
        }
      case None =>
        assert out == prev;
        forall e | e in out.vals
          ensures exists i: nat :: LastSource(comp, n, known, reverse, out, e, i)
        {
          EnSourceKept(comp, m, n, known, reverse, prev, out, e);
        }
    }
  }

  /** A key whose last source is among the first `n - 1` keys keeps it
      when key `n - 1` does not translate to it. */
  lemma EnSourceKept<P>(comp: Dict<string, real>, m: nat, n: nat, known: Dict<string, P>, reverse: Dict<string, string>,
                        prev: Dict<string, real>, out: Dict<string, real>, e: string)
    requires n == m + 1 <= |comp.keys| && e in prev.vals && e in out.vals && out.vals[e] == prev.vals[e]
    requires EnTarget(comp.keys[m], known, reverse) != Some(e)
    requires exists i: nat :: LastSource(comp, m, known, reverse, prev, e, i)
    ensures exists i: nat :: LastSource(comp, n, known, reverse, out, e, i)
  {
    var i: nat :| LastSource(comp, m, known, reverse, prev, e, i);
    assert LastSource(comp, n, known, reverse, out, e, i);
  }

  /** `_to_en_keys(composition)` */
  method ToEnKeys<P>(comp: Dict<string, real>, known: Dict<string, P>, reverse: Dict<string, string>)
    returns (out: Dict<string, real>)
    ensures out == EnKeys(comp, known, reverse)
  {
    out := Empty();
    for i := 0 to |comp.keys|
      invariant out == EnKeysUpTo(comp, i, known, reverse)
    {
      var k := comp.keys[i];
      var v := GetOr(comp, k, 0.0);
      if k in known.vals {
        out := Put(out, k, v);
      } else if k in reverse.vals {
        out := Put(out, reverse.vals[k], v);
      }
    }
  }

  /** When `emotion_map_reverse` only names keys of the preset table, every
      translated key has a preset, and nothing survives exactly when no
      key of the composition is known. */
  lemma EnKeysKnown<P>(comp: Dict<string, real>, known: Dict<string, P>, reverse: Dict<string, string>)
    requires forall ja | ja in reverse.vals :: reverse.vals[ja] in known.vals
    ensures Valid(EnKeys(comp, known, reverse))
    ensures forall e | e in EnKeys(comp, known, reverse).vals :: e in known.vals
    ensures |EnKeys(comp, known, reverse).keys| == 0 <==>
      forall i | 0 <= i < |comp.keys| :: comp.keys[i] !in known.vals && comp.keys[i] !in reverse.vals
  {
    var out := EnKeys(comp, known, reverse);
    EnKeysUpToSpec(comp, |comp.keys|, known, reverse);
    if |out.keys| > 0 {
      assert out.keys[0] in out.vals;
    }
  }

  // ---------------------------------------------------------------------
  // Top-N selection

  /** `list(d.items())` of a dict of weights. */
  function Pairs(d: Dict<string, real>): seq<(string, real)> {
    seq(|d.keys|, i requires 0 <= i < |d.keys| => (d.keys[i], GetOr(d, d.keys[i], 0.0)))
  }

  /** Every pair names a key of the dict. */
  lemma PairsKeys(d: Dict<string, real>)
    ensures forall x | x in multiset(Pairs(d)) :: x.0 in d.keys
  {
    forall x | x in multiset(Pairs(d)) ensures x.0 in d.keys {
      var j :| 0 <= j < |Pairs(d)| && Pairs(d)[j] == x;
    }
  }

  function WeightKey(p: (string, real)): real {
    p.1
  }

  /** `max(1, topn)` */
  function AtLeastOne(topn: int): nat {
    if topn < 1 then 1 else topn
  }

  /** `sorted(pairs, key=lambda kv: kv[1], reverse=True)[:max(1, topn)]` */
  function TopItems(pairs: seq<(string, real)>, topn: int): seq<(string, real)> {
    var sorted := Ranking.SortDesc(pairs, WeightKey);
    var n := AtLeastOne(topn);
    sorted[..if n < |sorted| then n else |sorted|]
  }

  /** The selection keeps at most `max(1, topn)` pairs, and at least one
      when there is one; they are pairs of the input, heaviest first, and
      no pair left out weighs more than a selected one. */
  lemma TopItemsSpec(pairs: seq<(string, real)>, topn: int)
    ensures var top := TopItems(pairs, topn);
      && |top| <= AtLeastOne(topn)
      && (|pairs| > 0 ==> |top| >= 1)
      && Ranking.NonIncreasing(top, WeightKey)
      && multiset(top) <= multiset(pairs)
      && forall x | x in multiset(pairs) - multiset(top) :: forall i | 0 <= i < |top| :: x.1 <= top[i].1
  {
    Ranking.SortDescSpec(pairs, WeightKey);
    var sorted := Ranking.SortDesc(pairs, WeightKey);
    var n := AtLeastOne(topn);
    PrefixHeaviest(sorted, if n < |sorted| then n else |sorted|);
  }

  /** A prefix of a list sorted by decreasing weight is sorted, and weighs
      at least as much, element for element, as whatever it leaves out. */
  lemma PrefixHeaviest(sorted: seq<(string, real)>, n: nat)
    requires n <= |sorted| && Ranking.NonIncreasing(sorted, WeightKey)
    ensures Ranking.NonIncreasing(sorted[..n], WeightKey)
    ensures multiset(sorted[..n]) <= multiset(sorted)
    ensures forall x | x in multiset(sorted) - multiset(sorted[..n]) :: forall i | 0 <= i < n :: x.1 <= sorted[i].1
  {
    var top, rest := sorted[..n], sorted[n..];
    assert sorted == top + rest;
    assert multiset(sorted) == multiset(top) + multiset(rest);
    forall x | x in multiset(sorted) - multiset(top)
      ensures forall i | 0 <= i < n :: x.1 <= sorted[i].1
    {
      assert x in multiset(rest);
      var j :| 0 <= j < |rest| && rest[j] == x;
      assert sorted[n + j] == x;
    }
  }

  /** `sum(w for _, w in items) or 1.0`: a zero sum is replaced by 1, so
      the ratios can always be formed. */
  function Subtotal(items: seq<(string, real)>): (r: real)
    ensures r != 0.0
  {
    var s := Ranking.KeySum(items, WeightKey);
    if s == 0.0 then 1.0 else s
  }

  // ---------------------------------------------------------------------
  // Smoothing

  /** `round(_ema(prev.get(k, v), v, alpha), 3)` */
  function SmoothedValue(v: real, prev: Dict<string, real>, k: string, alpha: real): real {
    RoundPlaces(Ema(GetOr(prev, k, v), v, alpha), 3)
  }

  /** Every entry of `p` smoothed toward the previous output. */
  function Smoothed(p: Dict<string, real>, prev: Dict<string, real>, alpha: real): Dict<string, real> {
    Dict(p.keys, map k | k in p.vals :: SmoothedValue(p.vals[k], prev, k, alpha))
  }

  /** The smoothing loop of both generators: each listed key is overwritten
      once, from the value it had before the loop. */
  method Smooth(p: Dict<string, real>, prev: Dict<string, real>, alpha: real) returns (r: Dict<string, real>)
    requires Valid(p)
    ensures r == Smoothed(p, prev, alpha)
  {
    r := p;
    for i := 0 to |p.keys|
      invariant r.keys == p.keys && r.vals.Keys == p.vals.Keys
      invariant forall j | 0 <= j < i :: r.vals[p.keys[j]] == SmoothedValue(p.vals[p.keys[j]], prev, p.keys[j], alpha)
      invariant forall j | i <= j < |p.keys| :: r.vals[p.keys[j]] == p.vals[p.keys[j]]
    {
      var k := p.keys[i];
      var v := r.vals[k];
      r := Put(r, k, SmoothedValue(v, prev, k, alpha));
    }
    forall k | k in r.vals ensures r.vals[k] == Smoothed(p, prev, alpha).vals[k] {
      var j :| 0 <= j < |p.keys| && p.keys[j] == k;
    }
    assert r.vals == Smoothed(p, prev, alpha).vals;
  }

  /** Smoothing keeps the keys; with `0 <= alpha <= 1` each value lies
      between the rounded previous and current values, and a key without a
      previous value is only re-rounded. */
  lemma SmoothedSpec(p: Dict<string, real>, prev: Dict<string, real>, alpha: real)
    requires Valid(p)
    ensures Valid(Smoothed(p, prev, alpha)) && Smoothed(p, prev, alpha).keys == p.keys
    ensures forall k | k in p.vals && k !in prev.vals :: Smoothed(p, prev, alpha).vals[k] == RoundPlaces(p.vals[k], 3)
    ensures 0.0 <= alpha <= 1.0 ==> forall k | k in p.vals ::
      RoundPlaces(Min(GetOr(prev, k, p.vals[k]), p.vals[k]), 3) <= Smoothed(p, prev, alpha).vals[k]
        <= RoundPlaces(Max(GetOr(prev, k, p.vals[k]), p.vals[k]), 3)
  {
    forall k | k in p.vals
      ensures k !in prev.vals ==> Smoothed(p, prev, alpha).vals[k] == RoundPlaces(p.vals[k], 3)
      ensures 0.0 <= alpha <= 1.0 ==>
        RoundPlaces(Min(GetOr(prev, k, p.vals[k]), p.vals[k]), 3) <= Smoothed(p, prev, alpha).vals[k]
          <= RoundPlaces(Max(GetOr(prev, k, p.vals[k]), p.vals[k]), 3)
    {
      var v, q := p.vals[k], GetOr(prev, k, p.vals[k]);
      if k !in prev.vals {
        assert Ema(v, v, alpha) == v;
      }
      if 0.0 <= alpha <= 1.0 {
        EmaBetween(q, v, alpha);
        RoundPlacesMonotone(Min(q, v), Ema(q, v, alpha), 3);
        RoundPlacesMonotone(Ema(q, v, alpha), Max(q, v), 3);
      }
    }
  }

  /** Smoothing between two values inside bounds that `round(x, 3)`
      leaves unchanged stays inside them. */
  lemma SmoothedWithin(v: real, prev: Dict<string, real>, k: string, alpha: real, lo: real, hi: real)
    requires 0.0 <= alpha <= 1.0
    requires RoundPlaces(lo, 3) == lo && RoundPlaces(hi, 3) == hi
    requires lo <= v <= hi
    requires k in prev.vals ==> lo <= prev.vals[k] <= hi
    ensures lo <= SmoothedValue(v, prev, k, alpha) <= hi
  {
    EmaBetween(GetOr(prev, k, v), v, alpha);
    RoundPlacesKeeps(Ema(GetOr(prev, k, v), v, alpha), 3, lo, hi);
  }
}

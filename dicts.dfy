/** A model of a Python `dict`: the keys in insertion order, and the value
    of each key.  Assigning to a key that is already present keeps its
    position; a new key goes to the end. */
module Dicts {
  import opened Wrappers

  datatype Dict<K, V> = Dict(keys: seq<K>, vals: map<K, V>)

  predicate Distinct<K(==)>(s: seq<K>) {
    forall i, j | 0 <= i < j < |s| :: s[i] != s[j]
  }

  /** Every dict the model builds: no key is listed twice, and the keys
      with a value are exactly the listed ones. */
  ghost predicate Valid<K, V>(d: Dict<K, V>) {
    && Distinct(d.keys)
    && (forall k | k in d.vals :: k in d.keys)
    && (forall i | 0 <= i < |d.keys| :: d.keys[i] in d.vals)
  }

  function Empty<K, V>(): (d: Dict<K, V>)
    ensures Valid(d) && |d.keys| == 0
  {
    Dict([], map[])
  }

  /** `d.get(k)` */
  function Get<K(==), V>(d: Dict<K, V>, k: K): Option<V> {
    if k in d.vals then Some(d.vals[k]) else None
  }

  /** `d.get(k, default)` */
  function GetOr<K(==), V>(d: Dict<K, V>, k: K, default: V): V {
    if k in d.vals then d.vals[k] else default
  }

  /** `d[k] = v` */
  function Put<K(==), V>(d: Dict<K, V>, k: K, v: V): Dict<K, V> {
    if k in d.vals then Dict(d.keys, d.vals[k := v])
    else Dict(d.keys + [k], d.vals[k := v])
  }

  /** An assignment keeps a dict valid, sets `k`, and leaves every other
      key where it was, with its value; a new key goes to the end. */
  lemma PutValid<K, V>(d: Dict<K, V>, k: K, v: V)
    requires Valid(d)
    ensures Valid(Put(d, k, v))
    ensures k in Put(d, k, v).vals && Put(d, k, v).vals[k] == v
    ensures forall j | j != k :: (j in Put(d, k, v).vals <==> j in d.vals)
    ensures forall j | j != k && j in d.vals :: Put(d, k, v).vals[j] == d.vals[j]
    ensures k in d.vals ==> Put(d, k, v).keys == d.keys
    ensures k !in d.vals ==> Put(d, k, v).keys == d.keys + [k]
  {
  }

  /** Assigning a key that is not listed appends it. */
  lemma PutNew<K, V>(d: Dict<K, V>, k: K, v: V)
    requires Valid(d) && k !in d.keys
    ensures Valid(Put(d, k, v)) && Put(d, k, v).keys == d.keys + [k]
  {
  }

  /** `list(d.values())` */
  function Values<K, V>(d: Dict<K, V>): seq<V>
    requires Valid(d)
  {
    seq(|d.keys|, i requires 0 <= i < |d.keys| => d.vals[d.keys[i]])
  }

  function SumSeq(s: seq<real>): real {
    if s == [] then 0.0 else SumSeq(s[..|s| - 1]) + s[|s| - 1]
  }

  /** The values of a dict of reals in key order; a key without a value,
      which a valid dict does not have, would count as 0. */
  function RealValues<K(==)>(d: Dict<K, real>): seq<real> {
    seq(|d.keys|, i requires 0 <= i < |d.keys| => GetOr(d, d.keys[i], 0.0))
  }

  /** `sum(d.values())` */
  function Sum<K(==)>(d: Dict<K, real>): real {
    SumSeq(RealValues(d))
  }

  /** A dict literal whose keys and values are listed side by side. */
  function FromParallel<K(==), V>(ks: seq<K>, vs: seq<V>): (d: Dict<K, V>)
    requires |ks| == |vs| && Distinct(ks)
    ensures Valid(d) && d.keys == ks
    ensures forall i | 0 <= i < |ks| :: ks[i] in d.vals && d.vals[ks[i]] == vs[i]
  {
    var m := map i | 0 <= i < |ks| :: ks[i] := vs[i];
    assert forall k | k in m :: exists i :: 0 <= i < |ks| && ks[i] == k;
    Dict(ks, m)
  }

  lemma SumSeqAppend(s: seq<real>, t: seq<real>)
    ensures SumSeq(s + t) == SumSeq(s) + SumSeq(t)
    decreases |t|
  {
    if t == [] {
      assert s + t == s;
    } else {
      assert (s + t)[..|s + t| - 1] == s + t[..|t| - 1];
      SumSeqAppend(s, t[..|t| - 1]);
    }
  }

  lemma SumSeqNonNeg(s: seq<real>)
    requires forall i | 0 <= i < |s| :: s[i] >= 0.0
    ensures SumSeq(s) >= 0.0
  {
    if s != [] {
      SumSeqNonNeg(s[..|s| - 1]);
    }
  }

  /** `{v: k for k, v in d.items()}` over the first `n` items. */
  function InvertUpTo<K, V(==)>(d: Dict<K, V>, n: nat): Dict<V, K>
    requires Valid(d) && n <= |d.keys|
  {
    if n == 0 then Empty()
    else Put(InvertUpTo(d, n - 1), d.vals[d.keys[n - 1]], d.keys[n - 1])
  }

  /** `{v: k for k, v in d.items()}` */
  function Invert<K, V(==)>(d: Dict<K, V>): Dict<V, K>
    requires Valid(d)
  {
    InvertUpTo(d, |d.keys|)
  }

  /** No two keys of `d` share a value. */
  predicate DistinctValues<K, V(==)>(d: Dict<K, V>)
    requires Valid(d)
  {
    forall i, j | 0 <= i < j < |d.keys| :: d.vals[d.keys[i]] != d.vals[d.keys[j]]
  }

  /** The value of key `n` is none of the values of the keys before it. */
  lemma FreshValue<K, V>(d: Dict<K, V>, vs: seq<V>, n: nat)
    requires Valid(d) && n < |d.keys| && DistinctValues(d)
    requires |vs| == n && forall i | 0 <= i < n :: vs[i] == d.vals[d.keys[i]]
    ensures d.vals[d.keys[n]] !in vs
  {
    forall i | 0 <= i < n ensures vs[i] != d.vals[d.keys[n]] {
      assert vs[i] == d.vals[d.keys[i]];
    }
  }

  lemma {:induction false} InvertUpToKeys<K, V>(d: Dict<K, V>, n: nat)
    requires Valid(d) && n <= |d.keys| && DistinctValues(d)
    ensures Valid(InvertUpTo(d, n))
    ensures |InvertUpTo(d, n).keys| == n
    ensures forall i | 0 <= i < n :: InvertUpTo(d, n).keys[i] == d.vals[d.keys[i]]
  {
    if n > 0 {
      InvertUpToKeys(d, n - 1);
      var prior := InvertUpTo(d, n - 1);
      var k := d.keys[n - 1];
      var v := d.vals[k];
      FreshValue(d, prior.keys, n - 1);
      PutNew(prior, v, k);
      var r := InvertUpTo(d, n);
      assert r == Put(prior, v, k);
      assert r.keys == prior.keys + [v];
      forall i | 0 <= i < n ensures r.keys[i] == d.vals[d.keys[i]] {
        if i < n - 1 {
          assert r.keys[i] == prior.keys[i];
        }
      }
    }
  }

  lemma {:induction false} InvertUpToVals<K, V>(d: Dict<K, V>, n: nat)
    requires Valid(d) && n <= |d.keys| && DistinctValues(d)
    ensures forall i | 0 <= i < n :: d.vals[d.keys[i]] in InvertUpTo(d, n).vals && InvertUpTo(d, n).vals[d.vals[d.keys[i]]] == d.keys[i]
  {
    if n > 0 {
      InvertUpToVals(d, n - 1);
      var v := d.vals[d.keys[n - 1]];
      forall i | 0 <= i < n - 1 ensures d.vals[d.keys[i]] != v {
      }
    }
  }

  /** When no two keys share a value, the inverted dict lists the values in
      key order, and each maps back to its key. */
  lemma InvertSpec<K, V>(d: Dict<K, V>)
    requires Valid(d) && DistinctValues(d)
    ensures Valid(Invert(d))
    ensures Invert(d).keys == Values(d)
    ensures forall k | k in d.vals :: d.vals[k] in Invert(d).vals && Invert(d).vals[d.vals[k]] == k
    ensures forall v | v in Invert(d).vals :: Invert(d).vals[v] in d.vals && d.vals[Invert(d).vals[v]] == v
  {
    InvertUpToKeys(d, |d.keys|);
    InvertUpToVals(d, |d.keys|);
    var r := Invert(d);
    forall k | k in d.vals ensures d.vals[k] in r.vals && r.vals[d.vals[k]] == k {
      var i :| 0 <= i < |d.keys| && d.keys[i] == k;
    }
    forall v | v in r.vals ensures r.vals[v] in d.vals && d.vals[r.vals[v]] == v {
      var i :| 0 <= i < |r.keys| && r.keys[i] == v;
    }
  }

  /** `{k: f(v) for k, v in d.items()}` */
  function MapValues<K, V, W>(d: Dict<K, V>, f: V -> W): (r: Dict<K, W>)
    ensures r.keys == d.keys
    ensures r.vals.Keys == d.vals.Keys
    ensures forall k | k in d.vals :: r.vals[k] == f(d.vals[k])
    ensures Valid(d) ==> Valid(r)
  {
    Dict(d.keys, map k | k in d.vals :: f(d.vals[k]))
  }

  /** `{k: f(k) for k in ks}` for distinct `ks`. */
  function FromKeys<K(==), V>(ks: seq<K>, f: K -> V): (r: Dict<K, V>)
    requires Distinct(ks)
    ensures Valid(r) && r.keys == ks
    ensures forall i | 0 <= i < |ks| :: ks[i] in r.vals && r.vals[ks[i]] == f(ks[i])
  {
    FromParallel(ks, seq(|ks|, i requires 0 <= i < |ks| => f(ks[i])))
  }

  /** Two valid dicts with the same keys in the same order and the same
      values are the same dict. */
  lemma Extensional<K, V>(a: Dict<K, V>, b: Dict<K, V>)
    requires Valid(a) && Valid(b) && a.keys == b.keys
    requires forall k | k in a.vals :: a.vals[k] == b.vals[k]
    ensures a == b
  {
    assert a.vals == b.vals;
  }

  /** `d[ks[0]] = f(ks[0]); ...; d[ks[n-1]] = f(ks[n-1])` into an empty
      dict: a loop-built comprehension over the first `n` keys. */
  function BuildUpTo<K(==), V>(ks: seq<K>, n: nat, f: K -> V): Dict<K, V>
    requires n <= |ks|
  {
    if n == 0 then Empty() else Put(BuildUpTo(ks, n - 1, f), ks[n - 1], f(ks[n - 1]))
  }

  /** Over distinct keys the loop-built dict lists exactly those keys, in
      order, each with its value. */
  lemma {:induction false} BuildSpec<K, V>(ks: seq<K>, n: nat, f: K -> V)
    requires n <= |ks| && Distinct(ks)
    ensures Valid(BuildUpTo(ks, n, f)) && BuildUpTo(ks, n, f).keys == ks[..n]
    ensures forall i | 0 <= i < n :: ks[i] in BuildUpTo(ks, n, f).vals && BuildUpTo(ks, n, f).vals[ks[i]] == f(ks[i])
  {
    if n > 0 {
      BuildSpec(ks, n - 1, f);
      assert ks[..n] == ks[..n - 1] + [ks[n - 1]];
      forall i | 0 <= i < n - 1 ensures ks[i] != ks[n - 1] {
      }
      PutNew(BuildUpTo(ks, n - 1, f), ks[n - 1], f(ks[n - 1]));
    }
  }
}

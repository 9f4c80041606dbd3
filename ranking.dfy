/** Python's `max(xs, key=...)`, which keeps the first of several equal
    maxima, and `sorted(xs, key=..., reverse=True)`, which is stable: equal
    keys keep their order. */
module Ranking {
  /** The position `max` returns over the keys `xs`: it scans from the
      left and moves only to a strictly greater key. */
  function FirstMaxIndex(xs: seq<real>): (i: nat)
    requires |xs| > 0
    ensures i < |xs|
    ensures forall j | 0 <= j < |xs| :: xs[j] <= xs[i]
    ensures forall j | 0 <= j < i :: xs[j] < xs[i]
  {
    if |xs| == 1 then 0
    else
      var j := FirstMaxIndex(xs[..|xs| - 1]);
      if xs[|xs| - 1] > xs[j] then |xs| - 1 else j
  }

  /** The one-step form of `FirstMaxIndex` that a scanning loop keeps. */
  lemma FirstMaxStep(xs: seq<real>, n: nat)
    requires 1 <= n < |xs|
    ensures FirstMaxIndex(xs[..n + 1]) ==
      (if xs[n] > xs[FirstMaxIndex(xs[..n])] then n else FirstMaxIndex(xs[..n]))
  {
    assert xs[..n + 1][..n] == xs[..n];
  }

  /** Inserting `x` into a list sorted by decreasing key: after every
      element whose key is at least `key(x)`. */
  function Insert<T>(t: seq<T>, x: T, key: T -> real): seq<T> {
    if t == [] then [x]
    else if key(t[0]) < key(x) then [x] + t
    else [t[0]] + Insert(t[1..], x, key)
  }

  /** `sorted(s, key=key, reverse=True)` */
  function SortDesc<T>(s: seq<T>, key: T -> real): seq<T> {
    if s == [] then [] else Insert(SortDesc(s[..|s| - 1], key), s[|s| - 1], key)
  }

  predicate NonIncreasing<T>(t: seq<T>, key: T -> real) {
    forall i, j | 0 <= i < j < |t| :: key(t[i]) >= key(t[j])
  }

  /** The elements of `t` whose key is `v`, in order. */
  function KeyFilter<T>(t: seq<T>, key: T -> real, v: real): seq<T> {
    if t == [] then [] else (if key(t[0]) == v then [t[0]] else []) + KeyFilter(t[1..], key, v)
  }

  /** The sum of the keys of `t`. */
  function KeySum<T>(t: seq<T>, key: T -> real): real {
    if t == [] then 0.0 else key(t[0]) + KeySum(t[1..], key)
  }

  lemma {:induction false} KeyFilterAppend<T>(a: seq<T>, b: seq<T>, key: T -> real, v: real)
    ensures KeyFilter(a + b, key, v) == KeyFilter(a, key, v) + KeyFilter(b, key, v)
  {
    if a == [] {
      assert a + b == b;
    } else {
      var h := if key(a[0]) == v then [a[0]] else [];
      var fa, fb := KeyFilter(a[1..], key, v), KeyFilter(b, key, v);
      assert (a + b)[0] == a[0];
      assert (a + b)[1..] == a[1..] + b;
      KeyFilterAppend(a[1..], b, key, v);
      assert KeyFilter(a + b, key, v) == h + (fa + fb);
      assert h + (fa + fb) == (h + fa) + fb;
    }
  }

  lemma {:induction false} KeySumAppend<T>(a: seq<T>, b: seq<T>, key: T -> real)
    ensures KeySum(a + b, key) == KeySum(a, key) + KeySum(b, key)
  {
    if a == [] {
      assert a + b == b;
    } else {
      assert (a + b)[0] == a[0];
      assert (a + b)[1..] == a[1..] + b;
      KeySumAppend(a[1..], b, key);
    }
  }

  lemma {:induction false} KeyFilterNone<T>(t: seq<T>, key: T -> real, v: real)
    requires forall i | 0 <= i < |t| :: key(t[i]) < v
    ensures KeyFilter(t, key, v) == []
  {
    if t != [] {
      KeyFilterNone(t[1..], key, v);
    }
  }

  /** Insertion adds exactly `x`, and adds `key(x)` to the key sum. */
  lemma {:induction false} InsertPerm<T>(t: seq<T>, x: T, key: T -> real)
    ensures multiset(Insert(t, x, key)) == multiset(t) + multiset{x}
    ensures KeySum(Insert(t, x, key), key) == KeySum(t, key) + key(x)
  {
    if t != [] && key(t[0]) >= key(x) {
      InsertPerm(t[1..], x, key);
      assert t == [t[0]] + t[1..];
      assert ([t[0]] + Insert(t[1..], x, key))[1..] == Insert(t[1..], x, key);
    } else if t != [] {
      assert ([x] + t)[1..] == t;
    }
  }

  /** Insertion keeps the list sorted. */
  lemma {:induction false} InsertSorted<T>(t: seq<T>, x: T, key: T -> real)
    requires NonIncreasing(t, key)
    ensures NonIncreasing(Insert(t, x, key), key)
  {
    if t != [] && key(t[0]) >= key(x) {
      var rest := Insert(t[1..], x, key);
      InsertSorted(t[1..], x, key);
      InsertPerm(t[1..], x, key);
      var r := [t[0]] + rest;
      forall j | 0 < j < |r| ensures key(r[0]) >= key(r[j]) {
        assert r[j] == rest[j - 1];
        assert r[j] in multiset(t[1..]) + multiset{x};
        if r[j] != x {
          var k :| 0 <= k < |t[1..]| && t[1..][k] == r[j];
          assert t[k + 1] == r[j];
        }
      }
    }
  }

  /** Insertion puts `x` after the elements of equal key. */
  lemma {:induction false} InsertFilter<T>(t: seq<T>, x: T, key: T -> real, v: real)
    requires NonIncreasing(t, key)
    ensures KeyFilter(Insert(t, x, key), key, v) == KeyFilter(t, key, v) + (if key(x) == v then [x] else [])
  {
    var e := if key(x) == v then [x] else [];
    if t == [] {
    } else if key(t[0]) < key(x) {
      assert ([x] + t)[0] == x;
      assert ([x] + t)[1..] == t;
      assert KeyFilter(Insert(t, x, key), key, v) == e + KeyFilter(t, key, v);
      if key(x) == v {
        KeyFilterNone(t, key, v);
      }
    } else {
      var rest := Insert(t[1..], x, key);
      var h := if key(t[0]) == v then [t[0]] else [];
      var ft := KeyFilter(t[1..], key, v);
      assert NonIncreasing(t[1..], key) by {
        forall i, j | 0 <= i < j < |t[1..]| ensures key(t[1..][i]) >= key(t[1..][j]) {
          assert t[1..][i] == t[i + 1] && t[1..][j] == t[j + 1];
        }
      }
      InsertFilter(t[1..], x, key, v);
      assert ([t[0]] + rest)[0] == t[0];
      assert ([t[0]] + rest)[1..] == rest;
      assert KeyFilter(Insert(t, x, key), key, v) == h + (ft + e);
      assert h + (ft + e) == (h + ft) + e;
    }
  }

  /** The stable descending sort: a permutation, sorted by decreasing key,
      with the elements of each key in their original order, and the same
      key sum. */
  lemma {:induction false} SortDescSpec<T>(s: seq<T>, key: T -> real)
    ensures NonIncreasing(SortDesc(s, key), key)
    ensures multiset(SortDesc(s, key)) == multiset(s)
    ensures forall v :: KeyFilter(SortDesc(s, key), key, v) == KeyFilter(s, key, v)
    ensures KeySum(SortDesc(s, key), key) == KeySum(s, key)
  {
    if s != [] {
      var init, last := s[..|s| - 1], s[|s| - 1];
      SortDescSpec(init, key);
      InsertSorted(SortDesc(init, key), last, key);
      InsertPerm(SortDesc(init, key), last, key);
      assert s == init + [last];
      forall v ensures KeyFilter(SortDesc(s, key), key, v) == KeyFilter(s, key, v) {
        InsertFilter(SortDesc(init, key), last, key, v);
        KeyFilterAppend(init, [last], key, v);
      }
      KeySumAppend(init, [last], key);
    }
  }

  /** A prefix of a list with non-negative keys has no larger key sum. */
  lemma {:induction false} KeySumPrefix<T>(t: seq<T>, n: nat, key: T -> real)
    requires n <= |t| && forall i | 0 <= i < |t| :: key(t[i]) >= 0.0
    ensures KeySum(t[..n], key) <= KeySum(t, key)
  {
    if n > 0 {
      assert t[..n][1..] == t[1..][..n - 1];
      KeySumPrefix(t[1..], n - 1, key);
    } else {
      KeySumNonNeg(t, key);
    }
  }

  lemma {:induction false} KeySumNonNeg<T>(t: seq<T>, key: T -> real)
    requires forall i | 0 <= i < |t| :: key(t[i]) >= 0.0
    ensures KeySum(t, key) >= 0.0
  {
    if t != [] {
      KeySumNonNeg(t[1..], key);
    }
  }
}

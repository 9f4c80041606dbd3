/** Numeric helpers shared by the emotion engine and the two expression
    generators: clamping, exponential smoothing, and Python's `round`,
    which rounds halves to the nearest even number. */
module VectorMath {
  function Max(a: real, b: real): real {
    if a >= b then a else b
  }

  function Min(a: real, b: real): real {
    if a <= b then a else b
  }

  /** `abs(x)` */
  function Abs(x: real): real {
    if x < 0.0 then -x else x
  }

  /** `max(lo, min(hi, x))` */
  function Clip(x: real, lo: real, hi: real): (r: real)
    ensures lo <= hi ==> lo <= r <= hi
    ensures lo <= x <= hi ==> r == x
  {
    Max(lo, Min(hi, x))
  }

  /** `alpha * cur + (1 - alpha) * prev` */
  function Ema(prev: real, cur: real, alpha: real): real {
    alpha * cur + (1.0 - alpha) * prev
  }

  lemma ScaleBetween(alpha: real, d: real)
    requires 0.0 <= alpha <= 1.0 && d >= 0.0
    ensures 0.0 <= alpha * d <= d
  {
    assert d - alpha * d == (1.0 - alpha) * d;
    assert (1.0 - alpha) * d >= 0.0;
  }

  /** A smoothed value lies between the previous and the current value. */
  lemma EmaBetween(prev: real, cur: real, alpha: real)
    requires 0.0 <= alpha <= 1.0
    ensures Min(prev, cur) <= Ema(prev, cur, alpha) <= Max(prev, cur)
    ensures alpha == 1.0 ==> Ema(prev, cur, alpha) == cur
    ensures prev == cur ==> Ema(prev, cur, alpha) == cur
  {
    assert Ema(prev, cur, alpha) == prev + alpha * (cur - prev);
    if prev <= cur {
      ScaleBetween(alpha, cur - prev);
    } else {
      ScaleBetween(alpha, prev - cur);
      assert alpha * (cur - prev) == -(alpha * (prev - cur));
    }
  }

  /** `round(x)`: the nearest integer, halves going to the even one. */
  function RoundHalfEven(x: real): int {
    var f := x.Floor;
    var frac := x - f as real;
    if frac < 0.5 then f
    else if frac > 0.5 then f + 1
    else if f % 2 == 0 then f
    else f + 1
  }

  lemma RoundNear(x: real)
    ensures x - 0.5 <= RoundHalfEven(x) as real <= x + 0.5
  {
  }

  lemma RoundOfInt(n: int)
    ensures RoundHalfEven(n as real) == n
  {
  }

  lemma RoundMonotone(x: real, y: real)
    requires x <= y
    ensures RoundHalfEven(x) <= RoundHalfEven(y)
  {
    var fx, fy := x.Floor, y.Floor;
    if fx == fy {
    } else {
      assert fx < fy;
    }
  }

  /** A value between two integers rounds to a value between them. */
  lemma RoundWithin(x: real, lo: int, hi: int)
    requires lo as real <= x <= hi as real
    ensures lo <= RoundHalfEven(x) <= hi
  {
    RoundMonotone(lo as real, x);
    RoundMonotone(x, hi as real);
    RoundOfInt(lo);
    RoundOfInt(hi);
  }

  function Pow10(p: nat): (r: nat)
    ensures r >= 1
  {
    if p == 0 then 1 else 10 * Pow10(p - 1)
  }

  function Scale(p: nat): (s: real)
    ensures s >= 1.0
  {
    Pow10(p) as real
  }

  /** `round(x, p)` */
  function RoundPlaces(x: real, p: nat): real {
    RoundHalfEven(x * Scale(p)) as real / Scale(p)
  }

  lemma RoundPlacesMonotone(x: real, y: real, p: nat)
    requires x <= y
    ensures RoundPlaces(x, p) <= RoundPlaces(y, p)
  {
    assert x * Scale(p) <= y * Scale(p) by {
      assert (y - x) * Scale(p) >= 0.0;
    }
    RoundMonotone(x * Scale(p), y * Scale(p));
    DivMonotone(RoundHalfEven(x * Scale(p)) as real, RoundHalfEven(y * Scale(p)) as real, Scale(p));
  }

  lemma DivMonotone(a: real, b: real, s: real)
    requires a <= b && s > 0.0
    ensures a / s <= b / s
  {
    assert b / s - a / s == (b - a) / s;
  }

  lemma IntTimes(k: int, n: nat)
    requires n >= 1
    ensures k as real * n as real == (k * n) as real
    ensures (k * n) as real / n as real == k as real
  {
  }

  lemma RoundPlacesOfInt(k: int, p: nat)
    ensures RoundPlaces(k as real, p) == k as real
  {
    IntTimes(k, Pow10(p));
    assert Scale(p) == Pow10(p) as real;
    assert k as real * Scale(p) == (k * Pow10(p)) as real;
    RoundOfInt(k * Pow10(p));
    assert RoundHalfEven(k as real * Scale(p)) == k * Pow10(p);
  }

  /** `round(x, p)` keeps a value between two bounds that rounding to p
      places leaves unchanged. */
  lemma RoundPlacesKeeps(x: real, p: nat, lo: real, hi: real)
    requires lo <= x <= hi
    requires RoundPlaces(lo, p) == lo && RoundPlaces(hi, p) == hi
    ensures lo <= RoundPlaces(x, p) <= hi
  {
    RoundPlacesMonotone(lo, x, p);
    RoundPlacesMonotone(x, hi, p);
  }

  /** `round(x, p)` keeps a value that lies between two integers between
      them. */
  lemma RoundPlacesWithin(x: real, p: nat, lo: int, hi: int)
    requires lo as real <= x <= hi as real
    ensures lo as real <= RoundPlaces(x, p) <= hi as real
  {
    RoundPlacesOfInt(lo, p);
    RoundPlacesOfInt(hi, p);
    RoundPlacesKeeps(x, p, lo as real, hi as real);
  }

  /** A number of thousandths is its own `round(x, 3)`. */
  lemma RoundThousandths(k: int)
    ensures RoundPlaces(k as real / 1000.0, 3) == k as real / 1000.0
  {
    var x := k as real / 1000.0;
    assert Pow10(3) == 1000;
    assert Scale(3) == 1000.0;
    assert x * Scale(3) == k as real;
    RoundOfInt(k);
    assert RoundHalfEven(x * Scale(3)) == k;
    assert RoundPlaces(x, 3) == k as real / Scale(3);
  }
}

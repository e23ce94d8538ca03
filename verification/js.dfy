/** The small part of the JavaScript runtime the engine relies on, stated over
    Dafny's exact reals: absent values, non-finite numbers, Math.min/max
    clamping, Math.round, Number.prototype.toFixed and Array.prototype.slice. */
module Js {

  /** An optional value: `undefined`/`null` is None. */
  datatype Option<+T> = None | Some(value: T) {
    function GetOr(default: T): T {
      match this
      case Some(v) => v
      case None => default
    }
  }

  /** The outcome of a call that may throw. */
  datatype Result<+T, +E> = Ok(value: T) | Err(error: E)

  /** A JavaScript number as the source inspects it: either finite, or one of
      NaN, +Infinity, -Infinity (which the source never tells apart). */
  datatype Num = Finite(value: real) | NonFinite

  /** `a / b` on JavaScript numbers: division by zero is never finite. */
  function Divide(a: real, b: real): (r: Num)
    ensures r.Finite? <==> b != 0.0
    ensures r.Finite? ==> r.value * b == a
  {
    if b == 0.0 then NonFinite else Finite(a / b)
  }

  function Min(a: real, b: real): real { if a <= b then a else b }
  function Max(a: real, b: real): real { if a >= b then a else b }

  /** `Math.max(lo, Math.min(hi, x))`, the clamp every source file writes. */
  function Clamp(x: real, lo: real, hi: real): (r: real)
    requires lo <= hi
    ensures lo <= r <= hi
    ensures lo <= x <= hi ==> r == x
    ensures x < lo ==> r == lo
    ensures hi < x ==> r == hi
  {
    Max(lo, Min(hi, x))
  }

  lemma ClampMonotone(x: real, y: real, lo: real, hi: real)
    requires lo <= hi && x <= y
    ensures Clamp(x, lo, hi) <= Clamp(y, lo, hi)
  {}

  /** 10^k. */
  function Pow10(k: nat): (r: nat)
    ensures r >= 1
  {
    if k == 0 then 1 else 10 * Pow10(k - 1)
  }

  lemma Pow10Values()
    ensures Pow10(0) == 1 && Pow10(1) == 10 && Pow10(2) == 100 && Pow10(4) == 10000
  {
    assert Pow10(2) == 100;
    assert Pow10(4) == 10 * Pow10(3) == 10000;
  }

  /** toFixed(k) for the k the source uses, within half a step. */
  lemma RoundToErrorSmall(x: real)
    ensures -0.5 <= RoundTo(x, 0) - x <= 0.5
    ensures -0.05 <= RoundTo(x, 1) - x <= 0.05
    ensures -0.005 <= RoundTo(x, 2) - x <= 0.005
    ensures -0.00005 <= RoundTo(x, 4) - x <= 0.00005
  {
    Pow10Values();
    RoundToError(x, 0);
    RoundToError(x, 1);
    RoundToError(x, 2);
    RoundToError(x, 4);
  }

  /** `Math.round`: the nearest integer, halves rounded towards +Infinity. */
  function MathRound(x: real): (r: int)
    ensures x - 0.5 < r as real <= x + 0.5
  {
    (x + 0.5).Floor
  }

  /** `Number(x.toFixed(k))`: x rounded to k decimals, halves rounded away
      from zero (toFixed works on |x| and restores the sign). */
  function RoundTo(x: real, k: nat): real
  {
    var p := Pow10(k) as real;
    if x >= 0.0 then RoundHalfUp(x, p) else -RoundHalfUp(-x, p)
  }

  /** The nearest multiple of 1/p to a non-negative y, halves upwards. */
  function RoundHalfUp(y: real, p: real): real
    requires p > 0.0
  {
    (y * p + 0.5).Floor as real / p
  }

  lemma FloorMonotone(a: real, b: real)
    requires a <= b
    ensures a.Floor <= b.Floor
  {}

  lemma FloorOfHalfAbove(q: int)
    ensures (q as real + 0.5).Floor == q
  {}

  lemma MulMonotone(a: real, b: real, p: real)
    requires p >= 0.0 && a <= b
    ensures a * p <= b * p
  {}

  lemma DivMonotone(a: real, b: real, p: real)
    requires p > 0.0 && a <= b
    ensures a / p <= b / p
  {
    assert b / p - a / p == (b - a) / p;
  }

  lemma MulDivCancel(n: real, p: real)
    requires p > 0.0
    ensures (n * p) / p == n
  {}

  lemma {:induction false} RoundHalfUpMonotone(x: real, y: real, p: real)
    requires p > 0.0 && 0.0 <= x <= y
    ensures RoundHalfUp(x, p) <= RoundHalfUp(y, p)
  {
    MulMonotone(x, y, p);
    FloorMonotone(x * p + 0.5, y * p + 0.5);
    DivMonotone((x * p + 0.5).Floor as real, (y * p + 0.5).Floor as real, p);
  }

  /** Rounding a value that lands on a whole number of steps changes nothing. */
  lemma RoundHalfUpOfMultiple(y: real, p: real, q: int)
    requires p > 0.0 && y * p == q as real
    ensures RoundHalfUp(y, p) == q as real / p
  {
    FloorOfHalfAbove(q);
  }

  lemma IntProduct(n: int, p: int)
    ensures (n as real) * (p as real) == (n * p) as real
  {}

  function Abs(x: real): real { if x < 0.0 then -x else x }

  /** y * p is a whole number: y is a whole number of steps of 1/p. */
  predicate Scaled(y: real, p: real)
  {
    (y * p).Floor as real == y * p
  }

  /** x is a whole number of steps of 10^-k: what toFixed(k) can print. */
  predicate OnGrid(x: real, k: nat)
  {
    Scaled(x, Pow10(k) as real)
  }

  lemma DivMulCancel(f: real, p: real)
    requires p > 0.0
    ensures (f / p) * p == f
  {}

  lemma NegScaled(r: real, p: real)
    requires Scaled(r, p)
    ensures Scaled(-r, p)
  {
    var q := (r * p).Floor;
    assert (-r) * p == (-q) as real;
  }

  lemma IntScaled(n: int, m: int)
    ensures Scaled(n as real, m as real)
  {
    IntProduct(n, m);
    assert ((n as real) * (m as real)).Floor == n * m;
  }

  /** Rounding half up to steps of 1/p lands on a step. */
  lemma RoundHalfUpScaled(y: real, p: real)
    requires p > 0.0
    ensures Scaled(RoundHalfUp(y, p), p)
  {
    var f := (y * p + 0.5).Floor;
    DivMulCancel(f as real, p);
    assert RoundHalfUp(y, p) * p == f as real;
  }

  /** A value on a step is rounded to itself. */
  lemma RoundHalfUpOfScaled(y: real, p: real)
    requires p > 0.0 && Scaled(y, p)
    ensures RoundHalfUp(y, p) == y
  {
    var q := (y * p).Floor;
    RoundHalfUpOfMultiple(y, p, q);
    MulDivCancel(y, p);
  }

  /** toFixed(k) prints a whole number of steps of 10^-k. */
  lemma RoundToGrid(x: real, k: nat)
    ensures OnGrid(RoundTo(x, k), k)
  {
    var p := Pow10(k) as real;
    if x >= 0.0 {
      RoundHalfUpScaled(x, p);
    } else {
      RoundHalfUpScaled(-x, p);
      NegScaled(RoundHalfUp(-x, p), p);
    }
  }

  /** A value already on the grid of 10^-k steps is printed as itself. */
  lemma RoundToOnGrid(x: real, k: nat)
    requires OnGrid(x, k)
    ensures RoundTo(x, k) == x
  {
    var p := Pow10(k) as real;
    if x >= 0.0 {
      RoundHalfUpOfScaled(x, p);
    } else {
      NegScaled(x, p);
      RoundHalfUpOfScaled(-x, p);
    }
  }

  lemma SubScaled(x: real, d: real, p: real)
    requires Scaled(x, p) && Scaled(d, p)
    ensures Scaled(x - d, p)
  {
    var a, b := (x * p).Floor, (d * p).Floor;
    assert (x - d) * p == x * p - d * p;
    assert (x - d) * p == (a - b) as real;
  }

  /** Shifting a grid value by a grid value stays on the grid. */
  lemma OnGridSub(x: real, d: real, k: nat)
    requires OnGrid(x, k) && OnGrid(d, k)
    ensures OnGrid(x - d, k)
  {
    SubScaled(x, d, Pow10(k) as real);
  }

  /** Subtracting a grid value from a grid value needs no rounding. */
  lemma RoundToShift(x: real, d: real, k: nat)
    ensures OnGrid(x, k) && OnGrid(d, k) ==> RoundTo(x - d, k) == x - d
  {
    if OnGrid(x, k) && OnGrid(d, k) {
      OnGridSub(x, d, k);
      RoundToOnGrid(x - d, k);
    }
  }

  /** The integer nearest to y, halves upwards: no integer is closer, and
      one as close is smaller. */
  lemma NearestInteger(y: real, n: int)
    ensures var f := (y + 0.5).Floor; Abs(f as real - y) <= Abs(n as real - y)
    ensures var f := (y + 0.5).Floor; n != f && Abs(n as real - y) == Abs(f as real - y) ==> n == f - 1
  {}

  lemma DivAbs(a: real, p: real)
    requires p > 0.0
    ensures Abs(a / p) == Abs(a) / p
  {
    if a < 0.0 {
      assert a / p < 0.0;
      assert -(a / p) == (-a) / p;
    } else {
      assert a / p >= 0.0;
    }
  }

  lemma DivLess(a: real, b: real, p: real)
    requires p > 0.0 && a < b
    ensures a / p < b / p
  {
    assert b / p - a / p == (b - a) / p;
  }

  lemma SubOverP(m: real, x: real, p: real)
    requires p > 0.0
    ensures m / p - x == (m - x * p) / p
  {
    MulDivCancel(x, p);
    assert m / p - (x * p) / p == (m - x * p) / p;
  }

  /** r is a step nearest to x, compared with the step g: g is no nearer,
      and when g is a different step just as near, r is the one further
      from zero. */
  predicate NearestStep(r: real, x: real, g: real)
  {
    && Abs(r - x) <= Abs(g - x)
    && (g != r && Abs(g - x) == Abs(r - x) ==> Abs(g) < Abs(r))
  }

  /** Rounding half up to steps of 1/p is a nearest step to y >= 0, and of
      two equally near steps it is the one further from zero. */
  lemma RoundHalfUpNearest(y: real, p: real, n: int)
    requires y >= 0.0 && p > 0.0
    ensures NearestStep(RoundHalfUp(y, p), y, n as real / p)
  {
    RoundHalfUpNoNearer(y, p, n);
    RoundHalfUpTie(y, p, n);
  }

  lemma RoundHalfUpNoNearer(y: real, p: real, n: int)
    requires y >= 0.0 && p > 0.0
    ensures Abs(RoundHalfUp(y, p) - y) <= Abs(n as real / p - y)
  {
    var yp := y * p;
    var f := (yp + 0.5).Floor;
    assert RoundHalfUp(y, p) == f as real / p;
    NearestInteger(yp, n);
    SubOverP(f as real, y, p);
    SubOverP(n as real, y, p);
    DivAbs(f as real - yp, p);
    DivAbs(n as real - yp, p);
    DivMonotone(Abs(f as real - yp), Abs(n as real - yp), p);
  }

  lemma RoundHalfUpTie(y: real, p: real, n: int)
    requires y >= 0.0 && p > 0.0
    ensures n as real / p != RoundHalfUp(y, p) && Abs(n as real / p - y) == Abs(RoundHalfUp(y, p) - y) ==>
      Abs(n as real / p) < Abs(RoundHalfUp(y, p))
  {
    var yp := y * p;
    var f := (yp + 0.5).Floor;
    var fr, nr := f as real / p, n as real / p;
    assert RoundHalfUp(y, p) == fr;
    if nr != fr && Abs(nr - y) == Abs(fr - y) {
      ScaledDistance(f as real, y, p, yp);
      ScaledDistance(n as real, y, p, yp);
      DivInjective(Abs(n as real - yp), Abs(f as real - yp), p);
      assert yp >= 0.0 by { MulMonotone(0.0, y, p); }
      TieBelow(yp, f, n);
      DivOrderAbs(n as real, f as real, p);
    }
  }

  lemma ScaledDistance(m: real, y: real, p: real, yp: real)
    requires p > 0.0 && yp == y * p
    ensures Abs(m / p - y) == Abs(m - yp) / p
  {
    SubOverP(m, y, p);
    DivAbs(m - yp, p);
  }

  lemma DivInjective(a: real, b: real, p: real)
    requires p > 0.0 && a / p == b / p
    ensures a == b
  {
    DivMulCancel(a, p);
    DivMulCancel(b, p);
  }

  /** Of two integers equally near yp >= 0, the one that is not the rounded
      half-up value lies below it and is non-negative. */
  lemma TieBelow(yp: real, f: int, n: int)
    requires yp >= 0.0 && f == (yp + 0.5).Floor
    requires n != f && Abs(n as real - yp) == Abs(f as real - yp)
    ensures 0 <= n < f
  {
    NearestInteger(yp, n);
  }

  lemma DivOrderAbs(a: real, b: real, p: real)
    requires p > 0.0 && 0.0 <= a < b
    ensures Abs(a / p) < Abs(b / p)
  {
    DivAbs(a, p);
    DivAbs(b, p);
    DivLess(a, b, p);
  }

  /** toFixed(k) picks a nearest step of 10^-k: no step n / 10^k is nearer
      to x, and of two equally near steps it picks the one further from
      zero. */
  lemma {:induction false} RoundToNearest(x: real, k: nat, n: int)
    ensures NearestStep(RoundTo(x, k), x, n as real / Pow10(k) as real)
  {
    var p := Pow10(k) as real;
    if x >= 0.0 {
      RoundHalfUpNearest(x, p, n);
    } else {
      var r, h, g := RoundHalfUp(-x, p), (-n) as real / p, n as real / p;
      assert NearestStep(r, -x, h) by { RoundHalfUpNearest(-x, p, -n); }
      assert h == -g by { NegOverP(n as real, p); }
      assert RoundTo(x, k) == -r;
      NearestMirror(r, -x, h, RoundTo(x, k), x, g);
    }
  }

  lemma NegOverP(a: real, p: real)
    requires p > 0.0
    ensures (-a) / p == -(a / p)
  {}

  /** Nearness of steps survives negating the value and both steps. */
  lemma NearestMirror(r: real, y: real, h: real, r': real, x: real, g: real)
    requires NearestStep(r, y, h)
    requires r' == -r && x == -y && g == -h
    ensures NearestStep(r', x, g)
  {}

  /** toFixed is monotone. */
  lemma {:induction false} RoundToMonotone(x: real, y: real, k: nat)
    requires x <= y
    ensures RoundTo(x, k) <= RoundTo(y, k)
  {
    var p := Pow10(k) as real;
    if x >= 0.0 {
      RoundHalfUpMonotone(x, y, p);
    } else if y >= 0.0 {
      RoundToInteger(0, k);
      RoundHalfUpMonotone(0.0, -x, p);
      RoundHalfUpMonotone(0.0, y, p);
    } else {
      RoundHalfUpMonotone(-y, -x, p);
    }
  }

  /** Whole numbers are fixed points of toFixed. */
  lemma RoundToInteger(n: int, k: nat)
    ensures RoundTo(n as real, k) == n as real
  {
    IntScaled(n, Pow10(k));
    RoundToOnGrid(n as real, k);
  }

  /** toFixed never leaves an interval with whole-number ends. */
  lemma RoundToWithin(x: real, lo: int, hi: int, k: nat)
    requires lo as real <= x <= hi as real
    ensures lo as real <= RoundTo(x, k) <= hi as real
  {
    RoundToMonotone(lo as real, x, k);
    RoundToMonotone(x, hi as real, k);
    RoundToInteger(lo, k);
    RoundToInteger(hi, k);
  }

  lemma {:induction false} RoundHalfUpError(y: real, p: real)
    requires p > 0.0
    ensures -0.5 / p <= RoundHalfUp(y, p) - y <= 0.5 / p
  {
    var f := (y * p + 0.5).Floor as real;
    assert y * p - 0.5 < f <= y * p + 0.5;
    assert f / p - y == (f - y * p) / p;
    DivMonotone(-0.5, f - y * p, p);
    DivMonotone(f - y * p, 0.5, p);
  }

  /** toFixed moves its argument by at most half a step. */
  lemma {:induction false} RoundToError(x: real, k: nat)
    ensures -0.5 / Pow10(k) as real <= RoundTo(x, k) - x <= 0.5 / Pow10(k) as real
  {
    var p := Pow10(k) as real;
    if x >= 0.0 {
      RoundHalfUpError(x, p);
    } else {
      RoundHalfUpError(-x, p);
    }
  }

  /** toFixed preserves the sign of its argument. */
  lemma RoundToNonNegative(x: real, k: nat)
    requires x >= 0.0
    ensures RoundTo(x, k) >= 0.0
  {
    RoundToMonotone(0.0, x, k);
    RoundToInteger(0, k);
  }

  /** The arithmetic mean of `avg` (generate.ts), 0 for an empty list. */
  function Sum(xs: seq<real>): real
  {
    if |xs| == 0 then 0.0 else Sum(xs[..|xs| - 1]) + xs[|xs| - 1]
  }

  function Avg(xs: seq<real>): (r: real)
    ensures |xs| == 0 ==> r == 0.0
  {
    if |xs| == 0 then 0.0 else Sum(xs) / |xs| as real
  }

  lemma {:induction false} SumBounds(xs: seq<real>, lo: real, hi: real)
    requires forall i :: 0 <= i < |xs| ==> lo <= xs[i] <= hi
    ensures |xs| as real * lo <= Sum(xs) <= |xs| as real * hi
  {
    if |xs| > 0 {
      SumBounds(xs[..|xs| - 1], lo, hi);
    }
  }

  /** An average of values in [lo, hi] lies in [lo, hi]. */
  lemma AvgBounds(xs: seq<real>, lo: real, hi: real)
    requires |xs| > 0
    requires forall i :: 0 <= i < |xs| ==> lo <= xs[i] <= hi
    ensures lo <= Avg(xs) <= hi
  {
    SumBounds(xs, lo, hi);
    var n := |xs| as real;
    assert Sum(xs) / n >= lo by { assert Sum(xs) >= n * lo; }
    assert Sum(xs) / n <= hi by { assert Sum(xs) <= n * hi; }
  }

  /** `s.slice(0, n)` for a whole number n: a negative n counts from the end. */
  function SliceTo<T>(s: seq<T>, n: int): (r: seq<T>)
    ensures 0 <= n ==> |r| == if n < |s| then n else |s|
    ensures n < 0 ==> |r| == if |s| + n > 0 then |s| + n else 0
    ensures r == s[..|r|]
  {
    if n >= 0 then (if n < |s| then s[..n] else s)
    else (if |s| + n > 0 then s[..|s| + n] else [])
  }
}

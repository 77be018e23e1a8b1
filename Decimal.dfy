/**
 * Decimal rounding as done by `Number.prototype.toFixed(n)` (and by
 * `Number(x.toFixed(n))`), taken over exact reals: the magnitude is rounded
 * to the nearest multiple of 10^-n, a tie going to the larger magnitude,
 * and the sign is put back.
 *
 * The work is done at a scale `p` (which is 10^n); the `n`-indexed names are
 * what the rest of the model uses.
 */
module Decimal {

  function Pow10(n: nat): (r: real)
    ensures r >= 1.0
  {
    if n == 0 then 1.0 else 10.0 * Pow10(n - 1)
  }

  /** `x` is a whole number of units 1/p. */
  predicate OnGrid(x: real, p: real) {
    (x * p).Floor as real == x * p
  }

  /** Rounding of a non-negative magnitude to units 1/p, ties upward. */
  function RoundScaled(x: real, p: real): real
    requires p >= 1.0
  {
    (x * p + 0.5).Floor as real / p
  }

  function RoundSigned(x: real, p: real): (r: real)
    requires p >= 1.0
    ensures x >= 0.0 ==> r >= 0.0
    ensures x <= 0.0 ==> r <= 0.0
    ensures x - 0.5 / p <= r <= x + 0.5 / p
    ensures OnGrid(r, p)
  {
    ScaledFacts(if x >= 0.0 then x else -x, p);
    if x >= 0.0 then RoundScaled(x, p) else -RoundScaled(-x, p)
  }

  /** `x` has at most `n` decimals. */
  predicate IsDecimal(x: real, n: nat) {
    OnGrid(x, Pow10(n))
  }

  /** Half of the last kept decimal place: the largest rounding error. */
  function HalfUnit(n: nat): (r: real)
    ensures 0.0 < r <= 0.5
  {
    0.5 / Pow10(n)
  }

  function RoundTo(x: real, n: nat): (r: real)
    ensures x >= 0.0 ==> r >= 0.0
    ensures x <= 0.0 ==> r <= 0.0
    ensures x - HalfUnit(n) <= r <= x + HalfUnit(n)
    ensures IsDecimal(r, n)
  {
    RoundSigned(x, Pow10(n))
  }

  lemma ScaledFacts(x: real, p: real)
    requires x >= 0.0 && p >= 1.0
    ensures RoundScaled(x, p) >= 0.0
    ensures x - 0.5 / p <= RoundScaled(x, p) <= x + 0.5 / p
    ensures OnGrid(RoundScaled(x, p), p)
    ensures OnGrid(-RoundScaled(x, p), p)
  {
    var k := (x * p + 0.5).Floor;
    assert x * p >= 0.0;
    assert k as real <= x * p + 0.5 < k as real + 1.0;
    var r := k as real / p;
    assert r == RoundScaled(x, p);
    assert r * p == k as real;
    assert (r * p).Floor == k;
    assert OnGrid(r, p);
    assert (-r) * p == (-k) as real;
    assert ((-r) * p).Floor == -k;
    assert OnGrid(-r, p);
    assert (0.5 / p) * p == 0.5;
    assert (x - 0.5 / p) * p <= r * p;
    assert r * p <= (x + 0.5 / p) * p;
    ScaleMonotone(x - 0.5 / p, r, p);
    ScaleMonotone(r, x + 0.5 / p, p);
  }

  /** Dividing out a positive scale keeps an inequality. */
  lemma ScaleMonotone(a: real, b: real, p: real)
    requires p > 0.0 && a * p <= b * p
    ensures a <= b
  {
  }

  lemma ScaledMonotone(x: real, y: real, p: real)
    requires 0.0 <= x <= y && p >= 1.0
    ensures RoundScaled(x, p) <= RoundScaled(y, p)
  {
    assert x * p <= y * p;
    var kx, ky := (x * p + 0.5).Floor, (y * p + 0.5).Floor;
    assert kx <= ky;
    var rx, ry := kx as real / p, ky as real / p;
    assert rx * p == kx as real && ry * p == ky as real;
    ScaleMonotone(rx, ry, p);
  }

  /** Rounding never reverses the order of two numbers. */
  lemma {:induction false} RoundToMonotone(x: real, y: real, n: nat)
    requires x <= y
    ensures RoundTo(x, n) <= RoundTo(y, n)
  {
    var p := Pow10(n);
    if 0.0 <= x {
      ScaledMonotone(x, y, p);
    } else if y < 0.0 {
      ScaledMonotone(-y, -x, p);
    }
  }

  lemma GridFixed(x: real, p: real)
    requires p >= 1.0 && OnGrid(x, p)
    ensures RoundSigned(x, p) == x
  {
    var k := (x * p).Floor;
    assert x * p == k as real;
    if x >= 0.0 {
      assert (x * p + 0.5).Floor == k;
      assert k as real / p == x;
    } else {
      assert (-x) * p == (-k) as real;
      assert ((-x) * p + 0.5).Floor == -k;
      assert (-k) as real / p == -x;
    }
  }

  /** A number that already has `n` decimals is left as it is. */
  lemma RoundToDecimal(x: real, n: nat)
    requires IsDecimal(x, n)
    ensures RoundTo(x, n) == x
  {
    GridFixed(x, Pow10(n));
  }

  /** Rounding twice to the same number of places is rounding once. */
  lemma RoundToIdempotent(x: real, n: nat)
    ensures RoundTo(RoundTo(x, n), n) == RoundTo(x, n)
  {
    RoundToDecimal(RoundTo(x, n), n);
  }

  lemma {:induction false} Pow10Integral(n: nat)
    ensures Pow10(n).Floor as real == Pow10(n)
  {
    if n > 0 {
      Pow10Integral(n - 1);
      var k := Pow10(n - 1).Floor;
      assert Pow10(n) == (10 * k) as real;
    }
  }

  /** Whole numbers have every number of decimals. */
  lemma {:induction false} IntegerIsDecimal(k: int, n: nat)
    ensures IsDecimal(k as real, n)
    decreases if k >= 0 then k else -k
  {
    Pow10Integral(n);
    assert IsDecimal(0.0, n);
    assert IsDecimal(1.0, n);
    DecimalDifference(0.0, 1.0, n);
    if k > 0 {
      IntegerIsDecimal(k - 1, n);
      DecimalDifference((k - 1) as real, -1.0, n);
    } else if k < 0 {
      IntegerIsDecimal(k + 1, n);
      DecimalDifference((k + 1) as real, 1.0, n);
    }
  }

  lemma RoundToInteger(k: int, n: nat)
    ensures RoundTo(k as real, n) == k as real
  {
    IntegerIsDecimal(k, n);
    RoundToDecimal(k as real, n);
  }

  /** The difference of two `n`-decimal numbers has `n` decimals. */
  lemma DecimalDifference(x: real, y: real, n: nat)
    requires IsDecimal(x, n) && IsDecimal(y, n)
    ensures IsDecimal(x - y, n)
  {
    GridDifference(x, y, Pow10(n));
  }

  lemma GridDifference(x: real, y: real, p: real)
    requires OnGrid(x, p) && OnGrid(y, p)
    ensures OnGrid(x - y, p)
  {
    var kx, ky := (x * p).Floor, (y * p).Floor;
    assert x * p == kx as real && y * p == ky as real;
    assert (x - y) * p == x * p - y * p;
    assert (x - y) * p == (kx - ky) as real;
  }

  lemma HalfUnitTwo()
    ensures HalfUnit(2) == 0.005
  {
    assert Pow10(2) == 100.0;
  }

  /** Every number in [0.995, 1.005) shows as 1.00. */
  lemma RoundToOneAtTwoPlaces(x: real)
    requires 0.995 <= x < 1.005
    ensures RoundTo(x, 2) == 1.0
  {
    assert Pow10(2) == 100.0;
    assert (x * 100.0 + 0.5).Floor == 100;
  }
}

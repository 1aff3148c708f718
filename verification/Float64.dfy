/**
 * Finite binary64 numbers as reals, and rounding to the nearest of them with ties to even
 * (section 4.3.1 of IEEE 754-2019).
 */
module Float64 {

  /** The significand of a binary64 number stays below 2^53. */
  const LIMIT: int := 0x20_0000_0000_0000
  const MIN_EXPONENT := -1074
  const MAX_EXPONENT := 971

  /** `x` times 2^e, by doubling and halving. */
  function Scale(x: real, e: int): real
    decreases if e < 0 then -e else e
  {
    if e == 0 then x else if e > 0 then Scale(2.0 * x, e - 1) else Scale(x / 2.0, e + 1)
  }

  function Abs(x: real): real {
    if x < 0.0 then -x else x
  }

  predicate Spells(n: int, e: int, x: real) {
    MIN_EXPONENT <= e <= MAX_EXPONENT && -LIMIT < n < LIMIT && x == Scale(n as real, e)
  }

  /** A finite binary64 number: an integer below 2^53 in magnitude times a power of two in range. */
  ghost predicate Representable(x: real) {
    exists n: int, e: int :: Spells(n, e, x)
  }

  /** The integer nearest to `q`, the even one of two equally near. */
  function NearestEven(q: real): int {
    var f := q.Floor;
    var d := q - f as real;
    if d < 0.5 || (d == 0.5 && f % 2 == 0) then f else f + 1
  }

  function RoundTo(m: real, e: int): real {
    Scale(NearestEven(Scale(m, -e)) as real, e)
  }

  /** The least exponent from `e` up under which `m` has a significand below 2^53. */
  function Exponent(m: real, e: int): (r: int)
    requires MIN_EXPONENT <= e <= MAX_EXPONENT
    ensures e <= r <= MAX_EXPONENT
    ensures r < MAX_EXPONENT ==> m < Scale(LIMIT as real, r)
    ensures r > e ==> m >= Scale(LIMIT as real, r - 1)
    decreases MAX_EXPONENT - e, m
  {
    if e == MAX_EXPONENT || m < Scale(LIMIT as real, e) then e else Exponent(m, e + 1)
  }

  function ExponentOf(m: real): int {
    Exponent(m, MIN_EXPONENT)
  }

  /** Rounding by magnitude, so that it is symmetric about zero. */
  function Round(x: real): real {
    if x < 0.0 then -RoundTo(-x, ExponentOf(-x)) else RoundTo(x, ExponentOf(x))
  }

  // ----- scaling -----

  lemma {:induction false} ScaleNext(x: real, e: int)
    ensures Scale(x, e + 1) == Scale(2.0 * x, e)
  {
  }

  lemma {:induction false} ScaleTwice(x: real, d: int, e: int)
    ensures Scale(Scale(x, d), e) == Scale(x, d + e)
    decreases if d < 0 then -d else d
  {
    if d > 0 {
      ScaleTwice(2.0 * x, d - 1, e);
      ScaleNext(x, d - 1 + e);
    } else if d < 0 {
      ScaleTwice(x / 2.0, d + 1, e);
      ScaleNext(x / 2.0, d + e);
    }
  }

  /** Scaling is linear and keeps strict order. */
  lemma {:induction false} ScaleOrder(x: real, y: real, e: int)
    ensures x < y <==> Scale(x, e) < Scale(y, e)
    ensures Scale(x, e) - Scale(y, e) == Scale(x - y, e)
    decreases if e < 0 then -e else e
  {
    if e > 0 {
      ScaleOrder(2.0 * x, 2.0 * y, e - 1);
    } else if e < 0 {
      ScaleOrder(x / 2.0, y / 2.0, e + 1);
    }
  }

  lemma {:induction false} ScaleZero(e: int)
    ensures Scale(0.0, e) == 0.0
    decreases if e < 0 then -e else e
  {
    if e > 0 {
      ScaleZero(e - 1);
    } else if e < 0 {
      ScaleZero(e + 1);
    }
  }

  lemma ScaleNegates(x: real, e: int)
    ensures Scale(-x, e) == -Scale(x, e)
  {
    ScaleZero(e);
    ScaleOrder(0.0, x, e);
    assert 0.0 - x == -x;
  }

  lemma {:induction false} ScaleWider(x: real, d: int, e: int)
    requires x >= 0.0 && d <= e
    ensures Scale(x, d) <= Scale(x, e)
    decreases e - d
  {
    if d < e {
      ScaleWider(x, d, e - 1);
      ScaleNext(x, e - 1);
      ScaleOrder(2.0 * x, x, e - 1);
      ScaleOrder(x, 2.0 * x, e - 1);
    }
  }

  /** An integer scaled up is an integer. */
  lemma {:induction false} ScaleInteger(n: int, k: nat) returns (m: int)
    ensures Scale(n as real, k) == m as real
    decreases k
  {
    if k == 0 {
      m := n;
    } else {
      m := ScaleInteger(2 * n, k - 1);
    }
  }

  function Power(n: nat): int {
    if n == 0 then 1 else 2 * Power(n - 1)
  }

  lemma {:induction false} PowerPlus(m: nat, n: nat)
    ensures Power(m + n) == Power(m) * Power(n)
  {
    if n > 0 {
      PowerPlus(m, n - 1);
      assert Power(m + n) == 2 * Power(m + (n - 1));
    }
  }

  lemma PowerOfPrecision()
    ensures Power(53) == 9007199254740992
  {
    assert Power(5) == 32;
    PowerPlus(5, 5);
    PowerPlus(10, 10);
    PowerPlus(20, 20);
    PowerPlus(40, 10);
    assert Power(3) == 8;
    PowerPlus(50, 3);
  }

  /** Scaling multiplies by a power of two, or divides by one. */
  lemma {:induction false} ScaleIsPower(x: real, n: int)
    requires n >= 0
    ensures Scale(x, n) == Power(n) as real * x
    ensures Power(n) as real * Scale(x, -n) == x
    decreases n
  {
    if n > 0 {
      ScaleIsPower(2.0 * x, n - 1);
      ScaleIsPower(x / 2.0, n - 1);
    }
  }

  /** The least positive number of the format is 2^-1074. */
  lemma LeastPositive(x: real)
    ensures Representable(Scale(1.0, -1074)) && Scale(1.0, -1074) > 0.0
    ensures Representable(x) && x > 0.0 ==> x >= Scale(1.0, -1074)
  {
    assert Spells(1, -1074, Scale(1.0, -1074));
    ScaleZero(-1074);
    ScaleOrder(0.0, 1.0, -1074);
    if n: int, e: int :| Spells(n, e, x) && x > 0.0 {
      ScaleZero(e);
      ScaleOrder(0.0, n as real, e);
      ScaleOrder(n as real, 1.0, e);
      ScaleWider(1.0, -1074, e);
    }
  }

  // ----- rounding at one exponent -----

  lemma NearestEvenMonotone(a: real, b: real)
    requires a <= b
    ensures NearestEven(a) <= NearestEven(b)
  {
  }

  lemma RoundToMonotone(x: real, y: real, e: int)
    requires x <= y
    ensures RoundTo(x, e) <= RoundTo(y, e)
  {
    ScaleOrder(y, x, -e);
    NearestEvenMonotone(Scale(x, -e), Scale(y, -e));
    ScaleOrder(NearestEven(Scale(y, -e)) as real, NearestEven(Scale(x, -e)) as real, e);
  }

  lemma RoundToFixes(k: int, e: int)
    ensures RoundTo(Scale(k as real, e), e) == Scale(k as real, e)
  {
    ScaleTwice(k as real, e, -e);
  }

  // ----- rounding -----

  lemma ExponentMonotone(m: real, n: real, e: int)
    requires m <= n && MIN_EXPONENT <= e <= MAX_EXPONENT
    ensures Exponent(m, e) <= Exponent(n, e)
  {
    var r, s := Exponent(m, e), Exponent(n, e);
    if s < r {
      ScaleWider(LIMIT as real, s, r - 1);
    }
  }

  lemma RoundToNonNegative(x: real, e: int)
    requires 0.0 <= x
    ensures 0.0 <= RoundTo(x, e)
  {
    ScaleZero(e);
    RoundToFixes(0, e);
    RoundToMonotone(0.0, x, e);
  }

  lemma MagnitudesMonotone(x: real, y: real)
    requires 0.0 <= x <= y
    ensures 0.0 <= Round(x) <= Round(y)
  {
    var d, e := ExponentOf(x), ExponentOf(y);
    RoundToNonNegative(x, d);
    if d == e {
      RoundToMonotone(x, y, e);
    } else {
      ExponentMonotone(x, y, MIN_EXPONENT);
      var top := Scale(LIMIT as real, d);
      RoundToMonotone(x, top, d);
      RoundToFixes(LIMIT, d);
      var bottom := Scale(LIMIT as real, e - 1);
      ScaleWider(LIMIT as real, d, e - 1);
      ScaleNext((LIMIT / 2) as real, e - 1);
      RoundToFixes(LIMIT / 2, e);
      RoundToMonotone(bottom, y, e);
    }
  }

  lemma RoundNegates(x: real)
    ensures Round(-x) == -Round(x)
  {
    if x == 0.0 {
      ScaleZero(ExponentOf(0.0));
      RoundToFixes(0, ExponentOf(0.0));
    }
  }

  /** Rounding never reverses an order. */
  lemma RoundMonotone(x: real, y: real)
    requires x <= y
    ensures Round(x) <= Round(y)
  {
    RoundNegates(x);
    RoundNegates(y);
    if 0.0 <= x {
      MagnitudesMonotone(x, y);
    } else if y <= 0.0 {
      MagnitudesMonotone(-y, -x);
    } else {
      MagnitudesMonotone(0.0, -x);
      MagnitudesMonotone(0.0, y);
    }
  }

  /** A binary64 magnitude is a multiple of any power of two that its own exponent reaches. */
  lemma RepresentableMultiple(n: int, f: int, x: real, e: int) returns (k: int)
    requires Spells(n, f, x) && x >= 0.0 && MIN_EXPONENT <= e <= ExponentOf(x)
    ensures x == Scale(k as real, e)
  {
    if f < e {
      ScaleWider(LIMIT as real, f, ExponentOf(x) - 1);
      ScaleOrder(n as real, LIMIT as real, f);
      assert false;
    }
    k := ScaleInteger(n, f - e);
    ScaleTwice(n as real, f - e, e);
  }

  lemma NegationRepresentable(x: real)
    requires Representable(x)
    ensures Representable(-x)
  {
    var n: int, e: int :| Spells(n, e, x);
    ScaleNegates(n as real, e);
    assert Spells(-n, e, -x);
  }

  lemma MagnitudeFixed(x: real)
    requires Representable(x) && x >= 0.0
    ensures Round(x) == x
  {
    var n: int, f: int :| Spells(n, f, x);
    var k := RepresentableMultiple(n, f, x, ExponentOf(x));
    RoundToFixes(k, ExponentOf(x));
  }

  /** Rounding leaves every binary64 number alone. */
  lemma RoundFixes(x: real)
    requires Representable(x)
    ensures Round(x) == x
  {
    if x >= 0.0 {
      MagnitudeFixed(x);
    } else {
      NegationRepresentable(x);
      MagnitudeFixed(-x);
      RoundNegates(x);
    }
  }

  /** Every integer up to 2^53 in magnitude is a binary64 number. */
  lemma SmallIntegers(k: int)
    requires -9007199254740992 <= k <= 9007199254740992
    ensures Representable(k as real) && Round(k as real) == k as real
  {
    if k == LIMIT || k == -LIMIT {
      ScaleNext((k / 2) as real, 0);
      assert Spells(k / 2, 1, k as real);
    } else {
      assert Spells(k, 0, k as real);
    }
    RoundFixes(k as real);
  }

  // ----- what makes it rounding to nearest -----

  lemma NearestEvenNear(q: real, k: int)
    ensures Abs(NearestEven(q) as real - q) <= Abs(k as real - q)
    ensures Abs(NearestEven(q) as real - q) == Abs(k as real - q) && NearestEven(q) != k ==> NearestEven(q) % 2 == 0
  {
    if k <= q.Floor {
      assert k as real <= q.Floor as real;
    } else {
      assert k as real >= q.Floor as real + 1.0;
    }
  }

  /** Distances scale like the numbers. */
  lemma DistanceScales(a: real, x: real, e: int)
    ensures Abs(Scale(a, e) - x) == Scale(Abs(a - Scale(x, -e)), e)
  {
    var q := Scale(x, -e);
    ScaleTwice(x, -e, e);
    ScaleOrder(a, q, e);
    ScaleNegates(a - q, e);
    assert -(a - q) == q - a;
  }

  /** At one exponent, no multiple of the last place is nearer than the rounded one. */
  lemma RoundToNearest(x: real, k: int, e: int)
    ensures Abs(RoundTo(x, e) - x) <= Abs(Scale(k as real, e) - x)
  {
    var q := Scale(x, -e);
    NearestEvenNear(q, k);
    DistanceScales(NearestEven(q) as real, x, e);
    DistanceScales(k as real, x, e);
    ScaleOrder(Abs(k as real - q), Abs(NearestEven(q) as real - q), e);
  }

  /** A multiple of the last place of `x` that is at least as near to `x` as the binary64 number `r`. */
  lemma NearestMultiple(x: real, r: real) returns (k: int)
    requires x >= 0.0 && Representable(r)
    ensures Abs(Scale(k as real, ExponentOf(x)) - x) <= Abs(r - x)
  {
    var e := ExponentOf(x);
    if r <= 0.0 {
      k := 0;
      ScaleZero(e);
    } else {
      var n: int, f: int :| Spells(n, f, r);
      if e <= ExponentOf(r) {
        k := RepresentableMultiple(n, f, r, e);
      } else {
        k := LIMIT / 2;
        ScaleNext(k as real, e - 1);
        ScaleWider(LIMIT as real, ExponentOf(r), e - 1);
      }
    }
  }

  lemma MagnitudeNearest(x: real, r: real)
    requires x >= 0.0 && Representable(r)
    ensures Abs(Round(x) - x) <= Abs(r - x)
  {
    var k := NearestMultiple(x, r);
    RoundToNearest(x, k, ExponentOf(x));
  }

  /** No binary64 number is nearer to `x` than the rounded one. */
  lemma RoundIsNearest(x: real, r: real)
    requires Representable(r)
    ensures Abs(Round(x) - x) <= Abs(r - x)
  {
    if x >= 0.0 {
      MagnitudeNearest(x, r);
    } else {
      NegationRepresentable(r);
      MagnitudeNearest(-x, -r);
      RoundNegates(x);
    }
  }

  // ----- overflow -----

  /** The magnitude from which rounding leaves the finite numbers: half a last place above the largest. */
  function Overflow(): real {
    Scale(LIMIT as real - 0.5, MAX_EXPONENT)
  }

  lemma BelowTop(x: real, e: int)
    requires x >= 0.0 && e == ExponentOf(x) < MAX_EXPONENT
    ensures x < Overflow() && Representable(RoundTo(x, e))
  {
    var q := Scale(x, -e);
    ScaleTwice(LIMIT as real, e, -e);
    ScaleOrder(x, Scale(LIMIT as real, e), -e);
    ScaleZero(-e);
    ScaleOrder(x, 0.0, -e);
    var n := NearestEven(q);
    if n == LIMIT {
      ScaleNext((LIMIT / 2) as real, e);
      assert Spells(LIMIT / 2, e + 1, RoundTo(x, e));
    } else {
      assert Spells(n, e, RoundTo(x, e));
    }
    ScaleWider(LIMIT as real, e, MAX_EXPONENT - 1);
    ScaleNext(LIMIT as real / 2.0, MAX_EXPONENT - 1);
    ScaleOrder(LIMIT as real / 2.0, LIMIT as real - 0.5, MAX_EXPONENT);
  }

  lemma AtTop(x: real)
    requires x >= 0.0
    ensures Representable(RoundTo(x, MAX_EXPONENT)) <==> x < Overflow()
  {
    var e, q := MAX_EXPONENT, Scale(x, -MAX_EXPONENT);
    ScaleTwice(LIMIT as real - 0.5, e, -e);
    ScaleOrder(x, Overflow(), -e);
    ScaleZero(-e);
    ScaleOrder(x, 0.0, -e);
    var n := NearestEven(q);
    if x < Overflow() {
      assert Spells(n, e, RoundTo(x, e));
    } else {
      assert n >= LIMIT;
      ScaleOrder(n as real, LIMIT as real, e);
      TooLarge(RoundTo(x, e));
    }
  }

  lemma TooLarge(x: real)
    requires x >= Scale(LIMIT as real, MAX_EXPONENT)
    ensures !Representable(x)
  {
    forall n: int, e: int ensures !Spells(n, e, x) {
      if Spells(n, e, x) {
        ScaleWider(LIMIT as real, e, MAX_EXPONENT);
        ScaleOrder(n as real, LIMIT as real, e);
        assert false;
      }
    }
  }

  /** Rounding yields a finite binary64 number exactly below the overflow threshold. */
  lemma RoundIsFinite(x: real)
    ensures Overflow() == Scale(9007199254740991.5, 971)
    ensures Representable(Round(x)) <==> Abs(x) < Overflow()
  {
    var m := Abs(x);
    if ExponentOf(m) < MAX_EXPONENT {
      BelowTop(m, ExponentOf(m));
    } else {
      AtTop(m);
    }
    RoundNegates(m);
    if Representable(Round(m)) {
      NegationRepresentable(Round(m));
    }
    if Representable(-Round(m)) {
      NegationRepresentable(-Round(m));
    }
  }
}

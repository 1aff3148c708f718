/** Plot coordinates: 64-bit integers and finite floats that compare and mix through binary64. */
module Coord {
  import opened Float64

  const I64_MIN: int := -0x8000_0000_0000_0000
  const I64_MAX: int := 0x7FFF_FFFF_FFFF_FFFF

  datatype Coord1d = Int(i: int) | Float(f: real)

  /** An `i64`, or a float that is finite. */
  ghost predicate Valid(c: Coord1d) {
    match c
    case Int(i) => I64_MIN <= i <= I64_MAX
    case Float(f) => Representable(f)
  }

  /** `as_float`: integers are converted by rounding. */
  function AsFloat(c: Coord1d): real {
    match c
    case Int(i) => Round(i as real)
    case Float(f) => f
  }

  /** The number itself, before any rounding. */
  function Exact(c: Coord1d): real {
    match c
    case Int(i) => i as real
    case Float(f) => f
  }

  datatype Ordering = Less | Equal | Greater

  /** `Ord::cmp`. */
  function Cmp(a: Coord1d, b: Coord1d): Ordering {
    var x, y := AsFloat(a), AsFloat(b);
    if x < y then Less else if x == y then Equal else Greater
  }

  /** `PartialEq::eq`. */
  predicate Eq(a: Coord1d, b: Coord1d) {
    AsFloat(a) == AsFloat(b)
  }

  predicate Lt(a: Coord1d, b: Coord1d) {
    Cmp(a, b) == Less
  }

  predicate Le(a: Coord1d, b: Coord1d) {
    Cmp(a, b) != Greater
  }

  /** `cmp::min` keeps the first of two equals, `cmp::max` the second. */
  function Min(a: Coord1d, b: Coord1d): Coord1d {
    if Lt(b, a) then b else a
  }

  function Max(a: Coord1d, b: Coord1d): Coord1d {
    if Lt(b, a) then a else b
  }

  /** Of two equal coordinates the minimum is the first and the maximum the second. */
  lemma ExtremesKeepOne(a: Coord1d, b: Coord1d)
    ensures AsFloat(a) <= AsFloat(b) ==> Min(a, b) == a && Max(a, b) == b
    ensures AsFloat(b) < AsFloat(a) ==> Min(a, b) == b && Max(a, b) == a
  {
  }

  /** Two's complement wrap-around, as in builds without overflow checks. */
  function Wrap(n: int): int {
    (n - I64_MIN) % 0x1_0000_0000_0000_0000 + I64_MIN
  }

  function Add(a: Coord1d, b: Coord1d): Coord1d {
    if a.Int? && b.Int? then Int(Wrap(a.i + b.i)) else Float(Round(AsFloat(a) + AsFloat(b)))
  }

  function Sub(a: Coord1d, b: Coord1d): Coord1d {
    if a.Int? && b.Int? then Int(Wrap(a.i - b.i)) else Float(Round(AsFloat(a) - AsFloat(b)))
  }

  function Div(a: Coord1d, b: Coord1d): Coord1d
    requires AsFloat(b) != 0.0
  {
    Float(Round(AsFloat(a) / AsFloat(b)))
  }

  /** `as i64` saturates. */
  function Saturate(n: int): (i: int)
    ensures I64_MIN <= i <= I64_MAX
  {
    if n < I64_MIN then I64_MIN else if n > I64_MAX then I64_MAX else n
  }

  function Floor(c: Coord1d): int {
    match c
    case Int(i) => i
    case Float(f) => Saturate(f.Floor)
  }

  function Ceil(c: Coord1d): int {
    match c
    case Int(i) => i
    case Float(f) => Saturate(-(-f).Floor)
  }

  // ----- the order -----

  /** The order is a total preorder whose equivalence is `Eq`. */
  lemma TotalPreorder(a: Coord1d, b: Coord1d, c: Coord1d)
    ensures Le(a, b) || Le(b, a)
    ensures Le(a, b) && Le(b, c) ==> Le(a, c)
    ensures Le(a, b) && Le(b, a) <==> Eq(a, b)
    ensures Cmp(a, b) == Equal <==> Eq(a, b)
    ensures Lt(a, b) <==> !Le(b, a)
  {
  }

  lemma AsFloatOfExact(c: Coord1d)
    requires Valid(c)
    ensures AsFloat(c) == Round(Exact(c))
  {
    if c.Float? {
      RoundFixes(c.f);
    }
  }

  /** Mixed comparison never reverses the order of the numbers themselves. */
  lemma NeverReversed(a: Coord1d, b: Coord1d)
    requires Valid(a) && Valid(b)
    ensures Exact(a) <= Exact(b) ==> Le(a, b)
    ensures Lt(a, b) ==> Exact(a) < Exact(b)
    ensures Exact(a) == Exact(b) ==> Eq(a, b)
  {
    AsFloatOfExact(a);
    AsFloatOfExact(b);
    if Exact(a) <= Exact(b) {
      RoundMonotone(Exact(a), Exact(b));
    } else {
      RoundMonotone(Exact(b), Exact(a));
    }
  }

  /** An integer below 2^53 in magnitude compares exactly with every coordinate. */
  lemma SmallAgainstAny(k: int, c: Coord1d)
    requires -9007199254740992 < k < 9007199254740992
    ensures Le(Int(k), c) <==> k as real <= Exact(c)
    ensures Le(c, Int(k)) <==> Exact(c) <= k as real
  {
    SmallIntegers(k);
    if c.Int? {
      SmallIntegers(k + 1);
      SmallIntegers(k - 1);
      if c.i < k {
        RoundMonotone(c.i as real, (k - 1) as real);
      } else if c.i > k {
        RoundMonotone((k + 1) as real, c.i as real);
      }
    }
  }

  lemma ExponentIs(m: real, e: int)
    requires MIN_EXPONENT < e <= MAX_EXPONENT
    requires Scale(LIMIT as real, e - 1) <= m < Scale(LIMIT as real, e)
    ensures ExponentOf(m) == e
  {
    var r := ExponentOf(m);
    if r < e {
      ScaleWider(LIMIT as real, r, e - 1);
    } else if r > e {
      ScaleWider(LIMIT as real, e, r - 1);
    }
  }

  /** 2^53 + 1 is the first integer that is not a float: it rounds to its even neighbour. */
  lemma FirstInexact()
    ensures LIMIT == 9007199254740992 && Round(9007199254740993.0) == 9007199254740992.0
  {
    var x := (LIMIT + 1) as real;
    assert Scale(LIMIT as real, 1) == 2.0 * LIMIT as real;
    ExponentIs(x, 1);
    assert Scale(x, -1) == (LIMIT / 2) as real + 0.5;
    assert NearestEven((LIMIT / 2) as real + 0.5) == LIMIT / 2;
    assert Scale((LIMIT / 2) as real, 1) == LIMIT as real;
  }

  ghost predicate ExactUpTo(n: nat) {
    forall i: int, j: int :: Abs(i as real) <= n as real && Abs(j as real) <= n as real ==> (Le(Int(i), Int(j)) <==> i <= j)
  }

  /** Comparison is exact on all integers up to a magnitude exactly when that magnitude is at most 2^53. */
  lemma ExactOnIntegersIff(n: nat)
    ensures ExactUpTo(n) <==> n <= 9007199254740992
  {
    if n <= LIMIT {
      forall i: int, j: int | Abs(i as real) <= n as real && Abs(j as real) <= n as real
        ensures Le(Int(i), Int(j)) <==> i <= j {
        SmallIntegers(i);
        SmallIntegers(j);
      }
    } else {
      SmallIntegers(LIMIT);
      FirstInexact();
      assert Le(Int(LIMIT + 1), Int(LIMIT));
    }
  }

  // ----- arithmetic -----

  /** An integer is converted to a binary64 number that none is nearer to; a float stays itself. */
  lemma ConversionIsNearest(c: Coord1d, r: real)
    requires Representable(r)
    ensures match c
            case Int(i) => Abs(AsFloat(c) - i as real) <= Abs(r - i as real)
            case Float(f) => AsFloat(c) == f
  {
    if c.Int? {
      RoundIsNearest(c.i as real, r);
    }
  }

  /** Unless both operands are integers, a sum or a difference is a float that no binary64 number beats. */
  lemma ArithmeticIsNearest(a: Coord1d, b: Coord1d, r: real)
    requires Representable(r) && !(a.Int? && b.Int?)
    ensures Add(a, b).Float? && Abs(Add(a, b).f - (AsFloat(a) + AsFloat(b))) <= Abs(r - (AsFloat(a) + AsFloat(b)))
    ensures Sub(a, b).Float? && Abs(Sub(a, b).f - (AsFloat(a) - AsFloat(b))) <= Abs(r - (AsFloat(a) - AsFloat(b)))
  {
    RoundIsNearest(AsFloat(a) + AsFloat(b), r);
    RoundIsNearest(AsFloat(a) - AsFloat(b), r);
  }

  /** A quotient always is. */
  lemma QuotientIsNearest(a: Coord1d, b: Coord1d, r: real)
    requires Representable(r) && AsFloat(b) != 0.0
    ensures var q := AsFloat(a) / AsFloat(b); Div(a, b).Float? && Abs(Div(a, b).f - q) <= Abs(r - q)
  {
    RoundIsNearest(AsFloat(a) / AsFloat(b), r);
  }

  /** Integers add and subtract modulo 2^64 within the `i64` range, exactly if the result fits. */
  lemma IntegersWrap(i: int, j: int)
    ensures Add(Int(i), Int(j)).Int? && Sub(Int(i), Int(j)).Int?
    ensures var k := Add(Int(i), Int(j)).i;
            -9223372036854775808 <= k < 9223372036854775808 && (k - (i + j)) % 18446744073709551616 == 0
    ensures var k := Sub(Int(i), Int(j)).i;
            -9223372036854775808 <= k < 9223372036854775808 && (k - (i - j)) % 18446744073709551616 == 0
    ensures -9223372036854775808 <= i + j < 9223372036854775808 ==> Add(Int(i), Int(j)) == Int(i + j)
    ensures -9223372036854775808 <= i - j < 9223372036854775808 ==> Sub(Int(i), Int(j)) == Int(i - j)
  {
    WrapIsCongruent(i + j);
    WrapIsCongruent(i - j);
  }

  lemma WrapIsCongruent(n: int)
    ensures -9223372036854775808 <= Wrap(n) < 9223372036854775808
    ensures (Wrap(n) - n) % 18446744073709551616 == 0
    ensures -9223372036854775808 <= n < 9223372036854775808 ==> Wrap(n) == n
  {
    var m := n - I64_MIN;
    assert Wrap(n) - n == -(m / 0x1_0000_0000_0000_0000) * 0x1_0000_0000_0000_0000;
  }

  // ----- arithmetic with a small step -----

  lemma AsFloatIsFinite(c: Coord1d)
    requires Valid(c)
    ensures Representable(AsFloat(c)) && Round(AsFloat(c)) == AsFloat(c)
  {
    if c.Int? {
      assert Scale(LIMIT as real, 11) > I64_MAX as real + 1.0;
      ScaleWider(LIMIT as real, 11, MAX_EXPONENT - 1);
      ScaleNext(LIMIT as real / 2.0, MAX_EXPONENT - 1);
      ScaleOrder(LIMIT as real / 2.0, LIMIT as real - 0.5, MAX_EXPONENT);
      RoundIsFinite(c.i as real);
    }
    RoundFixes(AsFloat(c));
  }

  /** A longer step reaches no less far, in either direction. */
  lemma LongerStep(c: Coord1d, d: real, e: real)
    requires d <= e
    ensures Le(Sub(c, Float(e)), Sub(c, Float(d)))
    ensures Le(Add(c, Float(d)), Add(c, Float(e)))
  {
    RoundMonotone(AsFloat(c) - e, AsFloat(c) - d);
    RoundMonotone(AsFloat(c) + d, AsFloat(c) + e);
  }

  /** No step down passes its start, and no step up. */
  lemma StepsAway(c: Coord1d, d: real)
    requires Valid(c) && 0.0 <= d
    ensures Le(Sub(c, Float(d)), c)
    ensures Le(c, Add(c, Float(d)))
  {
    AsFloatIsFinite(c);
    RoundMonotone(AsFloat(c) - d, AsFloat(c));
    RoundMonotone(AsFloat(c), AsFloat(c) + d);
  }

  /** Rounding down or up to an integer keeps the comparisons with integers inside the `i64` range. */
  lemma FloorAndCeil(c: Coord1d, k: int)
    requires I64_MIN < k < I64_MAX
    ensures k <= Floor(c) <==> k as real <= Exact(c)
    ensures Ceil(c) <= k <==> Exact(c) <= k as real
  {
    if c.Float? {
      assert k <= c.f.Floor <==> k as real <= c.f;
      assert -k <= (-c.f).Floor <==> (-k) as real <= -c.f;
    }
  }

  /** A finite coordinate half a unit further is still finite. */
  lemma HalfStepIsFinite(c: Coord1d)
    requires Valid(c)
    ensures Valid(Sub(c, Float(0.5))) && Valid(Add(c, Float(0.5)))
  {
    var x := AsFloat(c);
    AsFloatIsFinite(c);
    RoomForHalf(x);
    RoundIsFinite(x - 0.5);
    RoundIsFinite(x + 0.5);
  }

  lemma RoomForHalf(x: real)
    requires Representable(x)
    ensures Abs(x) + 0.5 < Overflow()
  {
    var n: int, e: int :| Spells(n, e, x);
    ScaleNegates(n as real, e);
    var m := if x < 0.0 then -n else n;
    assert Scale(m as real, e) == Abs(x);
    ScaleOrder(m as real, (LIMIT - 1) as real, e);
    ScaleWider((LIMIT - 1) as real, e, MAX_EXPONENT);
    ScaleOrder(LIMIT as real - 0.5, (LIMIT - 1) as real, MAX_EXPONENT);
    HalfAtTop();
  }

  lemma HalfAtTop()
    ensures Scale(0.5, MAX_EXPONENT) > 0.5
  {
    ScaleWider(0.5, 2, MAX_EXPONENT);
    assert Scale(0.5, 2) == 2.0;
  }
}

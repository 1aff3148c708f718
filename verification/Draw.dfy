/** What drawing a chart relies on: the ticks of its ranges and the corners of its bars. */
module Draw {
  import opened Protocol
  import opened Coord
  import opened Float64
  import opened Chart

  // ----- key points -----

  /** The integers `lower..=upper` as coordinates. */
  function Integers(lower: int, upper: int): (ticks: seq<Coord1d>)
    ensures |ticks| == if lower <= upper then upper - lower + 1 else 0
    ensures forall i :: 0 <= i < |ticks| ==> ticks[i] == Int(lower + i)
  {
    if lower <= upper then seq(upper - lower + 1, i => Int(lower + i)) else []
  }

  /** `key_points` of a range with discrete key points. */
  function KeyPoints(r: Range): seq<Coord1d> {
    Integers(Ceil(r.min), Floor(r.max))
  }

  lemma InIntegers(lower: int, upper: int, k: int)
    ensures Int(k) in Integers(lower, upper) <==> lower <= k <= upper
  {
    if lower <= k <= upper {
      assert Integers(lower, upper)[k - lower] == Int(k);
    }
  }

  /** Key points are integers in strictly increasing order. */
  lemma KeyPointsIncrease(r: Range, i: nat, j: nat)
    requires i < j < |KeyPoints(r)|
    ensures KeyPoints(r)[i].Int? && KeyPoints(r)[j].Int? && KeyPoints(r)[i].i < KeyPoints(r)[j].i
  {
    var lower := Ceil(r.min);
    assert KeyPoints(r)[i] == Int(lower + i) && KeyPoints(r)[j] == Int(lower + j);
  }

  /**
   * The key points of any range: inside the `i64` range exactly the integers that lie between the bounds,
   * and below 2^53 in magnitude exactly those that compare so.
   */
  lemma KeyPointsAreTheIntegers(r: Range, k: int)
    requires I64_MIN < k < I64_MAX
    ensures Int(k) in KeyPoints(r) <==> Exact(r.min) <= k as real <= Exact(r.max)
    ensures -9007199254740992 < k < 9007199254740992 ==> (Int(k) in KeyPoints(r) <==> Covers(r, Int(k), Int(k)))
  {
    InIntegers(Ceil(r.min), Floor(r.max), k);
    FloorAndCeil(r.min, k);
    FloorAndCeil(r.max, k);
    if -LIMIT < k < LIMIT {
      SmallAgainstAny(k, r.min);
      SmallAgainstAny(k, r.max);
    }
  }

  /** At 2^53 comparing and being a key point part ways: the bound is the next integer, which rounds down to it. */
  lemma ComparedButNotAKeyPoint()
    ensures var r := Range(Int(LIMIT + 1), Int(LIMIT + 1), true);
            Covers(r, Int(LIMIT), Int(LIMIT)) && Int(LIMIT) !in KeyPoints(r)
  {
    FirstInexact();
    SmallIntegers(LIMIT);
    InIntegers(LIMIT + 1, LIMIT + 1, LIMIT);
  }

  /** The integer range behind a coordinate range: floor of the minimum to ceiling of the maximum. */
  function IntegerRange(r: Range): (int, int) {
    (Floor(r.min), Ceil(r.max))
  }

  /** It encloses the range, and no integer range inside `i64` that encloses the range is smaller. */
  lemma IntegerRangeIsLeast(r: Range, lower: int, upper: int)
    requires I64_MIN < lower < I64_MAX && I64_MIN < upper < I64_MAX
    ensures lower as real <= Exact(r.min) && Exact(r.max) <= upper as real <==>
            lower <= IntegerRange(r).0 && IntegerRange(r).1 <= upper
  {
    FloorAndCeil(r.min, lower);
    FloorAndCeil(r.max, upper);
  }

  // ----- ranges of a drawing -----

  predicate HasBar(chart: Chart2d) {
    exists s :: s in chart.series && s.kind.Bar?
  }

  /** The ranges that `draw` builds its axes from; `None` is its abort. */
  function DrawRanges(chart: Chart2d): Option<(Range, Range)> {
    var x, y := ChartRange(chart, X), ChartRange(chart, Y);
    if chart.series == [] || x.None? || y.None? then None
    else
      var xRange := if HasBar(chart) then x.value.(discreteKeyPoints := true) else x.value;
      Some((xRange, y.value))
  }

  /** Without explicit ranges, drawing aborts exactly when there is no series or the first one is empty. */
  lemma DrawAbortsIff(chart: Chart2d)
    requires ValidChart(chart) && chart.xRange.None? && chart.yRange.None?
    ensures DrawRanges(chart).None? <==> chart.series == [] || chart.series[0].points == []
  {
    ChartRangeIsHull(chart, X);
    ChartRangeIsHull(chart, Y);
  }

  /** The axes are those of the chart; the key points of the x axis become discrete exactly if it shows bars. */
  lemma DrawnRanges(chart: Chart2d)
    requires DrawRanges(chart).Some?
    ensures var (x, y) := DrawRanges(chart).value;
            && Some(y) == ChartRange(chart, Y)
            && ChartRange(chart, X).Some?
            && x.min == ChartRange(chart, X).value.min && x.max == ChartRange(chart, X).value.max
            && ((exists s :: s in chart.series && s.kind == Bar) ==> x.discreteKeyPoints)
            && ((forall s :: s in chart.series ==> s.kind == Line) ==> Some(x) == ChartRange(chart, X))
  {
    if s :| s in chart.series && s.kind == Bar {
      assert s.kind.Bar?;
    }
  }

  // ----- bars -----

  /** 0.8 as a float. */
  function BarWidth(): Coord1d {
    Float(Round(0.8))
  }

  lemma TwoIsExact()
    ensures AsFloat(Int(2)) == 2.0
  {
    SmallIntegers(2);
  }

  function HalfWidth(): Coord1d {
    TwoIsExact();
    Div(BarWidth(), Int(2))
  }

  /** The two corners of a bar: at its value and at zero. */
  function Corners(p: Coord2d): (Coord2d, Coord2d) {
    (Coord2d(Sub(p.x, HalfWidth()), p.y), Coord2d(Add(p.x, HalfWidth()), Int(0)))
  }

  lemma HalfWidthIsAtMostHalf()
    ensures HalfWidth().Float? && 0.0 <= HalfWidth().f <= 0.5
  {
    TwoIsExact();
    SmallIntegers(0);
    SmallIntegers(1);
    RoundMonotone(0.0, 0.8);
    RoundMonotone(0.8, 1.0);
    RoundMonotone(0.0, Round(0.8) / 2.0);
    RoundMonotone(Round(0.8) / 2.0, 0.5);
    assert Scale(1.0, -1) == 0.5;
    assert Spells(1, -1, 0.5);
    RoundFixes(0.5);
  }

  /** The powers of two next to 0.8 and its significand. */
  lemma PowersForWidth()
    ensures Scale(LIMIT as real, -53) == 1.0 && Scale(LIMIT as real, -54) == 0.5
    ensures forall x: real :: Scale(x, 53) == 9007199254740992.0 * x
  {
    forall x: real ensures Scale(x, 53) == 9007199254740992.0 * x {
      ScaleIsPower(x, 53);
      PowerOfPrecision();
    }
    ScaleTwice(1.0, 53, -53);
    assert Scale(1.0, 53) == LIMIT as real;
    ScaleTwice(LIMIT as real, -53, -1);
    assert Scale(1.0, -1) == 0.5;
  }

  /** Half of 0.8 in binary64, exactly. */
  lemma HalfWidthInNumbers()
    ensures HalfWidth() == Float(7205759403792794.0 / 18014398509481984.0)
  {
    PowersForWidth();
    ExponentIs(0.8, -53);
    assert Scale(0.8, 53) == 7205759403792793.6;
    assert NearestEven(7205759403792793.6) == 7205759403792794;
    ScaleBack(7205759403792794.0);
    assert Round(0.8) == 7205759403792794.0 / 9007199254740992.0;
    TwoIsExact();
    var w := 7205759403792794.0 / 18014398509481984.0;
    ScaleTwice(7205759403792794.0, -53, -1);
    assert Scale(7205759403792794.0 / 9007199254740992.0, -1) == w;
    assert Spells(7205759403792794, -54, w);
    RoundFixes(w);
  }

  lemma ScaleBack(x: real)
    ensures Scale(x, -53) == x / 9007199254740992.0
  {
    PowersForWidth();
    ScaleTwice(x / 9007199254740992.0, 53, -53);
  }

  /** A bar is the rectangle from its value, half its width to the left, to zero, half its width to the right. */
  lemma CornersInNumbers(p: Coord2d)
    ensures var w := 7205759403792794.0 / 18014398509481984.0;
            && AsFloat(Corners(p).0.x) == Round(AsFloat(p.x) - w) && Corners(p).0.y == p.y
            && AsFloat(Corners(p).1.x) == Round(AsFloat(p.x) + w) && Corners(p).1.y == Int(0)
  {
    HalfWidthInNumbers();
  }

  lemma CornersWithinX(r: Range, c: Coord1d)
    requires Valid(c) && Covers(r, Lower(Bar, X, c), Upper(Bar, X, c))
    ensures Covers(r, Sub(c, HalfWidth()), Sub(c, HalfWidth()))
    ensures Covers(r, Add(c, HalfWidth()), Add(c, HalfWidth()))
  {
    HalfWidthIsAtMostHalf();
    LongerStep(c, HalfWidth().f, 0.5);
    StepsAway(c, HalfWidth().f);
  }

  /** The coordinate of `p` on an axis and, for a bar, those of its corners. */
  function DrawnAt(kind: Kind, axis: Axis, p: Coord2d): (cs: seq<Coord1d>)
    ensures On(axis, p) in cs
    ensures kind.Bar? ==> On(axis, Corners(p).0) in cs && On(axis, Corners(p).1) in cs
  {
    [On(axis, p)] + if kind.Bar? then [On(axis, Corners(p).0), On(axis, Corners(p).1)] else []
  }

  lemma DrawnWithin(kind: Kind, axis: Axis, r: Range, p: Coord2d)
    requires Valid(p.x) && Valid(p.y)
    requires Covers(r, Lower(kind, axis, On(axis, p)), Upper(kind, axis, On(axis, p)))
    ensures forall c :: c in DrawnAt(kind, axis, p) ==> Covers(r, c, c)
  {
    WithinItsInterval(kind, axis, On(axis, p));
    if kind.Bar? && axis.X? {
      CornersWithinX(r, p.x);
    }
  }

  /**
   * Whatever else a chart shows, on an axis without an explicit range every point and every corner
   * of every bar lies inside the range the axis is drawn with.
   */
  lemma DrawnInsideTheChart(chart: Chart2d, axis: Axis, s: Series2d, p: Coord2d)
    requires ValidChart(chart) && Explicit(chart, axis).None?
    requires DrawRanges(chart).Some? && s in chart.series && p in s.points
    ensures var (xRange, yRange) := DrawRanges(chart).value;
            forall c :: c in DrawnAt(s.kind, axis, p) ==> Covers(if axis.X? then xRange else yRange, c, c)
  {
    var r := ChartRange(chart, axis).value;
    ChartRangeIsHull(chart, axis);
    assert CoversPoint(r, s, axis, p);
    DrawnWithin(s.kind, axis, r, p);
  }

  /** The coordinate is the integer `k`, as an integer or as a float. */
  predicate IsInteger(c: Coord1d, k: int) {
    Exact(c) == k as real
  }

  /** Every bar that stands at an integer below 2^53 in magnitude, as an integer or as a float, stands at a tick
      of the computed x range. */
  lemma IntegerBarsStandAtTicks(chart: Chart2d, s: Series2d, p: Coord2d, k: int)
    requires ValidChart(chart) && chart.xRange.None?
    requires DrawRanges(chart).Some? && s in chart.series && s.kind.Bar? && p in s.points
    requires IsInteger(p.x, k) && -9007199254740992 < k < 9007199254740992
    ensures var (xRange, _) := DrawRanges(chart).value;
            xRange.discreteKeyPoints && Int(k) in KeyPoints(xRange)
  {
    var r := DrawRanges(chart).value.0;
    DrawnInsideTheChart(chart, X, s, p);
    assert On(X, p) in DrawnAt(s.kind, X, p);
    assert Covers(r, p.x, p.x);
    SmallIntegers(k);
    assert AsFloat(p.x) == AsFloat(Int(k));
    KeyPointsAreTheIntegers(r, k);
  }

  /** Half a unit below 2^53 rounds up to it. */
  lemma HalfBelowLimit()
    ensures Round(LIMIT as real - 0.5) == LIMIT as real
  {
    var x := LIMIT as real - 0.5;
    assert Scale(LIMIT as real, -1) == LIMIT as real / 2.0;
    ExponentIs(x, 0);
    assert NearestEven(x) == LIMIT;
  }

  /** The bound is sharp: behind a bar at 2^53 + 1, a bar at 2^53 stands at no tick. */
  lemma BarAtLimitMissesItsTick(y: Coord1d)
    requires Valid(y)
    ensures var s := Series2d(Bar, [Coord2d(Int(LIMIT + 1), y), Coord2d(Int(LIMIT), y)]);
            var chart := Chart2d([s], None, None);
            && ValidChart(chart) && DrawRanges(chart).Some?
            && DrawRanges(chart).value.0.discreteKeyPoints
            && Int(LIMIT) !in KeyPoints(DrawRanges(chart).value.0)
  {
    var s := Series2d(Bar, [Coord2d(Int(LIMIT + 1), y), Coord2d(Int(LIMIT), y)]);
    var chart := Chart2d([s], None, None);
    assert s in chart.series && HasBar(chart);
    BothLowersRound();
    MinimumStays(s);
    var r := DrawRanges(chart).value.0;
    assert r.min == Int(LIMIT + 1);
    InIntegers(Ceil(r.min), Floor(r.max), LIMIT);
  }

  lemma BothLowersRound()
    ensures AsFloat(Int(LIMIT + 1)) == LIMIT as real
    ensures AsFloat(Lower(Bar, X, Int(LIMIT + 1))) == LIMIT as real
    ensures AsFloat(Lower(Bar, X, Int(LIMIT))) == LIMIT as real
  {
    FirstInexact();
    SmallIntegers(LIMIT);
    HalfBelowLimit();
  }

  /** A chart of one series has that series' bounds. */
  lemma OneSeries(s: Series2d, axis: Axis)
    requires s.points != []
    ensures var r, one := ChartRange(Chart2d([s], None, None), axis), SeriesRange(s, axis);
            r.Some? && r.value.min == one.value.min && r.value.max == one.value.max
  {
    var one := SeriesRange(s, axis).value;
    var r := Range(one.min, one.max, false);
    assert WidenBySeries(r, axis, [s]) == WidenBySeries(WidenByOne(r, axis, s), axis, [s][1..]);
  }

  lemma WidenByTwo(r: Range, s: Series2d, axis: Axis)
    requires |s.points| == 2
    ensures var c, d := On(axis, s.points[0]), On(axis, s.points[1]);
            WidenByPoints(r, s.kind, axis, s.points)
            == Widen(Widen(r, Lower(s.kind, axis, c), Upper(s.kind, axis, c)),
                     Lower(s.kind, axis, d), Upper(s.kind, axis, d))
  {
    var last := [s.points[1]];
    assert s.points[1..] == last && last[1..] == [];
    var d := On(axis, last[0]);
    forall q: Range
      ensures WidenByPoints(q, s.kind, axis, last) == Widen(q, Lower(s.kind, axis, d), Upper(s.kind, axis, d))
    {
      var w := Widen(q, Lower(s.kind, axis, d), Upper(s.kind, axis, d));
      assert WidenByPoints(q, s.kind, axis, last) == WidenByPoints(w, s.kind, axis, last[1..]);
    }
  }

  lemma WidenKeepsEqualMinimum(r: Range, lower: Coord1d, upper: Coord1d)
    requires AsFloat(lower) == AsFloat(r.min)
    ensures Widen(r, lower, upper).min == r.min
  {
  }

  /** No lower bound replaces a first coordinate that compares equal to it. */
  lemma MinimumStays(s: Series2d)
    requires s.kind.Bar? && |s.points| == 2 && s.points[0].x == Int(LIMIT + 1) && s.points[1].x == Int(LIMIT)
    ensures ChartRange(Chart2d([s], None, None), X).value.min == Int(LIMIT + 1)
  {
    var first := Int(LIMIT + 1);
    var r := Range(first, first, false);
    BothLowersRound();
    OneSeries(s, X);
    WidenByTwo(r, s, X);
    var lower, upper := Lower(Bar, X, first), Upper(Bar, X, first);
    WidenKeepsEqualMinimum(r, lower, upper);
    WidenKeepsEqualMinimum(Widen(r, lower, upper), Lower(Bar, X, Int(LIMIT)), Upper(Bar, X, Int(LIMIT)));
  }
}

/** Series, charts and the ranges they compute. */
module Chart {
  import opened Protocol
  import opened Coord
  import opened Float64

  datatype Coord2d = Coord2d(x: Coord1d, y: Coord1d)

  datatype Range = Range(min: Coord1d, max: Coord1d, discreteKeyPoints: bool)

  datatype Kind = Line | Bar

  datatype Series2d = Series2d(kind: Kind, points: seq<Coord2d>)

  /** A chart without what only styles it. */
  datatype Chart2d = Chart2d(series: seq<Series2d>, xRange: Option<Range>, yRange: Option<Range>)

  datatype Axis = X | Y

  function On(axis: Axis, p: Coord2d): Coord1d {
    if axis.X? then p.x else p.y
  }

  /** What a point covers on an axis: itself, or a bar's width and its height from zero. */
  function Lower(kind: Kind, axis: Axis, c: Coord1d): Coord1d {
    if kind.Line? then c else if axis.X? then Sub(c, Float(0.5)) else Min(Int(0), c)
  }

  function Upper(kind: Kind, axis: Axis, c: Coord1d): Coord1d {
    if kind.Line? then c else if axis.X? then Add(c, Float(0.5)) else Max(Int(0), c)
  }

  function Explicit(chart: Chart2d, axis: Axis): Option<Range> {
    if axis.X? then chart.xRange else chart.yRange
  }

  ghost predicate ValidSeries(s: Series2d) {
    forall p :: p in s.points ==> Valid(p.x) && Valid(p.y)
  }

  ghost predicate ValidChart(chart: Chart2d) {
    forall s :: s in chart.series ==> ValidSeries(s)
  }

  // ----- the loops -----

  /** A smaller lower bound or a larger upper bound replaces the current one; an equal one does not. */
  function Widen(r: Range, lower: Coord1d, upper: Coord1d): Range {
    Range(if Lt(lower, r.min) then lower else r.min, if Lt(r.max, upper) then upper else r.max, false)
  }

  function WidenByPoints(r: Range, kind: Kind, axis: Axis, points: seq<Coord2d>): Range
    decreases |points|
  {
    if points == [] then r
    else
      var c := On(axis, points[0]);
      WidenByPoints(Widen(r, Lower(kind, axis, c), Upper(kind, axis, c)), kind, axis, points[1..])
  }

  /** `Series2d::x_range` and `Series2d::y_range`. */
  function SeriesRange(s: Series2d, axis: Axis): Option<Range> {
    if s.points == [] then None
    else
      var first := On(axis, s.points[0]);
      Some(WidenByPoints(Range(first, first, false), s.kind, axis, s.points))
  }

  method RangeOfSeries(s: Series2d, axis: Axis) returns (r: Option<Range>)
    ensures r == SeriesRange(s, axis)
  {
    if s.points == [] {
      return None;
    }
    var first := On(axis, s.points[0]);
    var min, max := first, first;
    for i := 0 to |s.points|
      invariant WidenByPoints(Range(min, max, false), s.kind, axis, s.points[i..])
                == WidenByPoints(Range(first, first, false), s.kind, axis, s.points)
    {
      var c := On(axis, s.points[i]);
      var lower, upper := Lower(s.kind, axis, c), Upper(s.kind, axis, c);
      assert s.points[i..][1..] == s.points[i + 1..];
      if Lt(lower, min) {
        min := lower;
      }
      if Lt(max, upper) {
        max := upper;
      }
    }
    return Some(Range(min, max, false));
  }

  /** Widening by one series' range, when it has one. */
  function WidenByOne(r: Range, axis: Axis, s: Series2d): Range {
    var one := SeriesRange(s, axis);
    if one.Some? then Widen(r, one.value.min, one.value.max) else r
  }

  function WidenBySeries(r: Range, axis: Axis, series: seq<Series2d>): Range
    decreases |series|
  {
    if series == [] then r
    else WidenBySeries(WidenByOne(r, axis, series[0]), axis, series[1..])
  }

  /** `Chart2d::x_range` and `Chart2d::y_range`. */
  function ChartRange(chart: Chart2d, axis: Axis): Option<Range> {
    if Explicit(chart, axis).Some? then Explicit(chart, axis)
    else if chart.series == [] then None
    else
      var first := SeriesRange(chart.series[0], axis);
      if first.None? then None
      else Some(WidenBySeries(Range(first.value.min, first.value.max, false), axis, chart.series))
  }

  method RangeOfChart(chart: Chart2d, axis: Axis) returns (r: Option<Range>)
    ensures r == ChartRange(chart, axis)
  {
    if Explicit(chart, axis).Some? {
      return Explicit(chart, axis);
    }
    if chart.series == [] {
      return None;
    }
    var first := RangeOfSeries(chart.series[0], axis);
    if first.None? {
      return None;
    }
    var min, max := first.value.min, first.value.max;
    for i := 0 to |chart.series|
      invariant Some(WidenBySeries(Range(min, max, false), axis, chart.series[i..])) == ChartRange(chart, axis)
    {
      var one := RangeOfSeries(chart.series[i], axis);
      assert chart.series[i..][1..] == chart.series[i + 1..];
      if one.Some? {
        if Lt(one.value.min, min) {
          min := one.value.min;
        }
        if Lt(max, one.value.max) {
          max := one.value.max;
        }
      }
    }
    return Some(Range(min, max, false));
  }

  // ----- hulls -----

  /** The range contains the interval. */
  predicate Covers(r: Range, lower: Coord1d, upper: Coord1d) {
    Le(r.min, lower) && Le(upper, r.max)
  }

  predicate CoversPoint(r: Range, s: Series2d, axis: Axis, p: Coord2d) {
    Covers(r, Lower(s.kind, axis, On(axis, p)), Upper(s.kind, axis, On(axis, p)))
  }

  /** Some point of the series reaches the bound `b`. */
  predicate ReachesDown(s: Series2d, axis: Axis, b: Coord1d) {
    exists p :: p in s.points && Eq(Lower(s.kind, axis, On(axis, p)), b)
  }

  predicate ReachesUp(s: Series2d, axis: Axis, b: Coord1d) {
    exists p :: p in s.points && Eq(Upper(s.kind, axis, On(axis, p)), b)
  }

  /** `r` is the least range that covers every point of the series. */
  ghost predicate SeriesHull(r: Range, s: Series2d, axis: Axis) {
    && (forall p :: p in s.points ==> CoversPoint(r, s, axis, p))
    && ReachesDown(s, axis, r.min)
    && ReachesUp(s, axis, r.max)
  }

  /** `r` is the least range that covers every point of every series. */
  ghost predicate ChartHull(r: Range, series: seq<Series2d>, axis: Axis) {
    && (forall s, p :: s in series && p in s.points ==> CoversPoint(r, s, axis, p))
    && (exists s :: s in series && ReachesDown(s, axis, r.min))
    && (exists s :: s in series && ReachesUp(s, axis, r.max))
  }

  /** A coordinate lies within what its point covers. */
  lemma WithinItsInterval(kind: Kind, axis: Axis, c: Coord1d)
    requires Valid(c)
    ensures Le(Lower(kind, axis, c), c) && Le(c, Upper(kind, axis, c))
  {
    if kind.Bar? && axis.X? {
      StepsAway(c, 0.5);
    }
  }

  lemma {:induction false} WidenByPointsHull(r: Range, s: Series2d, axis: Axis, points: seq<Coord2d>)
    ensures var w := WidenByPoints(r, s.kind, axis, points);
            && Covers(w, r.min, r.max)
            && (forall p :: p in points ==> CoversPoint(w, s, axis, p))
            && (w.min == r.min || ReachesDown(Series2d(s.kind, points), axis, w.min))
            && (w.max == r.max || ReachesUp(Series2d(s.kind, points), axis, w.max))
    decreases |points|
  {
    if points != [] {
      var c := On(axis, points[0]);
      var next := Widen(r, Lower(s.kind, axis, c), Upper(s.kind, axis, c));
      WidenByPointsHull(next, s, axis, points[1..]);
    }
  }

  /** A series has a range exactly when it has a point, and the range is its hull. */
  lemma SeriesRangeIsHull(s: Series2d, axis: Axis)
    requires ValidSeries(s)
    ensures SeriesRange(s, axis).Some? <==> s.points != []
    ensures s.points != [] ==> SeriesHull(SeriesRange(s, axis).value, s, axis)
  {
    if s.points != [] {
      var p := s.points[0];
      var first := On(axis, p);
      WidenByPointsHull(Range(first, first, false), s, axis, s.points);
      WithinItsInterval(s.kind, axis, first);
      assert CoversPoint(SeriesRange(s, axis).value, s, axis, p);
    }
  }

  lemma WidenByOneHull(r: Range, axis: Axis, s: Series2d)
    requires ValidSeries(s)
    ensures var w := WidenByOne(r, axis, s);
            && Covers(w, r.min, r.max)
            && (forall p :: p in s.points ==> CoversPoint(w, s, axis, p))
            && (w.min == r.min || ReachesDown(s, axis, w.min))
            && (w.max == r.max || ReachesUp(s, axis, w.max))
  {
    SeriesRangeIsHull(s, axis);
  }

  lemma CoversMore(w: Range, r: Range, s: Series2d, axis: Axis)
    requires Covers(w, r.min, r.max)
    requires forall p :: p in s.points ==> CoversPoint(r, s, axis, p)
    ensures forall p :: p in s.points ==> CoversPoint(w, s, axis, p)
  {
  }

  lemma {:induction false} WidenBySeriesHull(r: Range, axis: Axis, series: seq<Series2d>)
    requires forall s :: s in series ==> ValidSeries(s)
    ensures var w := WidenBySeries(r, axis, series);
            && Covers(w, r.min, r.max)
            && (forall s, p :: s in series && p in s.points ==> CoversPoint(w, s, axis, p))
            && (w.min == r.min || exists s :: s in series && ReachesDown(s, axis, w.min))
            && (w.max == r.max || exists s :: s in series && ReachesUp(s, axis, w.max))
    decreases |series|
  {
    if series != [] {
      var s := series[0];
      var next := WidenByOne(r, axis, s);
      WidenByOneHull(r, axis, s);
      WidenBySeriesHull(next, axis, series[1..]);
      CoversMore(WidenBySeries(r, axis, series), next, s, axis);
      assert forall t :: t in series ==> t == s || t in series[1..];
    }
  }

  /**
   * Without an explicit range, a chart has a range exactly when its first series has a point,
   * and that range is the hull of all points of all series.
   */
  lemma ChartRangeIsHull(chart: Chart2d, axis: Axis)
    requires ValidChart(chart) && Explicit(chart, axis).None?
    ensures ChartRange(chart, axis).Some? <==> chart.series != [] && chart.series[0].points != []
    ensures ChartRange(chart, axis).Some? ==> ChartHull(ChartRange(chart, axis).value, chart.series, axis)
  {
    if chart.series != [] {
      var s := chart.series[0];
      SeriesRangeIsHull(s, axis);
      if s.points != [] {
        var first := SeriesRange(s, axis).value;
        WidenBySeriesHull(Range(first.min, first.max, false), axis, chart.series);
      }
    }
  }

  // ----- hulls in numbers -----

  /** A range covers what a point covers exactly if its bounds lie around these numbers. */
  lemma CoversInNumbers(r: Range, s: Series2d, p: Coord2d)
    ensures CoversPoint(r, s, X, p) <==>
            if s.kind.Bar? then AsFloat(r.min) <= Round(AsFloat(p.x) - 0.5) && Round(AsFloat(p.x) + 0.5) <= AsFloat(r.max)
            else AsFloat(r.min) <= AsFloat(p.x) <= AsFloat(r.max)
    ensures CoversPoint(r, s, Y, p) <==>
            AsFloat(r.min) <= AsFloat(p.y) <= AsFloat(r.max) &&
            (s.kind.Bar? ==> AsFloat(r.min) <= 0.0 <= AsFloat(r.max))
  {
    SmallIntegers(0);
  }

  lemma ReachesInNumbers(s: Series2d, p: Coord2d, b: Coord1d)
    ensures Eq(Lower(s.kind, X, p.x), b) <==>
            AsFloat(b) == if s.kind.Bar? then Round(AsFloat(p.x) - 0.5) else AsFloat(p.x)
    ensures Eq(Upper(s.kind, X, p.x), b) <==>
            AsFloat(b) == if s.kind.Bar? then Round(AsFloat(p.x) + 0.5) else AsFloat(p.x)
    ensures Eq(Lower(s.kind, Y, p.y), b) ==> AsFloat(b) == AsFloat(p.y) || (s.kind.Bar? && AsFloat(b) == 0.0)
    ensures Eq(Upper(s.kind, Y, p.y), b) ==> AsFloat(b) == AsFloat(p.y) || (s.kind.Bar? && AsFloat(b) == 0.0)
  {
    SmallIntegers(0);
  }

  /** On the x axis the computed range of a chart goes from the least to the greatest of its points, half a unit
      further on either side for bars, and reaches no further. */
  lemma ChartRangeX(chart: Chart2d)
    requires ValidChart(chart) && chart.xRange.None? && ChartRange(chart, X).Some?
    ensures var r := ChartRange(chart, X).value;
            forall s, p :: s in chart.series && p in s.points ==>
              if s.kind.Bar?
              then AsFloat(r.min) <= Round(AsFloat(p.x) - 0.5) && Round(AsFloat(p.x) + 0.5) <= AsFloat(r.max)
              else AsFloat(r.min) <= AsFloat(p.x) <= AsFloat(r.max)
    ensures var r := ChartRange(chart, X).value;
            exists s, p :: s in chart.series && p in s.points &&
              AsFloat(r.min) == if s.kind.Bar? then Round(AsFloat(p.x) - 0.5) else AsFloat(p.x)
    ensures var r := ChartRange(chart, X).value;
            exists s, p :: s in chart.series && p in s.points &&
              AsFloat(r.max) == if s.kind.Bar? then Round(AsFloat(p.x) + 0.5) else AsFloat(p.x)
  {
    var r := ChartRange(chart, X).value;
    ChartRangeIsHull(chart, X);
    forall s, p | s in chart.series && p in s.points
      ensures if s.kind.Bar?
              then AsFloat(r.min) <= Round(AsFloat(p.x) - 0.5) && Round(AsFloat(p.x) + 0.5) <= AsFloat(r.max)
              else AsFloat(r.min) <= AsFloat(p.x) <= AsFloat(r.max)
    {
      assert CoversPoint(r, s, X, p);
      CoversInNumbers(r, s, p);
    }
    var s, p := Reaching(r.min, chart.series, X, false);
    ReachesInNumbers(s, p, r.min);
    var t, o := Reaching(r.max, chart.series, X, true);
    ReachesInNumbers(t, o, r.max);
  }

  /** On the y axis it goes from the least to the greatest of its points, and to zero if any of them is a bar's. */
  lemma ChartRangeY(chart: Chart2d)
    requires ValidChart(chart) && chart.yRange.None? && ChartRange(chart, Y).Some?
    ensures var r := ChartRange(chart, Y).value;
            forall s, p :: s in chart.series && p in s.points ==>
              AsFloat(r.min) <= AsFloat(p.y) <= AsFloat(r.max) &&
              (s.kind.Bar? ==> AsFloat(r.min) <= 0.0 <= AsFloat(r.max))
    ensures var r := ChartRange(chart, Y).value;
            exists s, p :: s in chart.series && p in s.points &&
              (AsFloat(r.min) == AsFloat(p.y) || (s.kind.Bar? && AsFloat(r.min) == 0.0))
    ensures var r := ChartRange(chart, Y).value;
            exists s, p :: s in chart.series && p in s.points &&
              (AsFloat(r.max) == AsFloat(p.y) || (s.kind.Bar? && AsFloat(r.max) == 0.0))
  {
    var r := ChartRange(chart, Y).value;
    ChartRangeIsHull(chart, Y);
    forall s, p | s in chart.series && p in s.points
      ensures AsFloat(r.min) <= AsFloat(p.y) <= AsFloat(r.max) &&
              (s.kind.Bar? ==> AsFloat(r.min) <= 0.0 <= AsFloat(r.max))
    {
      assert CoversPoint(r, s, Y, p);
      CoversInNumbers(r, s, p);
    }
    var s, p := Reaching(r.min, chart.series, Y, false);
    ReachesInNumbers(s, p, r.min);
    var t, o := Reaching(r.max, chart.series, Y, true);
    ReachesInNumbers(t, o, r.max);
  }

  /** The point that reaches a bound. */
  lemma Reaching(b: Coord1d, series: seq<Series2d>, axis: Axis, up: bool) returns (s: Series2d, p: Coord2d)
    requires exists s :: s in series && if up then ReachesUp(s, axis, b) else ReachesDown(s, axis, b)
    ensures s in series && p in s.points
    ensures Eq(if up then Upper(s.kind, axis, On(axis, p)) else Lower(s.kind, axis, On(axis, p)), b)
  {
    s :| s in series && if up then ReachesUp(s, axis, b) else ReachesDown(s, axis, b);
    if up {
      p :| p in s.points && Eq(Upper(s.kind, axis, On(axis, p)), b);
    } else {
      p :| p in s.points && Eq(Lower(s.kind, axis, On(axis, p)), b);
    }
  }

  /** A bar series reaches from half a unit below its least x to half a unit above its greatest. */
  lemma BarRangeX(s: Series2d)
    requires ValidSeries(s) && s.kind.Bar? && s.points != []
    ensures SeriesRange(s, X).Some?
    ensures var r := SeriesRange(s, X).value;
            && (forall p :: p in s.points ==>
                  AsFloat(r.min) <= Round(AsFloat(p.x) - 0.5) && Round(AsFloat(p.x) + 0.5) <= AsFloat(r.max))
            && (exists p :: p in s.points && AsFloat(r.min) == Round(AsFloat(p.x) - 0.5))
            && (exists p :: p in s.points && AsFloat(r.max) == Round(AsFloat(p.x) + 0.5))
  {
    var r := SeriesRange(s, X).value;
    SeriesRangeIsHull(s, X);
    forall p | p in s.points
      ensures AsFloat(r.min) <= Round(AsFloat(p.x) - 0.5) && Round(AsFloat(p.x) + 0.5) <= AsFloat(r.max)
    {
      CoversInNumbers(r, s, p);
    }
    var _, p := Reaching(r.min, [s], X, false);
    ReachesInNumbers(s, p, r.min);
    var _, o := Reaching(r.max, [s], X, true);
    ReachesInNumbers(s, o, r.max);
  }

  /** A bar series reaches from the least to the greatest of zero and its y values. */
  lemma BarRangeY(s: Series2d)
    requires ValidSeries(s) && s.kind.Bar? && s.points != []
    ensures SeriesRange(s, Y).Some?
    ensures var r := SeriesRange(s, Y).value;
            && AsFloat(r.min) <= 0.0 <= AsFloat(r.max)
            && (forall p :: p in s.points ==> AsFloat(r.min) <= AsFloat(p.y) <= AsFloat(r.max))
            && (AsFloat(r.min) == 0.0 || exists p :: p in s.points && AsFloat(r.min) == AsFloat(p.y))
            && (AsFloat(r.max) == 0.0 || exists p :: p in s.points && AsFloat(r.max) == AsFloat(p.y))
  {
    var r := SeriesRange(s, Y).value;
    SeriesRangeIsHull(s, Y);
    forall p | p in s.points
      ensures AsFloat(r.min) <= AsFloat(p.y) <= AsFloat(r.max) && AsFloat(r.min) <= 0.0 <= AsFloat(r.max)
    {
      CoversInNumbers(r, s, p);
    }
    var _, p := Reaching(r.min, [s], Y, false);
    ReachesInNumbers(s, p, r.min);
    var _, o := Reaching(r.max, [s], Y, true);
    ReachesInNumbers(s, o, r.max);
  }

  /** A line reaches from the least to the greatest of its points, on either axis. */
  lemma LineRange(s: Series2d, axis: Axis)
    requires ValidSeries(s) && s.kind.Line? && s.points != []
    ensures SeriesRange(s, axis).Some?
    ensures var r := SeriesRange(s, axis).value;
            && (forall p :: p in s.points ==>
                  AsFloat(r.min) <= AsFloat(if axis.X? then p.x else p.y) <= AsFloat(r.max))
            && (exists p :: p in s.points && AsFloat(r.min) == AsFloat(if axis.X? then p.x else p.y))
            && (exists p :: p in s.points && AsFloat(r.max) == AsFloat(if axis.X? then p.x else p.y))
  {
    var r := SeriesRange(s, axis).value;
    SeriesRangeIsHull(s, axis);
    forall p | p in s.points
      ensures AsFloat(r.min) <= AsFloat(if axis.X? then p.x else p.y) <= AsFloat(r.max)
    {
      CoversInNumbers(r, s, p);
    }
    var _, p := Reaching(r.min, [s], axis, false);
    ReachesInNumbers(s, p, r.min);
    var _, o := Reaching(r.max, [s], axis, true);
    ReachesInNumbers(s, o, r.max);
  }

  // ----- consequences -----

  /** A given range is the chart's, whatever its series hold. */
  lemma GivenRangeWins(chart: Chart2d)
    ensures chart.xRange.Some? ==> ChartRange(chart, X) == chart.xRange
    ensures chart.yRange.Some? ==> ChartRange(chart, Y) == chart.yRange
  {
  }

  /** The bounds of a computed range are in order. */
  lemma RangeIsOrdered(chart: Chart2d, axis: Axis)
    requires ValidChart(chart) && Explicit(chart, axis).None? && ChartRange(chart, axis).Some?
    ensures Le(ChartRange(chart, axis).value.min, ChartRange(chart, axis).value.max)
  {
    var r := ChartRange(chart, axis).value;
    ChartRangeIsHull(chart, axis);
    var s :| s in chart.series && ReachesDown(s, axis, r.min);
    var p :| p in s.points && Eq(Lower(s.kind, axis, On(axis, p)), r.min);
    WithinItsInterval(s.kind, axis, On(axis, p));
    assert CoversPoint(r, s, axis, p);
  }

  /** The hull of more series reaches no less far. */
  lemma HullsGrow(q: Range, few: seq<Series2d>, r: Range, many: seq<Series2d>, axis: Axis)
    requires ChartHull(q, few, axis) && ChartHull(r, many, axis)
    requires forall s :: s in few ==> s in many
    ensures Covers(r, q.min, q.max)
  {
    var s :| s in few && ReachesDown(s, axis, q.min);
    var p :| p in s.points && Eq(Lower(s.kind, axis, On(axis, p)), q.min);
    assert CoversPoint(r, s, axis, p);
    var t :| t in few && ReachesUp(t, axis, q.max);
    var o :| o in t.points && Eq(Upper(t.kind, axis, On(axis, o)), q.max);
    assert CoversPoint(r, t, axis, o);
  }

  /** Charts with the same series in any order, and any number of times, have equal ranges. */
  lemma OrderDoesNotMatter(a: Chart2d, b: Chart2d, axis: Axis)
    requires ValidChart(a) && ValidChart(b)
    requires Explicit(a, axis).None? && Explicit(b, axis).None?
    requires ChartRange(a, axis).Some? && ChartRange(b, axis).Some?
    requires forall s :: s in a.series <==> s in b.series
    ensures var q, r := ChartRange(a, axis).value, ChartRange(b, axis).value;
            Eq(q.min, r.min) && Eq(q.max, r.max)
  {
    ChartRangeIsHull(a, axis);
    ChartRangeIsHull(b, axis);
    HullsGrow(ChartRange(a, axis).value, a.series, ChartRange(b, axis).value, b.series, axis);
    HullsGrow(ChartRange(b, axis).value, b.series, ChartRange(a, axis).value, a.series, axis);
  }

  /** With an empty first series the order does matter: the same two series, swapped, have a range or none. */
  lemma EmptyFirstSeriesHasNoRange(kind: Kind, s: Series2d, axis: Axis)
    requires s.points != []
    ensures ChartRange(Chart2d([Series2d(kind, []), s], None, None), axis).None?
    ensures ChartRange(Chart2d([s, Series2d(kind, [])], None, None), axis).Some?
  {
  }

  // ----- extending a chart -----

  /** The series and ranges of `Chart2d::run`: new series at the end, a given range over the old one. */
  function Extend(extend: Option<Chart2d>, input: seq<Series2d>, xRange: Option<Range>, yRange: Option<Range>): Chart2d {
    var chart := if extend.Some? then extend.value else Chart2d([], None, None);
    Chart2d(chart.series + input,
            if xRange.Some? then xRange else chart.xRange,
            if yRange.Some? then yRange else chart.yRange)
  }

  /** A range given now is the extended chart's, whatever range the chart had; without one the chart's own stays. The
      series of the chart stay in front. */
  lemma GivenRangeReplaces(chart: Chart2d, input: seq<Series2d>, given: Range, other: Option<Range>)
    ensures ChartRange(Extend(Some(chart), input, Some(given), other), X) == Some(given)
    ensures ChartRange(Extend(Some(chart), input, other, Some(given)), Y) == Some(given)
    ensures chart.xRange.Some? ==> ChartRange(Extend(Some(chart), input, None, other), X) == chart.xRange
    ensures chart.yRange.Some? ==> ChartRange(Extend(Some(chart), input, other, None), Y) == chart.yRange
    ensures Extend(Some(chart), input, other, other).series[..|chart.series|] == chart.series
    ensures Extend(Some(chart), input, other, other).series[|chart.series|..] == input
    ensures Extend(None, input, other, other) == Chart2d(input, other, other)
  {
  }

  /** Extending a chart that has a range keeps one that covers it, unless a new range is given. */
  lemma ExtendingWidens(chart: Chart2d, input: seq<Series2d>, axis: Axis)
    requires ValidChart(chart) && forall s :: s in input ==> ValidSeries(s)
    requires ChartRange(chart, axis).Some?
    ensures var q, r := ChartRange(chart, axis), ChartRange(Extend(Some(chart), input, None, None), axis);
            r.Some? && Covers(r.value, q.value.min, q.value.max)
  {
    var larger := Extend(Some(chart), input, None, None);
    assert Explicit(larger, axis) == Explicit(chart, axis);
    if Explicit(chart, axis).None? {
      assert ValidChart(larger);
      ChartRangeIsHull(chart, axis);
      ChartRangeIsHull(larger, axis);
      HullsGrow(ChartRange(chart, axis).value, chart.series, ChartRange(larger, axis).value, larger.series, axis);
    }
  }
}

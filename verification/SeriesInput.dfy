/** How a list of values becomes the points of a series. */
module SeriesInput {
  import opened Protocol
  import opened Coord
  import opened Chart

  /** How values of the shell's type `V` convert: to a number, a pair of numbers, or a record of x and y. */
  datatype Conversions<!V> = Conversions(
    number: V -> Option<Coord1d>,
    pair: V -> Option<(Coord1d, Coord1d)>,
    record: V -> Option<Coord2d>)

  /** A coordinate reads as a pair or as a record; the pair wins. */
  function CoordOf<V>(v: V, c: Conversions<V>): Option<Coord2d> {
    if c.pair(v).Some? then Some(Coord2d(c.pair(v).value.0, c.pair(v).value.1)) else c.record(v)
  }

  /** `Abort` is the unfinished branch for a first value of no known shape. */
  datatype Converted = Points(points: seq<Coord2d>) | Fails | Abort

  datatype Shape = Numbers | Pairs | Coords | Unknown

  /** The first value decides how all are read. */
  function ShapeOf<V>(first: V, c: Conversions<V>): Shape {
    if c.number(first).Some? then Numbers
    else if c.pair(first).Some? then Pairs
    else if CoordOf(first, c).Some? then Coords
    else Unknown
  }

  /** The point of the value at index `i` of a list of that shape. */
  function PointOf<V>(shape: Shape, v: V, i: nat, c: Conversions<V>): Option<Coord2d> {
    match shape
    case Numbers => if c.number(v).Some? then Some(Coord2d(Int(i), c.number(v).value)) else None
    case Pairs => if c.pair(v).Some? then Some(Coord2d(c.pair(v).value.0, c.pair(v).value.1)) else None
    case Coords => CoordOf(v, c)
    case Unknown => None
  }

  /** `r` is what a list of this shape becomes: all of its points in order, or an error if any is missing. */
  ghost predicate IsConversion<V(!new)>(r: Converted, input: seq<V>, shape: Shape, c: Conversions<V>) {
    if forall i :: 0 <= i < |input| ==> PointOf(shape, input[i], i, c).Some?
    then r.Points? && |r.points| == |input| &&
         forall i :: 0 <= i < |input| ==> Some(r.points[i]) == PointOf(shape, input[i], i, c)
    else r.Fails?
  }

  method SeriesFromValue<V(!new)>(input: seq<V>, c: Conversions<V>) returns (r: Converted)
    ensures input == [] ==> r == Fails
    ensures input != [] && ShapeOf(input[0], c).Unknown? ==> r == Abort
    ensures input != [] && !ShapeOf(input[0], c).Unknown? ==> IsConversion(r, input, ShapeOf(input[0], c), c)
  {
    if input == [] {
      return Fails;
    }
    var series := [];
    match ShapeOf(input[0], c) {
      case Numbers =>
        for i := 0 to |input|
          invariant |series| == i
          invariant forall j :: 0 <= j < i ==> Some(series[j]) == PointOf(Numbers, input[j], j, c)
        {
          var y := c.number(input[i]);
          if y.None? { return Fails; }
          series := series + [Coord2d(Int(i), y.value)];
        }
      case Pairs =>
        for i := 0 to |input|
          invariant |series| == i
          invariant forall j :: 0 <= j < i ==> Some(series[j]) == PointOf(Pairs, input[j], j, c)
        {
          var xy := c.pair(input[i]);
          if xy.None? { return Fails; }
          series := series + [Coord2d(xy.value.0, xy.value.1)];
        }
      case Coords =>
        for i := 0 to |input|
          invariant |series| == i
          invariant forall j :: 0 <= j < i ==> Some(series[j]) == PointOf(Coords, input[j], j, c)
        {
          var p := CoordOf(input[i], c);
          if p.None? { return Fails; }
          series := series + [p.value];
        }
      case Unknown => return Abort;
    }
    return Points(series);
  }

  /** The first value decides: numbers become the y values over 0, 1, 2, ..., pairs and records become x and y. */
  lemma ConvertedPoints<V(!new)>(r: Converted, input: seq<V>, c: Conversions<V>, i: nat)
    requires i < |input| && r.Points? && IsConversion(r, input, ShapeOf(input[0], c), c)
    ensures |r.points| == |input|
    ensures c.number(input[0]).Some? ==> r.points[i].x == Int(i) && Some(r.points[i].y) == c.number(input[i])
    ensures c.number(input[0]).None? && c.pair(input[0]).Some? ==> Some((r.points[i].x, r.points[i].y)) == c.pair(input[i])
    ensures c.number(input[0]).None? && c.pair(input[0]).None? && c.record(input[0]).Some? ==>
              if c.pair(input[i]).Some? then Some((r.points[i].x, r.points[i].y)) == c.pair(input[i])
              else Some(r.points[i]) == c.record(input[i])
  {
    assert Some(r.points[i]) == PointOf(ShapeOf(input[0], c), input[i], i, c);
  }

  /** A list is an error exactly if some value does not read in the shape of the first. */
  lemma FailsIff<V(!new)>(r: Converted, input: seq<V>, c: Conversions<V>)
    requires input != [] && !ShapeOf(input[0], c).Unknown? && IsConversion(r, input, ShapeOf(input[0], c), c)
    ensures r.Fails? <==>
            exists i :: 0 <= i < |input| &&
              if c.number(input[0]).Some? then c.number(input[i]).None?
              else if c.pair(input[0]).Some? then c.pair(input[i]).None?
              else c.pair(input[i]).None? && c.record(input[i]).None?
  {
    var shape := ShapeOf(input[0], c);
    if i :| 0 <= i < |input| && PointOf(shape, input[i], i, c).None? {
      assert r.Fails?;
    } else {
      assert forall i :: 0 <= i < |input| ==> PointOf(shape, input[i], i, c).Some?;
    }
  }

  /** Nothing converts exactly if the first value reads as neither number, pair nor record. */
  lemma UnknownIff<V>(first: V, c: Conversions<V>)
    ensures ShapeOf(first, c).Unknown? <==> c.number(first).None? && c.pair(first).None? && c.record(first).None?
  {
  }

  /** Pairs and records mix behind a record, but a pair in front turns every later record into an error. */
  lemma MixedListsDependOnTheFirst<V(!new)>(pair: V, record: V, c: Conversions<V>, r: Converted, q: Converted)
    requires c.number(pair).None? && c.pair(pair).Some?
    requires c.number(record).None? && c.pair(record).None? && c.record(record).Some?
    requires IsConversion(r, [record, pair], ShapeOf(record, c), c)
    requires IsConversion(q, [pair, record], ShapeOf(pair, c), c)
    ensures r.Points? && q.Fails?
    ensures r.points[1] == Coord2d(c.pair(pair).value.0, c.pair(pair).value.1)
  {
    var input := [pair, record];
    assert PointOf(Pairs, input[1], 1, c).None?;
    assert [record, pair][1] == pair;
  }
}

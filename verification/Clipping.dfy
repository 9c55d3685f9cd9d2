/** Cutting polygons at axis-parallel lines
    (services/simulation-server/src/scenario/grid.rs, clip_axis). */
module Clipping {
  import opened Sums

  datatype Point = Point(x: real, y: real) {
    function Coordinate(axis: nat): real {
      if axis == 0 then x else y
    }
  }

  // ---------------------------------------------------------------- areas

  /** Twice the signed area of the triangle from the origin over one edge. */
  function Cross(p: Point, q: Point): real {
    Times(p.x, q.y) - Times(q.x, p.y)
  }

  /** The crosses along a list of points, starting from a pen position. */
  function CrossSum(pen: Point, s: seq<Point>): real
    decreases |s|
  {
    if s == [] then 0.0 else Cross(pen, s[0]) + CrossSum(s[0], s[1..])
  }

  /** Twice the signed area of a closed polygon (the shoelace formula). */
  function DoubledArea(polygon: seq<Point>): real {
    if polygon == [] then 0.0 else CrossSum(polygon[|polygon| - 1], polygon)
  }

  // ---------------------------------------------------------------- clipping

  predicate Inside(value: real, bound: real, greater: bool) {
    if greater then value >= bound else value <= bound
  }

  /** Where an edge meets the line; the coordinate along the axis is the bound itself. */
  function Meeting(p: Point, q: Point, axis: nat, bound: real): Point
    requires p.Coordinate(axis) != q.Coordinate(axis)
  {
    var fraction := (bound - p.Coordinate(axis)) / (q.Coordinate(axis) - p.Coordinate(axis));
    if axis == 0 then Point(bound, p.y + Times(fraction, q.y - p.y)) else Point(p.x + Times(fraction, q.x - p.x), bound)
  }

  /** What one edge adds to the clipped polygon. */
  function EdgeOutput(p: Point, q: Point, axis: nat, bound: real, greater: bool): seq<Point> {
    var before, after := Inside(p.Coordinate(axis), bound, greater), Inside(q.Coordinate(axis), bound, greater);
    (if before != after then [Meeting(p, q, axis, bound)] else []) + (if after then [q] else [])
  }

  /** The output of the edges along a list of points, starting from a pen position. */
  function Outputs(pen: Point, s: seq<Point>, axis: nat, bound: real, greater: bool): seq<Point>
    decreases |s|
  {
    if s == [] then [] else EdgeOutput(pen, s[0], axis, bound, greater) + Outputs(s[0], s[1..], axis, bound, greater)
  }

  function Clip(polygon: seq<Point>, axis: nat, bound: real, greater: bool): seq<Point> {
    if polygon == [] then [] else Outputs(polygon[|polygon| - 1], polygon, axis, bound, greater)
  }

  method ClipAxis(polygon: seq<Point>, axis: nat, bound: real, greater: bool) returns (result: seq<Point>)
    ensures result == Clip(polygon, axis, bound, greater)
  {
    hide Times, Meeting;
    if polygon == [] {
      return [];
    }
    var previous := polygon[|polygon| - 1];
    var previousInside := Inside(previous.Coordinate(axis), bound, greater);
    result := [];
    ghost var goal := Outputs(previous, polygon, axis, bound, greater);
    assert polygon[0..] == polygon && [] + goal == goal;
    for k := 0 to |polygon|
      invariant previousInside == Inside(previous.Coordinate(axis), bound, greater)
      invariant goal == result + Outputs(previous, polygon[k..], axis, bound, greater)
    {
      var current := polygon[k];
      var currentInside := Inside(current.Coordinate(axis), bound, greater);
      ghost var rest := Outputs(current, polygon[k + 1..], axis, bound, greater);
      assert polygon[k..][1..] == polygon[k + 1..];
      assert result + (EdgeOutput(previous, current, axis, bound, greater) + rest)
          == (result + EdgeOutput(previous, current, axis, bound, greater)) + rest;
      ghost var before := result;
      if currentInside != previousInside {
        result := result + [Meeting(previous, current, axis, bound)];
      }
      if currentInside {
        result := result + [current];
      }
      assert result == before + EdgeOutput(previous, current, axis, bound, greater);
      previous, previousInside := current, currentInside;
    }
    assert result + [] == result;
  }

  // ---------------------------------------------------------------- areas seen from the line

  /** Twice the area between an edge and the line x == c. */
  function Band(p: Point, q: Point, c: real): real {
    Times(p.x + q.x - 2.0 * c, q.y - p.y)
  }

  function BandSum(pen: Point, s: seq<Point>, c: real): real
    decreases |s|
  {
    if s == [] then 0.0 else Band(pen, s[0], c) + BandSum(s[0], s[1..], c)
  }

  function Height(p: Point, c: real): real {
    Times(p.x, p.y) - 2.0 * Times(c, p.y)
  }

  lemma BandIsCross(p: Point, q: Point, c: real)
    ensures Band(p, q, c) == Cross(p, q) + Height(q, c) - Height(p, c)
  {
    TimesExpand(p.x, q.x, c, q.y, p.y);
  }

  lemma TimesExpand(px: real, qx: real, c: real, qy: real, py: real)
    ensures Times(px + qx - 2.0 * c, qy - py)
         == Times(px, qy) - Times(qx, py) + (Times(qx, qy) - 2.0 * Times(c, qy)) - (Times(px, py) - 2.0 * Times(c, py))
  {
  }

  lemma {:induction false} BandSumIsCrossSum(pen: Point, s: seq<Point>, c: real)
    ensures BandSum(pen, s, c) == CrossSum(pen, s) + (if s == [] then 0.0 else Height(s[|s| - 1], c) - Height(pen, c))
    decreases |s|
  {
    hide Band, Cross, Height;
    if s != [] {
      BandSumIsCrossSum(s[0], s[1..], c);
      BandIsCross(pen, s[0], c);
    }
  }

  /** Around a closed polygon the bands add up to its doubled area, wherever the line is. */
  lemma BandsOfPolygon(polygon: seq<Point>, c: real)
    requires polygon != []
    ensures BandSum(polygon[|polygon| - 1], polygon, c) == DoubledArea(polygon)
  {
    hide Height, CrossSum, BandSum;
    BandSumIsCrossSum(polygon[|polygon| - 1], polygon, c);
  }

  /** The part of an edge's band on one side of the line. */
  function PartBand(p: Point, q: Point, c: real, greater: bool): real {
    var before, after := Inside(p.x, c, greater), Inside(q.x, c, greater);
    if before && after then Band(p, q, c)
    else if before then Band(p, Meeting(p, q, 0, c), c)
    else if after then Band(Meeting(p, q, 0, c), q, c)
    else 0.0
  }

  function PartSum(pen: Point, s: seq<Point>, c: real, greater: bool): real
    decreases |s|
  {
    if s == [] then 0.0 else PartBand(pen, s[0], c, greater) + PartSum(s[0], s[1..], c, greater)
  }

  lemma OnTheLine(p: Point, q: Point, c: real)
    requires p.x == c && q.x == c
    ensures Band(p, q, c) == 0.0
  {
  }

  lemma MeetingIsOnTheLine(p: Point, q: Point, c: real)
    requires p.x != q.x
    ensures Meeting(p, q, 0, c).x == c
  {
  }

  lemma Divide(t: real, d: real, dy: real)
    ensures Times(-Times(t, d), Times(t, dy)) + Times(Times(1.0 - t, d), dy - Times(t, dy))
         == Times(Times(1.0 - 2.0 * t, d), dy)
  {
    var td, tdy := Times(t, d), Times(t, dy);
    assert Times(1.0 - t, d) == d - td;
    assert Times(d - td, dy - tdy) == Times(d, dy) - Times(td, dy) - Times(d, tdy) + Times(td, tdy);
    assert Times(-td, tdy) == -Times(td, tdy);
    SwapInner(t, d, dy);
    assert Times(1.0 - 2.0 * t, d) == d - 2.0 * td;
    assert Times(d - 2.0 * td, dy) == Times(d, dy) - 2.0 * Times(td, dy);
  }

  lemma SwapInner(t: real, d: real, dy: real)
    ensures Times(Times(t, d), dy) == Times(d, Times(t, dy))
  {
  }

  /** An edge across the line is divided without loss. */
  lemma CrossingEdge(p: Point, q: Point, c: real)
    requires p.x != q.x
    ensures Band(p, Meeting(p, q, 0, c), c) + Band(Meeting(p, q, 0, c), q, c) == Band(p, q, c)
  {
    hide Times;
    var t, d, dy := (c - p.x) / (q.x - p.x), q.x - p.x, q.y - p.y;
    QuotientTimes(c - p.x, d);
    TimesMinus(t, d);
    Divide(t, d, dy);
  }

  lemma TimesMinus(t: real, d: real)
    ensures Times(1.0 - t, d) == d - Times(t, d) && Times(1.0 - 2.0 * t, d) == d - 2.0 * Times(t, d)
  {
  }

  /** An edge that starts on the line meets it there. */
  lemma MeetingAtStart(p: Point, q: Point, c: real)
    requires p.x == c && p.x != q.x
    ensures Meeting(p, q, 0, c) == p
  {
    TimesZero(q.y - p.y);
  }

  lemma MeetingAtEnd(p: Point, q: Point, c: real)
    requires q.x == c && p.x != q.x
    ensures Meeting(p, q, 0, c) == q
  {
    QuotientOne(q.x - p.x);
    TimesOneBefore(q.y - p.y);
  }

  lemma QuotientOne(d: real)
    requires d != 0.0
    ensures d / d == 1.0
  {
  }

  lemma TimesOneBefore(a: real)
    ensures Times(1.0, a) == a
  {
  }

  lemma PartsOfEdge(p: Point, q: Point, c: real)
    ensures PartBand(p, q, c, true) + PartBand(p, q, c, false) == Band(p, q, c)
  {
    hide Band, Meeting;
    if p.x == c && q.x == c {
      OnTheLine(p, q, c);
    } else if p.x == c {
      MeetingAtStart(p, q, c);
      OnTheLine(p, p, c);
    } else if q.x == c {
      MeetingAtEnd(p, q, c);
      OnTheLine(q, q, c);
    } else if p.x != q.x {
      CrossingEdge(p, q, c);
    }
  }

  lemma {:induction false} PartsOfPath(pen: Point, s: seq<Point>, c: real)
    ensures PartSum(pen, s, c, true) + PartSum(pen, s, c, false) == BandSum(pen, s, c)
    decreases |s|
  {
    hide Band, PartBand;
    if s != [] {
      PartsOfPath(s[0], s[1..], c);
      PartsOfEdge(pen, s[0], c);
    }
  }

  // ---------------------------------------------------------------- the pen

  /** Where the clipped polygon's pen may be when the walk is at p: at p itself inside, somewhere on the line outside. */
  predicate PenAt(pen: Point, p: Point, c: real, greater: bool) {
    if Inside(p.x, c, greater) then pen == p else pen.x == c
  }

  function LastOf(pen: Point, s: seq<Point>): Point {
    if s == [] then pen else s[|s| - 1]
  }

  lemma {:induction false} BandSumOfBoth(pen: Point, a: seq<Point>, b: seq<Point>, c: real)
    ensures BandSum(pen, a + b, c) == BandSum(pen, a, c) + BandSum(LastOf(pen, a), b, c)
    ensures LastOf(pen, a + b) == LastOf(LastOf(pen, a), b)
    decreases |a|
  {
    hide Band;
    if a == [] {
      assert a + b == b;
    } else {
      BandSumOfBoth(a[0], a[1..], b, c);
      assert (a + b)[1..] == a[1..] + b;
    }
  }

  lemma EdgeKeepsPen(pen: Point, p: Point, q: Point, c: real, greater: bool)
    requires PenAt(pen, p, c, greater)
    ensures var output := EdgeOutput(p, q, 0, c, greater);
            && BandSum(pen, output, c) == PartBand(p, q, c, greater)
            && PenAt(LastOf(pen, output), q, c, greater)
  {
    hide Band, Meeting;
    var output := EdgeOutput(p, q, 0, c, greater);
    var before, after := Inside(p.x, c, greater), Inside(q.x, c, greater);
    if before != after {
      var m := Meeting(p, q, 0, c);
      MeetingIsOnTheLine(p, q, c);
      if after {
        assert output == [m, q] && output[1..] == [q];
        OnTheLine(pen, m, c);
        TwoBands(pen, m, q, c);
      } else {
        assert output == [m];
        OneBand(pen, m, c);
      }
    } else if after {
      assert output == [q];
      OneBand(pen, q, c);
    }
  }

  lemma OneBand(pen: Point, a: Point, c: real)
    ensures BandSum(pen, [a], c) == Band(pen, a, c)
  {
    hide Band;
    assert [a][1..] == [];
  }

  lemma TwoBands(pen: Point, a: Point, b: Point, c: real)
    ensures BandSum(pen, [a, b], c) == Band(pen, a, c) + Band(a, b, c)
  {
    hide Band;
    assert [a, b][1..] == [b];
    OneBand(a, b, c);
  }

  lemma {:induction false} PathKeepsPen(pen: Point, p: Point, s: seq<Point>, c: real, greater: bool)
    requires PenAt(pen, p, c, greater)
    ensures var output := Outputs(p, s, 0, c, greater);
            && BandSum(pen, output, c) == PartSum(p, s, c, greater)
            && PenAt(LastOf(pen, output), LastOf(p, s), c, greater)
    decreases |s|
  {
    hide Band, EdgeOutput, PartBand;
    if s != [] {
      var first := EdgeOutput(p, s[0], 0, c, greater);
      EdgeKeepsPen(pen, p, s[0], c, greater);
      PathKeepsPen(LastOf(pen, first), s[0], s[1..], c, greater);
      BandSumOfBoth(pen, first, Outputs(s[0], s[1..], 0, c, greater), c);
    }
  }

  /** The clipped polygon's doubled area is made of the parts of the edges on its side. */
  lemma ClippedArea(polygon: seq<Point>, c: real, greater: bool)
    requires polygon != []
    ensures DoubledArea(Clip(polygon, 0, c, greater)) == PartSum(polygon[|polygon| - 1], polygon, c, greater)
  {
    hide Band, Outputs, PartSum, BandSum, CrossSum;
    var last := polygon[|polygon| - 1];
    var output := Clip(polygon, 0, c, greater);
    var start := if Inside(last.x, c, greater) then last else Point(c, 0.0);
    PathKeepsPen(start, last, polygon, c, greater);
    if output != [] {
      PathKeepsPen(output[|output| - 1], last, polygon, c, greater);
      BandsOfPolygon(output, c);
    } else {
      NoBands(start, output, c);
    }
  }

  lemma NoBands(pen: Point, s: seq<Point>, c: real)
    requires s == []
    ensures BandSum(pen, s, c) == 0.0
  {
  }

  // ---------------------------------------------------------------- both axes

  function Swapped(s: seq<Point>): (r: seq<Point>)
    ensures |r| == |s| && forall k | 0 <= k < |s| :: r[k] == Point(s[k].y, s[k].x)
  {
    seq(|s|, k requires 0 <= k < |s| => Point(s[k].y, s[k].x))
  }

  lemma {:induction false} SwappedSum(pen: Point, s: seq<Point>)
    ensures CrossSum(Point(pen.y, pen.x), Swapped(s)) == -CrossSum(pen, s)
    decreases |s|
  {
    hide Times;
    if s != [] {
      SwappedSum(s[0], s[1..]);
      assert Swapped(s)[1..] == Swapped(s[1..]);
      TimesCommutes(pen.x, s[0].y);
      TimesCommutes(s[0].x, pen.y);
    }
  }

  lemma SwappedArea(s: seq<Point>)
    ensures DoubledArea(Swapped(s)) == -DoubledArea(s)
  {
    if s != [] {
      SwappedSum(s[|s| - 1], s);
    }
  }

  lemma {:induction false} SwappedOutputs(pen: Point, s: seq<Point>, bound: real, greater: bool)
    ensures Swapped(Outputs(pen, s, 1, bound, greater)) == Outputs(Point(pen.y, pen.x), Swapped(s), 0, bound, greater)
    decreases |s|
  {
    hide Times;
    if s != [] {
      SwappedOutputs(s[0], s[1..], bound, greater);
      assert Swapped(s)[1..] == Swapped(s[1..]);
      SwappedOfBoth(EdgeOutput(pen, s[0], 1, bound, greater), Outputs(s[0], s[1..], 1, bound, greater));
      assert Swapped(EdgeOutput(pen, s[0], 1, bound, greater))
          == EdgeOutput(Point(pen.y, pen.x), Swapped(s)[0], 0, bound, greater);
    }
  }

  lemma SwappedOfBoth(a: seq<Point>, b: seq<Point>)
    ensures Swapped(a + b) == Swapped(a) + Swapped(b)
  {
  }

  /** Cutting any closed polygon at a bound, once on each side, gives two polygons whose areas add up to its own. */
  lemma ClipKeepsArea(polygon: seq<Point>, axis: nat, bound: real)
    requires axis <= 1
    ensures DoubledArea(Clip(polygon, axis, bound, true)) + DoubledArea(Clip(polygon, axis, bound, false))
         == DoubledArea(polygon)
  {
    hide Outputs, CrossSum, BandSum, PartSum;
    if polygon != [] {
      if axis == 0 {
        ClipKeepsAreaAcross(polygon, bound);
      } else {
        ClipKeepsAreaAcross(Swapped(polygon), bound);
        SwappedOutputs(polygon[|polygon| - 1], polygon, bound, true);
        SwappedOutputs(polygon[|polygon| - 1], polygon, bound, false);
        SwappedArea(Clip(polygon, 1, bound, true));
        SwappedArea(Clip(polygon, 1, bound, false));
        SwappedArea(polygon);
      }
    }
  }

  lemma ClipKeepsAreaAcross(polygon: seq<Point>, c: real)
    requires polygon != []
    ensures DoubledArea(Clip(polygon, 0, c, true)) + DoubledArea(Clip(polygon, 0, c, false)) == DoubledArea(polygon)
  {
    hide Outputs, CrossSum, BandSum, PartSum, Clip, DoubledArea;
    ClippedArea(polygon, c, true);
    ClippedArea(polygon, c, false);
    PartsOfPath(polygon[|polygon| - 1], polygon, c);
    BandsOfPolygon(polygon, c);
  }
}

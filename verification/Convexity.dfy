/** Cutting keeps polygons convex, so the parts of a triangle have the sign of its own area
    (services/simulation-server/src/scenario/grid.rs, volume_weights and clip_axis). */
module Convexity {
  import opened Sums
  import opened Clipping
  import opened Tiling
  import opened Triangulation

  // ---------------------------------------------------------------- sides

  /** The point lies on the left of an edge, or on the right of it; on its line counts as both. */
  predicate Beside(u: Point, v: Point, o: Point, left: bool) {
    if left then Turn(u, v, o) >= 0.0 else Turn(u, v, o) <= 0.0
  }

  predicate BesideAll(pen: Point, s: seq<Point>, o: Point, left: bool)
    decreases |s|
  {
    s == [] || (Beside(pen, s[0], o, left) && BesideAll(s[0], s[1..], o, left))
  }

  /** The point lies on the same side of every edge of a closed polygon. */
  predicate Kernel(s: seq<Point>, o: Point, left: bool) {
    s == [] || BesideAll(s[|s| - 1], s, o, left)
  }

  ghost predicate Convex(s: seq<Point>, left: bool) {
    forall o | o in s :: Kernel(s, o, left)
  }

  lemma {:induction false} BesideBoth(pen: Point, a: seq<Point>, b: seq<Point>, o: Point, left: bool)
    ensures BesideAll(pen, a + b, o, left) <==> BesideAll(pen, a, o, left) && BesideAll(LastOf(pen, a), b, o, left)
    decreases |a|
  {
    hide Beside;
    if a == [] {
      assert a + b == b;
    } else {
      BesideBoth(a[0], a[1..], b, o, left);
      assert (a + b)[1..] == a[1..] + b;
    }
  }

  lemma {:induction false} PathSign(pen: Point, s: seq<Point>, o: Point, left: bool)
    requires BesideAll(pen, s, o, left)
    ensures var d := CrossSum(pen, s) - Cross(pen, o) + Cross(LastOf(pen, s), o);
            if left then d >= 0.0 else d <= 0.0
    decreases |s|
  {
    hide Cross, Turn;
    if s != [] {
      PathSign(s[0], s[1..], o, left);
      TurnIsCrosses(pen, s[0], o);
    }
  }

  /** A polygon with a point beside all its edges has an area of that sign. */
  lemma AreaSign(s: seq<Point>, o: Point, left: bool)
    requires Kernel(s, o, left)
    ensures if left then DoubledArea(s) >= 0.0 else DoubledArea(s) <= 0.0
  {
    hide Cross, BesideAll, CrossSum;
    if s != [] {
      PathSign(s[|s| - 1], s, o, left);
    }
  }

  lemma ConvexSign(s: seq<Point>, left: bool)
    requires Convex(s, left)
    ensures if left then DoubledArea(s) >= 0.0 else DoubledArea(s) <= 0.0
  {
    hide Kernel, CrossSum;
    if s != [] {
      AreaSign(s, s[0], left);
    }
  }

  // ---------------------------------------------------------------- where an edge meets the line

  /** How far along an edge the line is met, from 0 to 1. */
  lemma MeetingShare(p: Point, q: Point, c: real, greater: bool) returns (t: real)
    requires Inside(p.x, c, greater) != Inside(q.x, c, greater)
    ensures 0.0 <= t <= 1.0
    ensures Meeting(p, q, 0, c) == Point(p.x + Times(t, q.x - p.x), p.y + Times(t, q.y - p.y))
    ensures Meeting(p, q, 0, c).x == c
  {
    hide Times;
    t := (c - p.x) / (q.x - p.x);
    QuotientTimes(c - p.x, q.x - p.x);
    if q.x > p.x {
      QuotientRange(c - p.x, q.x - p.x);
    } else {
      QuotientRange(p.x - c, p.x - q.x);
      NegatedQuotient(c - p.x, q.x - p.x);
    }
  }

  lemma MixedProduct(a: real, b: real, c: real, t: real)
    ensures Times(a, b + Times(t, c - b)) == Times(1.0 - t, Times(a, b)) + Times(t, Times(a, c))
  {
    assert a * (t * (c - b)) == t * (a * c) - t * (a * b);
  }

  lemma TurnAlong(u: Point, v: Point, p: Point, q: Point, t: real)
    ensures var m := Point(p.x + Times(t, q.x - p.x), p.y + Times(t, q.y - p.y));
            Turn(u, v, m) == Times(1.0 - t, Turn(u, v, p)) + Times(t, Turn(u, v, q))
  {
    hide Times;
    var a, b := v.x - u.x, v.y - u.y;
    var m := Point(p.x + Times(t, q.x - p.x), p.y + Times(t, q.y - p.y));
    MixedProduct(a, p.y - v.y, q.y - v.y, t);
    MixedProduct(b, p.x - v.x, q.x - v.x, t);
    TimesCommutes(m.x - v.x, b);
    TimesCommutes(p.x - v.x, b);
    TimesCommutes(q.x - v.x, b);
    TimesSum(1.0 - t, Times(a, p.y - v.y), Times(b, p.x - v.x));
    TimesSum(t, Times(a, q.y - v.y), Times(b, q.x - v.x));
  }

  lemma SharedFactor(t: real, a: real, b: real)
    ensures Times(Times(t, a), b) == Times(t, Times(a, b)) == Times(a, Times(t, b))
  {
    assert (t * a) * b == a * (t * b);
  }

  lemma RestOfEdge(t: real, d: real)
    ensures d - Times(t, d) == Times(1.0 - t, d)
  {
  }

  lemma TurnOfParts(p: Point, q: Point, o: Point, t: real)
    ensures var m := Point(p.x + Times(t, q.x - p.x), p.y + Times(t, q.y - p.y));
            Turn(p, m, o) == Times(t, Turn(p, q, o)) && Turn(m, q, o) == Times(1.0 - t, Turn(p, q, o))
  {
    hide Times, Turn;
    var dx, dy := q.x - p.x, q.y - p.y;
    var m := Point(p.x + Times(t, dx), p.y + Times(t, dy));
    FromStart(p, q, o);
    FromStart(p, m, o);
    FromEnd(p, q, o);
    FromEnd(m, q, o);
    SharedFactor(t, dx, o.y - p.y);
    SharedFactor(t, o.x - p.x, dy);
    TimesSum(t, Times(dx, o.y - p.y), Times(o.x - p.x, dy));
    RestOfEdge(t, dx);
    RestOfEdge(t, dy);
    SharedFactor(1.0 - t, dx, o.y - q.y);
    SharedFactor(1.0 - t, o.x - q.x, dy);
    TimesSum(1.0 - t, Times(dx, o.y - q.y), Times(o.x - q.x, dy));
  }

  lemma FromStart(p: Point, q: Point, o: Point)
    ensures Turn(p, q, o) == Times(q.x - p.x, o.y - p.y) - Times(o.x - p.x, q.y - p.y)
  {
    var dx, dy := q.x - p.x, q.y - p.y;
    assert dx * (o.y - q.y) == dx * (o.y - p.y) - dx * dy;
    assert (o.x - q.x) * dy == (o.x - p.x) * dy - dx * dy;
  }

  lemma FromEnd(p: Point, q: Point, o: Point)
    ensures Turn(p, q, o) == Times(q.x - p.x, o.y - q.y) - Times(o.x - q.x, q.y - p.y)
  {
  }

  lemma ShareKeepsSign(t: real, a: real)
    requires 0.0 <= t <= 1.0
    ensures a >= 0.0 ==> Times(t, a) >= 0.0 && Times(1.0 - t, a) >= 0.0
    ensures a <= 0.0 ==> Times(t, a) <= 0.0 && Times(1.0 - t, a) <= 0.0
  {
  }

  lemma MeetingBeside(u: Point, v: Point, p: Point, q: Point, c: real, greater: bool, left: bool)
    requires Inside(p.x, c, greater) != Inside(q.x, c, greater)
    requires Beside(u, v, p, left) && Beside(u, v, q, left)
    ensures Beside(u, v, Meeting(p, q, 0, c), left)
  {
    hide Times, Turn, Meeting;
    var t := MeetingShare(p, q, c, greater);
    TurnAlong(u, v, p, q, t);
    ShareKeepsSign(t, Turn(u, v, p));
    ShareKeepsSign(t, Turn(u, v, q));
  }

  lemma BesideParts(p: Point, q: Point, o: Point, c: real, greater: bool, left: bool)
    requires Inside(p.x, c, greater) != Inside(q.x, c, greater) && Beside(p, q, o, left)
    ensures Beside(p, Meeting(p, q, 0, c), o, left) && Beside(Meeting(p, q, 0, c), q, o, left)
  {
    hide Times, Turn, Meeting;
    var t := MeetingShare(p, q, c, greater);
    TurnOfParts(p, q, o, t);
    ShareKeepsSign(t, Turn(p, q, o));
  }

  lemma {:induction false} MeetingBesideAll(pen: Point, s: seq<Point>, p: Point, q: Point, c: real, greater: bool,
                                            left: bool)
    requires Inside(p.x, c, greater) != Inside(q.x, c, greater)
    requires BesideAll(pen, s, p, left) && BesideAll(pen, s, q, left)
    ensures BesideAll(pen, s, Meeting(p, q, 0, c), left)
    decreases |s|
  {
    hide Beside, Meeting;
    if s != [] {
      MeetingBesideAll(s[0], s[1..], p, q, c, greater, left);
      MeetingBeside(pen, s[0], p, q, c, greater, left);
    }
  }

  // ---------------------------------------------------------------- cutting a convex polygon

  /** On the line no point of the kernel lies ahead of the pen. */
  ghost predicate PenLeads(polygon: seq<Point>, pen: Point, c: real, greater: bool, left: bool) {
    && pen.x == c
    && forall w: Point | Kernel(polygon, w, left) && w.x == c :: if greater == left then w.y <= pen.y else w.y >= pen.y
  }

  /** Where the pen of the cut polygon is when the walk is at p. */
  ghost predicate PenFollows(polygon: seq<Point>, pen: Point, p: Point, c: real, greater: bool, left: bool) {
    if Inside(p.x, c, greater) then pen == p else PenLeads(polygon, pen, c, greater, left)
  }

  /** The edge is one of a convex polygon's. */
  ghost predicate IsEdge(polygon: seq<Point>, p: Point, q: Point, left: bool) {
    && Kernel(polygon, p, left) && Kernel(polygon, q, left)
    && forall w: Point | Kernel(polygon, w, left) :: Beside(p, q, w, left)
  }

  /** The edges along a path are those of a convex polygon. */
  ghost predicate IsPath(polygon: seq<Point>, p: Point, s: seq<Point>, left: bool)
    decreases |s|
  {
    s == [] || (IsEdge(polygon, p, s[0], left) && IsPath(polygon, s[0], s[1..], left))
  }

  lemma {:induction false} EdgesOfPath(polygon: seq<Point>, p: Point, s: seq<Point>, left: bool)
    requires Kernel(polygon, p, left) && forall x | x in s :: Kernel(polygon, x, left)
    requires forall w: Point | Kernel(polygon, w, left) :: BesideAll(p, s, w, left)
    ensures IsPath(polygon, p, s, left)
    decreases |s|
  {
    hide Kernel, Beside;
    if s != [] {
      EdgesOfPath(polygon, s[0], s[1..], left);
    }
  }

  lemma ConvexIsPath(polygon: seq<Point>, left: bool)
    requires Convex(polygon, left) && polygon != []
    ensures IsPath(polygon, polygon[|polygon| - 1], polygon, left)
  {
    hide BesideAll;
    EdgesOfPath(polygon, polygon[|polygon| - 1], polygon, left);
  }

  lemma ExitLeads(polygon: seq<Point>, p: Point, q: Point, c: real, greater: bool, left: bool)
    requires IsEdge(polygon, p, q, left) && Inside(p.x, c, greater) && !Inside(q.x, c, greater)
    ensures PenLeads(polygon, Meeting(p, q, 0, c), c, greater, left)
  {
    hide Kernel, Meeting, Turn;
    var m := Meeting(p, q, 0, c);
    var t := MeetingShare(p, q, c, greater);
    forall w: Point | Kernel(polygon, w, left) && w.x == c
      ensures if greater == left then w.y <= m.y else w.y >= m.y
    {
      assert Beside(p, q, w, left);
      TurnOnLine(p, q, w, t);
      ProductSign(q.x - p.x, w.y - m.y);
    }
  }

  /** Seen from where it is met, an edge turns towards a point on the line by width times height. */
  lemma TurnOnLine(p: Point, q: Point, w: Point, t: real)
    requires w.x == p.x + Times(t, q.x - p.x)
    ensures Turn(p, q, w) == Times(q.x - p.x, w.y - (p.y + Times(t, q.y - p.y)))
  {
    hide Times, Turn;
    var dx, dy := q.x - p.x, q.y - p.y;
    FromStart(p, q, w);
    SharedFactor(t, dx, dy);
    TimesSum(dx, w.y - p.y, Times(t, dy));
  }

  lemma ProductSign(a: real, b: real)
    ensures a < 0.0 && Times(a, b) >= 0.0 ==> b <= 0.0
    ensures a < 0.0 && Times(a, b) <= 0.0 ==> b >= 0.0
    ensures a > 0.0 && Times(a, b) >= 0.0 ==> b >= 0.0
    ensures a > 0.0 && Times(a, b) <= 0.0 ==> b <= 0.0
  {
  }

  /** The closing edge runs along the line, with the kept side beside it. */
  lemma AlongTheLine(pen: Point, m: Point, o: Point, c: real, greater: bool, left: bool)
    requires pen.x == m.x == c && Inside(o.x, c, greater)
    requires if greater == left then m.y <= pen.y else m.y >= pen.y
    ensures Beside(pen, m, o, left)
  {
    FromStart(pen, m, o);
    assert Turn(pen, m, o) == -((o.x - c) * (m.y - pen.y));
  }

  lemma EdgeStaysBeside(polygon: seq<Point>, pen: Point, p: Point, q: Point, c: real, greater: bool, left: bool,
                         o: Point)
    requires IsEdge(polygon, p, q, left) && PenFollows(polygon, pen, p, c, greater, left)
    requires Kernel(polygon, o, left) && Inside(o.x, c, greater)
    ensures var output := EdgeOutput(p, q, 0, c, greater);
            && BesideAll(pen, output, o, left)
            && PenFollows(polygon, LastOf(pen, output), q, c, greater, left)
  {
    hide Kernel, Meeting, Turn;
    var before, after := Inside(p.x, c, greater), Inside(q.x, c, greater);
    if before != after {
      var m := Meeting(p, q, 0, c);
      MeetingIsOnTheLine(p, q, c);
      BesideParts(p, q, o, c, greater, left);
      if after {
        KernelOfMeeting(polygon, p, q, c, greater, left);
        AlongTheLine(pen, m, o, c, greater, left);
        BesideTwo(pen, m, q, o, left);
      } else {
        ExitLeads(polygon, p, q, c, greater, left);
        BesideOne(pen, m, o, left);
      }
    } else if after {
      BesideOne(pen, q, o, left);
    }
  }

  lemma BesideOne(pen: Point, a: Point, o: Point, left: bool)
    ensures BesideAll(pen, [a], o, left) <==> Beside(pen, a, o, left)
  {
    hide Beside;
    assert [a][1..] == [];
  }

  lemma BesideTwo(pen: Point, a: Point, b: Point, o: Point, left: bool)
    ensures BesideAll(pen, [a, b], o, left) <==> Beside(pen, a, o, left) && Beside(a, b, o, left)
  {
    hide Beside;
    assert [a, b] == [a] + [b];
    BesideBoth(pen, [a], [b], o, left);
    BesideOne(pen, a, o, left);
    BesideOne(a, b, o, left);
  }

  lemma KernelOfMeeting(polygon: seq<Point>, p: Point, q: Point, c: real, greater: bool, left: bool)
    requires Kernel(polygon, p, left) && Kernel(polygon, q, left)
    requires Inside(p.x, c, greater) != Inside(q.x, c, greater)
    ensures Kernel(polygon, Meeting(p, q, 0, c), left)
  {
    hide BesideAll, Meeting;
    if polygon != [] {
      MeetingBesideAll(polygon[|polygon| - 1], polygon, p, q, c, greater, left);
    }
  }

  lemma {:induction false} PathStaysBeside(polygon: seq<Point>, pen: Point, p: Point, s: seq<Point>, c: real,
                                           greater: bool, left: bool, o: Point)
    requires IsPath(polygon, p, s, left) && PenFollows(polygon, pen, p, c, greater, left)
    requires Kernel(polygon, o, left) && Inside(o.x, c, greater)
    ensures var output := Outputs(p, s, 0, c, greater);
            && BesideAll(pen, output, o, left)
            && PenFollows(polygon, LastOf(pen, output), LastOf(p, s), c, greater, left)
    decreases |s|
  {
    hide Kernel, EdgeOutput, IsEdge, PenFollows, Beside;
    if s != [] {
      var first, rest := EdgeOutput(p, s[0], 0, c, greater), Outputs(s[0], s[1..], 0, c, greater);
      EdgeStaysBeside(polygon, pen, p, s[0], c, greater, left, o);
      PathStaysBeside(polygon, LastOf(pen, first), s[0], s[1..], c, greater, left, o);
      BesideBoth(pen, first, rest, o, left);
      LastOfBoth(pen, first, rest);
    }
  }

  lemma LastOfBoth(pen: Point, a: seq<Point>, b: seq<Point>)
    ensures LastOf(pen, a + b) == LastOf(LastOf(pen, a), b)
  {
  }

  /** Whatever the pen was, it follows the walk once something was put out. */
  lemma {:induction false} PenCatchesUp(polygon: seq<Point>, pen: Point, p: Point, s: seq<Point>, c: real,
                                        greater: bool, left: bool, o: Point)
    requires IsPath(polygon, p, s, left) && Outputs(p, s, 0, c, greater) != []
    requires Kernel(polygon, o, left) && Inside(o.x, c, greater)
    ensures PenFollows(polygon, LastOf(pen, Outputs(p, s, 0, c, greater)), LastOf(p, s), c, greater, left)
    decreases |s|
  {
    hide Kernel, EdgeOutput, IsEdge, PenFollows, Beside;
    var first, rest := EdgeOutput(p, s[0], 0, c, greater), Outputs(s[0], s[1..], 0, c, greater);
    LastOfBoth(pen, first, rest);
    if first == [] {
      PenCatchesUp(polygon, pen, s[0], s[1..], c, greater, left, o);
    } else {
      EdgeLeads(polygon, pen, p, s[0], c, greater, left);
      PathStaysBeside(polygon, LastOf(pen, first), s[0], s[1..], c, greater, left, o);
    }
  }

  lemma EdgeLeads(polygon: seq<Point>, pen: Point, p: Point, q: Point, c: real, greater: bool, left: bool)
    requires IsEdge(polygon, p, q, left) && EdgeOutput(p, q, 0, c, greater) != []
    ensures PenFollows(polygon, LastOf(pen, EdgeOutput(p, q, 0, c, greater)), q, c, greater, left)
  {
    hide Kernel, Meeting, IsEdge, PenLeads;
    if Inside(p.x, c, greater) && !Inside(q.x, c, greater) {
      ExitLeads(polygon, p, q, c, greater, left);
    }
  }

  lemma {:induction false} OutputsInKernel(polygon: seq<Point>, p: Point, s: seq<Point>, c: real, greater: bool,
                                           left: bool, o: Point)
    requires IsPath(polygon, p, s, left) && o in Outputs(p, s, 0, c, greater)
    ensures Kernel(polygon, o, left) && Inside(o.x, c, greater)
    decreases |s|
  {
    hide Kernel, Meeting, Beside;
    if o !in EdgeOutput(p, s[0], 0, c, greater) {
      OutputsInKernel(polygon, s[0], s[1..], c, greater, left, o);
    } else if Inside(p.x, c, greater) != Inside(s[0].x, c, greater) {
      MeetingIsOnTheLine(p, s[0], c);
      KernelOfMeeting(polygon, p, s[0], c, greater, left);
    }
  }

  lemma ClipIsConvexAcross(polygon: seq<Point>, c: real, greater: bool, left: bool)
    requires Convex(polygon, left)
    ensures Convex(Clip(polygon, 0, c, greater), left)
  {
    hide Outputs, BesideAll, IsPath, PenFollows;
    if polygon != [] {
      var last, r := polygon[|polygon| - 1], Clip(polygon, 0, c, greater);
      ConvexIsPath(polygon, left);
      forall o | o in r ensures Kernel(r, o, left) {
        OutputsInKernel(polygon, last, polygon, c, greater, left, o);
        PenCatchesUp(polygon, last, last, polygon, c, greater, left, o);
        PathStaysBeside(polygon, r[|r| - 1], last, polygon, c, greater, left, o);
      }
    }
  }

  // ---------------------------------------------------------------- both axes

  lemma {:induction false} SwappedBeside(pen: Point, s: seq<Point>, o: Point, left: bool)
    ensures BesideAll(Point(pen.y, pen.x), Swapped(s), Point(o.y, o.x), !left) <==> BesideAll(pen, s, o, left)
    decreases |s|
  {
    hide Turn;
    if s != [] {
      SwappedBeside(s[0], s[1..], o, left);
      SwappedTurn(pen, s[0], o);
      assert Swapped(s)[1..] == Swapped(s[1..]);
    }
  }

  lemma SwappedTurn(u: Point, v: Point, o: Point)
    ensures Turn(Point(u.y, u.x), Point(v.y, v.x), Point(o.y, o.x)) == -Turn(u, v, o)
  {
  }

  lemma SwappedConvex(s: seq<Point>, left: bool)
    ensures Convex(Swapped(s), !left) <==> Convex(s, left)
  {
    hide BesideAll;
    forall o: Point ensures Kernel(Swapped(s), Point(o.y, o.x), !left) <==> Kernel(s, o, left) {
      if s != [] {
        SwappedBeside(s[|s| - 1], s, o, left);
      }
    }
    forall k | 0 <= k < |s| ensures Kernel(Swapped(s), Swapped(s)[k], !left) <==> Kernel(s, s[k], left) {
      assert Swapped(s)[k] == Point(s[k].y, s[k].x);
    }
    hide Kernel;
    assert forall o | o in s :: exists k | 0 <= k < |s| :: o == s[k];
    assert forall o | o in Swapped(s) :: exists k | 0 <= k < |s| :: o == Swapped(s)[k];
    assert forall k | 0 <= k < |s| :: s[k] in s && Swapped(s)[k] in Swapped(s);
  }

  /** Cutting a convex polygon leaves a convex polygon, with its orientation. */
  lemma ClipIsConvex(polygon: seq<Point>, axis: nat, c: real, greater: bool, left: bool)
    requires Convex(polygon, left) && axis <= 1
    ensures Convex(Clip(polygon, axis, c, greater), left)
  {
    hide Clip, Convex;
    if axis == 0 {
      ClipIsConvexAcross(polygon, c, greater, left);
    } else {
      SwappedConvex(polygon, left);
      ClipIsConvexAcross(Swapped(polygon), c, greater, !left);
      SwappedClip(polygon, c, greater);
      SwappedConvex(Clip(polygon, 1, c, greater), left);
    }
  }

  /** The part of a polygon inside one cell. */
  function CellPart(polygon: seq<Point>, x: real, y: real, step: real): seq<Point> {
    Strip(Strip(polygon, 0, x, x + step), 1, y, y + step)
  }

  lemma CellPartIsConvex(polygon: seq<Point>, x: real, y: real, step: real, left: bool)
    requires Convex(polygon, left)
    ensures Convex(CellPart(polygon, x, y, step), left)
  {
    hide Clip, Convex;
    ClipIsConvex(polygon, 0, x, true, left);
    ClipIsConvex(Clip(polygon, 0, x, true), 0, x + step, false, left);
    var column := Strip(polygon, 0, x, x + step);
    ClipIsConvex(column, 1, y, true, left);
    ClipIsConvex(Clip(column, 1, y, true), 1, y + step, false, left);
  }

  function Vertices(t: Triangle): (r: seq<Point>)
    ensures |r| == 3
  {
    [t.a, t.b, t.c]
  }

  lemma TriangleIsConvex(t: Triangle)
    ensures t.DoubledArea() >= 0.0 ==> Convex(Vertices(t), true)
    ensures t.DoubledArea() <= 0.0 ==> Convex(Vertices(t), false)
  {
    hide Turn, BesideAll;
    var s := Vertices(t);
    TurnsOfTriangle(t);
    forall o, left: bool | o in s ensures Kernel(s, o, left) <==> Beside(t.a, t.b, t.c, left) {
      assert s == [t.a] + [t.b, t.c];
      BesideBoth(t.c, [t.a], [t.b, t.c], o, left);
      BesideOne(t.c, t.a, o, left);
      BesideTwo(t.a, t.b, t.c, o, left);
    }
  }

  lemma TurnsOfTriangle(t: Triangle)
    ensures Turn(t.a, t.b, t.c) == Turn(t.b, t.c, t.a) == Turn(t.c, t.a, t.b)
    ensures Turn(t.a, t.b, t.a) == Turn(t.a, t.b, t.b) == Turn(t.b, t.c, t.b) == Turn(t.b, t.c, t.c) == 0.0
    ensures Turn(t.c, t.a, t.c) == Turn(t.c, t.a, t.a) == 0.0
  {
  }

  /** Every cell's part of a triangle has the sign of the triangle's own area. */
  lemma PartsHaveSign(t: Triangle, x: real, y: real, step: real)
    ensures t.DoubledArea() >= 0.0 ==> DoubledArea(CellPart(Vertices(t), x, y, step)) >= 0.0
    ensures t.DoubledArea() <= 0.0 ==> DoubledArea(CellPart(Vertices(t), x, y, step)) <= 0.0
  {
    hide CellPart, DoubledArea, Convex, Turn, Vertices;
    TriangleIsConvex(t);
    if t.DoubledArea() >= 0.0 {
      CellPartIsConvex(Vertices(t), x, y, step, true);
      ConvexSign(CellPart(Vertices(t), x, y, step), true);
    }
    if t.DoubledArea() <= 0.0 {
      CellPartIsConvex(Vertices(t), x, y, step, false);
      ConvexSign(CellPart(Vertices(t), x, y, step), false);
    }
  }
}

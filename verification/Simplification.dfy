/** Dropping the vertices at which a polygon does not turn keeps its area
    (services/simulation-server/src/scenario/grid.rs, triangulate). */
module Simplification {
  import opened Sums
  import opened Clipping
  import opened Triangulation

  ghost predicate Distinct(s: seq<Point>) {
    forall j, k | 0 <= j < k < |s| :: s[j] != s[k]
  }

  // ---------------------------------------------------------------- along a path

  function NextOn(w: seq<Point>, end: Point): Point {
    if w == [] then end else w[0]
  }

  /** The vertices of a path at which it turns; it comes from one point and goes on to another. */
  function PathTurning(prev: Point, w: seq<Point>, end: Point): seq<Point>
    decreases |w|
  {
    if w == [] then []
    else
      (if Turn(prev, w[0], NextOn(w[1..], end)) != 0.0 then [w[0]] else []) + PathTurning(w[0], w[1..], end)
  }

  ghost predicate NoneTwice(prev: Point, w: seq<Point>)
    decreases |w|
  {
    w == [] || (prev != w[0] && NoneTwice(w[0], w[1..]))
  }

  /** Three points on a line and a fourth on the same line. */
  lemma OnOneLine(anchor: Point, prev: Point, v: Point, next: Point)
    requires prev != v && Turn(anchor, prev, v) == 0.0 && Turn(prev, v, next) == 0.0
    ensures Turn(anchor, v, next) == 0.0
  {
    var ux, uy := v.x - prev.x, v.y - prev.y;
    var ax, ay, cx, cy := v.x - anchor.x, v.y - anchor.y, next.x - v.x, next.y - v.y;
    assert Turn(anchor, prev, v) == (ax - ux) * uy - ux * (ay - uy);
    assert Turn(prev, v, next) == ux * cy - cx * uy;
    assert Turn(anchor, v, next) == ax * cy - cx * ay;
    Plane(ax, ay, cx, cy, ux, uy);
  }

  lemma Plane(ax: real, ay: real, cx: real, cy: real, ux: real, uy: real)
    requires (ux != 0.0 || uy != 0.0) && (ax - ux) * uy - ux * (ay - uy) == 0.0 && ux * cy - cx * uy == 0.0
    ensures ax * cy - cx * ay == 0.0
  {
    assert ax * uy == ux * ay;
    assert ux * (ax * cy - cx * ay) == ax * (ux * cy) - cx * (ux * ay) == ax * (cx * uy) - cx * (ax * uy) == 0.0;
    assert uy * (ax * cy - cx * ay) == (ax * uy) * cy - cx * uy * ay == (ux * ay) * cy - ux * cy * ay == 0.0;
  }

  /** Seen from an anchor in line with where the path comes from, the vertices at which it turns see the same area. */
  lemma {:induction false} PathKeepsArea(anchor: Point, prev: Point, w: seq<Point>, end: Point)
    requires NoneTwice(prev, w) && Turn(anchor, prev, NextOn(w, end)) == 0.0
    ensures var kept := PathTurning(prev, w, end);
            && Cross(anchor, prev) + CrossSum(prev, w)
               == CrossSum(anchor, kept) + Cross(LastOf(anchor, kept), LastOf(prev, w))
            && Turn(LastOf(anchor, kept), LastOf(prev, w), end) == 0.0
    decreases |w|
  {
    hide Cross, Turn, PathTurning, CrossSum;
    PathUnfolds(prev, w, end);
    if w == [] {
      NoCross(prev, w);
      NoCross(anchor, []);
    } else {
      var v, next, rest := w[0], NextOn(w[1..], end), PathTurning(w[0], w[1..], end);
      TurnIsCrosses(anchor, prev, v);
      OneMoreCross(prev, w);
      if Turn(prev, v, next) != 0.0 {
        TurnAtItself(v, next);
        PathKeepsArea(v, v, w[1..], end);
        OneMoreCross(anchor, [v] + rest);
        assert ([v] + rest)[1..] == rest && LastOf(anchor, [v] + rest) == LastOf(v, rest);
      } else {
        OnOneLine(anchor, prev, v, next);
        PathKeepsArea(anchor, v, w[1..], end);
      }
    }
  }

  lemma PathUnfolds(prev: Point, w: seq<Point>, end: Point)
    ensures PathTurning(prev, w, end)
         == if w == [] then []
            else
              var rest := PathTurning(w[0], w[1..], end);
              if Turn(prev, w[0], NextOn(w[1..], end)) != 0.0 then [w[0]] + rest else rest
  {
    hide Turn;
    if w != [] {
      assert [] + PathTurning(w[0], w[1..], end) == PathTurning(w[0], w[1..], end);
    }
  }

  lemma OneMoreCross(pen: Point, s: seq<Point>)
    requires s != []
    ensures CrossSum(pen, s) == Cross(pen, s[0]) + CrossSum(s[0], s[1..])
  {
    hide Cross;
  }

  lemma TurnAtItself(v: Point, next: Point)
    ensures Turn(v, v, next) == 0.0 && Cross(v, v) == 0.0
  {
  }

  // ---------------------------------------------------------------- round a polygon

  lemma {:induction false} TurningAlong(s: seq<Point>, n: nat)
    requires n <= |s| && s != []
    ensures PathTurning(s[|s| - 1], s, s[0])
         == Turning(s, 0.0, n) + PathTurning(if n == 0 then s[|s| - 1] else s[n - 1], s[n..], s[0])
    decreases n
  {
    hide Turn;
    if n > 0 {
      TurningAlong(s, n - 1);
      assert s[n - 1..][1..] == s[n..];
      assert NextOn(s[n..], s[0]) == s[After(|s|, n - 1)];
    }
  }

  lemma {:induction false} DistinctOnPath(s: seq<Point>, n: nat)
    requires Distinct(s) && |s| > 1 && n <= |s|
    ensures NoneTwice(if n == 0 then s[|s| - 1] else s[n - 1], s[n..])
    decreases |s| - n
  {
    if n < |s| {
      DistinctOnPath(s, n + 1);
      assert s[n..][1..] == s[n + 1..];
    }
  }

  /** Dropping at once every vertex of a polygon at which it does not turn keeps the area. */
  lemma TurningKeepsArea(s: seq<Point>)
    requires Distinct(s) && |s| > 1
    ensures DoubledArea(Turning(s, 0.0, |s|)) == DoubledArea(s)
  {
    hide Cross, Turn, CrossSum, PathTurning;
    var last, kept := s[|s| - 1], Turning(s, 0.0, |s|);
    TurningAlong(s, |s|);
    NothingLeft(last, s[0]);
    assert s[|s|..] == [] && s[0..] == s && kept + [] == kept;
    assert PathTurning(last, s, s[0]) == kept;
    DistinctOnPath(s, 0);
    TurnAtItself(last, s[0]);
    PathKeepsArea(last, last, s, s[0]);
    if kept != [] {
      PathKeepsArea(kept[|kept| - 1], last, s, s[0]);
    } else {
      NoCross(last, kept);
    }
  }

  lemma NothingLeft(prev: Point, end: Point)
    ensures PathTurning(prev, [], end) == []
  {
  }

  lemma NoCross(pen: Point, s: seq<Point>)
    requires s == []
    ensures CrossSum(pen, s) == 0.0
  {
  }

  lemma {:induction false} TurningIsDistinct(s: seq<Point>, tolerance: real, n: nat)
    requires Distinct(s) && n <= |s|
    ensures Distinct(Turning(s, tolerance, n)) && forall p | p in Turning(s, tolerance, n) :: p in s[..n]
    decreases n
  {
    hide Turn;
    if n > 0 {
      TurningIsDistinct(s, tolerance, n - 1);
      assert s[..n] == s[..n - 1] + [s[n - 1]];
      var before := Turning(s, tolerance, n - 1);
      forall k | 0 <= k < |before| ensures before[k] != s[n - 1] {
        assert before[k] in s[..n - 1];
      }
    }
  }

  /** Without tolerance the simplified polygon has the area of the original. */
  lemma {:induction false} SimplifiedKeepsArea(s: seq<Point>)
    requires Distinct(s)
    ensures DoubledArea(Simplified(s, 0.0)) == DoubledArea(s)
    decreases |s|
  {
    hide Turn, DoubledArea, Turning;
    if |s| > 3 {
      TurningKeepsArea(s);
      TurningIsDistinct(s, 0.0, |s|);
      var kept := Turning(s, 0.0, |s|);
      if |kept| < |s| {
        SimplifiedKeepsArea(kept);
      }
    }
  }

  lemma {:induction false} ReversedIsDistinct(s: seq<Point>)
    requires Distinct(s)
    ensures Distinct(Reversed(s)) && forall p | p in Reversed(s) :: p in s
    decreases |s|
  {
    if s != [] {
      var rest := s[1..];
      assert forall j, k | 0 <= j < k < |rest| :: rest[j] == s[j + 1] && rest[k] == s[k + 1];
      ReversedIsDistinct(rest);
      var back := Reversed(rest);
      forall k | 0 <= k < |back| ensures back[k] != s[0] {
        assert back[k] in rest;
      }
    }
  }

  /** Without tolerance the triangles of a polygon with distinct vertices have together the area of the boundary, and all
      of them but the last turn left. */
  lemma TrianglesKeepArea(polygon: seq<Point>)
    requires Distinct(polygon)
    ensures var r := Cut(Simplified(Oriented(polygon), 0.0), 0.0);
            r.Success? ==>
              && |r.value| > 0 && TriangleSum(r.value) == Abs(DoubledArea(polygon))
              && forall k | 0 <= k < |r.value| - 1 :: r.value[k].DoubledArea() > 0.0
  {
    hide Turn, DoubledArea, Turning, Simplified, Cut, Reversed;
    OrientedArea(polygon);
    ReversedIsDistinct(polygon);
    SimplifiedKeepsArea(Oriented(polygon));
    CutKeepsArea(Simplified(Oriented(polygon), 0.0), 0.0);
    AtLeastThree(Simplified(Oriented(polygon), 0.0));
  }

  lemma AtLeastThree(vertices: seq<Point>)
    ensures Cut(vertices, 0.0).Success? ==> |vertices| >= 3
  {
  }
}

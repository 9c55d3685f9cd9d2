/** Which triangles ear clipping gives, in coordinates, and when it gives up
    (services/simulation-server/src/scenario/grid.rs, triangulate and in_triangle). */
module EarClipping {
  import opened Wrappers
  import opened Sums
  import opened Clipping
  import opened Triangulation

  /** Twice the signed area between a directed side and a point; negative to the right of the side. */
  function Side(a: Point, b: Point, p: Point): real {
    Times(b.x - a.x, p.y - a.y) - Times(p.x - a.x, b.y - a.y)
  }

  /** The point lies to the right of some side, by more than the tolerance. */
  predicate Outside(a: Point, b: Point, c: Point, p: Point, tolerance: real) {
    Side(a, b, p) < -tolerance || Side(b, c, p) < -tolerance || Side(c, a, p) < -tolerance
  }

  /** A vertex may be cut off: the polygon turns left there, and every vertex but its neighbours lies outside the
      corner. */
  ghost predicate MayCut(s: seq<Point>, k: nat, tolerance: real)
    requires k < |s|
  {
    var p, n := if k == 0 then |s| - 1 else k - 1, if k == |s| - 1 then 0 else k + 1;
    && Side(s[p], s[k], s[n]) > tolerance
    && forall j | 0 <= j < |s| && j != p && j != k && j != n :: Outside(s[p], s[k], s[n], s[j], tolerance)
  }

  /** The first vertex that may be cut off. */
  ghost predicate FirstToCut(s: seq<Point>, k: nat, tolerance: real) {
    k < |s| && MayCut(s, k, tolerance) && forall j | 0 <= j < k :: !MayCut(s, j, tolerance)
  }

  ghost predicate CornerAt(s: seq<Point>, k: nat, t: Triangle) {
    && k < |s|
    && t == Triangle(if k == 0 then s[|s| - 1] else s[k - 1], s[k], if k == |s| - 1 then s[0] else s[k + 1])
  }

  /** Corner after corner is cut off, always the first that may be, until a triangle is left. */
  ghost predicate AreCutOff(s: seq<Point>, tolerance: real, cuts: seq<nat>, triangles: seq<Triangle>)
    decreases |s|
  {
    if |s| <= 3 then |s| == 3 && cuts == [] && triangles == [Triangle(s[0], s[1], s[2])]
    else
      && cuts != [] && triangles != []
      && FirstToCut(s, cuts[0], tolerance) && CornerAt(s, cuts[0], triangles[0])
      && AreCutOff(s[..cuts[0]] + s[cuts[0] + 1..], tolerance, cuts[1..], triangles[1..])
  }

  /** After these cuts more than three vertices are left of which none may be cut off. */
  ghost predicate IsStuck(s: seq<Point>, tolerance: real, cuts: seq<nat>)
    decreases |s|
  {
    && |s| > 3
    && if cuts == [] then forall k | 0 <= k < |s| :: !MayCut(s, k, tolerance)
       else
         && FirstToCut(s, cuts[0], tolerance)
         && IsStuck(s[..cuts[0]] + s[cuts[0] + 1..], tolerance, cuts[1..])
  }

  lemma TurnIsSide(a: Point, b: Point, c: Point)
    ensures Turn(a, b, c) == Side(a, b, c)
  {
    TimesSum(b.x - a.x, c.y - a.y, b.y - a.y);
    assert c.y - b.y == (c.y - a.y) - (b.y - a.y);
    SecondSum(c.x - a.x, b.x - a.x, b.y - a.y);
    assert c.x - b.x == (c.x - a.x) - (b.x - a.x);
  }

  lemma SecondSum(a: real, b: real, c: real)
    ensures Times(a - b, c) == Times(a, c) - Times(b, c)
  {
  }

  lemma EarMayBeCut(s: seq<Point>, k: nat, tolerance: real)
    requires k < |s|
    ensures IsEar(s, k, tolerance) <==> MayCut(s, k, tolerance)
  {
    hide Times, Turn;
    TurnIsSide(s[Before(|s|, k)], s[k], s[After(|s|, k)]);
    forall j | 0 <= j < |s|
      ensures Corner(s, k).Contains(s[j], tolerance)
              <==> !Outside(s[Before(|s|, k)], s[k], s[After(|s|, k)], s[j], tolerance)
    {
    }
  }

  lemma {:induction false} FirstEarIsFirst(s: seq<Point>, k: nat, tolerance: real)
    requires k <= |s| && forall j | 0 <= j < k :: !MayCut(s, j, tolerance)
    ensures var ear := FirstEar(s, k, tolerance);
            if ear.Some? then FirstToCut(s, ear.value, tolerance)
            else forall j | 0 <= j < |s| :: !MayCut(s, j, tolerance)
    decreases |s| - k
  {
    hide IsEar, MayCut;
    if k < |s| {
      EarMayBeCut(s, k, tolerance);
      if !MayCut(s, k, tolerance) {
        FirstEarIsFirst(s, k + 1, tolerance);
      }
    }
  }

  /** Ear clipping gives the triangles that cutting off corners gives, or it stops with fewer than three vertices, or with
      more than three where every corner to the left holds another vertex. */
  lemma {:induction false} CutsEars(s: seq<Point>, tolerance: real) returns (cuts: seq<nat>)
    ensures var r := Cut(s, tolerance);
            if r.Success? then AreCutOff(s, tolerance, cuts, r.value) else |s| < 3 || IsStuck(s, tolerance, cuts)
    decreases |s|
  {
    hide FirstEar, MayCut, FirstToCut;
    cuts := [];
    if |s| > 3 {
      FirstEarIsFirst(s, 0, tolerance);
      var ear := FirstEar(s, 0, tolerance);
      if ear.Some? {
        var k := ear.value;
        var later := CutsEars(Without(s, k), tolerance);
        cuts := [k] + later;
        assert cuts[1..] == later;
        var r := Cut(s, tolerance);
        if r.Success? {
          assert r.value[1..] == Cut(Without(s, k), tolerance).value;
        }
      }
    }
  }

  ghost predicate IsCornerOf(p: Point, t: Triangle) {
    p == t.a || p == t.b || p == t.c
  }

  lemma {:induction false} CornersAreVertices(s: seq<Point>, tolerance: real, cuts: seq<nat>, triangles: seq<Triangle>,
                                              j: nat, p: Point)
    requires AreCutOff(s, tolerance, cuts, triangles) && j < |triangles| && IsCornerOf(p, triangles[j])
    ensures p in s
    decreases |s|
  {
    hide MayCut, FirstToCut;
    if |s| > 3 && j > 0 {
      CornersAreVertices(s[..cuts[0]] + s[cuts[0] + 1..], tolerance, cuts[1..], triangles[1..], j - 1, p);
    }
  }

  /** What is cut off holds nothing of what is cut later: every corner of a later triangle is a corner of this one too,
      or it lies outside. */
  lemma {:induction false} LaterCornersLieOutside(s: seq<Point>, tolerance: real, cuts: seq<nat>,
                                                  triangles: seq<Triangle>, k: nat, j: nat, p: Point)
    requires AreCutOff(s, tolerance, cuts, triangles) && k < j < |triangles| && IsCornerOf(p, triangles[j])
    ensures IsCornerOf(p, triangles[k])
            || Outside(triangles[k].a, triangles[k].b, triangles[k].c, p, tolerance)
    decreases |s|
  {
    hide Outside, MayCut, CornerAt;
    if |s| > 3 {
      var rest := s[..cuts[0]] + s[cuts[0] + 1..];
      if k > 0 {
        LaterCornersLieOutside(rest, tolerance, cuts[1..], triangles[1..], k - 1, j - 1, p);
      } else {
        CornersAreVertices(rest, tolerance, cuts[1..], triangles[1..], j - 1, p);
        FirstHoldsNone(s, tolerance, cuts[0], triangles[0], p);
      }
    }
  }

  lemma FirstHoldsNone(s: seq<Point>, tolerance: real, cut: nat, t: Triangle, p: Point)
    requires FirstToCut(s, cut, tolerance) && CornerAt(s, cut, t) && p in s
    ensures IsCornerOf(p, t) || Outside(t.a, t.b, t.c, p, tolerance)
  {
    hide Outside;
    var i :| 0 <= i < |s| && s[i] == p;
  }

  /** Of a triangulated polygon: for any two of its triangles, each corner of the one cut later is a corner of the
      earlier, or lies more than the tolerance to the right of one of the earlier's sides. */
  lemma TrianglesKeepClear(vertices: seq<Point>, tolerance: real, k: nat, j: nat, p: Point)
    requires Cut(vertices, tolerance).Success?
    requires k < j < |Cut(vertices, tolerance).value|
    requires var t := Cut(vertices, tolerance).value[j]; p == t.a || p == t.b || p == t.c
    ensures var t := Cut(vertices, tolerance).value[k];
            || p == t.a || p == t.b || p == t.c
            || Times(t.b.x - t.a.x, p.y - t.a.y) - Times(p.x - t.a.x, t.b.y - t.a.y) < -tolerance
            || Times(t.c.x - t.b.x, p.y - t.b.y) - Times(p.x - t.b.x, t.c.y - t.b.y) < -tolerance
            || Times(t.a.x - t.c.x, p.y - t.c.y) - Times(p.x - t.c.x, t.a.y - t.c.y) < -tolerance
  {
    hide Cut, AreCutOff, Times;
    var cuts := CutsEars(vertices, tolerance);
    LaterCornersLieOutside(vertices, tolerance, cuts, Cut(vertices, tolerance).value, k, j, p);
  }

  // ---------------------------------------------------------------- vertices that hardly turn

  /** The vertices at these positions, in order: exactly those at which the polygon turns by more than the tolerance. */
  ghost predicate KeepsTurning(s: seq<Point>, tolerance: real, kept: seq<nat>, n: nat)
    requires n <= |s|
  {
    && (forall i | 0 <= i < |kept| :: kept[i] < n) && (forall i, j | 0 <= i < j < |kept| :: kept[i] < kept[j])
    && forall k | 0 <= k < n :: k in kept <==> Turns(s, k, tolerance)
  }

  predicate Turns(s: seq<Point>, k: nat, tolerance: real)
    requires k < |s|
  {
    var side := Side(if k == 0 then s[|s| - 1] else s[k - 1], s[k], if k == |s| - 1 then s[0] else s[k + 1]);
    side > tolerance || side < -tolerance
  }

  lemma {:induction false} TurningKeeps(s: seq<Point>, tolerance: real, n: nat) returns (kept: seq<nat>)
    requires n <= |s|
    ensures KeepsTurning(s, tolerance, kept, n)
    ensures var r := Turning(s, tolerance, n); |r| == |kept| && forall i | 0 <= i < |kept| :: r[i] == s[kept[i]]
    decreases n
  {
    hide Turn, Side, Turns;
    kept := [];
    if n > 0 {
      kept := TurningKeeps(s, tolerance, n - 1);
      TurnsMeans(s, n - 1, tolerance);
      if Turns(s, n - 1, tolerance) {
        var more := kept + [n - 1];
        assert more[|kept|] == n - 1;
        assert forall k :: k in more <==> k in kept || k == n - 1;
        kept := more;
      }
    }
  }

  lemma TurnsMeans(s: seq<Point>, k: nat, tolerance: real)
    requires k < |s|
    ensures Turns(s, k, tolerance) <==> Abs(Corner(s, k).DoubledArea()) > tolerance
  {
    hide Turn, Side;
    TurnIsSide(s[Before(|s|, k)], s[k], s[After(|s|, k)]);
  }

  /** Polygons that follow each other by dropping every vertex that hardly turns. */
  ghost predicate AreDropped(tolerance: real, polygons: seq<seq<Point>>, kept: seq<seq<nat>>) {
    && |polygons| == |kept| + 1
    && (forall x | 0 <= x < |kept| :: IsDropped(polygons[x], tolerance, kept[x], polygons[x + 1]))
  }

  ghost predicate IsDropped(s: seq<Point>, tolerance: real, kept: seq<nat>, r: seq<Point>) {
    && |s| > 3 && |kept| == |r| < |s| && KeepsTurning(s, tolerance, kept, |s|)
    && forall i | 0 <= i < |kept| :: r[i] == s[kept[i]]
  }

  /** Simplifying drops the vertices that hardly turn, all at once, and again, while there are more than three; it stops
      as soon as every vertex turns. */
  lemma {:induction false} SimplifiedDrops(s: seq<Point>, tolerance: real)
    returns (polygons: seq<seq<Point>>, kept: seq<seq<nat>>)
    ensures AreDropped(tolerance, polygons, kept) && polygons[0] == s
    ensures polygons[|kept|] == Simplified(s, tolerance)
    ensures |Simplified(s, tolerance)| <= 3
            || forall k | 0 <= k < |Simplified(s, tolerance)| :: Turns(Simplified(s, tolerance), k, tolerance)
    decreases |s|
  {
    hide Turn, Turning, Turns, KeepsTurning;
    polygons, kept := [s], [];
    if |s| > 3 {
      var next := Turning(s, tolerance, |s|);
      if |next| < |s| {
        var positions := TurningKeeps(s, tolerance, |s|);
        var later, rest := SimplifiedDrops(next, tolerance);
        polygons, kept := [s] + later, [positions] + rest;
        assert IsDropped(s, tolerance, positions, next);
        forall x | 0 <= x < |kept| ensures IsDropped(polygons[x], tolerance, kept[x], polygons[x + 1]) {
          if x > 0 {
            assert IsDropped(later[x - 1], tolerance, rest[x - 1], later[x]);
          }
        }
      } else {
        AllTurn(s, tolerance, |s|);
        forall k | 0 <= k < |s| ensures Turns(s, k, tolerance) {
          TurnsMeans(s, k, tolerance);
        }
      }
    }
  }
}

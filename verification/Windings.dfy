/** Ear clipping covers every point as often as the polygon winds round it
    (services/simulation-server/src/scenario/grid.rs, triangulate). */
module Windings {
  import opened Wrappers
  import opened Sums
  import opened Clipping
  import opened Triangulation
  import opened EarClipping

  // ---------------------------------------------------------------- winding numbers

  /** How an edge passes the point: upwards on its right counts 1, downwards on its right -1. */
  function Passes(a: Point, b: Point, p: Point): int {
    if a.y <= p.y < b.y && Side(a, b, p) > 0.0 then 1
    else if b.y <= p.y < a.y && Side(a, b, p) < 0.0 then -1
    else 0
  }

  function PathWinding(pen: Point, s: seq<Point>, p: Point): int
    decreases |s|
  {
    if s == [] then 0 else Passes(pen, s[0], p) + PathWinding(s[0], s[1..], p)
  }

  /** How often a closed polygon winds round a point, counter-clockwise. */
  function Winding(s: seq<Point>, p: Point): int {
    if s == [] then 0 else PathWinding(s[|s| - 1], s, p)
  }

  function TriangleWinding(t: Triangle, p: Point): int {
    Passes(t.a, t.b, p) + Passes(t.b, t.c, p) + Passes(t.c, t.a, p)
  }

  function CoverCount(triangles: seq<Triangle>, p: Point): int
    decreases |triangles|
  {
    if triangles == [] then 0 else TriangleWinding(triangles[0], p) + CoverCount(triangles[1..], p)
  }

  // ---------------------------------------------------------------- a triangle winds once round what is inside

  predicate Inside(t: Triangle, p: Point) {
    Side(t.a, t.b, p) > 0.0 && Side(t.b, t.c, p) > 0.0 && Side(t.c, t.a, p) > 0.0
  }

  predicate Beyond(t: Triangle, p: Point) {
    Side(t.a, t.b, p) < 0.0 || Side(t.b, t.c, p) < 0.0 || Side(t.c, t.a, p) < 0.0
  }

  /** The three sides share out the area, and weigh the corners' heights over the point to nothing. */
  lemma SidesBalance(a: Point, b: Point, c: Point, p: Point)
    ensures Side(a, b, p) + Side(b, c, p) + Side(c, a, p) == Side(a, b, c)
    ensures Times(Side(a, b, p), c.y - p.y) + Times(Side(b, c, p), a.y - p.y) + Times(Side(c, a, p), b.y - p.y) == 0.0
  {
    var x1, y1, x2, y2, x3, y3 := a.x - p.x, a.y - p.y, b.x - p.x, b.y - p.y, c.x - p.x, c.y - p.y;
    SideFrom(a, b, p);
    SideFrom(b, c, p);
    SideFrom(c, a, p);
    SideOfThree(a, b, c, p);
    Balance(x1, y1, x2, y2, x3, y3);
  }

  lemma SideFrom(a: Point, b: Point, p: Point)
    ensures Side(a, b, p) == (a.x - p.x) * (b.y - p.y) - (b.x - p.x) * (a.y - p.y)
  {
    var x1, y1, x2, y2 := a.x - p.x, a.y - p.y, b.x - p.x, b.y - p.y;
    assert b.x - a.x == x2 - x1 && b.y - a.y == y2 - y1 && p.x - a.x == -x1 && p.y - a.y == -y1;
    assert (x2 - x1) * -y1 - (-x1) * (y2 - y1) == x1 * y2 - x2 * y1;
  }

  lemma SideOfThree(a: Point, b: Point, c: Point, p: Point)
    ensures var x1, y1, x2, y2, x3, y3 := a.x - p.x, a.y - p.y, b.x - p.x, b.y - p.y, c.x - p.x, c.y - p.y;
            Side(a, b, c) == x1 * y2 - x2 * y1 + (x2 * y3 - x3 * y2) + (x3 * y1 - x1 * y3)
  {
    var x1, y1, x2, y2, x3, y3 := a.x - p.x, a.y - p.y, b.x - p.x, b.y - p.y, c.x - p.x, c.y - p.y;
    assert b.x - a.x == x2 - x1 && c.y - a.y == y3 - y1 && c.x - a.x == x3 - x1 && b.y - a.y == y2 - y1;
    assert (x2 - x1) * (y3 - y1) - (x3 - x1) * (y2 - y1) == x1 * y2 - x2 * y1 + (x2 * y3 - x3 * y2) + (x3 * y1 - x1 * y3);
  }

  lemma Balance(x1: real, y1: real, x2: real, y2: real, x3: real, y3: real)
    ensures Times(x1 * y2 - x2 * y1, y3) + Times(x2 * y3 - x3 * y2, y1) + Times(x3 * y1 - x1 * y3, y2) == 0.0
  {
    assert (x1 * y2 - x2 * y1) * y3 == x1 * y2 * y3 - x2 * y1 * y3;
    assert (x2 * y3 - x3 * y2) * y1 == x2 * y3 * y1 - x3 * y2 * y1;
    assert (x3 * y1 - x1 * y3) * y2 == x3 * y1 * y2 - x1 * y3 * y2;
    assert x1 * y2 * y3 == x1 * y3 * y2 && x2 * y1 * y3 == x2 * y3 * y1 && x3 * y2 * y1 == x3 * y1 * y2;
  }

  lemma SignOf(x: real, y: real)
    ensures x > 0.0 && y > 0.0 ==> Times(x, y) > 0.0
    ensures x < 0.0 && y > 0.0 ==> Times(x, y) < 0.0
    ensures x <= 0.0 && y <= 0.0 ==> Times(x, y) >= 0.0
    ensures x >= 0.0 && y <= 0.0 ==> Times(x, y) <= 0.0
    ensures x > 0.0 && y <= 0.0 && Times(x, y) == 0.0 ==> y == 0.0
    ensures x >= 0.0 && y >= 0.0 ==> Times(x, y) >= 0.0
    ensures x <= 0.0 && y >= 0.0 ==> Times(x, y) <= 0.0
  {
  }

  /** A triangle that turns left winds once round what is inside, not at all round what is beyond, and either way round
      its border. */
  lemma TriangleWindsOnce(t: Triangle, p: Point)
    requires Side(t.a, t.b, t.c) > 0.0
    ensures TriangleWinding(t, p) == 0 || TriangleWinding(t, p) == 1
    ensures Inside(t, p) ==> TriangleWinding(t, p) == 1
    ensures Beyond(t, p) ==> TriangleWinding(t, p) == 0
  {
    hide Times, Side;
    var a, b, c := t.a, t.b, t.c;
    var u, v, w := Side(a, b, p), Side(b, c, p), Side(c, a, p);
    var ya, yb, yc := a.y - p.y, b.y - p.y, c.y - p.y;
    SidesBalance(a, b, c, p);
    SignOf(u, yc);
    SignOf(v, ya);
    SignOf(w, yb);
    if ya <= 0.0 && yb <= 0.0 && yc <= 0.0 && Inside(t, p) {
      FlatTriangle(a, b, c);
    }
  }

  lemma FlatTriangle(a: Point, b: Point, c: Point)
    requires a.y == b.y == c.y
    ensures Side(a, b, c) == 0.0
  {
    TimesZero(b.x - a.x);
    TimesZero(c.x - a.x);
  }

  // ---------------------------------------------------------------- windings add up

  lemma BothWays(a: Point, b: Point, p: Point)
    ensures Passes(a, b, p) == -Passes(b, a, p)
  {
    SideFrom(a, b, p);
    SideFrom(b, a, p);
  }

  lemma {:induction false} PathOfBoth(pen: Point, a: seq<Point>, b: seq<Point>, p: Point)
    ensures PathWinding(pen, a + b, p) == PathWinding(pen, a, p) + PathWinding(LastOf(pen, a), b, p)
    decreases |a|
  {
    hide Passes;
    if a == [] {
      assert a + b == b;
    } else {
      PathOfBoth(a[0], a[1..], b, p);
      assert (a + b)[1..] == a[1..] + b;
    }
  }

  lemma OnePass(pen: Point, q: Point, p: Point)
    ensures PathWinding(pen, [q], p) == Passes(pen, q, p)
  {
    hide Passes;
    assert [q][1..] == [];
  }

  lemma SkipOneVertex(pen: Point, v: Point, rest: seq<Point>, p: Point)
    requires rest != []
    ensures PathWinding(pen, [v] + rest, p)
         == PathWinding(pen, rest, p) + TriangleWinding(Triangle(pen, v, rest[0]), p)
  {
    hide Passes;
    assert ([v] + rest)[1..] == rest;
    BothWays(pen, rest[0], p);
  }

  /** Cutting off a corner takes exactly the windings of its triangle away. */
  lemma CornerWinding(s: seq<Point>, k: nat, p: Point)
    requires |s| >= 3 && k < |s|
    ensures Winding(s, p) == Winding(Without(s, k), p) + TriangleWinding(Corner(s, k), p)
  {
    hide Passes, PathWinding, TriangleWinding;
    var a, v, b := s[..k], s[k], s[k + 1..];
    var last := s[|s| - 1];
    assert s == a + ([v] + b);
    PathOfBoth(last, a, [v] + b, p);
    if b != [] {
      SkipOneVertex(LastOf(last, a), v, b, p);
      PathOfBoth(last, a, b, p);
      assert LastOf(last, a) == s[Before(|s|, k)] && b[0] == s[After(|s|, k)];
      assert Without(s, k)[|s| - 2] == last;
    } else {
      LastVertex(a, v, p);
      assert a + ([v] + b) == a + [v] && Without(s, k) == a;
    }
  }

  lemma LastVertex(a: seq<Point>, v: Point, p: Point)
    requires |a| >= 2
    ensures Winding(a + [v], p) == Winding(a, p) + TriangleWinding(Triangle(a[|a| - 1], v, a[0]), p)
  {
    hide Passes;
    var first, last := a[0], a[|a| - 1];
    PathOfBoth(v, a, [v], p);
    OnePass(last, v, p);
    assert a == [first] + a[1..];
    PathOfBoth(v, [first], a[1..], p);
    PathOfBoth(last, [first], a[1..], p);
    OnePass(v, first, p);
    OnePass(last, first, p);
    BothWays(first, last, p);
  }

  lemma ThreeVertices(s: seq<Point>, p: Point)
    requires |s| == 3
    ensures Winding(s, p) == TriangleWinding(Triangle(s[0], s[1], s[2]), p)
  {
    hide Passes;
    assert s[1..] == [s[1], s[2]] && [s[1], s[2]][1..] == [s[2]] && [s[2]][1..] == [];
    assert PathWinding(s[2], s, p) == Passes(s[2], s[0], p) + PathWinding(s[0], [s[1], s[2]], p);
    assert PathWinding(s[0], [s[1], s[2]], p) == Passes(s[0], s[1], p) + PathWinding(s[1], [s[2]], p);
    OnePass(s[1], s[2], p);
  }

  /** The triangles together cover every point as often as the polygon winds round it. */
  lemma {:induction false} CoveredAsOftenAsWound(vertices: seq<Point>, tolerance: real, p: Point)
    requires Cut(vertices, tolerance).Success?
    ensures CoverCount(Cut(vertices, tolerance).value, p) == Winding(vertices, p)
    decreases |vertices|
  {
    hide Turn, Winding, TriangleWinding;
    var r := Cut(vertices, tolerance).value;
    if |vertices| == 3 {
      ThreeVertices(vertices, p);
      assert r[1..] == [];
    } else {
      var ear := FirstEar(vertices, 0, tolerance).value;
      CoveredAsOftenAsWound(Without(vertices, ear), tolerance, p);
      CornerWinding(vertices, ear, p);
      assert r[1..] == Cut(Without(vertices, ear), tolerance).value;
    }
  }

  // ---------------------------------------------------------------- no overlap

  ghost predicate AllTurnLeft(triangles: seq<Triangle>) {
    forall k | 0 <= k < |triangles| :: Side(triangles[k].a, triangles[k].b, triangles[k].c) > 0.0
  }

  lemma {:induction false} CountIsOfInside(triangles: seq<Triangle>, p: Point, j: nat, k: nat)
    requires AllTurnLeft(triangles)
    ensures CoverCount(triangles, p) >= 0
    ensures j < |triangles| && Inside(triangles[j], p) ==> CoverCount(triangles, p) >= 1
    ensures j < k < |triangles| && Inside(triangles[j], p) && Inside(triangles[k], p) ==> CoverCount(triangles, p) >= 2
    ensures (forall i | 0 <= i < |triangles| :: Beyond(triangles[i], p)) ==> CoverCount(triangles, p) == 0
    decreases |triangles|
  {
    hide TriangleWinding, Inside, Beyond, Side;
    if triangles != [] {
      TriangleWindsOnce(triangles[0], p);
      var rest := triangles[1..];
      assert forall i | 0 <= i < |rest| :: rest[i] == triangles[i + 1];
      CountIsOfInside(rest, p, if j > 0 then j - 1 else if k > 0 then k - 1 else 0, if k > 0 then k - 1 else 0);
    }
  }

  /** A polygon that winds at most once round every point, as every simple one does, is cut into triangles that do not
      overlap and that leave nothing out, once the last one turns left like all others. */
  lemma TrianglesTile(vertices: seq<Point>, tolerance: real, p: Point, j: nat, k: nat)
    requires Cut(vertices, tolerance).Success? && tolerance >= 0.0
    requires var r := Cut(vertices, tolerance).value; |r| > 0 && r[|r| - 1].DoubledArea() > 0.0
    ensures 0 <= Winding(vertices, p)
    ensures var r := Cut(vertices, tolerance).value;
            && (Winding(vertices, p) <= 1 && j < k < |r| ==> !(Inside(r[j], p) && Inside(r[k], p)))
            && (Winding(vertices, p) == 0 ==> forall i | 0 <= i < |r| :: !Inside(r[i], p))
            && (Winding(vertices, p) > 0 ==> exists i :: 0 <= i < |r| && !Beyond(r[i], p))
  {
    hide Cut, Winding, Side, Turn, CoverCount, Inside, Beyond;
    var r := Cut(vertices, tolerance).value;
    CutKeepsArea(vertices, tolerance);
    CoveredAsOftenAsWound(vertices, tolerance, p);
    forall i | 0 <= i < |r| ensures Side(r[i].a, r[i].b, r[i].c) > 0.0 {
      TurnIsSide(r[i].a, r[i].b, r[i].c);
    }
    CountIsOfInside(r, p, j, k);
    forall i | 0 <= i < |r| ensures Inside(r[i], p) ==> CoverCount(r, p) >= 1 {
      CountIsOfInside(r, p, i, i);
    }
  }
}

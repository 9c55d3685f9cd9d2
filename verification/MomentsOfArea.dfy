/** What the corner weights mean: they integrate the four bilinear shape functions over the polygon
    (services/simulation-server/src/scenario/grid.rs, bilinear_weights). */
module MomentsOfArea {
  import opened Sums
  import opened Clipping
  import opened Triangulation

  const ZERO := Moments(0.0, 0.0, 0.0, 0.0)

  function Negated(m: Moments): Moments {
    Moments(-m.doubledArea, -m.x, -m.y, -m.mixed)
  }

  // ---------------------------------------------------------------- moments along a path

  function PathMoments(pen: Point, s: seq<Point>): Moments
    decreases |s|
  {
    if s == [] then ZERO else Add(EdgeMoments(pen, s[0]), PathMoments(s[0], s[1..]))
  }

  function PolygonMoments(s: seq<Point>): Moments {
    if s == [] then ZERO else PathMoments(s[|s| - 1], s)
  }

  lemma {:induction false} PathOfBoth(pen: Point, a: seq<Point>, b: seq<Point>)
    ensures PathMoments(pen, a + b) == Add(PathMoments(pen, a), PathMoments(LastOf(pen, a), b))
    decreases |a|
  {
    hide EdgeMoments;
    if a == [] {
      assert a + b == b;
    } else {
      PathOfBoth(a[0], a[1..], b);
      assert (a + b)[1..] == a[1..] + b;
    }
  }

  lemma OneEdge(pen: Point, p: Point)
    ensures PathMoments(pen, [p]) == EdgeMoments(pen, p)
  {
    hide EdgeMoments;
    assert [p][1..] == [];
  }

  lemma SymmetricFactor(a: real, b: real, c: real)
    requires b == -c
    ensures Times(a, b) == -Times(a, c)
  {
  }

  /** An edge walked backwards has the opposite moments. */
  lemma EdgeBothWays(p: Point, q: Point)
    ensures EdgeMoments(p, q) == Negated(EdgeMoments(q, p))
  {
    hide Cross;
    CrossBothWays(p, q);
    SymmetricFactor(p.x + q.x, Cross(p, q), Cross(q, p));
    SymmetricFactor(p.y + q.y, Cross(p, q), Cross(q, p));
    TimesCommutes(p.x, q.y);
    TimesCommutes(q.x, p.y);
    SymmetricFactor(2.0 * Times(p.x, p.y) + Times(p.x, q.y) + Times(q.x, p.y) + 2.0 * Times(q.x, q.y),
                    Cross(p, q), Cross(q, p));
  }

  lemma EdgeToItself(p: Point)
    ensures EdgeMoments(p, p) == ZERO
  {
    EdgeBothWays(p, p);
  }

  lemma {:induction false} MomentsFollowPath(polygon: seq<Point>, n: nat)
    requires 0 < n <= |polygon|
    ensures MomentsTo(polygon, n)
         == Add(PathMoments(polygon[0], polygon[1..n]), EdgeMoments(polygon[n - 1], polygon[After(|polygon|, n - 1)]))
    decreases n
  {
    hide EdgeMoments;
    if n == 1 {
      assert polygon[1..1] == [];
      assert MomentsTo(polygon, 0) == ZERO;
    } else {
      MomentsFollowPath(polygon, n - 1);
      assert polygon[1..n] == polygon[1..n - 1] + [polygon[n - 1]];
      PathOfBoth(polygon[0], polygon[1..n - 1], [polygon[n - 1]]);
      OneEdge(polygon[n - 2], polygon[n - 1]);
    }
  }

  /** The loop over the vertices adds up the moments of the closed polygon. */
  lemma LoopGivesPolygon(polygon: seq<Point>)
    ensures MomentsTo(polygon, |polygon|) == PolygonMoments(polygon)
  {
    hide EdgeMoments, MomentsTo;
    if polygon == [] {
      NoMoments(polygon);
    } else {
      MomentsFollowPath(polygon, |polygon|);
      assert polygon == [polygon[0]] + polygon[1..] && polygon[1..|polygon|] == polygon[1..];
      PathOfBoth(polygon[|polygon| - 1], [polygon[0]], polygon[1..]);
      OneEdge(polygon[|polygon| - 1], polygon[0]);
    }
  }

  lemma NoMoments(polygon: seq<Point>)
    ensures MomentsTo(polygon, 0) == ZERO
  {
  }

  // ---------------------------------------------------------------- one corner at a time

  function TriangleMoments(t: Triangle): Moments {
    Add(Add(EdgeMoments(t.a, t.b), EdgeMoments(t.b, t.c)), EdgeMoments(t.c, t.a))
  }

  /** A polygon in front of and behind one vertex, with and without it. */
  lemma CornerPieces(s: seq<Point>, k: nat)
    requires |s| >= 3 && 0 < k < |s| - 1
    ensures var a, b := s[..k], s[k + 1..];
            && s == a + ([s[k]] + b) && Without(s, k) == a + b && b != [] && a + b != []
            && (a + b)[|a + b| - 1] == s[|s| - 1]
            && Corner(s, k) == Triangle(LastOf(s[|s| - 1], a), s[k], b[0])
  {
    hide Turn;
  }

  /** Cutting off a corner takes exactly its triangle's moments away. */
  lemma CornerMoments(s: seq<Point>, k: nat)
    requires |s| >= 3 && 0 < k < |s| - 1
    ensures PolygonMoments(s) == Add(PolygonMoments(Without(s, k)), TriangleMoments(Corner(s, k)))
  {
    hide EdgeMoments, PathMoments, TriangleMoments, LastOf, Without, Corner;
    var a, v, b := s[..k], s[k], s[k + 1..];
    var last := s[|s| - 1];
    CornerPieces(s, k);
    PathOfBoth(last, a, [v] + b);
    PathOfBoth(last, a, b);
    SkipOneMoments(LastOf(last, a), v, b);
  }

  lemma SkipOneMoments(pen: Point, v: Point, rest: seq<Point>)
    requires rest != []
    ensures PathMoments(pen, [v] + rest) == Add(PathMoments(pen, rest), TriangleMoments(Triangle(pen, v, rest[0])))
  {
    hide EdgeMoments;
    assert ([v] + rest)[1..] == rest;
    EdgeBothWays(rest[0], pen);
  }

  // ---------------------------------------------------------------- the midpoint rule

  /** Three midpoints integrate every polynomial up to the second degree over a triangle exactly: the signed area times
      the mean of the values there. Scaled like the moments: 6 times the integral of x and of y, 24 times that of x * y. */
  function MidpointRule(t: Triangle): Moments {
    var d := t.DoubledArea();
    Moments(d, Times(d, t.a.x + t.b.x + t.c.x), Times(d, t.a.y + t.b.y + t.c.y),
            Times(d, Times(t.a.x + t.b.x, t.a.y + t.b.y) + Times(t.b.x + t.c.x, t.b.y + t.c.y)
                     + Times(t.c.x + t.a.x, t.c.y + t.a.y)))
  }

  /** A determinant with two equal rows. */
  lemma Vanishes(a0: real, a1: real, b0: real, b1: real, c0: real, c1: real, u: real, v: real, w: real)
    requires u == a0 * b1 - b0 * a1 && v == b0 * c1 - c0 * b1 && w == c0 * a1 - a0 * c1
    ensures u * c0 + v * a0 + w * b0 == 0.0
    ensures u * c1 + v * a1 + w * b1 == 0.0
  {
  }

  lemma Product(a: real, b: real)
    ensures Times(a, b) == a * b
  {
  }

  lemma CrossIs(p: Point, q: Point)
    ensures Cross(p, q) == p.x * q.y - q.x * p.y
  {
  }

  lemma TurnIs(t: Triangle)
    ensures t.DoubledArea() == Cross(t.a, t.b) + Cross(t.b, t.c) + Cross(t.c, t.a)
  {
    hide Cross;
    TurnIsCrosses(t.a, t.b, t.c);
    CrossBothWays(t.a, t.c);
  }

  lemma FirstMoment(a0: real, b0: real, c0: real, u: real, v: real, w: real)
    requires u * c0 + v * a0 + w * b0 == 0.0
    ensures (a0 + b0) * u + (b0 + c0) * v + (c0 + a0) * w == (u + v + w) * (a0 + b0 + c0)
  {
  }

  function Mid(p0: real, p1: real, q0: real, q1: real): real {
    (p0 + q0) * (p1 + q1)
  }

  function Own(p0: real, p1: real): real {
    p0 * p1
  }

  function Rest(p0: real, p1: real, s0: real, s1: real): real {
    p0 * s1 + p1 * s0
  }

  /** The factor of the mixed moment of one edge. */
  function EdgeFactor(p0: real, p1: real, q0: real, q1: real): real {
    2.0 * Times(p0, p1) + Times(p0, q1) + Times(q0, p1) + 2.0 * Times(q0, q1)
  }

  lemma FactorIs(p0: real, p1: real, q0: real, q1: real)
    ensures EdgeFactor(p0, p1, q0, q1) == Mid(p0, p1, q0, q1) + Own(p0, p1) + Own(q0, q1)
  {
  }

  lemma MidIs(p0: real, p1: real, q0: real, q1: real)
    ensures Times(p0 + q0, p1 + q1) == Mid(p0, p1, q0, q1)
  {
  }

  /** What is left of the midpoint sum beside one edge. */
  lemma BesideEdge(a0: real, a1: real, b0: real, b1: real, c0: real, c1: real)
    ensures Mid(b0, b1, c0, c1) + Mid(c0, c1, a0, a1) - Own(a0, a1) - Own(b0, b1)
         == Rest(c0, c1, a0 + b0 + c0, a1 + b1 + c1)
  {
  }

  lemma RestsVanish(u: real, v: real, w: real, a0: real, a1: real, b0: real, b1: real, c0: real, c1: real,
                    s0: real, s1: real)
    requires u * c0 + v * a0 + w * b0 == 0.0 && u * c1 + v * a1 + w * b1 == 0.0
    ensures Times(u, Rest(c0, c1, s0, s1)) + Times(v, Rest(a0, a1, s0, s1)) + Times(w, Rest(b0, b1, s0, s1)) == 0.0
  {
    var p, q := u * c0 + v * a0 + w * b0, u * c1 + v * a1 + w * b1;
    assert u * (c0 * s1 + c1 * s0) + v * (a0 * s1 + a1 * s0) + w * (b0 * s1 + b1 * s0) == p * s1 + q * s0;
  }

  lemma CrossesVanish(a: Point, b: Point, c: Point)
    ensures Cross(a, b) * c.x + Cross(b, c) * a.x + Cross(c, a) * b.x == 0.0
    ensures Cross(a, b) * c.y + Cross(b, c) * a.y + Cross(c, a) * b.y == 0.0
  {
    hide Cross;
    CrossIs(a, b);
    CrossIs(b, c);
    CrossIs(c, a);
    Vanishes(a.x, a.y, b.x, b.y, c.x, c.y, Cross(a, b), Cross(b, c), Cross(c, a));
  }

  lemma FirstMomentOf(a0: real, b0: real, c0: real, u: real, v: real, w: real)
    requires u * c0 + v * a0 + w * b0 == 0.0
    ensures Times(a0 + b0, u) + Times(b0 + c0, v) + Times(c0 + a0, w) == Times(u + v + w, a0 + b0 + c0)
  {
    hide Times;
    FirstMoment(a0, b0, c0, u, v, w);
    Product(a0 + b0, u);
    Product(b0 + c0, v);
    Product(c0 + a0, w);
    Product(u + v + w, a0 + b0 + c0);
  }

  lemma Spread(u: real, v: real, w: real, m: real)
    ensures Times(u + v + w, m) == Times(u, m) + Times(v, m) + Times(w, m)
  {
  }

  lemma LessRest(m: real, e: real, r: real, u: real)
    requires m - e == r
    ensures Times(e, u) == Times(u, m) - Times(u, r)
  {
  }

  lemma MixedMomentOf(a0: real, a1: real, b0: real, b1: real, c0: real, c1: real, u: real, v: real, w: real)
    requires u * c0 + v * a0 + w * b0 == 0.0 && u * c1 + v * a1 + w * b1 == 0.0
    ensures Times(EdgeFactor(a0, a1, b0, b1), u) + Times(EdgeFactor(b0, b1, c0, c1), v)
            + Times(EdgeFactor(c0, c1, a0, a1), w)
         == Times(u + v + w, Times(a0 + b0, a1 + b1) + Times(b0 + c0, b1 + c1) + Times(c0 + a0, c1 + a1))
  {
    hide Times, EdgeFactor, Mid, Own, Rest;
    var s0, s1 := a0 + b0 + c0, a1 + b1 + c1;
    var m := Mid(a0, a1, b0, b1) + Mid(b0, b1, c0, c1) + Mid(c0, c1, a0, a1);
    RestsVanish(u, v, w, a0, a1, b0, b1, c0, c1, s0, s1);
    MixedEdge(a0, a1, b0, b1, c0, c1, u, m, s0, s1);
    MixedEdge(b0, b1, c0, c1, a0, a1, v, m, s0, s1);
    MixedEdge(c0, c1, a0, a1, b0, b1, w, m, s0, s1);
    Spread(u, v, w, m);
    MidIs(a0, a1, b0, b1);
    MidIs(b0, b1, c0, c1);
    MidIs(c0, c1, a0, a1);
  }

  lemma MixedEdge(a0: real, a1: real, b0: real, b1: real, c0: real, c1: real, u: real, m: real, s0: real, s1: real)
    requires s0 == a0 + b0 + c0 && s1 == a1 + b1 + c1
    requires m == Mid(a0, a1, b0, b1) + Mid(b0, b1, c0, c1) + Mid(c0, c1, a0, a1)
    ensures Times(EdgeFactor(a0, a1, b0, b1), u) == Times(u, m) - Times(u, Rest(c0, c1, s0, s1))
  {
    hide Times, EdgeFactor, Mid, Own, Rest;
    FactorIs(a0, a1, b0, b1);
    BesideEdge(a0, a1, b0, b1, c0, c1);
    LessRest(m, EdgeFactor(a0, a1, b0, b1), Rest(c0, c1, s0, s1), u);
  }

  /** A triangle's moments are what the midpoint rule gives. */
  lemma TriangleObeysRule(t: Triangle)
    ensures TriangleMoments(t) == MidpointRule(t)
  {
    hide Turn, Cross, Times;
    var (a, b, c) := (t.a, t.b, t.c);
    var (u, v, w) := (Cross(a, b), Cross(b, c), Cross(c, a));
    TurnIs(t);
    CrossesVanish(a, b, c);
    FirstMomentOf(a.x, b.x, c.x, u, v, w);
    FirstMomentOf(a.y, b.y, c.y, u, v, w);
    MixedMomentOf(a.x, a.y, b.x, b.y, c.x, c.y, u, v, w);
  }

  // ---------------------------------------------------------------- whole polygons

  /** The midpoint rule on the triangles of a fan. */
  function FanSum(s: seq<Point>): Moments
    decreases |s|
  {
    if |s| < 3 then ZERO else Add(FanSum(Without(s, 1)), MidpointRule(Corner(s, 1)))
  }

  /** The moments that the loop adds up are the exact integrals of 1, x, y and x * y, as the midpoint rule gives them on
      the triangles of the polygon. */
  lemma {:induction false} MomentsAreIntegrals(polygon: seq<Point>)
    ensures MomentsTo(polygon, |polygon|) == FanSum(polygon)
  {
    hide MomentsTo, PolygonMoments, FanSum;
    LoopGivesPolygon(polygon);
    PolygonIsFan(polygon);
  }

  lemma {:induction false} PolygonIsFan(s: seq<Point>)
    ensures PolygonMoments(s) == FanSum(s)
    decreases |s|
  {
    hide EdgeMoments, MidpointRule, PathMoments, PolygonMoments, TriangleMoments;
    if |s| >= 3 {
      PolygonIsFan(Without(s, 1));
      CornerMoments(s, 1);
      TriangleObeysRule(Corner(s, 1));
    } else {
      FewPoints(s);
    }
  }

  lemma FewPoints(s: seq<Point>)
    requires |s| < 3
    ensures PolygonMoments(s) == ZERO
  {
    hide EdgeMoments, PathMoments;
    if |s| == 2 {
      assert s == [s[0]] + [s[1]];
      PathOfBoth(s[1], [s[0]], [s[1]]);
      OneEdge(s[1], s[0]);
      OneEdge(s[0], s[1]);
      EdgeBothWays(s[0], s[1]);
    } else if |s| == 1 {
      OneEdge(s[0], s[0]);
      assert s == [s[0]];
      EdgeToItself(s[0]);
    }
  }

  /** Of four corner values the weights take the integral of their bilinear interpolation over the unit cell: the value
      at (x, y) is v00 + (v10 - v00) x + (v01 - v00) y + (v00 - v10 - v01 + v11) x y. */
  lemma WeightsIntegrate(polygon: seq<Point>, tolerance: real, v00: real, v10: real, v01: real, v11: real)
    requires 0.5 * DoubledArea(polygon) > tolerance
    ensures var w, m := CornersOf(MomentsTo(polygon, |polygon|), tolerance), FanSum(polygon);
            Times(w.lowerLeft, v00) + Times(w.lowerRight, v10) + Times(w.upperLeft, v01) + Times(w.upperRight, v11)
            == Times(v00, 0.5 * m.doubledArea) + Times(v10 - v00, m.x / 6.0) + Times(v01 - v00, m.y / 6.0)
               + Times(v00 - v10 - v01 + v11, m.mixed / 24.0)
  {
    hide MomentsTo, FanSum, Cross, CrossSum, DoubledArea;
    MomentsAreIntegrals(polygon);
    if polygon != [] {
      MomentsOfPolygon(polygon);
    } else {
      NoArea(polygon);
      NoMoments(polygon);
    }
    var m := FanSum(polygon);
    Interpolated(0.5 * m.doubledArea, m.x / 6.0, m.y / 6.0, m.mixed / 24.0, v00, v10, v01, v11);
  }

  lemma NoArea(polygon: seq<Point>)
    requires polygon == []
    ensures DoubledArea(polygon) == 0.0
  {
  }

  lemma Interpolated(area: real, x: real, y: real, xy: real, v00: real, v10: real, v01: real, v11: real)
    ensures Times(area - x - y + xy, v00) + Times(x - xy, v10) + Times(y - xy, v01) + Times(xy, v11)
         == Times(v00, area) + Times(v10 - v00, x) + Times(v01 - v00, y) + Times(v00 - v10 - v01 + v11, xy)
  {
  }
}

/** Ear clipping, corner weights and the weights of grid nodes
    (services/simulation-server/src/scenario/grid.rs, triangulate, bilinear_weights, neighbor_pairs, volume_weights). */
module Triangulation {
  import opened Wrappers
  import opened Sums
  import opened Clipping

  datatype GridError = NotTriangulated | InvalidWeight | NoArea

  // ---------------------------------------------------------------- ear clipping

  /** Twice the signed area of a triangle. */
  function Turn(a: Point, b: Point, c: Point): real {
    Times(b.x - a.x, c.y - b.y) - Times(c.x - b.x, b.y - a.y)
  }

  datatype Triangle = Triangle(a: Point, b: Point, c: Point) {
    function DoubledArea(): real {
      Turn(a, b, c)
    }

    /** The point is not to the right of any side, up to a tolerance. */
    predicate Contains(p: Point, tolerance: real) {
      && Times(b.x - a.x, p.y - a.y) - Times(p.x - a.x, b.y - a.y) >= -tolerance
      && Times(c.x - b.x, p.y - b.y) - Times(p.x - b.x, c.y - b.y) >= -tolerance
      && Times(a.x - c.x, p.y - c.y) - Times(p.x - c.x, a.y - c.y) >= -tolerance
    }
  }

  function Before(n: nat, k: nat): nat
    requires k < n
  {
    if k == 0 then n - 1 else k - 1
  }

  function After(n: nat, k: nat): nat
    requires k < n
  {
    if k == n - 1 then 0 else k + 1
  }

  function Corner(s: seq<Point>, k: nat): Triangle
    requires k < |s|
  {
    Triangle(s[Before(|s|, k)], s[k], s[After(|s|, k)])
  }

  /** A corner that turns left and holds no other vertex. */
  predicate IsEar(s: seq<Point>, k: nat, tolerance: real)
    requires k < |s|
  {
    && Corner(s, k).DoubledArea() > tolerance
    && forall j | 0 <= j < |s| ::
         j == k || j == Before(|s|, k) || j == After(|s|, k) || !Corner(s, k).Contains(s[j], tolerance)
  }

  function Without(s: seq<Point>, k: nat): (r: seq<Point>)
    requires k < |s|
    ensures |r| == |s| - 1
  {
    s[..k] + s[k + 1..]
  }

  /** The first ear from a position on. */
  function FirstEar(s: seq<Point>, k: nat, tolerance: real): (ear: Option<nat>)
    requires k <= |s|
    ensures ear.Some? ==> ear.value < |s| && IsEar(s, ear.value, tolerance)
    decreases |s| - k
  {
    if k == |s| then None else if IsEar(s, k, tolerance) then Some(k) else FirstEar(s, k + 1, tolerance)
  }

  function TriangleSum(triangles: seq<Triangle>): real
    decreases |triangles|
  {
    if triangles == [] then 0.0
    else TriangleSum(triangles[..|triangles| - 1]) + triangles[|triangles| - 1].DoubledArea()
  }

  lemma {:induction false} CrossSumOfBoth(pen: Point, a: seq<Point>, b: seq<Point>)
    ensures CrossSum(pen, a + b) == CrossSum(pen, a) + CrossSum(LastOf(pen, a), b)
    decreases |a|
  {
    hide Cross;
    if a == [] {
      assert a + b == b;
    } else {
      CrossSumOfBoth(a[0], a[1..], b);
      assert (a + b)[1..] == a[1..] + b;
    }
  }

  lemma OneCross(pen: Point, p: Point)
    ensures CrossSum(pen, [p]) == Cross(pen, p)
  {
    hide Cross;
    assert [p][1..] == [];
  }

  lemma TurnIsCrosses(a: Point, b: Point, c: Point)
    ensures Turn(a, b, c) == Cross(a, b) + Cross(b, c) - Cross(a, c)
  {
    Expand(b.x, a.x, c.y, b.y);
    Expand(c.x, b.x, b.y, a.y);
  }

  lemma Expand(a: real, b: real, c: real, d: real)
    ensures Times(a - b, c - d) == Times(a, c) - Times(b, c) - Times(a, d) + Times(b, d)
  {
  }

  /** A vertex between its neighbours on an open path. */
  lemma SkipOne(pen: Point, v: Point, rest: seq<Point>)
    requires rest != []
    ensures CrossSum(pen, [v] + rest) == CrossSum(pen, rest) + Turn(pen, v, rest[0])
  {
    hide Cross, Turn;
    assert ([v] + rest)[1..] == rest;
    TurnIsCrosses(pen, v, rest[0]);
  }

  /** Cutting off a corner takes exactly its triangle's area away. */
  lemma CornerArea(s: seq<Point>, k: nat)
    requires |s| >= 3 && k < |s|
    ensures DoubledArea(s) == DoubledArea(Without(s, k)) + Corner(s, k).DoubledArea()
  {
    hide Cross, Turn, CrossSum;
    var a, v, b := s[..k], s[k], s[k + 1..];
    var last := s[|s| - 1];
    assert s == a + ([v] + b);
    CrossSumOfBoth(last, a, [v] + b);
    if b != [] {
      SkipOne(LastOf(last, a), v, b);
      CrossSumOfBoth(last, a, b);
      assert LastOf(last, a) == s[Before(|s|, k)] && b[0] == s[After(|s|, k)];
      assert Without(s, k)[|s| - 2] == last;
    } else {
      LastCorner(a, v);
      assert a + ([v] + b) == a + [v] && Without(s, k) == a;
    }
  }

  lemma LastCorner(a: seq<Point>, v: Point)
    requires |a| >= 2
    ensures DoubledArea(a + [v]) == DoubledArea(a) + Turn(a[|a| - 1], v, a[0])
  {
    hide Cross, Turn;
    var first, last := a[0], a[|a| - 1];
    CrossSumOfBoth(v, a, [v]);
    OneCross(last, v);
    assert a == [first] + a[1..];
    CrossSumOfBoth(v, [first], a[1..]);
    CrossSumOfBoth(last, [first], a[1..]);
    OneCross(v, first);
    OneCross(last, first);
    TurnIsCrosses(last, v, first);
  }

  lemma ThreeCorners(s: seq<Point>)
    requires |s| == 3
    ensures DoubledArea(s) == Turn(s[0], s[1], s[2])
  {
    hide Cross, Turn;
    assert s == [s[0], s[1]] + [s[2]];
    LastCorner([s[0], s[1]], s[2]);
    assert [s[0], s[1]] == [s[0]] + [s[1]];
    TwoCorners(s[0], s[1]);
    TurnIsCrosses(s[1], s[2], s[0]);
    TurnIsCrosses(s[0], s[1], s[2]);
    CrossBothWays(s[0], s[1]);
    CrossBothWays(s[0], s[2]);
    CrossBothWays(s[1], s[2]);
  }

  lemma TwoCorners(p: Point, q: Point)
    ensures DoubledArea([p, q]) == 0.0
  {
    hide Cross;
    assert [p, q][1..] == [q];
    OneCross(p, q);
    CrossBothWays(p, q);
  }

  lemma CrossBothWays(p: Point, q: Point)
    ensures Cross(p, q) == -Cross(q, p)
  {
  }

  lemma SumOneMore(triangles: seq<Triangle>, t: Triangle)
    ensures TriangleSum(triangles + [t]) == TriangleSum(triangles) + t.DoubledArea()
  {
    hide Turn;
    assert (triangles + [t])[..|triangles|] == triangles;
  }

  // ---------------------------------------------------------------- turning a polygon round

  function Reversed(s: seq<Point>): (r: seq<Point>)
    ensures |r| == |s|
    decreases |s|
  {
    if s == [] then [] else Reversed(s[1..]) + [s[0]]
  }

  lemma {:induction false} LastOfReversed(s: seq<Point>)
    requires s != []
    ensures Reversed(s)[|s| - 1] == s[0]
  {
  }

  /** The same path walked backwards. */
  lemma {:induction false} PathReversed(pen: Point, s: seq<Point>)
    requires s != []
    ensures CrossSum(s[|s| - 1], Reversed(s[..|s| - 1]) + [pen]) == -CrossSum(pen, s)
    decreases |s|
  {
    hide Cross;
    if |s| == 1 {
      assert s == [s[0]] && Reversed([]) + [pen] == [pen];
      OneCross(pen, s[0]);
      OneCross(s[0], pen);
      CrossBothWays(pen, s[0]);
    } else {
      var rest := s[1..];
      PathReversed(s[0], rest);
      assert s[..|s| - 1][1..] == rest[..|rest| - 1];
      var back := Reversed(rest[..|rest| - 1]) + [s[0]];
      assert Reversed(s[..|s| - 1]) == back;
      CrossSumOfBoth(s[|s| - 1], back, [pen]);
      OneCross(s[0], pen);
      CrossBothWays(pen, s[0]);
    }
  }

  /** Walking round the other way changes the sign of the area. */
  lemma ReversedArea(s: seq<Point>)
    ensures DoubledArea(Reversed(s)) == -DoubledArea(s)
  {
    hide Cross, CrossSum;
    if s != [] {
      var front, last := s[..|s| - 1], s[|s| - 1];
      assert s == front + [last];
      PathReversed(last, s);
      ReversedOfBoth(front, last);
      LastOfReversed(s);
      CrossSumOfBoth(s[0], [last], Reversed(front));
      CrossSumOfBoth(last, Reversed(front), [last]);
      OneCross(s[0], last);
      if front != [] {
        LastOfReversed(front);
      }
      OneCross(LastOf(last, Reversed(front)), last);
    }
  }

  lemma {:induction false} ReversedOfBoth(front: seq<Point>, last: Point)
    ensures Reversed(front + [last]) == [last] + Reversed(front)
    decreases |front|
  {
    if front == [] {
      assert [] + [last] == [last] && Reversed([last]) == Reversed([]) + [last];
    } else {
      ReversedOfBoth(front[1..], last);
      assert (front + [last])[1..] == front[1..] + [last];
    }
  }

  function Oriented(polygon: seq<Point>): seq<Point> {
    if DoubledArea(polygon) < 0.0 then Reversed(polygon) else polygon
  }

  /** A polygon is triangulated counter-clockwise, with the area it had. */
  lemma OrientedArea(polygon: seq<Point>)
    ensures DoubledArea(Oriented(polygon)) == Abs(DoubledArea(polygon)) && |Oriented(polygon)| == |polygon|
  {
    hide DoubledArea;
    ReversedArea(polygon);
  }

  // ---------------------------------------------------------------- vertices that hardly turn

  /** The vertices among the first n at which the polygon turns. */
  function Turning(s: seq<Point>, tolerance: real, n: nat): (r: seq<Point>)
    requires n <= |s|
    ensures |r| <= n
    decreases n
  {
    if n == 0 then []
    else
      var before := Turning(s, tolerance, n - 1);
      if Abs(Corner(s, n - 1).DoubledArea()) > tolerance then before + [s[n - 1]] else before
  }

  /** Removes vertices that hardly turn, all at once, as long as there are any and more than three vertices. */
  function Simplified(s: seq<Point>, tolerance: real): (r: seq<Point>)
    ensures |r| <= |s|
    ensures |r| > 3 ==> forall k | 0 <= k < |r| :: Abs(Corner(r, k).DoubledArea()) > tolerance
    decreases |s|
  {
    hide Turn;
    if |s| <= 3 then s
    else
      AllTurn(s, tolerance, |s|);
      var kept := Turning(s, tolerance, |s|);
      if |kept| == |s| then s else Simplified(kept, tolerance)
  }

  lemma {:induction false} AllTurn(s: seq<Point>, tolerance: real, n: nat)
    requires n <= |s|
    ensures |Turning(s, tolerance, n)| == n <==> forall k | 0 <= k < n :: Abs(Corner(s, k).DoubledArea()) > tolerance
    decreases n
  {
    hide Turn;
    if n > 0 {
      AllTurn(s, tolerance, n - 1);
    }
  }

  // ---------------------------------------------------------------- all triangles

  /** The first ear is cut off until three vertices are left, or there is no ear. */
  function Cut(vertices: seq<Point>, tolerance: real): Result<seq<Triangle>, GridError>
    decreases |vertices|
  {
    if |vertices| < 3 then Failure(NotTriangulated)
    else if |vertices| == 3 then Success([Triangle(vertices[0], vertices[1], vertices[2])])
    else
      var ear := FirstEar(vertices, 0, tolerance);
      if ear.None? then Failure(NotTriangulated)
      else
        var rest := Cut(Without(vertices, ear.value), tolerance);
        if rest.Failure? then rest else Success([Corner(vertices, ear.value)] + rest.value)
  }

  lemma {:induction false} SumOfBoth(a: seq<Triangle>, b: seq<Triangle>)
    ensures TriangleSum(a + b) == TriangleSum(a) + TriangleSum(b)
    decreases |b|
  {
    hide Turn;
    if b == [] {
      assert a + b == a;
    } else {
      SumOfBoth(a, b[..|b| - 1]);
      assert (a + b)[..|a + b| - 1] == a + b[..|b| - 1];
    }
  }

  /** An n-gon is cut into n - 2 triangles whose areas add up to its own, all of them but the last turning left. */
  lemma {:induction false} CutKeepsArea(vertices: seq<Point>, tolerance: real)
    ensures var r := Cut(vertices, tolerance);
            r.Success? ==>
              && |r.value| == |vertices| - 2
              && TriangleSum(r.value) == DoubledArea(vertices)
              && forall k | 0 <= k < |r.value| - 1 :: r.value[k].DoubledArea() > tolerance
    decreases |vertices|
  {
    hide Turn, Cross, CrossSum, DoubledArea;
    if Cut(vertices, tolerance).Success? {
      if |vertices| == 3 {
        ThreeCorners(vertices);
        SumOneMore([], Triangle(vertices[0], vertices[1], vertices[2]));
        assert [] + [Triangle(vertices[0], vertices[1], vertices[2])] == [Triangle(vertices[0], vertices[1], vertices[2])];
      } else {
        var ear := FirstEar(vertices, 0, tolerance).value;
        CutKeepsArea(Without(vertices, ear), tolerance);
        var rest := Cut(Without(vertices, ear), tolerance).value;
        CornerArea(vertices, ear);
        SumOfBoth([Corner(vertices, ear)], rest);
        SumOneMore([], Corner(vertices, ear));
        assert [] + [Corner(vertices, ear)] == [Corner(vertices, ear)];
      }
    }
  }

  method KeepTurning(vertices: seq<Point>, tolerance: real) returns (kept: seq<Point>)
    ensures kept == Turning(vertices, tolerance, |vertices|)
  {
    hide Turn;
    kept := [];
    for index := 0 to |vertices|
      invariant kept == Turning(vertices, tolerance, index)
    {
      if Abs(Corner(vertices, index).DoubledArea()) > tolerance {
        kept := kept + [vertices[index]];
      }
    }
  }

  /** The triangles of a polygon of either orientation: as many as its turning vertices less two, adding up to the area
      that those enclose. */
  method Triangulate(polygon: seq<Point>, tolerance: real) returns (r: Result<seq<Triangle>, GridError>)
    ensures var vertices := Simplified(Oriented(polygon), tolerance);
            && r == Cut(vertices, tolerance)
            && (r.Success? ==> |r.value| == |vertices| - 2 && TriangleSum(r.value) == DoubledArea(vertices))
    ensures r.Success? && Simplified(Oriented(polygon), tolerance) == Oriented(polygon) ==>
              TriangleSum(r.value) == Abs(DoubledArea(polygon))
  {
    hide Turn, Cross, CrossSum, DoubledArea;
    OrientedArea(polygon);
    var vertices := Oriented(polygon);
    ghost var simplified := Simplified(vertices, tolerance);
    while |vertices| > 3
      invariant Simplified(vertices, tolerance) == simplified
      decreases |vertices|
    {
      var kept := KeepTurning(vertices, tolerance);
      if |kept| == |vertices| {
        break;
      }
      vertices := kept;
    }
    CutKeepsArea(vertices, tolerance);
    if |vertices| < 3 {
      return Failure(NotTriangulated);
    }
    ghost var all := Cut(vertices, tolerance);
    var triangles: seq<Triangle> := [];
    while |vertices| > 3
      invariant |vertices| >= 3
      invariant all == Preceded(triangles, Cut(vertices, tolerance))
      decreases |vertices|
    {
      var ear := FirstEar(vertices, 0, tolerance);
      if ear.None? {
        return Failure(NotTriangulated);
      }
      PrecededTwice(triangles, Corner(vertices, ear.value), Cut(Without(vertices, ear.value), tolerance));
      triangles := triangles + [Corner(vertices, ear.value)];
      vertices := Without(vertices, ear.value);
    }
    return Success(triangles + [Triangle(vertices[0], vertices[1], vertices[2])]);
  }

  function Preceded(done: seq<Triangle>, rest: Result<seq<Triangle>, GridError>): (r: Result<seq<Triangle>, GridError>)
    ensures done == [] ==> r == rest
  {
    if rest.Failure? then rest
    else
      assert [] + rest.value == rest.value;
      Success(done + rest.value)
  }

  lemma PrecededTwice(done: seq<Triangle>, t: Triangle, rest: Result<seq<Triangle>, GridError>)
    ensures Preceded(done, Preceded([t], rest)) == Preceded(done + [t], rest)
  {
    if rest.Success? {
      assert done + ([t] + rest.value) == done + [t] + rest.value;
    }
  }

  // ---------------------------------------------------------------- corner weights

  datatype Moments = Moments(doubledArea: real, x: real, y: real, mixed: real)

  function EdgeMoments(p: Point, q: Point): Moments {
    var cross := Cross(p, q);
    Moments(cross, Times(p.x + q.x, cross), Times(p.y + q.y, cross),
            Times(2.0 * Times(p.x, p.y) + Times(p.x, q.y) + Times(q.x, p.y) + 2.0 * Times(q.x, q.y), cross))
  }

  function Add(a: Moments, b: Moments): Moments {
    Moments(a.doubledArea + b.doubledArea, a.x + b.x, a.y + b.y, a.mixed + b.mixed)
  }

  datatype Corners = Corners(lowerLeft: real, lowerRight: real, upperLeft: real, upperRight: real) {
    function Total(): real {
      lowerLeft + lowerRight + upperLeft + upperRight
    }
  }

  function CornersOf(m: Moments, tolerance: real): Corners {
    var area := 0.5 * m.doubledArea;
    if area <= tolerance then Corners(0.0, 0.0, 0.0, 0.0)
    else
      var ix, iy, ixy := m.x / 6.0, m.y / 6.0, m.mixed / 24.0;
      Corners(area - ix - iy + ixy, ix - ixy, iy - ixy, ixy)
  }

  function MomentsTo(polygon: seq<Point>, n: nat): Moments
    requires n <= |polygon|
  {
    if n == 0 then Moments(0.0, 0.0, 0.0, 0.0)
    else Add(MomentsTo(polygon, n - 1), EdgeMoments(polygon[n - 1], polygon[After(|polygon|, n - 1)]))
  }

  lemma {:induction false} MomentsAreArea(polygon: seq<Point>, n: nat)
    requires 0 < n <= |polygon|
    ensures MomentsTo(polygon, n).doubledArea
         == CrossSum(polygon[0], polygon[1..n]) + Cross(polygon[n - 1], polygon[After(|polygon|, n - 1)])
  {
    hide Cross, Times;
    if n == 1 {
      assert polygon[1..1] == [];
    } else {
      MomentsAreArea(polygon, n - 1);
      assert polygon[1..n] == polygon[1..n - 1] + [polygon[n - 1]];
      CrossSumOfBoth(polygon[0], polygon[1..n - 1], [polygon[n - 1]]);
      OneCross(polygon[n - 2], polygon[n - 1]);
    }
  }

  lemma MomentsOfPolygon(polygon: seq<Point>)
    requires polygon != []
    ensures MomentsTo(polygon, |polygon|).doubledArea == DoubledArea(polygon)
  {
    hide Cross, MomentsTo;
    MomentsAreArea(polygon, |polygon|);
    assert polygon == [polygon[0]] + polygon[1..];
    CrossSumOfBoth(polygon[|polygon| - 1], [polygon[0]], polygon[1..]);
    OneCross(polygon[|polygon| - 1], polygon[0]);
    assert polygon[1..|polygon|] == polygon[1..];
  }

  /** Four corner weights that add up to the area, or four zeros when the area does not pass the tolerance. */
  method BilinearWeights(polygon: seq<Point>, tolerance: real) returns (corners: Corners)
    ensures corners == CornersOf(MomentsTo(polygon, |polygon|), tolerance)
    ensures corners.Total() == if 0.5 * DoubledArea(polygon) <= tolerance then 0.0 else 0.5 * DoubledArea(polygon)
    ensures 0.5 * DoubledArea(polygon) <= tolerance ==> corners == Corners(0.0, 0.0, 0.0, 0.0)
  {
    hide EdgeMoments, Cross, CrossSum;
    var m := Moments(0.0, 0.0, 0.0, 0.0);
    for index := 0 to |polygon|
      invariant m == MomentsTo(polygon, index)
    {
      m := Add(m, EdgeMoments(polygon[index], polygon[After(|polygon|, index)]));
    }
    if polygon != [] {
      MomentsOfPolygon(polygon);
    }
    corners := CornersOf(m, tolerance);
    CornersAddUp(m, tolerance);
  }

  lemma CornersAddUp(m: Moments, tolerance: real)
    ensures CornersOf(m, tolerance).Total() == if 0.5 * m.doubledArea <= tolerance then 0.0 else 0.5 * m.doubledArea
  {
  }

  // ---------------------------------------------------------------- normalised weights

  /** Weights below zero by more than the tolerance's share of the area are refused; the others are cut off at zero and
      rescaled, all by the same factor, so that together they represent exactly the area. The areas of the cells are
      rescaled by that factor too. */
  method Normalise(weights: seq<real>, areas: seq<real>, area: real, tolerance: real)
    returns (r: Result<(seq<real>, seq<real>), GridError>)
    requires area > 0.0
    ensures var represented := Dot(Ones(|weights|), Clamped(weights), |weights|);
            if exists k :: 0 <= k < |weights| && weights[k] < -Times(tolerance, area) then r == Failure(InvalidWeight)
            else if represented <= 0.0 then r == Failure(NoArea)
            else
              && r.Success? && IsRescaled(Clamped(weights), r.value.0, area, represented)
              && IsRescaled(areas, r.value.1, area, represented)
              && Dot(Ones(|weights|), r.value.0, |weights|) == area
              && (forall k | 0 <= k < |weights| :: r.value.0[k] >= 0.0 && (r.value.0[k] > 0.0 <==> weights[k] > 0.0))
  {
    hide Times, IsRescaled;
    for k := 0 to |weights|
      invariant forall j | 0 <= j < k :: weights[j] >= -Times(tolerance, area)
    {
      if weights[k] < -Times(tolerance, area) {
        return Failure(InvalidWeight);
      }
    }
    var clamped := Clamped(weights);
    var represented := WeightedSum(Ones(|weights|), clamped);
    if represented <= 0.0 {
      return Failure(NoArea);
    }
    var scale := area / represented;
    QuotientTimes(area, represented);
    PositiveScale(area, represented);
    RescaledBy(clamped, scale, area, represented);
    RescaledBy(areas, scale, area, represented);
    DotScaled(Ones(|weights|), clamped, Rescaled(clamped, scale), scale, |weights|);
    forall k | 0 <= k < |weights|
      ensures Rescaled(clamped, scale)[k] >= 0.0 && (Rescaled(clamped, scale)[k] > 0.0 <==> weights[k] > 0.0)
    {
      ScaledSign(scale, clamped[k]);
    }
    IsRescaledLength(clamped, Rescaled(clamped, scale), area, represented);
    return Success((Rescaled(clamped, scale), Rescaled(areas, scale)));
  }

  /** Every entry is multiplied by area / represented. */
  ghost predicate IsRescaled(values: seq<real>, r: seq<real>, area: real, represented: real) {
    |r| == |values| && forall k | 0 <= k < |values| :: Times(represented, r[k]) == Times(area, values[k])
  }

  lemma IsRescaledLength(values: seq<real>, r: seq<real>, area: real, represented: real)
    requires IsRescaled(values, r, area, represented)
    ensures |r| == |values|
  {
  }

  function Rescaled(values: seq<real>, scale: real): (r: seq<real>)
    ensures |r| == |values| && forall k | 0 <= k < |values| :: r[k] == Times(scale, values[k])
  {
    seq(|values|, k requires 0 <= k < |values| => Times(scale, values[k]))
  }

  lemma RescaledBy(values: seq<real>, scale: real, area: real, represented: real)
    requires Times(scale, represented) == area
    ensures IsRescaled(values, Rescaled(values, scale), area, represented)
  {
    hide Times;
    forall k | 0 <= k < |values| ensures Times(represented, Rescaled(values, scale)[k]) == Times(area, values[k]) {
      ScaledBack(scale, represented, values[k]);
    }
  }

  lemma ScaledBack(scale: real, represented: real, weight: real)
    ensures Times(represented, Times(scale, weight)) == Times(Times(scale, represented), weight)
  {
  }

  function Ones(n: nat): (r: seq<real>)
    ensures |r| == n && forall k | 0 <= k < n :: r[k] == 1.0
  {
    seq(n, k => 1.0)
  }

  function Clamped(weights: seq<real>): (r: seq<real>)
    ensures |r| == |weights| && forall k | 0 <= k < |r| :: r[k] == Max(weights[k], 0.0)
  {
    seq(|weights|, k requires 0 <= k < |weights| => Max(weights[k], 0.0))
  }

  lemma PositiveScale(a: real, b: real)
    requires a > 0.0 && b > 0.0
    ensures a / b > 0.0
  {
  }

  lemma ScaledSign(scale: real, weight: real)
    requires scale > 0.0 && weight >= 0.0
    ensures Times(scale, weight) >= 0.0 && (Times(scale, weight) > 0.0 <==> weight > 0.0)
  {
  }
}

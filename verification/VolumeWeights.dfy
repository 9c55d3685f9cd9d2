/** The area that each grid node stands for
    (services/simulation-server/src/scenario/grid.rs, volume_weights). */
module VolumeWeights {
  import opened Wrappers
  import opened Sums
  import opened Clipping
  import opened Tiling
  import opened Triangulation
  import opened MomentsOfArea
  import opened Convexity
  import opened Simplification

  // ---------------------------------------------------------------- grid lines

  /** Lines of a grid: so many columns and rows of square cells. */
  datatype Lines = Lines(xs: seq<real>, ys: seq<real>, step: real) {
    ghost predicate Valid() {
      step > 0.0 && Even(xs, step) && Even(ys, step)
    }

    function Count(): nat {
      |xs| * |ys|
    }

    function Cells(): nat {
      if |xs| == 0 || |ys| == 0 then 0 else (|xs| - 1) * (|ys| - 1)
    }

    ghost predicate Covers(s: seq<Point>)
      requires Valid()
    {
      Between(s, 0, xs[0], xs[|xs| - 1]) && Between(s, 1, ys[0], ys[|ys| - 1])
    }
  }

  /** The number of nodes over an extent, at least two. */
  function NodeCount(extent: real, step: real): (n: nat)
    requires step > 0.0
    ensures n > 1
  {
    var cells := -(-(extent / step)).Floor;
    if cells < 1 then 2 else cells + 1
  }

  function Coordinates(minimum: real, count: nat, step: real): (r: seq<real>)
    ensures |r| == count && forall k | 0 <= k < count :: r[k] == minimum + Times(step, k as real)
  {
    seq(count, k requires 0 <= k < count => minimum + Times(step, k as real))
  }

  ghost predicate Even(xs: seq<real>, step: real) {
    |xs| > 1 && forall k | 0 < k < |xs| :: xs[k] == xs[k - 1] + step
  }

  lemma CoordinatesAreEven(minimum: real, count: nat, step: real)
    requires count > 1
    ensures Even(Coordinates(minimum, count, step), step)
  {
  }

  lemma LastCoordinate(minimum: real, maximum: real, step: real)
    requires step > 0.0 && minimum <= maximum
    ensures var n := NodeCount(maximum - minimum, step);
            Coordinates(minimum, n, step)[0] == minimum && maximum <= Coordinates(minimum, n, step)[n - 1]
  {
    var extent, n := maximum - minimum, NodeCount(maximum - minimum, step);
    QuotientTimes(extent, step);
    assert extent / step <= (n - 1) as real;
    TimesOrder(step, extent / step, (n - 1) as real);
    TimesCommutes(extent / step, step);
  }

  /** The lines that the grid lays over a boundary's extent cover it. */
  lemma GridCovers(s: seq<Point>, low: Point, high: Point, step: real)
    requires step > 0.0 && low.x <= high.x && low.y <= high.y
    requires Between(s, 0, low.x, high.x) && Between(s, 1, low.y, high.y)
    ensures var g := Lines(Coordinates(low.x, NodeCount(high.x - low.x, step), step),
                           Coordinates(low.y, NodeCount(high.y - low.y, step), step), step);
            g.Valid() && g.Covers(s)
  {
    hide NodeCount;
    LastCoordinate(low.x, high.x, step);
    LastCoordinate(low.y, high.y, step);
    CoordinatesAreEven(low.x, NodeCount(high.x - low.x, step), step);
    CoordinatesAreEven(low.y, NodeCount(high.y - low.y, step), step);
  }

  // ---------------------------------------------------------------- what one cell adds

  const NO_CORNERS := Corners(0.0, 0.0, 0.0, 0.0)

  function Normalized(s: seq<Point>, x: real, y: real, step: real): (r: seq<Point>)
    requires step > 0.0
    ensures |r| == |s| && forall k | 0 <= k < |s| :: r[k] == Point((s[k].x - x) / step, (s[k].y - y) / step)
  {
    seq(|s|, k requires 0 <= k < |s| => Point((s[k].x - x) / step, (s[k].y - y) / step))
  }

  /** The corner weights of a triangle's part in a cell, in units of the cell. */
  function CellCorners(t: Triangle, x: real, y: real, step: real, tolerance: real): Corners
    requires step > 0.0
  {
    var clipped := CellPart(Vertices(t), x, y, step);
    if |clipped| < 3 then NO_CORNERS
    else
      var normalized := Normalized(clipped, x, y, step);
      CornersOf(MomentsTo(normalized, |normalized|), tolerance)
  }

  function Scaled(weight: real, step: real): real {
    Times(Times(weight, step), step)
  }

  function Node(g: Lines, xi: nat, yi: nat): (k: nat)
    requires xi < |g.xs| && yi < |g.ys|
    ensures k < g.Count()
  {
    NodeInGrid(|g.xs|, |g.ys|, xi, yi);
    yi * |g.xs| + xi
  }

  lemma NodeInGrid(columns: nat, rows: nat, xi: nat, yi: nat)
    requires xi < columns && yi < rows
    ensures 0 <= yi * columns + xi < columns * rows
  {
    assert (yi + 1) * columns <= rows * columns;
  }

  function Raised(weights: seq<real>, k: nat, amount: real): (r: seq<real>)
    requires k < |weights|
    ensures |r| == |weights|
  {
    weights[k := weights[k] + amount]
  }

  function CellAdded(weights: seq<real>, g: Lines, xi: nat, yi: nat, c: Corners): (r: seq<real>)
    requires |weights| == g.Count() && xi + 1 < |g.xs| && yi + 1 < |g.ys|
    ensures |r| == |weights|
  {
    var one := Raised(weights, Node(g, xi, yi), Scaled(c.lowerLeft, g.step));
    var two := Raised(one, Node(g, xi + 1, yi), Scaled(c.lowerRight, g.step));
    var three := Raised(two, Node(g, xi, yi + 1), Scaled(c.upperLeft, g.step));
    Raised(three, Node(g, xi + 1, yi + 1), Scaled(c.upperRight, g.step))
  }

  // ---------------------------------------------------------------- all cells of all triangles

  /** The cells that a triangle may touch: so many columns from a first one, and rows likewise. */
  datatype Box = Box(firstX: nat, countX: nat, firstY: nat, countY: nat)

  /** The cell in which a coordinate lies, not before the first. */
  function CellOf(value: real, origin: real, step: real): nat
    requires step > 0.0
  {
    var cell := ((value - origin) / step).Floor;
    if cell < 0 then 0 else cell
  }

  /** From the first cell to the last, which is limited to the grid; none if that comes before the first. */
  function CountFrom(first: nat, last: nat, cells: nat): nat {
    var limited := if last + 1 < cells then last + 1 else cells;
    if limited < first then 0 else limited - first
  }

  function Lowest(t: Triangle, axis: nat): real {
    Min(Min(t.a.Coordinate(axis), t.b.Coordinate(axis)), t.c.Coordinate(axis))
  }

  function Highest(t: Triangle, axis: nat): real {
    Max(Max(t.a.Coordinate(axis), t.b.Coordinate(axis)), t.c.Coordinate(axis))
  }

  function BoxOf(t: Triangle, g: Lines): (b: Box)
    requires g.Valid()
    ensures b.firstX + b.countX < |g.xs| || b.countX == 0
    ensures b.firstY + b.countY < |g.ys| || b.countY == 0
  {
    var firstX, lastX := CellOf(Lowest(t, 0), g.xs[0], g.step), CellOf(Highest(t, 0), g.xs[0], g.step);
    var firstY, lastY := CellOf(Lowest(t, 1), g.ys[0], g.step), CellOf(Highest(t, 1), g.ys[0], g.step);
    Box(firstX, CountFrom(firstX, lastX, |g.xs| - 1), firstY, CountFrom(firstY, lastY, |g.ys| - 1))
  }

  /** A row of n cells. */
  function RowAdded(weights: seq<real>, t: Triangle, g: Lines, tolerance: real, yi: nat, from: nat, n: nat)
    : (r: seq<real>)
    requires g.Valid() && |weights| == g.Count() && yi + 1 < |g.ys| && (n == 0 || from + n < |g.xs|)
    ensures |r| == |weights|
    decreases n
  {
    if n == 0 then weights
    else
      CellAdded(RowAdded(weights, t, g, tolerance, yi, from, n - 1), g, from + n - 1, yi,
                CellCorners(t, g.xs[from + n - 1], g.ys[yi], g.step, tolerance))
  }

  /** The first n rows of a box. */
  function RowsAdded(weights: seq<real>, t: Triangle, g: Lines, tolerance: real, b: Box, n: nat): (r: seq<real>)
    requires g.Valid() && |weights| == g.Count()
    requires (b.countX == 0 || b.firstX + b.countX < |g.xs|) && (n == 0 || b.firstY + n < |g.ys|)
    ensures |r| == |weights|
    decreases n
  {
    if n == 0 then weights
    else RowAdded(RowsAdded(weights, t, g, tolerance, b, n - 1), t, g, tolerance, b.firstY + n - 1, b.firstX, b.countX)
  }

  function Zeros(n: nat): (r: seq<real>)
    ensures |r| == n && forall k | 0 <= k < n :: r[k] == 0.0
  {
    seq(n, k => 0.0)
  }

  /** The node weights of the first n triangles. */
  function NodeWeights(triangles: seq<Triangle>, g: Lines, tolerance: real, n: nat): (r: seq<real>)
    requires g.Valid() && n <= |triangles|
    ensures |r| == g.Count()
    decreases n
  {
    if n == 0 then Zeros(g.Count())
    else
      var t := triangles[n - 1];
      RowsAdded(NodeWeights(triangles, g, tolerance, n - 1), t, g, tolerance, BoxOf(t, g), BoxOf(t, g).countY)
  }

  // ---------------------------------------------------------------- what a cell adds in all

  function Total(weights: seq<real>): real {
    Dot(Ones(|weights|), weights, |weights|)
  }

  lemma {:induction false} DotRaised(ones: seq<real>, w: seq<real>, k: nat, amount: real, n: nat)
    requires |ones| == |w| && k < |w| && n <= |w| && forall j | 0 <= j < |ones| :: ones[j] == 1.0
    ensures Dot(ones, Raised(w, k, amount), n) == Dot(ones, w, n) + if k < n then amount else 0.0
    decreases n
  {
    if n > 0 {
      DotRaised(ones, w, k, amount, n - 1);
    }
  }

  lemma CellTotal(w: seq<real>, g: Lines, xi: nat, yi: nat, c: Corners)
    requires |w| == g.Count() && xi + 1 < |g.xs| && yi + 1 < |g.ys|
    ensures Total(CellAdded(w, g, xi, yi, c)) == Total(w) + Scaled(c.Total(), g.step)
  {
    hide Times, Dot, Scaled, Raised;
    var ones := Ones(|w|);
    var one := Raised(w, Node(g, xi, yi), Scaled(c.lowerLeft, g.step));
    var two := Raised(one, Node(g, xi + 1, yi), Scaled(c.lowerRight, g.step));
    var three := Raised(two, Node(g, xi, yi + 1), Scaled(c.upperLeft, g.step));
    DotRaised(ones, w, Node(g, xi, yi), Scaled(c.lowerLeft, g.step), |w|);
    DotRaised(ones, one, Node(g, xi + 1, yi), Scaled(c.lowerRight, g.step), |w|);
    DotRaised(ones, two, Node(g, xi, yi + 1), Scaled(c.upperLeft, g.step), |w|);
    DotRaised(ones, three, Node(g, xi + 1, yi + 1), Scaled(c.upperRight, g.step), |w|);
    ScaledSum(c.lowerLeft, c.lowerRight, c.upperLeft, c.upperRight, g.step);
  }

  lemma ScaledSum(a: real, b: real, c: real, d: real, step: real)
    ensures Scaled(a + b + c + d, step) == Scaled(a, step) + Scaled(b, step) + Scaled(c, step) + Scaled(d, step)
  {
  }

  function Moved(p: Point, x: real, y: real, step: real): Point
    requires step > 0.0
  {
    Point((p.x - x) / step, (p.y - y) / step)
  }

  lemma MovedBand(p: Point, q: Point, x: real, y: real, step: real)
    requires step > 0.0
    ensures Scaled(Band(Moved(p, x, y, step), Moved(q, x, y, step), 0.0), step) == Band(p, q, x)
  {
    hide Times;
    QuotientTimes(p.x - x, step);
    QuotientTimes(q.x - x, step);
    QuotientTimes(p.y - y, step);
    QuotientTimes(q.y - y, step);
    var p', q' := Moved(p, x, y, step), Moved(q, x, y, step);
    TwiceScaled(p'.x, q'.x, p'.y, q'.y, step);
  }

  lemma TwiceScaled(a: real, b: real, c: real, d: real, step: real)
    ensures Scaled(Times(a + b - 2.0 * 0.0, d - c), step)
         == Times(Times(a, step) + Times(b, step), Times(d, step) - Times(c, step))
  {
    assert (a * step + b * step) * (d * step - c * step) == (a + b) * (d - c) * step * step;
  }

  lemma {:induction false} MovedBands(pen: Point, s: seq<Point>, x: real, y: real, step: real)
    requires step > 0.0
    ensures Scaled(BandSum(Moved(pen, x, y, step), Normalized(s, x, y, step), 0.0), step) == BandSum(pen, s, x)
    decreases |s|
  {
    hide Band, BandSum, Scaled, Moved;
    BandUnfolds(pen, s, x);
    BandUnfolds(Moved(pen, x, y, step), Normalized(s, x, y, step), 0.0);
    ScaledNothing(step);
    if s != [] {
      var rest := Normalized(s[1..], x, y, step);
      MovedBands(s[0], s[1..], x, y, step);
      MovedBand(pen, s[0], x, y, step);
      NormalizedRest(s, x, y, step);
      ScaledPair(Band(Moved(pen, x, y, step), Moved(s[0], x, y, step), 0.0),
                 BandSum(Moved(s[0], x, y, step), rest, 0.0), step);
    }
  }

  lemma NormalizedRest(s: seq<Point>, x: real, y: real, step: real)
    requires step > 0.0 && s != []
    ensures var n := Normalized(s, x, y, step);
            n[0] == Moved(s[0], x, y, step) && n[1..] == Normalized(s[1..], x, y, step)
  {
  }

  lemma BandUnfolds(pen: Point, s: seq<Point>, c: real)
    ensures BandSum(pen, s, c) == if s == [] then 0.0 else Band(pen, s[0], c) + BandSum(s[0], s[1..], c)
  {
    hide Band;
  }

  lemma ScaledPair(a: real, b: real, step: real)
    ensures Scaled(a + b, step) == Scaled(a, step) + Scaled(b, step)
  {
  }

  lemma ScaledNothing(step: real)
    ensures Scaled(0.0, step) == 0.0
  {
  }

  /** In units of the cell an area is smaller by the square of the step. */
  lemma NormalizedArea(s: seq<Point>, x: real, y: real, step: real)
    requires step > 0.0 && s != []
    ensures Scaled(DoubledArea(Normalized(s, x, y, step)), step) == DoubledArea(s)
  {
    hide BandSum, CrossSum, Scaled;
    MovedBands(s[|s| - 1], s, x, y, step);
    BandsOfPolygon(s, x);
    BandsOfPolygon(Normalized(s, x, y, step), 0.0);
  }

  lemma FewHaveNoArea(s: seq<Point>)
    requires |s| < 3
    ensures DoubledArea(s) == 0.0
  {
    hide Cross;
    if |s| == 2 {
      assert s == [s[0], s[1]];
      TwoCorners(s[0], s[1]);
    } else if |s| == 1 {
      assert s == [s[0]];
      OneCross(s[0], s[0]);
      CrossBothWays(s[0], s[0]);
    }
  }

  lemma ScaledSign(a: real, step: real)
    requires step > 0.0
    ensures Scaled(a, step) > 0.0 <==> a > 0.0
    ensures Scaled(0.5 * a, step) == 0.5 * Scaled(a, step) && Scaled(0.0, step) == 0.0
    ensures a >= 0.0 ==> Scaled(a, step) >= 0.0
  {
    var b := a * step;
    assert b > 0.0 <==> a > 0.0;
    assert b * step > 0.0 <==> b > 0.0;
  }

  /** Without tolerance a triangle adds to a cell's nodes the area of its part there, if that is positive. */
  lemma CellTotalIsArea(t: Triangle, x: real, y: real, step: real)
    requires step > 0.0
    ensures Scaled(CellCorners(t, x, y, step, 0.0).Total(), step)
         == Max(0.5 * DoubledArea(CellPart(Vertices(t), x, y, step)), 0.0)
  {
    hide CellPart, DoubledArea, MomentsTo, Scaled, CornersOf, Vertices;
    var clipped := CellPart(Vertices(t), x, y, step);
    if |clipped| < 3 {
      FewHaveNoArea(clipped);
      ScaledSign(0.0, step);
    } else {
      var normalized := Normalized(clipped, x, y, step);
      NormalizedArea(clipped, x, y, step);
      MomentsOfPolygon(normalized);
      CornersAddUp(MomentsTo(normalized, |normalized|), 0.0);
      ScaledSign(DoubledArea(normalized), step);
    }
  }

  // ---------------------------------------------------------------- sums over cells

  /** The doubled areas of a polygon's parts in the first n cells of a row. */
  function RowArea(p: seq<Point>, xs: seq<real>, ys: seq<real>, row: nat, n: nat): real
    requires n < |xs| && row + 1 < |ys|
    decreases n
  {
    if n == 0 then 0.0
    else RowArea(p, xs, ys, row, n - 1)
         + DoubledArea(Strip(Strip(p, 0, xs[n - 1], xs[n]), 1, ys[row], ys[row + 1]))
  }

  function RowsArea(p: seq<Point>, xs: seq<real>, ys: seq<real>, m: nat): real
    requires |xs| > 0 && m < |ys|
    decreases m
  {
    if m == 0 then 0.0 else RowsArea(p, xs, ys, m - 1) + RowArea(p, xs, ys, m - 1, |xs| - 1)
  }

  /** The same by columns. */
  function ColumnsArea(p: seq<Point>, xs: seq<real>, ys: seq<real>, m: nat, n: nat): real
    requires n < |xs| && m < |ys|
    decreases n
  {
    if n == 0 then 0.0 else ColumnsArea(p, xs, ys, m, n - 1) + StripSum(Strip(p, 0, xs[n - 1], xs[n]), 1, ys, m)
  }

  lemma {:induction false} OneMoreRow(p: seq<Point>, xs: seq<real>, ys: seq<real>, m: nat, n: nat)
    requires n < |xs| && 0 < m < |ys|
    ensures ColumnsArea(p, xs, ys, m, n) == ColumnsArea(p, xs, ys, m - 1, n) + RowArea(p, xs, ys, m - 1, n)
    decreases n
  {
    hide Strip, DoubledArea;
    if n > 0 {
      OneMoreRow(p, xs, ys, m, n - 1);
    }
  }

  lemma {:induction false} NoRows(p: seq<Point>, xs: seq<real>, ys: seq<real>, n: nat)
    requires n < |xs| && |ys| > 0
    ensures ColumnsArea(p, xs, ys, 0, n) == 0.0
    decreases n
  {
    hide Strip;
    if n > 0 {
      NoRows(p, xs, ys, n - 1);
    }
  }

  lemma {:induction false} RowsAreColumns(p: seq<Point>, xs: seq<real>, ys: seq<real>, m: nat)
    requires |xs| > 0 && m < |ys|
    ensures RowsArea(p, xs, ys, m) == ColumnsArea(p, xs, ys, m, |xs| - 1)
    decreases m
  {
    hide ColumnsArea, RowArea;
    if m == 0 {
      NoRows(p, xs, ys, |xs| - 1);
    } else {
      RowsAreColumns(p, xs, ys, m - 1);
      OneMoreRow(p, xs, ys, m, |xs| - 1);
    }
  }

  lemma {:induction false} ColumnsAreCells(p: seq<Point>, xs: seq<real>, ys: seq<real>, n: nat)
    requires n < |xs| && |ys| > 0
    ensures ColumnsArea(p, xs, ys, |ys| - 1, n) == CellSum(p, xs, ys, n)
    decreases n
  {
    hide Strip, StripSum;
    if n > 0 {
      ColumnsAreCells(p, xs, ys, n - 1);
    }
  }

  /** The rows of cells over a polygon add up to its area. */
  lemma RowsTile(p: seq<Point>, xs: seq<real>, ys: seq<real>)
    requires p != [] && Rising(xs) && Rising(ys)
    requires Between(p, 0, xs[0], xs[|xs| - 1]) && Between(p, 1, ys[0], ys[|ys| - 1])
    ensures RowsArea(p, xs, ys, |ys| - 1) == DoubledArea(p)
  {
    hide RowsArea, ColumnsArea, CellSum, DoubledArea, Rising, Between;
    NotEmpty(xs);
    NotEmpty(ys);
    RowsAreColumns(p, xs, ys, |ys| - 1);
    ColumnsAreCells(p, xs, ys, |xs| - 1);
    CellsTile(p, xs, ys);
  }

  lemma NotEmpty(xs: seq<real>)
    requires Rising(xs)
    ensures |xs| > 0
  {
  }

  // ---------------------------------------------------------------- the cells of one triangle

  lemma {:induction false} EvenLine(xs: seq<real>, step: real, k: nat)
    requires Even(xs, step) && k < |xs|
    ensures xs[k] == xs[0] + Times(step, k as real)
    decreases k
  {
    hide Times;
    if k == 0 {
      TimesZero(step);
    } else {
      EvenLine(xs, step, k - 1);
      TimesSum(step, (k - 1) as real, 1.0);
      TimesOne(step);
    }
  }

  lemma EvenHasTwo(xs: seq<real>, step: real)
    requires Even(xs, step)
    ensures |xs| > 1
  {
  }

  lemma CellBounds(value: real, origin: real, step: real)
    requires step > 0.0 && origin <= value
    ensures var cell := CellOf(value, origin, step);
            && cell == ((value - origin) / step).Floor
            && origin + Times(step, cell as real) <= value < origin + Times(step, (cell + 1) as real)
  {
    hide Times;
    var q := (value - origin) / step;
    Quotient(value - origin, step);
    QuotientTimes(value - origin, step);
    TimesOrder(step, q.Floor as real, q);
    StrictOrder(step, q, (q.Floor + 1) as real);
    TimesCommutes(q, step);
  }

  lemma StrictOrder(weight: real, a: real, b: real)
    requires weight > 0.0 && a < b
    ensures Times(weight, a) < Times(weight, b)
  {
  }

  /** The cells from the first to the last cover what lies between, unless that is a single line. */
  lemma AxisCovers(low: real, high: real, xs: seq<real>, step: real)
    requires step > 0.0 && Even(xs, step) && xs[0] <= low <= high <= xs[|xs| - 1]
    ensures var first := CellOf(low, xs[0], step);
            var count := CountFrom(first, CellOf(high, xs[0], step), |xs| - 1);
            if count == 0 then low == high
            else first + count < |xs| && xs[first] <= low && high <= xs[first + count]
  {
    hide Times, CellOf, Even;
    EvenHasTwo(xs, step);
    var first, last, n := CellOf(low, xs[0], step), CellOf(high, xs[0], step), |xs| - 1;
    CellBounds(low, xs[0], step);
    CellBounds(high, xs[0], step);
    EvenLine(xs, step, n);
    if last + 1 < n {
      EvenLine(xs, step, last + 1);
    }
    if first <= n {
      EvenLine(xs, step, first);
    } else {
      TimesOrder(step, n as real, first as real);
    }
    if last < first {
      TimesOrder(step, (last + 1) as real, first as real);
    }
  }

  lemma FlatTriangle(t: Triangle, axis: nat)
    requires axis <= 1 && Lowest(t, axis) == Highest(t, axis)
    ensures t.DoubledArea() == 0.0
  {
    var v := Lowest(t, axis);
    assert t.a.Coordinate(axis) == t.b.Coordinate(axis) == t.c.Coordinate(axis) == v;
  }

  function BoxColumns(g: Lines, b: Box): seq<real>
    requires b.firstX + b.countX < |g.xs|
  {
    g.xs[b.firstX..b.firstX + b.countX + 1]
  }

  function BoxRows(g: Lines, b: Box): seq<real>
    requires b.firstY + b.countY < |g.ys|
  {
    g.ys[b.firstY..b.firstY + b.countY + 1]
  }

  lemma {:induction false} EvenRises(xs: seq<real>, step: real, from: nat, to: nat)
    requires step > 0.0 && Even(xs, step) && from < to <= |xs|
    ensures Rising(xs[from..to])
  {
    var part := xs[from..to];
    forall k | 0 < k < |part| ensures part[k - 1] <= part[k] {
      assert xs[from + k] == xs[from + k - 1] + step;
    }
  }

  lemma ExtremesBound(t: Triangle, axis: nat, low: real, high: real)
    ensures Between(Vertices(t), axis, low, high) <==> low <= Lowest(t, axis) && Highest(t, axis) <= high
    ensures Lowest(t, axis) <= Highest(t, axis)
  {
    var s := Vertices(t);
    assert s[0] == t.a && s[1] == t.b && s[2] == t.c;
  }

  /** A triangle's box covers it; one without cells has no area. */
  lemma BoxCovers(t: Triangle, g: Lines)
    requires g.Valid() && g.Covers(Vertices(t))
    ensures var b := BoxOf(t, g);
            if b.countX == 0 || b.countY == 0 then t.DoubledArea() == 0.0
            else
              && b.firstX + b.countX < |g.xs| && b.firstY + b.countY < |g.ys|
              && Rising(BoxColumns(g, b)) && Rising(BoxRows(g, b))
              && Between(Vertices(t), 0, BoxColumns(g, b)[0], BoxColumns(g, b)[b.countX])
              && Between(Vertices(t), 1, BoxRows(g, b)[0], BoxRows(g, b)[b.countY])
  {
    hide CellOf, CountFrom, Turn, Even, Rising, Between, Lowest, Highest, Vertices;
    var b := BoxOf(t, g);
    EvenHasTwo(g.xs, g.step);
    EvenHasTwo(g.ys, g.step);
    ExtremesBound(t, 0, g.xs[0], g.xs[|g.xs| - 1]);
    ExtremesBound(t, 1, g.ys[0], g.ys[|g.ys| - 1]);
    AxisCovers(Lowest(t, 0), Highest(t, 0), g.xs, g.step);
    AxisCovers(Lowest(t, 1), Highest(t, 1), g.ys, g.step);
    if b.countX == 0 {
      FlatTriangle(t, 0);
    } else if b.countY == 0 {
      FlatTriangle(t, 1);
    } else {
      EvenRises(g.xs, g.step, b.firstX, b.firstX + b.countX + 1);
      EvenRises(g.ys, g.step, b.firstY, b.firstY + b.countY + 1);
      ExtremesBound(t, 0, g.xs[b.firstX], g.xs[b.firstX + b.countX]);
      ExtremesBound(t, 1, g.ys[b.firstY], g.ys[b.firstY + b.countY]);
    }
  }

  lemma PartOfBox(t: Triangle, g: Lines, b: Box, row: nat, n: nat)
    requires g.Valid() && b.firstX + b.countX < |g.xs| && b.firstY + b.countY < |g.ys|
    requires row < b.countY && 0 < n <= b.countX
    ensures var xs, ys := BoxColumns(g, b), BoxRows(g, b);
            Strip(Strip(Vertices(t), 0, xs[n - 1], xs[n]), 1, ys[row], ys[row + 1])
            == CellPart(Vertices(t), g.xs[b.firstX + n - 1], g.ys[b.firstY + row], g.step)
  {
    hide Strip;
    assert g.xs[b.firstX + n] == g.xs[b.firstX + n - 1] + g.step;
    assert g.ys[b.firstY + row + 1] == g.ys[b.firstY + row] + g.step;
  }

  /** A row of cells adds the area of a triangle's parts there; nothing if the triangle turns right. */
  lemma {:induction false} RowTotal(w: seq<real>, t: Triangle, g: Lines, b: Box, row: nat, n: nat)
    requires g.Valid() && |w| == g.Count() && b.firstX + b.countX < |g.xs| && b.firstY + b.countY < |g.ys|
    requires row < b.countY && n <= b.countX
    ensures Total(RowAdded(w, t, g, 0.0, b.firstY + row, b.firstX, n))
         == Total(w) + if t.DoubledArea() >= 0.0 then 0.5 * RowArea(Vertices(t), BoxColumns(g, b), BoxRows(g, b), row, n)
                       else 0.0
    decreases n
  {
    hide Strip, DoubledArea, Even, CellAdded, Turn, Dot, CellCorners, Scaled, Total, BoxColumns, BoxRows;
    BoxLines(g, b);
    if n > 0 {
      var x, y := g.xs[b.firstX + n - 1], g.ys[b.firstY + row];
      RowTotal(w, t, g, b, row, n - 1);
      CellTotal(RowAdded(w, t, g, 0.0, b.firstY + row, b.firstX, n - 1), g, b.firstX + n - 1, b.firstY + row,
                CellCorners(t, x, y, g.step, 0.0));
      CellTotalIsArea(t, x, y, g.step);
      PartsHaveSign(t, x, y, g.step);
      PartOfBox(t, g, b, row, n);
    }
  }

  lemma BoxLines(g: Lines, b: Box)
    requires b.firstX + b.countX < |g.xs| && b.firstY + b.countY < |g.ys|
    ensures |BoxColumns(g, b)| == b.countX + 1 && |BoxRows(g, b)| == b.countY + 1
  {
  }

  lemma {:induction false} RowsTotal(w: seq<real>, t: Triangle, g: Lines, b: Box, m: nat)
    requires g.Valid() && |w| == g.Count() && b.firstX + b.countX < |g.xs| && b.firstY + b.countY < |g.ys|
    requires m <= b.countY
    ensures Total(RowsAdded(w, t, g, 0.0, b, m))
         == Total(w) + if t.DoubledArea() >= 0.0 then 0.5 * RowsArea(Vertices(t), BoxColumns(g, b), BoxRows(g, b), m)
                       else 0.0
    decreases m
  {
    hide RowArea, RowAdded, Turn, Total, BoxColumns, BoxRows, Even;
    BoxLines(g, b);
    if m > 0 {
      RowsTotal(w, t, g, b, m - 1);
      RowTotal(RowsAdded(w, t, g, 0.0, b, m - 1), t, g, b, m - 1, b.countX);
    }
  }

  lemma {:induction false} NothingAdded(w: seq<real>, t: Triangle, g: Lines, tolerance: real, b: Box, n: nat)
    requires g.Valid() && |w| == g.Count() && b.countX == 0 && (n == 0 || b.firstY + n < |g.ys|)
    ensures RowsAdded(w, t, g, tolerance, b, n) == w
    decreases n
  {
    if n > 0 {
      NothingAdded(w, t, g, tolerance, b, n - 1);
    }
  }

  lemma NoRowsAdded(w: seq<real>, t: Triangle, g: Lines, tolerance: real, b: Box)
    requires g.Valid() && |w| == g.Count() && (b.countX == 0 || b.firstX + b.countX < |g.xs|)
    ensures RowsAdded(w, t, g, tolerance, b, 0) == w
  {
  }

  /** Without tolerance a triangle over the grid adds its area to the nodes, or nothing if it turns right. */
  lemma TriangleTotal(w: seq<real>, t: Triangle, g: Lines)
    requires g.Valid() && |w| == g.Count() && g.Covers(Vertices(t))
    ensures Total(RowsAdded(w, t, g, 0.0, BoxOf(t, g), BoxOf(t, g).countY))
         == Total(w) + Max(0.5 * t.DoubledArea(), 0.0)
  {
    hide RowsAdded, Turn, Total, BoxColumns, BoxRows, Even, RowsArea, BoxOf, DoubledArea, Rising, Between;
    var b := BoxOf(t, g);
    BoxCovers(t, g);
    if b.countY == 0 {
      NoRowsAdded(w, t, g, 0.0, b);
    } else if b.countX == 0 {
      NothingAdded(w, t, g, 0.0, b, b.countY);
    } else {
      BoxLines(g, b);
      RowsTotal(w, t, g, b, b.countY);
      RowsTile(Vertices(t), BoxColumns(g, b), BoxRows(g, b));
      ThreeCorners(Vertices(t));
    }
  }

  // ---------------------------------------------------------------- all triangles

  /** The areas of the triangles that turn left. */
  function PositiveArea(triangles: seq<Triangle>, n: nat): real
    requires n <= |triangles|
    decreases n
  {
    if n == 0 then 0.0 else PositiveArea(triangles, n - 1) + Max(0.5 * triangles[n - 1].DoubledArea(), 0.0)
  }

  lemma {:induction false} ZerosTotal(ones: seq<real>, n: nat, k: nat)
    requires k <= n && |ones| == n
    ensures Dot(ones, Zeros(n), k) == 0.0
    decreases k
  {
    if k > 0 {
      ZerosTotal(ones, n, k - 1);
    }
  }

  lemma {:induction false} NodeWeightsTotal(triangles: seq<Triangle>, g: Lines, n: nat)
    requires g.Valid() && n <= |triangles| && forall k | 0 <= k < |triangles| :: g.Covers(Vertices(triangles[k]))
    ensures Total(NodeWeights(triangles, g, 0.0, n)) == PositiveArea(triangles, n)
    decreases n
  {
    hide Turn, Even, BoxOf, RowsAdded, Lines.Covers, Lines.Valid;
    if n == 0 {
      ZerosTotal(Ones(g.Count()), g.Count(), g.Count());
    } else {
      NodeWeightsTotal(triangles, g, n - 1);
      TriangleTotal(NodeWeights(triangles, g, 0.0, n - 1), triangles[n - 1], g);
    }
  }

  // ---------------------------------------------------------------- no weight is negative

  ghost predicate NoneNegative(c: Corners) {
    c.lowerLeft >= 0.0 && c.lowerRight >= 0.0 && c.upperLeft >= 0.0 && c.upperRight >= 0.0
  }

  /** The corner weights that moments give before the tolerance is looked at. */
  function Shares(m: Moments): Corners {
    var area, ix, iy, ixy := 0.5 * m.doubledArea, m.x / 6.0, m.y / 6.0, m.mixed / 24.0;
    Corners(area - ix - iy + ixy, ix - ixy, iy - ixy, ixy)
  }

  ghost predicate InUnit(p: Point) {
    0.0 <= p.x <= 1.0 && 0.0 <= p.y <= 1.0
  }

  /** One midpoint's part in the corner weights. */
  function MidShares(d: real, x: real, y: real): Corners {
    Corners(Times(d, Times(1.0 - x, 1.0 - y)) / 6.0, Times(d, Times(x, 1.0 - y)) / 6.0,
            Times(d, Times(1.0 - x, y)) / 6.0, Times(d, Times(x, y)) / 6.0)
  }

  lemma MidSharesAreShares(d: real, x1: real, y1: real, x2: real, y2: real, x3: real, y3: real)
    ensures var m := Moments(d, Times(d, x1 + x2 + x3), Times(d, y1 + y2 + y3),
                             Times(d, Times(2.0 * x1, 2.0 * y1) + Times(2.0 * x2, 2.0 * y2) + Times(2.0 * x3, 2.0 * y3)));
            var (a, b, c) := (MidShares(d, x1, y1), MidShares(d, x2, y2), MidShares(d, x3, y3));
            && Shares(m).lowerLeft == a.lowerLeft + b.lowerLeft + c.lowerLeft
            && Shares(m).lowerRight == a.lowerRight + b.lowerRight + c.lowerRight
            && Shares(m).upperLeft == a.upperLeft + b.upperLeft + c.upperLeft
            && Shares(m).upperRight == a.upperRight + b.upperRight + c.upperRight
  {
    hide Times;
    MidParts(d, x1, y1);
    MidParts(d, x2, y2);
    MidParts(d, x3, y3);
    TimesSum(d, x1 + x2, x3);
    TimesSum(d, x1, x2);
    TimesSum(d, y1 + y2, y3);
    TimesSum(d, y1, y2);
    TimesSum(d, Times(2.0 * x1, 2.0 * y1) + Times(2.0 * x2, 2.0 * y2), Times(2.0 * x3, 2.0 * y3));
    TimesSum(d, Times(2.0 * x1, 2.0 * y1), Times(2.0 * x2, 2.0 * y2));
  }

  lemma MidParts(d: real, x: real, y: real)
    ensures Times(d, Times(2.0 * x, 2.0 * y)) == 4.0 * Times(d, Times(x, y))
    ensures Times(d, Times(1.0 - x, 1.0 - y)) == d - Times(d, x) - Times(d, y) + Times(d, Times(x, y))
    ensures Times(d, Times(x, 1.0 - y)) == Times(d, x) - Times(d, Times(x, y))
    ensures Times(d, Times(1.0 - x, y)) == Times(d, y) - Times(d, Times(x, y))
  {
    assert (2.0 * x) * (2.0 * y) == 4.0 * (x * y);
    assert (1.0 - x) * (1.0 - y) == 1.0 - x - y + x * y;
  }

  lemma MidSharesPositive(d: real, x: real, y: real)
    requires d >= 0.0 && 0.0 <= x <= 1.0 && 0.0 <= y <= 1.0
    ensures NoneNegative(MidShares(d, x, y))
  {
    ProductPositive(1.0 - x, 1.0 - y);
    ProductPositive(x, 1.0 - y);
    ProductPositive(1.0 - x, y);
    ProductPositive(x, y);
    ProductPositive(d, Times(1.0 - x, 1.0 - y));
    ProductPositive(d, Times(x, 1.0 - y));
    ProductPositive(d, Times(1.0 - x, y));
    ProductPositive(d, Times(x, y));
  }

  lemma ProductPositive(a: real, b: real)
    requires a >= 0.0 && b >= 0.0
    ensures Times(a, b) >= 0.0
  {
  }

  /** A triangle in the unit cell that does not turn right gives no corner a negative weight. */
  lemma TriangleShares(t: Triangle)
    requires t.DoubledArea() >= 0.0 && InUnit(t.a) && InUnit(t.b) && InUnit(t.c)
    ensures NoneNegative(Shares(MidpointRule(t)))
  {
    hide Times, Turn;
    var (d, a, b, c) := (t.DoubledArea(), t.a, t.b, t.c);
    var x1, x2, x3 := (a.x + b.x) / 2.0, (b.x + c.x) / 2.0, (c.x + a.x) / 2.0;
    var y1, y2, y3 := (a.y + b.y) / 2.0, (b.y + c.y) / 2.0, (c.y + a.y) / 2.0;
    MidSharesAreShares(d, x1, y1, x2, y2, x3, y3);
    MidSharesPositive(d, x1, y1);
    MidSharesPositive(d, x2, y2);
    MidSharesPositive(d, x3, y3);
    assert 2.0 * x1 == a.x + b.x && 2.0 * x2 == b.x + c.x && 2.0 * x3 == c.x + a.x;
    assert 2.0 * y1 == a.y + b.y && 2.0 * y2 == b.y + c.y && 2.0 * y3 == c.y + a.y;
    assert x1 + x2 + x3 == a.x + b.x + c.x && y1 + y2 + y3 == a.y + b.y + c.y;
  }

  lemma SharesAdd(m: Moments, n: Moments)
    requires NoneNegative(Shares(m)) && NoneNegative(Shares(n))
    ensures NoneNegative(Shares(Add(m, n)))
  {
  }

  /** So does a polygon in the unit cell whose edges all have the first vertex on their left. */
  lemma {:induction false} FanShares(s: seq<Point>)
    requires |s| >= 2 ==> BesideAll(s[1], s[2..], s[0], true)
    requires forall k | 0 <= k < |s| :: InUnit(s[k])
    ensures NoneNegative(Shares(FanSum(s)))
    decreases |s|
  {
    hide Turn, MidpointRule;
    if |s| >= 3 {
      var rest := Without(s, 1);
      assert rest == [s[0]] + s[2..] && s[2..][1..] == s[3..] && rest[2..] == s[3..];
      TurnsOfTriangle(Triangle(s[0], s[1], s[2]));
      TriangleShares(Corner(s, 1));
      FanShares(rest);
      SharesAdd(FanSum(rest), MidpointRule(Corner(s, 1)));
    }
  }

  lemma MovedTurn(u: Point, v: Point, o: Point, x: real, y: real, step: real)
    requires step > 0.0
    ensures Scaled(Turn(Moved(u, x, y, step), Moved(v, x, y, step), Moved(o, x, y, step)), step) == Turn(u, v, o)
  {
    var u', v', o' := Moved(u, x, y, step), Moved(v, x, y, step), Moved(o, x, y, step);
    MovedDistance(u.x, v.x, x, step);
    MovedDistance(v.x, o.x, x, step);
    MovedDistance(u.y, v.y, y, step);
    MovedDistance(v.y, o.y, y, step);
    ScaledCross(v'.x - u'.x, o'.y - v'.y, o'.x - v'.x, v'.y - u'.y, step);
  }

  lemma MovedDistance(a: real, b: real, origin: real, step: real)
    requires step > 0.0
    ensures ((b - origin) / step - (a - origin) / step) * step == b - a
  {
  }

  lemma ScaledCross(a: real, b: real, c: real, d: real, step: real)
    ensures Scaled(a * b - c * d, step) == (a * step) * (b * step) - (c * step) * (d * step)
  {
  }

  lemma {:induction false} MovedBeside(pen: Point, s: seq<Point>, o: Point, x: real, y: real, step: real)
    requires step > 0.0 && BesideAll(pen, s, o, true)
    ensures BesideAll(Moved(pen, x, y, step), Normalized(s, x, y, step), Moved(o, x, y, step), true)
    decreases |s|
  {
    hide Turn, Scaled;
    if s != [] {
      MovedBeside(s[0], s[1..], o, x, y, step);
      assert Normalized(s, x, y, step)[1..] == Normalized(s[1..], x, y, step);
      MovedTurn(pen, s[0], o, x, y, step);
      NotNegative(Turn(Moved(pen, x, y, step), Moved(s[0], x, y, step), Moved(o, x, y, step)), step);
    }
  }

  lemma NotNegative(a: real, step: real)
    requires step > 0.0 && Scaled(a, step) >= 0.0
    ensures a >= 0.0
  {
    ScaledSign(-a, step);
    assert Scaled(-a, step) == -Scaled(a, step);
  }

  lemma {:induction false} OutputsInside(pen: Point, s: seq<Point>, c: real, greater: bool, low: real, o: Point)
    requires o in Outputs(pen, s, 0, c, greater)
    ensures Inside(o.x, c, greater)
    ensures low <= c && (forall k | 0 <= k < |s| :: low <= s[k].x) ==> low <= o.x
    decreases |s|
  {
    hide Meeting;
    if o in EdgeOutput(pen, s[0], 0, c, greater) {
      if Inside(pen.x, c, greater) != Inside(s[0].x, c, greater) {
        MeetingIsOnTheLine(pen, s[0], c);
      }
    } else {
      OutputsInside(s[0], s[1..], c, greater, low, o);
    }
  }

  lemma StripInside(s: seq<Point>, a: real, b: real)
    requires a <= b
    ensures Between(Strip(s, 0, a, b), 0, a, b)
  {
    hide Outputs;
    var once, r := Clip(s, 0, a, true), Strip(s, 0, a, b);
    forall k | 0 <= k < |once| ensures a <= once[k].x {
      OutputsInside(s[|s| - 1], s, a, true, a, once[k]);
    }
    forall k | 0 <= k < |r| ensures a <= r[k].x <= b {
      OutputsInside(once[|once| - 1], once, b, false, a, r[k]);
    }
  }

  lemma SwappedTwice(s: seq<Point>, low: real, high: real)
    ensures Swapped(Strip(s, 1, low, high)) == Strip(Swapped(s), 0, low, high)
  {
    hide Clip;
    SwappedClip(s, low, true);
    SwappedClip(Clip(s, 1, low, true), high, false);
  }

  /** A part lies in its cell. */
  lemma PartInCell(s: seq<Point>, x: real, y: real, step: real)
    requires step > 0.0
    ensures Between(CellPart(s, x, y, step), 0, x, x + step) && Between(CellPart(s, x, y, step), 1, y, y + step)
  {
    hide Strip;
    var column, part := Strip(s, 0, x, x + step), CellPart(s, x, y, step);
    StripInside(s, x, x + step);
    SwappedTwice(column, y, y + step);
    StripInside(Swapped(column), y, y + step);
    StripBetween(Swapped(column), y, y + step, x, x + step);
    assert forall k | 0 <= k < |part| :: Swapped(part)[k] == Point(part[k].y, part[k].x);
  }

  lemma UnitShare(value: real, origin: real, step: real)
    requires step > 0.0 && origin <= value <= origin + step
    ensures 0.0 <= (value - origin) / step <= 1.0
  {
    QuotientRange(value - origin, step);
  }

  /** No cell ever gives a corner a negative weight. */
  lemma CornersNotNegative(t: Triangle, x: real, y: real, step: real, tolerance: real)
    requires step > 0.0 && tolerance >= 0.0
    ensures NoneNegative(CellCorners(t, x, y, step, tolerance))
  {
    hide CellPart, DoubledArea, MomentsTo, Scaled, Turn, Vertices, FanSum, BesideAll;
    var clipped := CellPart(Vertices(t), x, y, step);
    if |clipped| >= 3 {
      var n := Normalized(clipped, x, y, step);
      MomentsOfPolygon(n);
      NormalizedArea(clipped, x, y, step);
      ScaledSign(DoubledArea(n), step);
      PartsHaveSign(t, x, y, step);
      if t.DoubledArea() >= 0.0 {
        TriangleIsConvex(t);
        CellPartIsConvex(Vertices(t), x, y, step, true);
        ConvexFan(clipped);
        MovedBeside(clipped[1], clipped[2..], clipped[0], x, y, step);
        assert n[2..] == Normalized(clipped[2..], x, y, step);
        PartInCell(Vertices(t), x, y, step);
        forall k | 0 <= k < |n| ensures InUnit(n[k]) {
          UnitShare(clipped[k].x, x, step);
          UnitShare(clipped[k].y, y, step);
        }
        FanShares(n);
        MomentsAreIntegrals(n);
      }
    }
  }

  lemma ConvexFan(s: seq<Point>)
    requires Convex(s, true) && |s| >= 2
    ensures BesideAll(s[1], s[2..], s[0], true)
  {
    hide Beside;
    var rest := s[1..];
    assert Kernel(s, s[0], true) && BesideAll(s[0], rest, s[0], true);
    assert rest[0] == s[1] && rest[1..] == s[2..];
  }

  // ---------------------------------------------------------------- the weights of a boundary

  ghost predicate Weights(weights: seq<real>) {
    forall k | 0 <= k < |weights| :: weights[k] >= 0.0
  }

  lemma RaisedIsWeights(w: seq<real>, k: nat, amount: real)
    requires Weights(w) && k < |w| && amount >= 0.0
    ensures Weights(Raised(w, k, amount))
  {
  }

  lemma CellAddedIsWeights(w: seq<real>, g: Lines, xi: nat, yi: nat, c: Corners)
    requires |w| == g.Count() && xi + 1 < |g.xs| && yi + 1 < |g.ys| && g.step > 0.0
    requires Weights(w) && NoneNegative(c)
    ensures Weights(CellAdded(w, g, xi, yi, c))
  {
    hide Scaled, Weights, Raised;
    var one := Raised(w, Node(g, xi, yi), Scaled(c.lowerLeft, g.step));
    var two := Raised(one, Node(g, xi + 1, yi), Scaled(c.lowerRight, g.step));
    var three := Raised(two, Node(g, xi, yi + 1), Scaled(c.upperLeft, g.step));
    ScaledSign(c.lowerLeft, g.step);
    ScaledSign(c.lowerRight, g.step);
    ScaledSign(c.upperLeft, g.step);
    ScaledSign(c.upperRight, g.step);
    RaisedIsWeights(w, Node(g, xi, yi), Scaled(c.lowerLeft, g.step));
    RaisedIsWeights(one, Node(g, xi + 1, yi), Scaled(c.lowerRight, g.step));
    RaisedIsWeights(two, Node(g, xi, yi + 1), Scaled(c.upperLeft, g.step));
    RaisedIsWeights(three, Node(g, xi + 1, yi + 1), Scaled(c.upperRight, g.step));
  }

  lemma {:induction false} RowIsWeights(w: seq<real>, t: Triangle, g: Lines, tolerance: real, yi: nat, from: nat, n: nat)
    requires g.Valid() && |w| == g.Count() && yi + 1 < |g.ys| && (n == 0 || from + n < |g.xs|)
    requires Weights(w) && tolerance >= 0.0
    ensures Weights(RowAdded(w, t, g, tolerance, yi, from, n))
    decreases n
  {
    hide Weights, CellAdded, CellCorners, NoneNegative;
    if n > 0 {
      RowIsWeights(w, t, g, tolerance, yi, from, n - 1);
      CornersNotNegative(t, g.xs[from + n - 1], g.ys[yi], g.step, tolerance);
      CellAddedIsWeights(RowAdded(w, t, g, tolerance, yi, from, n - 1), g, from + n - 1, yi,
                         CellCorners(t, g.xs[from + n - 1], g.ys[yi], g.step, tolerance));
    }
  }

  lemma {:induction false} RowsAreWeights(w: seq<real>, t: Triangle, g: Lines, tolerance: real, b: Box, n: nat)
    requires g.Valid() && |w| == g.Count() && Weights(w) && tolerance >= 0.0
    requires (b.countX == 0 || b.firstX + b.countX < |g.xs|) && (n == 0 || b.firstY + n < |g.ys|)
    ensures Weights(RowsAdded(w, t, g, tolerance, b, n))
    decreases n
  {
    hide Weights, RowAdded;
    if n > 0 {
      RowsAreWeights(w, t, g, tolerance, b, n - 1);
      RowIsWeights(RowsAdded(w, t, g, tolerance, b, n - 1), t, g, tolerance, b.firstY + n - 1, b.firstX, b.countX);
    }
  }

  /** No node weight is ever negative, so none is refused or cut off at zero. */
  lemma {:induction false} NodeWeightsAreWeights(triangles: seq<Triangle>, g: Lines, tolerance: real, n: nat)
    requires g.Valid() && n <= |triangles| && tolerance >= 0.0
    ensures Weights(NodeWeights(triangles, g, tolerance, n))
    decreases n
  {
    hide RowsAdded, BoxOf, Even;
    if n > 0 {
      NodeWeightsAreWeights(triangles, g, tolerance, n - 1);
      RowsAreWeights(NodeWeights(triangles, g, tolerance, n - 1), triangles[n - 1], g, tolerance,
                     BoxOf(triangles[n - 1], g), BoxOf(triangles[n - 1], g).countY);
    }
  }

  lemma {:induction false} TrianglesInside(vertices: seq<Point>, tolerance: real, g: Lines)
    requires g.Valid() && g.Covers(vertices)
    ensures var r := Cut(vertices, tolerance);
            r.Success? ==> forall k | 0 <= k < |r.value| :: g.Covers(Vertices(r.value[k]))
    decreases |vertices|
  {
    hide Turn, FirstEar, Lines.Covers, Lines.Valid;
    if Cut(vertices, tolerance).Success? {
      if |vertices| > 3 {
        var ear := FirstEar(vertices, 0, tolerance).value;
        WithoutInside(vertices, ear, g);
        TrianglesInside(Without(vertices, ear), tolerance, g);
      } else {
        assert vertices == Vertices(Triangle(vertices[0], vertices[1], vertices[2]));
      }
    }
  }

  lemma WithoutInside(s: seq<Point>, k: nat, g: Lines)
    requires g.Valid() && g.Covers(s) && k < |s|
    ensures g.Covers(Without(s, k)) && g.Covers(Vertices(Corner(s, k)))
  {
    hide Even;
  }

  lemma {:induction false} SimplifiedInside(s: seq<Point>, tolerance: real, g: Lines)
    requires g.Valid() && g.Covers(s)
    ensures g.Covers(Simplified(s, tolerance))
    decreases |s|
  {
    hide Turn, Even, Turning;
    if |s| > 3 {
      TurningInside(s, tolerance, g, |s|);
      AllTurn(s, tolerance, |s|);
      if |Turning(s, tolerance, |s|)| < |s| {
        SimplifiedInside(Turning(s, tolerance, |s|), tolerance, g);
      }
    }
  }

  lemma {:induction false} TurningInside(s: seq<Point>, tolerance: real, g: Lines, n: nat)
    requires g.Valid() && g.Covers(s) && n <= |s|
    ensures g.Covers(Turning(s, tolerance, n))
    decreases n
  {
    hide Turn, Even;
    if n > 0 {
      TurningInside(s, tolerance, g, n - 1);
    }
  }

  lemma {:induction false} ReversedInside(s: seq<Point>, g: Lines)
    requires g.Valid() && g.Covers(s)
    ensures g.Covers(Reversed(s))
    decreases |s|
  {
    hide Even;
    if s != [] {
      ReversedInside(s[1..], g);
    }
  }

  lemma {:induction false} PositiveAreaIsSum(triangles: seq<Triangle>, n: nat)
    requires n <= |triangles| && forall k | 0 <= k < n :: triangles[k].DoubledArea() >= 0.0
    ensures PositiveArea(triangles, n) == 0.5 * TriangleSum(triangles[..n])
    decreases n
  {
    hide Turn;
    if n > 0 {
      PositiveAreaIsSum(triangles, n - 1);
      assert triangles[..n][..n - 1] == triangles[..n - 1];
    }
  }

  /** Without tolerance the node weights of a boundary inside the grid are not negative, and before they are normalised
      they already represent its area together: exactly, unless the last triangle turns right; then too much, by the area
      of that triangle. */
  lemma WeightsRepresentArea(boundary: seq<Point>, g: Lines)
    requires g.Valid() && g.Covers(boundary) && Distinct(boundary)
    ensures var cut := Cut(Simplified(Oriented(boundary), 0.0), 0.0);
            cut.Success? ==>
              var n := |cut.value|;
              && n > 0 && Weights(NodeWeights(cut.value, g, 0.0, n))
              && Total(NodeWeights(cut.value, g, 0.0, n))
                 == 0.5 * Abs(DoubledArea(boundary)) + Max(-0.5 * cut.value[n - 1].DoubledArea(), 0.0)
  {
    hide Turn, DoubledArea, Cut, Simplified, Reversed, NodeWeights, Even, Total, Lines.Covers;
    TrianglesKeepArea(boundary);
    ReversedInside(boundary, g);
    SimplifiedInside(Oriented(boundary), 0.0, g);
    TrianglesInside(Simplified(Oriented(boundary), 0.0), 0.0, g);
    var cut := Cut(Simplified(Oriented(boundary), 0.0), 0.0);
    if cut.Success? {
      var n := |cut.value|;
      NodeWeightsAreWeights(cut.value, g, 0.0, n);
      NodeWeightsTotal(cut.value, g, n);
      PositiveAreaIsSum(cut.value, n - 1);
      assert cut.value[..n - 1] + [cut.value[n - 1]] == cut.value;
      SumOneMore(cut.value[..n - 1], cut.value[n - 1]);
    }
  }

  // ---------------------------------------------------------------- the areas of the cells

  function Cell(g: Lines, xi: nat, yi: nat): (k: nat)
    requires xi + 1 < |g.xs| && yi + 1 < |g.ys|
    ensures k < g.Cells()
  {
    NodeInGrid(|g.xs| - 1, |g.ys| - 1, xi, yi);
    yi * (|g.xs| - 1) + xi
  }

  function AreaAdded(areas: seq<real>, g: Lines, xi: nat, yi: nat, c: Corners): (r: seq<real>)
    requires xi + 1 < |g.xs| && yi + 1 < |g.ys| && |areas| == g.Cells()
    ensures |r| == |areas|
  {
    Raised(areas, Cell(g, xi, yi), Scaled(c.Total(), g.step))
  }

  function RowAreas(areas: seq<real>, t: Triangle, g: Lines, tolerance: real, yi: nat, from: nat, n: nat)
    : (r: seq<real>)
    requires g.Valid() && |areas| == g.Cells() && yi + 1 < |g.ys| && (n == 0 || from + n < |g.xs|)
    ensures |r| == |areas|
    decreases n
  {
    if n == 0 then areas
    else
      AreaAdded(RowAreas(areas, t, g, tolerance, yi, from, n - 1), g, from + n - 1, yi,
                CellCorners(t, g.xs[from + n - 1], g.ys[yi], g.step, tolerance))
  }

  function RowsAreas(areas: seq<real>, t: Triangle, g: Lines, tolerance: real, b: Box, n: nat): (r: seq<real>)
    requires g.Valid() && |areas| == g.Cells()
    requires (b.countX == 0 || b.firstX + b.countX < |g.xs|) && (n == 0 || b.firstY + n < |g.ys|)
    ensures |r| == |areas|
    decreases n
  {
    if n == 0 then areas
    else RowAreas(RowsAreas(areas, t, g, tolerance, b, n - 1), t, g, tolerance, b.firstY + n - 1, b.firstX, b.countX)
  }

  /** The area of the first n triangles in each cell. */
  function CellAreas(triangles: seq<Triangle>, g: Lines, tolerance: real, n: nat): (r: seq<real>)
    requires g.Valid() && n <= |triangles|
    ensures |r| == g.Cells()
    decreases n
  {
    if n == 0 then Zeros(g.Cells())
    else
      var t := triangles[n - 1];
      RowsAreas(CellAreas(triangles, g, tolerance, n - 1), t, g, tolerance, BoxOf(t, g), BoxOf(t, g).countY)
  }

  lemma AreaTotal(areas: seq<real>, w: seq<real>, g: Lines, xi: nat, yi: nat, c: Corners)
    requires xi + 1 < |g.xs| && yi + 1 < |g.ys| && |areas| == g.Cells() && |w| == g.Count() && g.step > 0.0
    requires NoneNegative(c) && Weights(areas) && Total(areas) == Total(w)
    ensures Weights(AreaAdded(areas, g, xi, yi, c))
    ensures Total(AreaAdded(areas, g, xi, yi, c)) == Total(CellAdded(w, g, xi, yi, c))
  {
    hide Scaled, Weights, Raised, CellAdded, Dot;
    CellTotal(w, g, xi, yi, c);
    DotRaised(Ones(|areas|), areas, Cell(g, xi, yi), Scaled(c.Total(), g.step), |areas|);
    ScaledSign(c.Total(), g.step);
    RaisedIsWeights(areas, Cell(g, xi, yi), Scaled(c.Total(), g.step));
  }

  lemma {:induction false} RowAreasTotal(areas: seq<real>, w: seq<real>, t: Triangle, g: Lines, tolerance: real,
                                         yi: nat, from: nat, n: nat)
    requires g.Valid() && |areas| == g.Cells() && |w| == g.Count() && yi + 1 < |g.ys| && (n == 0 || from + n < |g.xs|)
    requires Weights(areas) && Total(areas) == Total(w) && tolerance >= 0.0
    ensures Weights(RowAreas(areas, t, g, tolerance, yi, from, n))
    ensures Total(RowAreas(areas, t, g, tolerance, yi, from, n)) == Total(RowAdded(w, t, g, tolerance, yi, from, n))
    decreases n
  {
    hide Weights, CellAdded, AreaAdded, CellCorners, NoneNegative, Total;
    if n > 0 {
      var x, y := g.xs[from + n - 1], g.ys[yi];
      RowAreasTotal(areas, w, t, g, tolerance, yi, from, n - 1);
      CornersNotNegative(t, x, y, g.step, tolerance);
      AreaTotal(RowAreas(areas, t, g, tolerance, yi, from, n - 1), RowAdded(w, t, g, tolerance, yi, from, n - 1), g,
                from + n - 1, yi, CellCorners(t, x, y, g.step, tolerance));
    }
  }

  lemma {:induction false} RowsAreasTotal(areas: seq<real>, w: seq<real>, t: Triangle, g: Lines, tolerance: real,
                                          b: Box, n: nat)
    requires g.Valid() && |areas| == g.Cells() && |w| == g.Count() && tolerance >= 0.0
    requires (b.countX == 0 || b.firstX + b.countX < |g.xs|) && (n == 0 || b.firstY + n < |g.ys|)
    requires Weights(areas) && Total(areas) == Total(w)
    ensures Weights(RowsAreas(areas, t, g, tolerance, b, n))
    ensures Total(RowsAreas(areas, t, g, tolerance, b, n)) == Total(RowsAdded(w, t, g, tolerance, b, n))
    decreases n
  {
    hide Weights, RowAdded, RowAreas, Total;
    if n > 0 {
      RowsAreasTotal(areas, w, t, g, tolerance, b, n - 1);
      RowAreasTotal(RowsAreas(areas, t, g, tolerance, b, n - 1), RowsAdded(w, t, g, tolerance, b, n - 1), t, g,
                    tolerance, b.firstY + n - 1, b.firstX, b.countX);
    }
  }

  /** For every tolerance no cell's area is negative, and the areas of the cells add up to the weights of the nodes. */
  lemma {:induction false} AreasMatchWeights(triangles: seq<Triangle>, g: Lines, tolerance: real, n: nat)
    requires g.Valid() && n <= |triangles| && tolerance >= 0.0
    ensures Weights(CellAreas(triangles, g, tolerance, n))
    ensures Total(CellAreas(triangles, g, tolerance, n)) == Total(NodeWeights(triangles, g, tolerance, n))
    decreases n
  {
    hide RowsAdded, RowsAreas, BoxOf, Even, Lines.Cells, Lines.Count;
    if n == 0 {
      ZerosTotal(Ones(g.Cells()), g.Cells(), g.Cells());
      ZerosTotal(Ones(g.Count()), g.Count(), g.Count());
    } else {
      AreasMatchWeights(triangles, g, tolerance, n - 1);
      RowsAreasTotal(CellAreas(triangles, g, tolerance, n - 1), NodeWeights(triangles, g, tolerance, n - 1),
                     triangles[n - 1], g, tolerance, BoxOf(triangles[n - 1], g), BoxOf(triangles[n - 1], g).countY);
    }
  }

  // ---------------------------------------------------------------- the loops as they run

  lemma NothingToAdd(w: seq<real>, areas: seq<real>, g: Lines, xi: nat, yi: nat)
    requires xi + 1 < |g.xs| && yi + 1 < |g.ys| && |w| == g.Count() && |areas| == g.Cells()
    ensures CellAdded(w, g, xi, yi, NO_CORNERS) == w && AreaAdded(areas, g, xi, yi, NO_CORNERS) == areas
  {
  }

  /** Adds corner weights to the four nodes of a cell, and their sum to its area. */
  method AddCorners(weights: array<real>, areas: array<real>, g: Lines, xi: nat, yi: nat, c: Corners)
    requires xi + 1 < |g.xs| && yi + 1 < |g.ys|
    requires weights != areas && weights.Length == g.Count() && areas.Length == g.Cells()
    modifies weights, areas
    ensures weights[..] == CellAdded(old(weights[..]), g, xi, yi, c)
    ensures areas[..] == AreaAdded(old(areas[..]), g, xi, yi, c)
  {
    hide Node, Cell, Scaled, Lines.Count, Lines.Cells;
    areas[Cell(g, xi, yi)] := areas[Cell(g, xi, yi)] + Scaled(c.Total(), g.step);
    weights[Node(g, xi, yi)] := weights[Node(g, xi, yi)] + Scaled(c.lowerLeft, g.step);
    weights[Node(g, xi + 1, yi)] := weights[Node(g, xi + 1, yi)] + Scaled(c.lowerRight, g.step);
    weights[Node(g, xi, yi + 1)] := weights[Node(g, xi, yi + 1)] + Scaled(c.upperLeft, g.step);
    weights[Node(g, xi + 1, yi + 1)] := weights[Node(g, xi + 1, yi + 1)] + Scaled(c.upperRight, g.step);
  }

  /** Clips a triangle to one cell and adds the corner weights to the cell's four nodes and its area. */
  method AddCell(weights: array<real>, areas: array<real>, t: Triangle, g: Lines, xi: nat, yi: nat, tolerance: real)
    requires g.Valid() && xi + 1 < |g.xs| && yi + 1 < |g.ys|
    requires weights != areas && weights.Length == g.Count() && areas.Length == g.Cells()
    modifies weights, areas
    ensures var c := CellCorners(t, g.xs[xi], g.ys[yi], g.step, tolerance);
            && weights[..] == CellAdded(old(weights[..]), g, xi, yi, c)
            && areas[..] == AreaAdded(old(areas[..]), g, xi, yi, c)
  {
    hide Clip, MomentsTo, CornersOf, DoubledArea, CellAdded, AreaAdded, Lines.Count, Lines.Cells, Even;
    var x, y := g.xs[xi], g.ys[yi];
    var clipped := ClipAxis(Vertices(t), 0, x, true);
    clipped := ClipAxis(clipped, 0, x + g.step, false);
    clipped := ClipAxis(clipped, 1, y, true);
    clipped := ClipAxis(clipped, 1, y + g.step, false);
    if |clipped| < 3 {
      NothingToAdd(weights[..], areas[..], g, xi, yi);
      return;
    }
    var c := BilinearWeights(Normalized(clipped, x, y, g.step), tolerance);
    AddCorners(weights, areas, g, xi, yi, c);
  }

  method AddTriangle(weights: array<real>, areas: array<real>, t: Triangle, g: Lines, tolerance: real)
    requires g.Valid() && weights != areas && weights.Length == g.Count() && areas.Length == g.Cells()
    modifies weights, areas
    ensures weights[..] == RowsAdded(old(weights[..]), t, g, tolerance, BoxOf(t, g), BoxOf(t, g).countY)
    ensures areas[..] == RowsAreas(old(areas[..]), t, g, tolerance, BoxOf(t, g), BoxOf(t, g).countY)
  {
    hide CellCorners, CellAdded, AreaAdded, BoxOf, Even, Lines.Cells, Lines.Count;
    var b := BoxOf(t, g);
    for row := 0 to b.countY
      invariant weights[..] == RowsAdded(old(weights[..]), t, g, tolerance, b, row)
      invariant areas[..] == RowsAreas(old(areas[..]), t, g, tolerance, b, row)
    {
      ghost var before, held := weights[..], areas[..];
      for column := 0 to b.countX
        invariant weights[..] == RowAdded(before, t, g, tolerance, b.firstY + row, b.firstX, column)
        invariant areas[..] == RowAreas(held, t, g, tolerance, b.firstY + row, b.firstX, column)
      {
        AddCell(weights, areas, t, g, b.firstX + column, b.firstY + row, tolerance);
      }
    }
  }

  /** The weights of all nodes and the areas of all cells: refused only when the boundary cannot be triangulated or no
      area is left, otherwise in proportion to what the cells add up to, and both representing the boundary's area.
      Without tolerance, over a grid that covers the boundary, only triangulating can fail, and unless the last triangle
      turns right normalising changes nothing. */
  method VolumeWeights(boundary: seq<Point>, g: Lines, tolerance: real)
    returns (r: Result<(seq<real>, seq<real>), GridError>)
    requires g.Valid() && DoubledArea(boundary) != 0.0 && tolerance >= 0.0
    ensures var cut, area := Cut(Simplified(Oriented(boundary), tolerance), tolerance), 0.5 * Abs(DoubledArea(boundary));
            if cut.Failure? then r == Failure(cut.error)
            else
              var raw := NodeWeights(cut.value, g, tolerance, |cut.value|);
              if Total(raw) <= 0.0 then r == Failure(NoArea)
              else
                && r.Success? && Weights(r.value.0) && Total(r.value.0) == Total(r.value.1) == area
                && IsRescaled(raw, r.value.0, area, Total(raw))
                && IsRescaled(CellAreas(cut.value, g, tolerance, |cut.value|), r.value.1, area, Total(raw))
    ensures tolerance == 0.0 && g.Covers(boundary) && Distinct(boundary) ==>
              var cut := Cut(Simplified(Oriented(boundary), 0.0), 0.0);
              && (r.Success? <==> cut.Success?)
              && (r.Success? && cut.value[|cut.value| - 1].DoubledArea() >= 0.0 ==>
                    r.value == (NodeWeights(cut.value, g, 0.0, |cut.value|), CellAreas(cut.value, g, 0.0, |cut.value|)))
  {
    hide DoubledArea, Turn, Cut, Simplified, Reversed, RowsAdded, RowsAreas, BoxOf, Even, Dot, Times, Lines.Covers,
         Distinct, IsRescaled, Lines.Cells, Lines.Count;
    var triangulated := Triangulate(boundary, tolerance);
    if triangulated.Failure? {
      return Failure(triangulated.error);
    }
    var triangles := triangulated.value;
    var weights, areas := new real[g.Count()](_ => 0.0), new real[g.Cells()](_ => 0.0);
    assert weights[..] == Zeros(g.Count()) && areas[..] == Zeros(g.Cells());
    for k := 0 to |triangles|
      invariant weights[..] == NodeWeights(triangles, g, tolerance, k)
      invariant areas[..] == CellAreas(triangles, g, tolerance, k)
    {
      AddTriangle(weights, areas, triangles[k], g, tolerance);
    }
    var area := 0.5 * Abs(DoubledArea(boundary));
    var raw, held := weights[..], areas[..];
    NodeWeightsAreWeights(triangles, g, tolerance, |triangles|);
    AreasMatchWeights(triangles, g, tolerance, |triangles|);
    NoneRefused(raw, area, tolerance);
    r := Normalise(raw, held, area, tolerance);
    if r.Success? {
      IsRescaledLength(raw, r.value.0, area, Total(raw));
      RescaledTotal(held, r.value.1, area, Total(raw));
    }
    if tolerance == 0.0 && g.Covers(boundary) && Distinct(boundary) {
      WeightsRepresentArea(boundary, g);
      if triangles[|triangles| - 1].DoubledArea() >= 0.0 {
        SameWeights(raw, r.value.0, area);
        SameWeights(held, r.value.1, area);
      }
    }
  }

  lemma NoneRefused(raw: seq<real>, area: real, tolerance: real)
    requires Weights(raw) && area > 0.0 && tolerance >= 0.0
    ensures Clamped(raw) == raw
    ensures !exists k :: 0 <= k < |raw| && raw[k] < -Times(tolerance, area)
  {
  }

  lemma {:induction false} RescaledDot(ones: seq<real>, held: seq<real>, r: seq<real>, area: real, represented: real,
                                       n: nat)
    requires IsRescaled(held, r, area, represented) && n <= |held| == |ones|
    requires forall k | 0 <= k < |ones| :: ones[k] == 1.0
    ensures Times(represented, Dot(ones, r, n)) == Times(area, Dot(ones, held, n))
    decreases n
  {
    hide Times;
    if n == 0 {
      TimesZero(represented);
      TimesZero(area);
    } else {
      RescaledDot(ones, held, r, area, represented, n - 1);
      TimesCommutes(1.0, r[n - 1]);
      TimesCommutes(1.0, held[n - 1]);
      TimesOne(r[n - 1]);
      TimesOne(held[n - 1]);
      TimesSum(represented, Dot(ones, r, n - 1), r[n - 1]);
      TimesSum(area, Dot(ones, held, n - 1), held[n - 1]);
    }
  }

  lemma RescaledTotal(held: seq<real>, r: seq<real>, area: real, represented: real)
    requires IsRescaled(held, r, area, represented) && Total(held) == represented > 0.0
    ensures |r| == |held| && Total(r) == area
  {
    hide Times, Dot;
    RescaledDot(Ones(|held|), held, r, area, represented, |held|);
    TimesCommutes(area, represented);
    SameFactor(represented, Total(r), area);
  }

  lemma SameWeights(raw: seq<real>, r: seq<real>, area: real)
    requires IsRescaled(raw, r, area, area) && area > 0.0
    ensures r == raw
  {
    forall k | 0 <= k < |raw| ensures r[k] == raw[k] {
      SameFactor(area, r[k], raw[k]);
    }
  }

  lemma SameFactor(factor: real, a: real, b: real)
    requires factor > 0.0 && Times(factor, a) == Times(factor, b)
    ensures a == b
  {
  }
}

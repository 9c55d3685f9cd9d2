/** Where the area goes: what each node and each cell receives
    (services/simulation-server/src/scenario/grid.rs, volume_weights). */
module WeightPlacement {
  import opened Sums
  import opened Clipping
  import opened Convexity
  import opened Tiling
  import opened Triangulation
  import opened MomentsOfArea
  import opened VolumeWeights

  predicate InBox(b: Box, xi: int, yi: int) {
    b.firstX <= xi < b.firstX + b.countX && b.firstY <= yi < b.firstY + b.countY
  }

  /** Rows follow one another. */
  function Place(columns: nat, i: nat, j: nat): nat {
    j * columns + i
  }

  ghost predicate Holds(r: seq<real>, k: nat, amount: real) {
    k < |r| && r[k] == amount
  }

  // ---------------------------------------------------------------- what a node receives

  /** The node at column i and row j is the lower left corner of one cell, the lower right corner of the one before, and
      an upper corner of the two below these. From each cell of the box it receives that corner's weight. */
  function NodeShare(t: Triangle, g: Lines, tolerance: real, b: Box, i: nat, j: nat): real
    requires g.Valid() && i < |g.xs| && j < |g.ys|
  {
    (if InBox(b, i, j) then Scaled(CellCorners(t, g.xs[i], g.ys[j], g.step, tolerance).lowerLeft, g.step) else 0.0)
    + (if InBox(b, i - 1, j) then Scaled(CellCorners(t, g.xs[i - 1], g.ys[j], g.step, tolerance).lowerRight, g.step)
       else 0.0)
    + (if InBox(b, i, j - 1) then Scaled(CellCorners(t, g.xs[i], g.ys[j - 1], g.step, tolerance).upperLeft, g.step)
       else 0.0)
    + (if InBox(b, i - 1, j - 1)
       then Scaled(CellCorners(t, g.xs[i - 1], g.ys[j - 1], g.step, tolerance).upperRight, g.step)
       else 0.0)
  }

  function NodeShares(triangles: seq<Triangle>, g: Lines, tolerance: real, n: nat, i: nat, j: nat): real
    requires g.Valid() && n <= |triangles| && i < |g.xs| && j < |g.ys|
    decreases n
  {
    if n == 0 then 0.0
    else NodeShares(triangles, g, tolerance, n - 1, i, j)
         + NodeShare(triangles[n - 1], g, tolerance, BoxOf(triangles[n - 1], g), i, j)
  }

  /** Two places of a grid have the same index only if they are the same. */
  lemma PlacesDiffer(columns: nat, x: nat, y: nat, i: nat, j: nat)
    requires x < columns && i < columns
    ensures y * columns + x == j * columns + i <==> x == i && y == j
  {
    if y < j {
      assert (y + 1) * columns <= j * columns;
    } else if j < y {
      assert (j + 1) * columns <= y * columns;
    }
  }

  lemma NodeIs(g: Lines, xi: nat, yi: nat, i: nat, j: nat)
    requires xi < |g.xs| && yi < |g.ys| && i < |g.xs| && j < |g.ys|
    ensures Node(g, xi, yi) == Node(g, i, j) <==> xi == i && yi == j
    ensures Node(g, i, j) == Place(|g.xs|, i, j) < g.Count() == |g.xs| * |g.ys|
  {
    PlacesDiffer(|g.xs|, xi, yi, i, j);
  }

  lemma RaisedAt(w: seq<real>, k: nat, amount: real, n: nat)
    requires k < |w| && n < |w|
    ensures Raised(w, k, amount)[n] == w[n] + if k == n then amount else 0.0
  {
  }

  lemma CellAddedAt(w: seq<real>, g: Lines, xi: nat, yi: nat, c: Corners, i: nat, j: nat)
    requires |w| == g.Count() && xi + 1 < |g.xs| && yi + 1 < |g.ys| && i < |g.xs| && j < |g.ys|
    ensures CellAdded(w, g, xi, yi, c)[Node(g, i, j)]
         == w[Node(g, i, j)]
            + (if xi == i && yi == j then Scaled(c.lowerLeft, g.step) else 0.0)
            + (if xi + 1 == i && yi == j then Scaled(c.lowerRight, g.step) else 0.0)
            + (if xi == i && yi + 1 == j then Scaled(c.upperLeft, g.step) else 0.0)
            + (if xi + 1 == i && yi + 1 == j then Scaled(c.upperRight, g.step) else 0.0)
  {
    hide Node, Raised, Scaled, Lines.Count;
    var n := Node(g, i, j);
    var one := Raised(w, Node(g, xi, yi), Scaled(c.lowerLeft, g.step));
    var two := Raised(one, Node(g, xi + 1, yi), Scaled(c.lowerRight, g.step));
    var three := Raised(two, Node(g, xi, yi + 1), Scaled(c.upperLeft, g.step));
    NodeIs(g, xi, yi, i, j);
    NodeIs(g, xi + 1, yi, i, j);
    NodeIs(g, xi, yi + 1, i, j);
    NodeIs(g, xi + 1, yi + 1, i, j);
    RaisedAt(w, Node(g, xi, yi), Scaled(c.lowerLeft, g.step), n);
    RaisedAt(one, Node(g, xi + 1, yi), Scaled(c.lowerRight, g.step), n);
    RaisedAt(two, Node(g, xi, yi + 1), Scaled(c.upperLeft, g.step), n);
    RaisedAt(three, Node(g, xi + 1, yi + 1), Scaled(c.upperRight, g.step), n);
  }

  lemma {:induction false} RowAddedAt(w: seq<real>, t: Triangle, g: Lines, tolerance: real, yi: nat, from: nat, n: nat,
                                      i: nat, j: nat)
    requires g.Valid() && |w| == g.Count() && yi + 1 < |g.ys| && (n == 0 || from + n < |g.xs|)
    requires i < |g.xs| && j < |g.ys|
    ensures RowAdded(w, t, g, tolerance, yi, from, n)[Node(g, i, j)]
         == w[Node(g, i, j)] + NodeShare(t, g, tolerance, Box(from, n, yi, 1), i, j)
    decreases n
  {
    hide Node, Scaled, CellCorners, CellAdded, Lines.Count, Even;
    if n > 0 {
      RowAddedAt(w, t, g, tolerance, yi, from, n - 1, i, j);
      CellAddedAt(RowAdded(w, t, g, tolerance, yi, from, n - 1), g, from + n - 1, yi,
                  CellCorners(t, g.xs[from + n - 1], g.ys[yi], g.step, tolerance), i, j);
    }
  }

  lemma {:induction false} RowsAddedAt(w: seq<real>, t: Triangle, g: Lines, tolerance: real, b: Box, n: nat,
                                       i: nat, j: nat)
    requires g.Valid() && |w| == g.Count()
    requires (b.countX == 0 || b.firstX + b.countX < |g.xs|) && (n == 0 || b.firstY + n < |g.ys|)
    requires i < |g.xs| && j < |g.ys|
    ensures RowsAdded(w, t, g, tolerance, b, n)[Node(g, i, j)]
         == w[Node(g, i, j)] + NodeShare(t, g, tolerance, b.(countY := n), i, j)
    decreases n
  {
    hide Node, Scaled, CellCorners, RowAdded, Lines.Count, Even;
    if n > 0 {
      RowsAddedAt(w, t, g, tolerance, b, n - 1, i, j);
      RowAddedAt(RowsAdded(w, t, g, tolerance, b, n - 1), t, g, tolerance, b.firstY + n - 1, b.firstX, b.countX, i, j);
    }
  }

  lemma {:induction false} NodeWeightsAt(triangles: seq<Triangle>, g: Lines, tolerance: real, n: nat, i: nat, j: nat)
    requires g.Valid() && n <= |triangles| && i < |g.xs| && j < |g.ys|
    ensures NodeWeights(triangles, g, tolerance, n)[Node(g, i, j)] == NodeShares(triangles, g, tolerance, n, i, j)
    decreases n
  {
    hide Node, NodeShare, RowsAdded, BoxOf, Even, Lines.Count;
    if n > 0 {
      var t := triangles[n - 1];
      NodeWeightsAt(triangles, g, tolerance, n - 1, i, j);
      RowsAddedAt(NodeWeights(triangles, g, tolerance, n - 1), t, g, tolerance, BoxOf(t, g), BoxOf(t, g).countY, i, j);
    }
  }

  /** Every node holds the corner weights of the up to four cells around it, of every triangle, and nothing else. */
  lemma NodesHoldTheirCorners(triangles: seq<Triangle>, g: Lines, tolerance: real, n: nat, i: nat, j: nat)
    requires g.Valid() && n <= |triangles| && i < |g.xs| && j < |g.ys|
    ensures |NodeWeights(triangles, g, tolerance, n)| == |g.xs| * |g.ys|
    ensures Holds(NodeWeights(triangles, g, tolerance, n), Place(|g.xs|, i, j),
                  NodeShares(triangles, g, tolerance, n, i, j))
  {
    hide Node, NodeShares, NodeWeights, Even, Place, Lines.Count;
    NodeIs(g, i, j, i, j);
    NodeWeightsAt(triangles, g, tolerance, n, i, j);
  }

  // ---------------------------------------------------------------- what a cell receives

  function CellShare(t: Triangle, g: Lines, tolerance: real, b: Box, i: nat, j: nat): real
    requires g.Valid() && i + 1 < |g.xs| && j + 1 < |g.ys|
  {
    if InBox(b, i, j) then Scaled(CellCorners(t, g.xs[i], g.ys[j], g.step, tolerance).Total(), g.step) else 0.0
  }

  function CellShares(triangles: seq<Triangle>, g: Lines, tolerance: real, n: nat, i: nat, j: nat): real
    requires g.Valid() && n <= |triangles| && i + 1 < |g.xs| && j + 1 < |g.ys|
    decreases n
  {
    if n == 0 then 0.0
    else CellShares(triangles, g, tolerance, n - 1, i, j)
         + CellShare(triangles[n - 1], g, tolerance, BoxOf(triangles[n - 1], g), i, j)
  }

  lemma CellIs(g: Lines, xi: nat, yi: nat, i: nat, j: nat)
    requires xi + 1 < |g.xs| && yi + 1 < |g.ys| && i + 1 < |g.xs| && j + 1 < |g.ys|
    ensures Cell(g, xi, yi) == Cell(g, i, j) <==> xi == i && yi == j
    ensures Cell(g, i, j) == Place(|g.xs| - 1, i, j) < g.Cells() == (|g.xs| - 1) * (|g.ys| - 1)
  {
    PlacesDiffer(|g.xs| - 1, xi, yi, i, j);
  }

  lemma {:induction false} RowAreasAt(areas: seq<real>, t: Triangle, g: Lines, tolerance: real, yi: nat, from: nat,
                                      n: nat, i: nat, j: nat)
    requires g.Valid() && |areas| == g.Cells() && yi + 1 < |g.ys| && (n == 0 || from + n < |g.xs|)
    requires i + 1 < |g.xs| && j + 1 < |g.ys|
    ensures RowAreas(areas, t, g, tolerance, yi, from, n)[Cell(g, i, j)]
         == areas[Cell(g, i, j)] + CellShare(t, g, tolerance, Box(from, n, yi, 1), i, j)
    decreases n
  {
    hide Cell, Scaled, CellCorners, Lines.Cells, Even, Corners.Total;
    if n > 0 {
      RowAreasAt(areas, t, g, tolerance, yi, from, n - 1, i, j);
      CellIs(g, from + n - 1, yi, i, j);
    }
  }

  lemma {:induction false} RowsAreasAt(areas: seq<real>, t: Triangle, g: Lines, tolerance: real, b: Box, n: nat,
                                       i: nat, j: nat)
    requires g.Valid() && |areas| == g.Cells()
    requires (b.countX == 0 || b.firstX + b.countX < |g.xs|) && (n == 0 || b.firstY + n < |g.ys|)
    requires i + 1 < |g.xs| && j + 1 < |g.ys|
    ensures RowsAreas(areas, t, g, tolerance, b, n)[Cell(g, i, j)]
         == areas[Cell(g, i, j)] + CellShare(t, g, tolerance, b.(countY := n), i, j)
    decreases n
  {
    hide Cell, Scaled, CellCorners, RowAreas, Lines.Cells, Even, Corners.Total;
    if n > 0 {
      RowsAreasAt(areas, t, g, tolerance, b, n - 1, i, j);
      RowAreasAt(RowsAreas(areas, t, g, tolerance, b, n - 1), t, g, tolerance, b.firstY + n - 1, b.firstX, b.countX,
                 i, j);
    }
  }

  lemma {:induction false} CellAreasAt(triangles: seq<Triangle>, g: Lines, tolerance: real, n: nat, i: nat, j: nat)
    requires g.Valid() && n <= |triangles| && i + 1 < |g.xs| && j + 1 < |g.ys|
    ensures CellAreas(triangles, g, tolerance, n)[Cell(g, i, j)] == CellShares(triangles, g, tolerance, n, i, j)
    decreases n
  {
    hide Cell, CellShare, RowsAreas, BoxOf, Even, Lines.Cells;
    if n > 0 {
      var t := triangles[n - 1];
      CellAreasAt(triangles, g, tolerance, n - 1, i, j);
      RowsAreasAt(CellAreas(triangles, g, tolerance, n - 1), t, g, tolerance, BoxOf(t, g), BoxOf(t, g).countY, i, j);
    }
  }

  /** There is one area for every cell between two columns and two rows: the sum of the triangles' parts there. */
  lemma CellsHoldTheirArea(triangles: seq<Triangle>, g: Lines, tolerance: real, n: nat, i: nat, j: nat)
    requires g.Valid() && n <= |triangles| && i + 1 < |g.xs| && j + 1 < |g.ys|
    ensures |CellAreas(triangles, g, tolerance, n)| == (|g.xs| - 1) * (|g.ys| - 1)
    ensures Holds(CellAreas(triangles, g, tolerance, n), Place(|g.xs| - 1, i, j),
                  CellShares(triangles, g, tolerance, n, i, j))
  {
    hide Cell, CellShares, CellAreas, Even, Place, Lines.Cells;
    CellIs(g, i, j, i, j);
    CellAreasAt(triangles, g, tolerance, n, i, j);
  }

  // ---------------------------------------------------------------- what a cell gives its corners

  /** In units of the cell, what a triangle gives a cell's corners integrates their bilinear interpolation over its part
      there; a part of no more area than the tolerance gives nothing. */
  lemma CellIntegrates(t: Triangle, x: real, y: real, step: real, tolerance: real,
                       v00: real, v10: real, v01: real, v11: real)
    requires step > 0.0 && tolerance >= 0.0
    ensures var p, w := Normalized(CellPart(Vertices(t), x, y, step), x, y, step), CellCorners(t, x, y, step, tolerance);
            if 0.5 * DoubledArea(p) <= tolerance then w == Corners(0.0, 0.0, 0.0, 0.0)
            else
              var m := FanSum(p);
              Times(w.lowerLeft, v00) + Times(w.lowerRight, v10) + Times(w.upperLeft, v01) + Times(w.upperRight, v11)
              == Times(v00, 0.5 * m.doubledArea) + Times(v10 - v00, m.x / 6.0) + Times(v01 - v00, m.y / 6.0)
                 + Times(v00 - v10 - v01 + v11, m.mixed / 24.0)
  {
    hide Times, CellPart, DoubledArea, FanSum, MomentsTo, Normalized, Vertices, CornersOf;
    var p := Normalized(CellPart(Vertices(t), x, y, step), x, y, step);
    if |p| < 3 {
      FewHaveNoArea(p);
    } else if 0.5 * DoubledArea(p) > tolerance {
      WeightsIntegrate(p, tolerance, v00, v10, v01, v11);
    } else {
      MomentsOfPolygon(p);
      TooSlight(MomentsTo(p, |p|), tolerance);
    }
  }

  lemma TooSlight(m: Moments, tolerance: real)
    requires 0.5 * m.doubledArea <= tolerance
    ensures CornersOf(m, tolerance) == NO_CORNERS
  {
  }

  // ---------------------------------------------------------------- how many lines

  /** The grid reaches over the extent with as few cells as can do so. */
  lemma FewestCells(extent: real, step: real)
    requires step > 0.0
    ensures var cells := NodeCount(extent, step) - 1;
            && cells > 0 && extent <= Times(step, cells as real)
            && (cells > 1 ==> Times(step, (cells - 1) as real) < extent)
  {
    hide Times;
    var q, cells := extent / step, NodeCount(extent, step) - 1;
    QuotientTimes(extent, step);
    TimesCommutes(q, step);
    TimesOrder(step, q, cells as real);
    if cells > 1 {
      StrictOrder(step, (cells - 1) as real, q);
    }
  }
}

/** The pairs of adjacent grid nodes (services/simulation-server/src/scenario/grid.rs, neighbor_pairs). */
module Neighbors {
  import opened Sums

  datatype Pair = Pair(first: nat, second: nat, distance: real)

  /** The four directions that meet every adjacent pair once: right, up, up-right, up-left. */
  const DIRECTIONS: nat := 4

  function RowStep(direction: nat): int {
    if direction == 0 then 0 else 1
  }

  function ColumnStep(direction: nat): int {
    if direction == 0 || direction == 2 then 1 else if direction == 1 then 0 else -1
  }

  function Index(row: nat, column: nat, columns: nat): nat {
    row * columns + column
  }

  lemma IndexInRange(row: nat, column: nat, rows: nat, columns: nat)
    requires row < rows && column < columns
    ensures Index(row, column, columns) < rows * columns
  {
    assert (row + 1) * columns == row * columns + columns;
    assert (row + 1) * columns <= rows * columns;
  }

  /** Different nodes have different indices. */
  lemma IndexIsUnique(row: nat, column: nat, row2: nat, column2: nat, columns: nat)
    requires column < columns && column2 < columns && Index(row, column, columns) == Index(row2, column2, columns)
    ensures row == row2 && column == column2
  {
    if row < row2 {
      RowsApart(row, row2, columns);
    } else if row2 < row {
      RowsApart(row2, row, columns);
    }
  }

  lemma RowsApart(row: nat, row2: nat, columns: nat)
    requires row < row2
    ensures row * columns + columns <= row2 * columns
  {
    assert (row + 1) * columns == row * columns + columns;
    assert (row + 1) * columns <= row2 * columns;
  }

  /** The grid, its node areas, its step, and the length of a unit diagonal. */
  datatype Layout = Layout(rows: nat, columns: nat, step: real, diagonal: real, weights: seq<real>) {
    predicate Valid() {
      |weights| == rows * columns && step > 0.0 && diagonal > 0.0
    }

    /** The neighbour in a direction exists. */
    predicate InRange(row: nat, column: nat, direction: nat) {
      row + RowStep(direction) < rows && 0 <= column + ColumnStep(direction) < columns
    }

    function Distance(direction: nat): real {
      Times(step, if direction <= 1 then 1.0 else diagonal)
    }

    function PairTowards(row: nat, column: nat, direction: nat): Pair
      requires InRange(row, column, direction)
    {
      Pair(Index(row, column, columns), Index(row + RowStep(direction), column + ColumnStep(direction), columns),
           Distance(direction))
    }

    /** Both ends exist and have area. */
    predicate Joined(row: nat, column: nat, direction: nat)
      requires Valid() && row < rows && column < columns
    {
      && InRange(row, column, direction)
      && (IndexInRange(row, column, rows, columns);
          IndexInRange(row + RowStep(direction), column + ColumnStep(direction), rows, columns);
          weights[PairTowards(row, column, direction).first] > 0.0
              && weights[PairTowards(row, column, direction).second] > 0.0)
    }

    function NodePairs(row: nat, column: nat, n: nat): seq<Pair>
      requires Valid() && row < rows && column < columns && n <= DIRECTIONS
    {
      if n == 0 then []
      else NodePairs(row, column, n - 1) + if Joined(row, column, n - 1) then [PairTowards(row, column, n - 1)] else []
    }

    function RowPairs(row: nat, n: nat): seq<Pair>
      requires Valid() && row < rows && n <= columns
    {
      if n == 0 then [] else RowPairs(row, n - 1) + NodePairs(row, n - 1, DIRECTIONS)
    }

    function Pairs(n: nat): seq<Pair>
      requires Valid() && n <= rows
    {
      if n == 0 then [] else Pairs(n - 1) + RowPairs(n - 1, columns)
    }
  }

  method NeighborPairs(layout: Layout) returns (pairs: seq<Pair>)
    requires layout.Valid()
    ensures pairs == layout.Pairs(layout.rows)
  {
    hide Times, Index;
    pairs := [];
    for row := 0 to layout.rows
      invariant pairs == layout.Pairs(row)
    {
      for column := 0 to layout.columns
        invariant pairs == layout.Pairs(row) + layout.RowPairs(row, column)
      {
        for direction := 0 to DIRECTIONS
          invariant pairs == layout.Pairs(row) + layout.RowPairs(row, column) + layout.NodePairs(row, column, direction)
        {
          if layout.Joined(row, column, direction) {
            pairs := pairs + [layout.PairTowards(row, column, direction)];
          }
        }
      }
    }
  }

  // ---------------------------------------------------------------- exactly the adjacent pairs

  /** A pair of the list belongs to a node and a direction in which it is joined. */
  ghost predicate From(layout: Layout, p: Pair, row: nat, column: nat, direction: nat)
    requires layout.Valid()
  {
    row < layout.rows && column < layout.columns && direction < DIRECTIONS
    && layout.Joined(row, column, direction) && p == layout.PairTowards(row, column, direction)
  }

  lemma {:induction false} NodePairsAre(layout: Layout, row: nat, column: nat, n: nat, p: Pair)
    requires layout.Valid() && row < layout.rows && column < layout.columns && n <= DIRECTIONS
    ensures p in layout.NodePairs(row, column, n)
            <==> exists direction: nat :: direction < n && From(layout, p, row, column, direction)
  {
    hide Index, Times;
    if n > 0 {
      NodePairsAre(layout, row, column, n - 1, p);
      if layout.Joined(row, column, n - 1) {
        assert From(layout, layout.PairTowards(row, column, n - 1), row, column, n - 1);
      }
    }
  }

  lemma {:induction false} RowPairsAre(layout: Layout, row: nat, n: nat, p: Pair)
    requires layout.Valid() && row < layout.rows && n <= layout.columns
    ensures p in layout.RowPairs(row, n)
       <==> exists column: nat, direction: nat :: column < n && From(layout, p, row, column, direction)
  {
    hide Index, Times, Layout.Joined, Layout.NodePairs;
    if n > 0 {
      RowPairsAre(layout, row, n - 1, p);
      NodePairsAre(layout, row, n - 1, DIRECTIONS, p);
    }
  }

  /** A pair is listed exactly when its two nodes are adjacent and both have area. */
  lemma {:induction false} PairsAre(layout: Layout, n: nat, p: Pair)
    requires layout.Valid() && n <= layout.rows
    ensures p in layout.Pairs(n)
       <==> exists row: nat, column: nat, direction: nat :: row < n && From(layout, p, row, column, direction)
  {
    hide Index, Times, Layout.Joined, Layout.RowPairs;
    if n > 0 {
      PairsAre(layout, n - 1, p);
      RowPairsAre(layout, n - 1, layout.columns, p);
    }
  }

  /** Every listed pair joins two different nodes with area, a positive distance apart. */
  lemma PairsAreUsable(layout: Layout, p: Pair)
    requires layout.Valid() && p in layout.Pairs(layout.rows)
    ensures p.first < |layout.weights| && p.second < |layout.weights| && p.first != p.second
    ensures layout.weights[p.first] > 0.0 && layout.weights[p.second] > 0.0 && p.distance > 0.0
  {
    hide Layout.Pairs;
    PairsAre(layout, layout.rows, p);
    var row: nat, column: nat, direction: nat :| row < layout.rows && From(layout, p, row, column, direction);
    JoinedIsUsable(layout, p, row, column, direction);
  }

  lemma JoinedIsUsable(layout: Layout, p: Pair, row: nat, column: nat, direction: nat)
    requires layout.Valid() && From(layout, p, row, column, direction)
    ensures p.first < |layout.weights| && p.second < |layout.weights| && p.first != p.second
    ensures layout.weights[p.first] > 0.0 && layout.weights[p.second] > 0.0 && p.distance > 0.0
  {
    hide Index;
    IndexInRange(row, column, layout.rows, layout.columns);
    IndexInRange(row + RowStep(direction), column + ColumnStep(direction), layout.rows, layout.columns);
    if p.first == p.second {
      IndexIsUnique(row, column, row + RowStep(direction), column + ColumnStep(direction), layout.columns);
    }
  }

  // ---------------------------------------------------------------- every adjacent pair once

  /** Two nodes next to each other, along a row, a column or a diagonal. */
  predicate Adjacent(row: nat, column: nat, row2: nat, column2: nat) {
    && -1 <= row2 - row <= 1 && -1 <= column2 - column <= 1 && (row != row2 || column != column2)
  }

  /** How far apart: one step, or the diagonal of one step. */
  ghost predicate IsApart(layout: Layout, row: nat, column: nat, row2: nat, column2: nat, distance: real) {
    distance == if row == row2 || column == column2 then layout.step else Times(layout.step, layout.diagonal)
  }

  lemma StepsAreAdjacent(layout: Layout, row: nat, column: nat, direction: nat)
    requires direction < DIRECTIONS && layout.InRange(row, column, direction)
    ensures var row2, column2 := row + RowStep(direction), column + ColumnStep(direction);
            && Adjacent(row, column, row2, column2)
            && IsApart(layout, row, column, row2, column2, layout.Distance(direction))
  {
    TimesOne(layout.step);
  }

  lemma IndicesInOrder(row: nat, column: nat, row2: nat, column2: nat, columns: nat)
    requires column < columns && column2 < columns
    ensures Index(row, column, columns) < Index(row2, column2, columns)
       <==> row < row2 || (row == row2 && column < column2)
  {
    if row < row2 {
      RowsApart(row, row2, columns);
    } else if row2 < row {
      RowsApart(row2, row, columns);
    }
  }

  /** Nodes in the order of their indices are listed as a pair exactly when they are adjacent and both have area, and then
      with their distance. */
  lemma AdjacentNodesArePaired(layout: Layout, row: nat, column: nat, row2: nat, column2: nat, distance: real)
    requires layout.Valid() && row < layout.rows && row2 < layout.rows
    requires column < layout.columns && column2 < layout.columns
    requires Index(row, column, layout.columns) < Index(row2, column2, layout.columns) < |layout.weights|
    ensures var first, second := Index(row, column, layout.columns), Index(row2, column2, layout.columns);
            Pair(first, second, distance) in layout.Pairs(layout.rows)
            <==> && Adjacent(row, column, row2, column2) && IsApart(layout, row, column, row2, column2, distance)
                 && layout.weights[first] > 0.0 && layout.weights[second] > 0.0
  {
    hide Index, Times, Layout.Pairs, Layout.Distance, IsApart;
    var first, second := Index(row, column, layout.columns), Index(row2, column2, layout.columns);
    var p := Pair(first, second, distance);
    PairsAre(layout, layout.rows, p);
    IndicesInOrder(row, column, row2, column2, layout.columns);
    if p in layout.Pairs(layout.rows) {
      var r: nat, c: nat, direction: nat :| r < layout.rows && From(layout, p, r, c, direction);
      IndexIsUnique(r, c, row, column, layout.columns);
      IndexIsUnique(r + RowStep(direction), c + ColumnStep(direction), row2, column2, layout.columns);
      StepsAreAdjacent(layout, row, column, direction);
    }
    if Adjacent(row, column, row2, column2) && IsApart(layout, row, column, row2, column2, distance)
       && layout.weights[first] > 0.0 && layout.weights[second] > 0.0 {
      var direction: nat := if row == row2 then 0 else if column == column2 then 1
                            else if column < column2 then 2 else 3;
      assert row + RowStep(direction) == row2 && column + ColumnStep(direction) == column2;
      StepsAreAdjacent(layout, row, column, direction);
      SameDistance(layout, row, column, row2, column2, layout.Distance(direction), distance);
      assert From(layout, p, row, column, direction);
    }
  }

  lemma SameDistance(layout: Layout, row: nat, column: nat, row2: nat, column2: nat, a: real, b: real)
    requires IsApart(layout, row, column, row2, column2, a) && IsApart(layout, row, column, row2, column2, b)
    ensures a == b
  {
  }

  /** Different directions lead to different nodes. */
  lemma DirectionsDiffer(layout: Layout, p: Pair, row: nat, column: nat, d: nat, e: nat)
    requires layout.Valid() && From(layout, p, row, column, d) && From(layout, p, row, column, e)
    ensures d == e && p.first == Index(row, column, layout.columns)
  {
    hide Index, Times, Layout.Distance;
    IndexIsUnique(row + RowStep(d), column + ColumnStep(d), row + RowStep(e), column + ColumnStep(e), layout.columns);
  }

  lemma NodePairsGrow(layout: Layout, row: nat, column: nat, n: nat)
    requires layout.Valid() && row < layout.rows && column < layout.columns && 0 < n <= DIRECTIONS
    ensures var before, after := layout.NodePairs(row, column, n - 1), layout.NodePairs(row, column, n);
            || after == before
            || exists p: Pair :: From(layout, p, row, column, n - 1) && after == before + [p]
  {
    hide Index, Times, Layout.Distance;
    if layout.Joined(row, column, n - 1) {
      assert From(layout, layout.PairTowards(row, column, n - 1), row, column, n - 1);
    } else {
      assert layout.NodePairs(row, column, n - 1) + [] == layout.NodePairs(row, column, n - 1);
    }
  }

  lemma {:induction false} NodePairsOnce(layout: Layout, row: nat, column: nat, n: nat, p: Pair)
    requires layout.Valid() && row < layout.rows && column < layout.columns && n <= DIRECTIONS
    ensures multiset(layout.NodePairs(row, column, n))[p] <= 1
    ensures p in layout.NodePairs(row, column, n) ==> p.first == Index(row, column, layout.columns)
    decreases n
  {
    hide Index, Times, From, Layout.NodePairs, Layout.Joined, Layout.PairTowards;
    NodePairsAre(layout, row, column, n, p);
    if p in layout.NodePairs(row, column, n) {
      var d: nat :| d < n && From(layout, p, row, column, d);
      DirectionsDiffer(layout, p, row, column, d, d);
    }
    if n == 0 {
      NoNodePairs(layout, row, column);
    } else {
      NodePairsOnce(layout, row, column, n - 1, p);
      NodePairsAre(layout, row, column, n - 1, p);
      NodePairsGrow(layout, row, column, n);
      var before := layout.NodePairs(row, column, n - 1);
      if layout.NodePairs(row, column, n) != before {
        var q: Pair :| From(layout, q, row, column, n - 1) && layout.NodePairs(row, column, n) == before + [q];
        if p == q && p in before {
          var d: nat :| d < n - 1 && From(layout, p, row, column, d);
          DirectionsDiffer(layout, p, row, column, d, n - 1);
        }
        assert multiset(before + [q])[p] == multiset(before)[p] + if p == q then 1 else 0;
      }
    }
  }

  lemma NoNodePairs(layout: Layout, row: nat, column: nat)
    requires layout.Valid() && row < layout.rows && column < layout.columns
    ensures layout.NodePairs(row, column, 0) == []
  {
  }

  lemma {:induction false} RowPairsOnce(layout: Layout, row: nat, n: nat, p: Pair)
    requires layout.Valid() && row < layout.rows && n <= layout.columns
    ensures multiset(layout.RowPairs(row, n))[p] <= 1
    ensures p in layout.RowPairs(row, n) ==> exists column: nat :: column < n && IsFirst(p, row, column, layout.columns)
    decreases n
  {
    hide Index, Layout.NodePairs;
    if n > 0 {
      RowPairsOnce(layout, row, n - 1, p);
      NodePairsOnce(layout, row, n - 1, DIRECTIONS, p);
      if p in layout.NodePairs(row, n - 1, DIRECTIONS) {
        assert IsFirst(p, row, n - 1, layout.columns);
        if p in layout.RowPairs(row, n - 1) {
          var column: nat :| column < n - 1 && IsFirst(p, row, column, layout.columns);
          IndexIsUnique(row, column, row, n - 1, layout.columns);
        }
      }
    }
  }

  predicate IsFirst(p: Pair, row: nat, column: nat, columns: nat) {
    column < columns && p.first == Index(row, column, columns)
  }

  /** No pair is listed twice, and every pair is listed in the order of its indices, so none the other way round. */
  lemma {:induction false} PairsOnce(layout: Layout, n: nat, p: Pair)
    requires layout.Valid() && n <= layout.rows
    ensures multiset(layout.Pairs(n))[p] <= 1
    ensures p in layout.Pairs(n) ==> p.first < p.second
    decreases n
  {
    hide Index, Layout.RowPairs, Layout.NodePairs, Layout.Joined, Layout.PairTowards, From;
    if n > 0 {
      PairsOnce(layout, n - 1, p);
      RowPairsOnce(layout, n - 1, layout.columns, p);
      PairsAre(layout, n, p);
      if p in layout.Pairs(n) {
        var row: nat, column: nat, direction: nat :| row < n && From(layout, p, row, column, direction);
        FromInOrder(layout, p, row, column, direction);
      }
      if p in layout.RowPairs(n - 1, layout.columns) && p in layout.Pairs(n - 1) {
        PairsAre(layout, n - 1, p);
        var row: nat, column: nat, direction: nat :| row < n - 1 && From(layout, p, row, column, direction);
        FromInOrder(layout, p, row, column, direction);
        var column2: nat :| column2 < layout.columns && IsFirst(p, n - 1, column2, layout.columns);
        IndexIsUnique(row, column, n - 1, column2, layout.columns);
      }
    }
  }

  lemma FromInOrder(layout: Layout, p: Pair, row: nat, column: nat, direction: nat)
    requires layout.Valid() && From(layout, p, row, column, direction)
    ensures p.first < p.second && column < layout.columns && p.first == Index(row, column, layout.columns)
  {
    hide Index;
    IndicesInOrder(row, column, row + RowStep(direction), column + ColumnStep(direction), layout.columns);
  }
}

/** A grid made of normalised node weights and the pairs of adjacent nodes
    (services/simulation-server/src/scenario/grid.rs, Grid::new). */
module GridAssembly {
  import opened Sums
  import opened Surface
  import opened Neighbors
  import T = Triangulation

  function Firsts(pairs: seq<Pair>): (r: seq<nat>)
    ensures |r| == |pairs| && forall k | 0 <= k < |r| :: r[k] == pairs[k].first
  {
    seq(|pairs|, k requires 0 <= k < |pairs| => pairs[k].first)
  }

  function Seconds(pairs: seq<Pair>): (r: seq<nat>)
    ensures |r| == |pairs| && forall k | 0 <= k < |r| :: r[k] == pairs[k].second
  {
    seq(|pairs|, k requires 0 <= k < |pairs| => pairs[k].second)
  }

  function Distances(pairs: seq<Pair>): (r: seq<real>)
    ensures |r| == |pairs| && forall k | 0 <= k < |r| :: r[k] == pairs[k].distance
  {
    seq(|pairs|, k requires 0 <= k < |pairs| => pairs[k].distance)
  }

  /** The capacity is the boundary's area times the height between floor and top. */
  function Assemble(layout: Layout, area: real, floor: real, top: real): Grid
    requires layout.Valid()
  {
    var pairs := layout.Pairs(layout.rows);
    Grid(layout.weights, floor, top, Times(area, top - floor), Firsts(pairs), Seconds(pairs), Distances(pairs))
  }

  lemma {:induction false} UniformDepth(weights: seq<real>, depth: real, n: nat)
    requires n <= |weights|
    ensures Dot(weights, Constant(|weights|, depth), n) == Times(Dot(T.Ones(|weights|), weights, n), depth)
  {
    hide Times;
    if n == 0 {
      TimesZero(depth);
    } else {
      UniformDepth(weights, depth, n - 1);
      TimesCommutes(1.0, weights[n - 1]);
      TimesOne(weights[n - 1]);
      TimesCommutes(weights[n - 1], depth);
      TimesSum(depth, Dot(T.Ones(|weights|), weights, n - 1), weights[n - 1]);
      TimesCommutes(depth, Dot(T.Ones(|weights|), weights, n - 1));
      TimesCommutes(depth, Dot(T.Ones(|weights|), weights, n));
    }
  }

  /** Node weights that represent the boundary's area make a grid whose capacity is the volume of a surface at its top,
      and whose pairs are those that slopes relax over. */
  lemma AssembledGridIsValid(layout: Layout, area: real, floor: real, top: real)
    requires layout.Valid() && floor < top
    requires forall i | 0 <= i < |layout.weights| :: layout.weights[i] >= 0.0
    requires Dot(T.Ones(|layout.weights|), layout.weights, |layout.weights|) == area
    ensures Assemble(layout, area, floor, top).Valid()
  {
    hide Times, Layout.Pairs, Dot;
    var pairs := layout.Pairs(layout.rows);
    UniformDepth(layout.weights, top - floor, |layout.weights|);
    forall k | 0 <= k < |pairs|
      ensures pairs[k].first < |layout.weights| && pairs[k].second < |layout.weights|
              && pairs[k].first != pairs[k].second
           && layout.weights[pairs[k].first] > 0.0 && layout.weights[pairs[k].second] > 0.0 && pairs[k].distance > 0.0
    {
      PairsAreUsable(layout, pairs[k]);
    }
  }
}

/** One slope-relaxation pass: all over-steep pairs give and take at once
    (services/simulation-server/src/scenario/height_field.rs, relax_neighbor_pairs and transfer_scales). */
module SlopeRelaxation {
  import opened Sums
  import opened Surface
  import opened WaterFilling

  datatype Transfer = Transfer(source: nat, destination: nat, volume: real, excess: real) {
    function End(giving: bool): nat {
      if giving then source else destination
    }
  }

  // ---------------------------------------------------------------- transfers

  /** How far pair k stands above its stable height difference. */
  function Excess(grid: Grid, heights: seq<real>, slope: real, k: nat): real
    requires grid.Valid() && grid.Holds(heights) && k < |grid.first|
  {
    Abs(heights[grid.first[k]] - heights[grid.second[k]]) - Times(slope, grid.distance[k])
  }

  /** The volume that would level a pair to its stable difference. */
  function LevellingVolume(excess: real, a: real, b: real): (volume: real)
    requires excess > 0.0 && a > 0.0 && b > 0.0
    ensures volume > 0.0
  {
    var inverse := 1.0 / a + 1.0 / b;
    PositiveQuotient(excess, inverse);
    excess / inverse
  }

  lemma PositiveQuotient(a: real, b: real)
    requires a > 0.0 && b > 0.0
    ensures a / b > 0.0
  {
  }

  function PairTransfer(grid: Grid, heights: seq<real>, slope: real, k: nat): Transfer
    requires grid.Valid() && grid.Holds(heights) && k < |grid.first| && Excess(grid, heights, slope, k) > 0.0
  {
    var excess := Excess(grid, heights, slope, k);
    var (source, destination) :=
      if heights[grid.first[k]] - heights[grid.second[k]] > 0.0 then (grid.first[k], grid.second[k])
      else (grid.second[k], grid.first[k]);
    Transfer(source, destination, LevellingVolume(excess, grid.weights[source], grid.weights[destination]), excess)
  }

  /** One transfer, downhill, for each over-steep pair below n. */
  function Transfers(grid: Grid, heights: seq<real>, slope: real, n: nat): (ts: seq<Transfer>)
    requires grid.Valid() && grid.Holds(heights) && n <= |grid.first|
  {
    if n == 0 then []
    else
      var ts := Transfers(grid, heights, slope, n - 1);
      if Excess(grid, heights, slope, n - 1) > 0.0 then ts + [PairTransfer(grid, heights, slope, n - 1)] else ts
  }

  /** Two nodes form a pair of the grid. */
  ghost predicate Adjacent(grid: Grid, a: nat, b: nat) {
    && |grid.first| == |grid.second|
    && exists k | 0 <= k < |grid.first| ::
         (grid.first[k] == a && grid.second[k] == b) || (grid.first[k] == b && grid.second[k] == a)
  }

  /** A transfer joins adjacent nodes with area, and its destination stays below its source even after rising by the
      whole excess. */
  ghost predicate Downhill(grid: Grid, heights: seq<real>, t: Transfer) {
    && |heights| == |grid.weights| && t.source < |heights| && t.destination < |heights|
    && grid.weights[t.source] > 0.0 && grid.weights[t.destination] > 0.0
    && t.volume > 0.0 && t.excess > 0.0
    && heights[t.destination] + t.excess < heights[t.source]
    && Adjacent(grid, t.source, t.destination)
  }

  ghost predicate AllDownhill(grid: Grid, heights: seq<real>, ts: seq<Transfer>) {
    forall x | 0 <= x < |ts| :: Downhill(grid, heights, ts[x])
  }

  /** Volume leaving, or entering, a node in the first n transfers. */
  function Flow(ts: seq<Transfer>, node: nat, giving: bool, n: nat): real
    requires n <= |ts|
  {
    if n == 0 then 0.0
    else Flow(ts, node, giving, n - 1) + if ts[n - 1].End(giving) == node then ts[n - 1].volume else 0.0
  }

  function PeakExcess(ts: seq<Transfer>, node: nat, giving: bool, n: nat): real
    requires n <= |ts|
  {
    if n == 0 then 0.0
    else
      var peak := PeakExcess(ts, node, giving, n - 1);
      if ts[n - 1].End(giving) == node then Max(peak, ts[n - 1].excess) else peak
  }

  function TotalVolume(ts: seq<Transfer>, n: nat): real
    requires n <= |ts|
  {
    if n == 0 then 0.0 else TotalVolume(ts, n - 1) + ts[n - 1].volume
  }

  // ---------------------------------------------------------------- limiting

  /** The volume a node can give or take: no further than its limit, and no further than its steepest pair wants. */
  function Allowed(grid: Grid, heights: seq<real>, ts: seq<Transfer>, node: nat, giving: bool): real
    requires |heights| == |grid.weights| && node < |heights|
  {
    Min(Times(grid.Room(heights, !giving)[node], grid.weights[node]),
        Times(PeakExcess(ts, node, giving, |ts|), grid.weights[node]))
  }

  function Share(allowed: real, flow: real): real {
    if flow > 0.0 then Min(allowed / flow, 1.0) else 1.0
  }

  function NodeScale(grid: Grid, heights: seq<real>, ts: seq<Transfer>, node: nat, giving: bool): real
    requires |heights| == |grid.weights| && node < |heights|
  {
    Share(Allowed(grid, heights, ts, node, giving), Flow(ts, node, giving, |ts|))
  }

  /** A transfer scaled to what both of its ends allow. */
  function LimitedTransfer(grid: Grid, heights: seq<real>, ts: seq<Transfer>, x: nat): Transfer
    requires |heights| == |grid.weights| && x < |ts| && ts[x].source < |heights| && ts[x].destination < |heights|
  {
    ts[x].(volume := Times(ts[x].volume, Min(NodeScale(grid, heights, ts, ts[x].source, true),
                                             NodeScale(grid, heights, ts, ts[x].destination, false))))
  }

  function Limited(grid: Grid, heights: seq<real>, ts: seq<Transfer>): (limited: seq<Transfer>)
    requires |heights| == |grid.weights|
    requires forall x | 0 <= x < |ts| :: ts[x].source < |heights| && ts[x].destination < |heights|
    ensures |limited| == |ts|
    ensures forall x | 0 <= x < |ts| :: limited[x] == LimitedTransfer(grid, heights, ts, x)
  {
    seq(|ts|, x requires 0 <= x < |ts| => LimitedTransfer(grid, heights, ts, x))
  }

  // ---------------------------------------------------------------- one pass

  function RelaxedHeight(height: real, weight: real, change: real): real {
    if weight > 0.0 then height + change / weight else height
  }

  function NetFlow(ts: seq<Transfer>, node: nat): real {
    Flow(ts, node, false, |ts|) - Flow(ts, node, true, |ts|)
  }

  /** The limited transfers of one pass. */
  function PassTransfers(grid: Grid, heights: seq<real>, slope: real): (ts: seq<Transfer>)
    requires grid.Valid() && grid.Holds(heights) && slope > 0.0
  {
    var ts := Transfers(grid, heights, slope, |grid.first|);
    TransfersAreDownhill(grid, heights, slope, |grid.first|);
    Limited(grid, heights, ts)
  }

  /** The heights after one pass. */
  function Relaxed(grid: Grid, heights: seq<real>, slope: real): (after: seq<real>)
    requires grid.Valid() && grid.Holds(heights) && slope > 0.0
    ensures |after| == |heights|
    ensures var ts := PassTransfers(grid, heights, slope);
            forall i | 0 <= i < |after| :: after[i] == RelaxedHeight(heights[i], grid.weights[i], NetFlow(ts, i))
  {
    var ts := PassTransfers(grid, heights, slope);
    seq(|heights|, i requires 0 <= i < |heights| => RelaxedHeight(heights[i], grid.weights[i], NetFlow(ts, i)))
  }

  /** The volume one pass moves. */
  function MovedVolume(grid: Grid, heights: seq<real>, slope: real): real
    requires grid.Valid() && grid.Holds(heights) && slope > 0.0
  {
    var ts := PassTransfers(grid, heights, slope);
    TotalVolume(ts, |ts|)
  }

  // ---------------------------------------------------------------- proofs

  lemma PairIsDownhill(grid: Grid, heights: seq<real>, slope: real, k: nat)
    requires grid.Valid() && grid.Holds(heights) && slope > 0.0
    requires k < |grid.first| && Excess(grid, heights, slope, k) > 0.0
    ensures Downhill(grid, heights, PairTransfer(grid, heights, slope, k))
  {
    assert Times(slope, grid.distance[k]) > 0.0;
  }

  lemma {:induction false} TransfersAreDownhill(grid: Grid, heights: seq<real>, slope: real, n: nat)
    requires grid.Valid() && grid.Holds(heights) && n <= |grid.first| && slope > 0.0
    ensures AllDownhill(grid, heights, Transfers(grid, heights, slope, n))
  {
    hide Downhill;
    if n > 0 {
      TransfersAreDownhill(grid, heights, slope, n - 1);
      if Excess(grid, heights, slope, n - 1) > 0.0 {
        PairIsDownhill(grid, heights, slope, n - 1);
      }
    }
  }

  lemma ShareLimits(allowed: real, flow: real)
    requires allowed >= 0.0
    ensures 0.0 <= Share(allowed, flow) <= 1.0
    ensures flow >= 0.0 ==> Times(Share(allowed, flow), flow) <= allowed
    ensures allowed > 0.0 ==> Share(allowed, flow) > 0.0
  {
    if flow > 0.0 {
      assert Times(allowed / flow, flow) == allowed;
      if allowed > 0.0 {
        PositiveQuotient(allowed, flow);
      }
    }
  }

  lemma {:induction false} PeakNonNegative(ts: seq<Transfer>, node: nat, giving: bool, n: nat)
    requires n <= |ts|
    ensures PeakExcess(ts, node, giving, n) >= 0.0
    ensures forall x | 0 <= x < n :: ts[x].End(giving) == node ==> ts[x].excess <= PeakExcess(ts, node, giving, n)
  {
    if n > 0 {
      PeakNonNegative(ts, node, giving, n - 1);
    }
  }

  lemma AllowedNonNegative(grid: Grid, heights: seq<real>, ts: seq<Transfer>, node: nat, giving: bool)
    requires grid.Valid() && grid.Holds(heights) && node < |heights|
    ensures Allowed(grid, heights, ts, node, giving) >= 0.0
  {
    PeakNonNegative(ts, node, giving, |ts|);
    NonNegativeProduct(grid.Room(heights, !giving)[node], grid.weights[node]);
    NonNegativeProduct(PeakExcess(ts, node, giving, |ts|), grid.weights[node]);
  }

  lemma NonNegativeProduct(a: real, b: real)
    requires a >= 0.0 && b >= 0.0
    ensures Times(a, b) >= 0.0
    ensures a > 0.0 && b > 0.0 ==> Times(a, b) > 0.0
  {
  }

  lemma ScaledDown(volume: real, scale: real, limit: real)
    requires volume >= 0.0 && 0.0 <= scale <= limit
    ensures 0.0 <= Times(volume, scale) <= Times(limit, volume)
    ensures volume > 0.0 && scale > 0.0 ==> Times(volume, scale) > 0.0
  {
    TimesOrder(volume, scale, limit);
  }

  /** Limiting keeps both ends: what a node gives or takes shrinks at least by its own scale. */
  lemma {:induction false} LimitedFlow(grid: Grid, heights: seq<real>, ts: seq<Transfer>, node: nat, giving: bool,
                                       n: nat)
    requires grid.Valid() && grid.Holds(heights) && AllDownhill(grid, heights, ts) && node < |heights| && n <= |ts|
    ensures var limited := Limited(grid, heights, ts);
            0.0 <= Flow(limited, node, giving, n)
                <= Times(NodeScale(grid, heights, ts, node, giving), Flow(ts, node, giving, n))
  {
    hide Times, NodeScale, Allowed, Adjacent;
    var scale := NodeScale(grid, heights, ts, node, giving);
    if n == 0 {
      TimesZero(scale);
    } else {
      LimitedFlow(grid, heights, ts, node, giving, n - 1);
      var t := ts[n - 1];
      assert Downhill(grid, heights, t);
      ScaleInRange(grid, heights, ts, t.source, true);
      ScaleInRange(grid, heights, ts, t.destination, false);
      ScaleInRange(grid, heights, ts, node, giving);
      if t.End(giving) == node {
        ScaledDown(t.volume, Min(NodeScale(grid, heights, ts, t.source, true),
                                 NodeScale(grid, heights, ts, t.destination, false)), scale);
        TimesSum(scale, Flow(ts, node, giving, n - 1), t.volume);
      }
    }
  }

  lemma ScaleInRange(grid: Grid, heights: seq<real>, ts: seq<Transfer>, node: nat, giving: bool)
    requires grid.Valid() && grid.Holds(heights) && node < |heights|
    ensures 0.0 <= NodeScale(grid, heights, ts, node, giving) <= 1.0
  {
    hide Allowed, Share;
    AllowedNonNegative(grid, heights, ts, node, giving);
    ShareLimits(Allowed(grid, heights, ts, node, giving), Flow(ts, node, giving, |ts|));
  }

  lemma {:induction false} FlowNonNegative(grid: Grid, heights: seq<real>, ts: seq<Transfer>, node: nat, giving: bool,
                                           n: nat)
    requires AllDownhill(grid, heights, ts) && n <= |ts|
    ensures Flow(ts, node, giving, n) >= 0.0
  {
    if n > 0 {
      FlowNonNegative(grid, heights, ts, node, giving, n - 1);
      assert Downhill(grid, heights, ts[n - 1]);
    }
  }

  /** After limiting, no node gives or takes more than it is allowed. */
  lemma FlowIsAllowed(grid: Grid, heights: seq<real>, ts: seq<Transfer>, node: nat, giving: bool)
    requires grid.Valid() && grid.Holds(heights) && AllDownhill(grid, heights, ts) && node < |heights|
    ensures 0.0 <= Flow(Limited(grid, heights, ts), node, giving, |ts|) <= Allowed(grid, heights, ts, node, giving)
  {
    hide Times, Allowed, Share, Downhill;
    LimitedFlow(grid, heights, ts, node, giving, |ts|);
    AllowedNonNegative(grid, heights, ts, node, giving);
    FlowNonNegative(grid, heights, ts, node, giving, |ts|);
    ShareLimits(Allowed(grid, heights, ts, node, giving), Flow(ts, node, giving, |ts|));
  }

  lemma QuotientBound(weight: real, change: real, bound: real)
    requires weight > 0.0
    ensures change <= Times(bound, weight) ==> change / weight <= bound
    ensures change >= -Times(bound, weight) ==> change / weight >= -bound
    ensures Times(weight, change / weight) == change
  {
  }

  /** A node moves no further than its limits, and no further than its steepest transfers ask. */
  lemma NodeMoves(grid: Grid, heights: seq<real>, slope: real, i: nat)
    requires grid.Valid() && grid.Holds(heights) && slope > 0.0 && i < |heights|
    ensures var ts, after := Transfers(grid, heights, slope, |grid.first|), Relaxed(grid, heights, slope);
            && grid.floor <= after[i] <= grid.top
            && heights[i] - PeakExcess(ts, i, true, |ts|) <= after[i] <= heights[i] + PeakExcess(ts, i, false, |ts|)
  {
    hide Times, Flow, PeakExcess, Transfers, Downhill, Limited;
    var ts := Transfers(grid, heights, slope, |grid.first|);
    TransfersAreDownhill(grid, heights, slope, |grid.first|);
    FlowIsAllowed(grid, heights, ts, i, true);
    FlowIsAllowed(grid, heights, ts, i, false);
    PeakNonNegative(ts, i, true, |ts|);
    PeakNonNegative(ts, i, false, |ts|);
    var change := NetFlow(PassTransfers(grid, heights, slope), i);
    if grid.weights[i] > 0.0 {
      QuotientBound(grid.weights[i], change, grid.top - heights[i]);
      QuotientBound(grid.weights[i], change, heights[i] - grid.floor);
      QuotientBound(grid.weights[i], change, PeakExcess(ts, i, true, |ts|));
      QuotientBound(grid.weights[i], change, PeakExcess(ts, i, false, |ts|));
    }
  }

  /** The bounds [floor, top] survive a pass. */
  lemma RelaxedHolds(grid: Grid, heights: seq<real>, slope: real)
    requires grid.Valid() && grid.Holds(heights) && slope > 0.0
    ensures grid.Holds(Relaxed(grid, heights, slope))
  {
    forall i | 0 <= i < |heights| ensures grid.floor <= Relaxed(grid, heights, slope)[i] <= grid.top {
      NodeMoves(grid, heights, slope, i);
    }
  }

  /** The steepest transfer at a node leads to a partner beyond where it ends. */
  lemma {:induction false} PeakIsAttained(grid: Grid, heights: seq<real>, ts: seq<Transfer>, node: nat, giving: bool,
                                          n: nat)
    returns (partner: nat)
    requires AllDownhill(grid, heights, ts) && n <= |ts| && node < |heights|
    ensures PeakExcess(ts, node, giving, n) == 0.0
         || (partner < |heights| && Adjacent(grid, node, partner)
             && if giving then heights[partner] < heights[node] - PeakExcess(ts, node, giving, n)
                else heights[node] + PeakExcess(ts, node, giving, n) < heights[partner])
  {
    hide Adjacent;
    if n == 0 {
      partner := 0;
    } else {
      partner := PeakIsAttained(grid, heights, ts, node, giving, n - 1);
      assert Downhill(grid, heights, ts[n - 1]);
      if ts[n - 1].End(giving) == node && ts[n - 1].excess > PeakExcess(ts, node, giving, n - 1) {
        partner := ts[n - 1].End(!giving);
        AdjacentSymmetric(grid, ts[n - 1].source, ts[n - 1].destination);
      }
    }
  }

  lemma AdjacentSymmetric(grid: Grid, a: nat, b: nat)
    ensures Adjacent(grid, a, b) <==> Adjacent(grid, b, a)
  {
  }

  /** The maximum principle, node by node: a pass leaves every node between the lowest and the highest old height of
      itself and its partners. */
  lemma MaximumPrinciple(grid: Grid, heights: seq<real>, slope: real, i: nat, low: real, high: real)
    requires grid.Valid() && grid.Holds(heights) && slope > 0.0 && i < |heights|
    requires low <= heights[i] <= high
    requires forall j: nat | j < |heights| && Adjacent(grid, i, j) :: low <= heights[j] <= high
    ensures low <= Relaxed(grid, heights, slope)[i] <= high
  {
    hide Adjacent, PeakExcess, Transfers, Downhill, Relaxed;
    var ts := Transfers(grid, heights, slope, |grid.first|);
    TransfersAreDownhill(grid, heights, slope, |grid.first|);
    NodeMoves(grid, heights, slope, i);
    var lower := PeakIsAttained(grid, heights, ts, i, true, |ts|);
    var upper := PeakIsAttained(grid, heights, ts, i, false, |ts|);
  }

  // ---------------------------------------------------------------- conservation

  /** The flows over the first m nodes. */
  function NodeFlows(ts: seq<Transfer>, giving: bool, n: nat, m: nat): real
    requires n <= |ts|
  {
    if m == 0 then 0.0 else NodeFlows(ts, giving, n, m - 1) + Flow(ts, m - 1, giving, n)
  }

  lemma {:induction false} NoFlows(ts: seq<Transfer>, giving: bool, m: nat)
    ensures NodeFlows(ts, giving, 0, m) == 0.0
  {
    if m > 0 {
      NoFlows(ts, giving, m - 1);
    }
  }

  lemma {:induction false} OneMoreTransfer(ts: seq<Transfer>, giving: bool, n: nat, m: nat)
    requires 0 < n <= |ts|
    ensures NodeFlows(ts, giving, n, m)
         == NodeFlows(ts, giving, n - 1, m) + if ts[n - 1].End(giving) < m then ts[n - 1].volume else 0.0
  {
    if m > 0 {
      OneMoreTransfer(ts, giving, n, m - 1);
    }
  }

  lemma {:induction false} FlowsAddUp(ts: seq<Transfer>, giving: bool, n: nat, m: nat)
    requires n <= |ts|
    requires forall x | 0 <= x < |ts| :: ts[x].End(giving) < m
    ensures NodeFlows(ts, giving, n, m) == TotalVolume(ts, n)
  {
    if n == 0 {
      NoFlows(ts, giving, m);
    } else {
      FlowsAddUp(ts, giving, n - 1, m);
      OneMoreTransfer(ts, giving, n, m);
    }
  }

  lemma {:induction false} NoFlowWithoutArea(grid: Grid, heights: seq<real>, ts: seq<Transfer>,
                                             limited: seq<Transfer>, node: nat, giving: bool, n: nat)
    requires AllDownhill(grid, heights, ts) && |limited| == |ts| && n <= |ts|
    requires forall x | 0 <= x < |ts| :: limited[x].End(giving) == ts[x].End(giving)
    requires node < |grid.weights| && grid.weights[node] == 0.0
    ensures Flow(limited, node, giving, n) == 0.0
  {
    if n > 0 {
      NoFlowWithoutArea(grid, heights, ts, limited, node, giving, n - 1);
      assert Downhill(grid, heights, ts[n - 1]);
    }
  }

  /** One node's volume changes by what flows in minus what flows out. */
  lemma NodeVolume(grid: Grid, heights: seq<real>, slope: real, i: nat)
    requires grid.Valid() && grid.Holds(heights) && slope > 0.0 && i < |heights|
    ensures var after, ts := Relaxed(grid, heights, slope), PassTransfers(grid, heights, slope);
            Times(grid.weights[i], grid.Room(after, false)[i])
            == Times(grid.weights[i], grid.Room(heights, false)[i]) + Flow(ts, i, false, |ts|) - Flow(ts, i, true, |ts|)
  {
    hide Times, Flow, Transfers, Downhill, NodeScale;
    var all := Transfers(grid, heights, slope, |grid.first|);
    var ts := PassTransfers(grid, heights, slope);
    TransfersAreDownhill(grid, heights, slope, |grid.first|);
    if grid.weights[i] > 0.0 {
      QuotientBound(grid.weights[i], NetFlow(ts, i), 0.0);
      TimesSum(grid.weights[i], grid.Room(heights, false)[i], NetFlow(ts, i) / grid.weights[i]);
    } else {
      NoFlowWithoutArea(grid, heights, all, ts, i, false, |ts|);
      NoFlowWithoutArea(grid, heights, all, ts, i, true, |ts|);
    }
  }

  lemma {:induction false} VolumeAndFlows(grid: Grid, heights: seq<real>, slope: real, n: nat)
    requires grid.Valid() && grid.Holds(heights) && slope > 0.0 && n <= |heights|
    ensures var after, ts := Relaxed(grid, heights, slope), PassTransfers(grid, heights, slope);
            Dot(grid.weights, grid.Room(after, false), n)
            == Dot(grid.weights, grid.Room(heights, false), n)
               + NodeFlows(ts, false, |ts|, n) - NodeFlows(ts, true, |ts|, n)
  {
    hide Times, Flow, PassTransfers, Relaxed;
    if n > 0 {
      VolumeAndFlows(grid, heights, slope, n - 1);
      NodeVolume(grid, heights, slope, n - 1);
    }
  }

  /** A pass keeps the weighted volume exactly. */
  lemma RelaxedKeepsVolume(grid: Grid, heights: seq<real>, slope: real)
    requires grid.Valid() && grid.Holds(heights) && slope > 0.0
    ensures grid.Volume(Relaxed(grid, heights, slope)) == grid.Volume(heights)
  {
    hide Times, Flow, Relaxed, NodeFlows, Transfers, TotalVolume;
    var ts := PassTransfers(grid, heights, slope);
    TransfersAreDownhill(grid, heights, slope, |grid.first|);
    VolumeAndFlows(grid, heights, slope, |heights|);
    FlowsAddUp(ts, true, |ts|, |heights|);
    FlowsAddUp(ts, false, |ts|, |heights|);
  }

  // ---------------------------------------------------------------- progress

  lemma LimitedStillMoves(grid: Grid, heights: seq<real>, ts: seq<Transfer>, x: nat)
    requires grid.Valid() && grid.Holds(heights) && AllDownhill(grid, heights, ts) && x < |ts|
    ensures Limited(grid, heights, ts)[x].volume > 0.0
  {
    hide Times, PeakExcess, Share, Adjacent;
    var t := ts[x];
    assert Downhill(grid, heights, t);
    forall giving: bool ensures NodeScale(grid, heights, ts, t.End(giving), giving) > 0.0 {
      var node := t.End(giving);
      PeakNonNegative(ts, node, giving, |ts|);
      NonNegativeProduct(grid.Room(heights, !giving)[node], grid.weights[node]);
      NonNegativeProduct(PeakExcess(ts, node, giving, |ts|), grid.weights[node]);
      ShareLimits(Allowed(grid, heights, ts, node, giving), Flow(ts, node, giving, |ts|));
    }
    assert t.End(true) == t.source && t.End(false) == t.destination;
    var scale := Min(NodeScale(grid, heights, ts, t.source, true), NodeScale(grid, heights, ts, t.destination, false));
    ScaledDown(t.volume, scale, scale);
  }

  lemma {:induction false} TotalIsPositive(ts: seq<Transfer>, n: nat)
    requires n <= |ts| && forall x | 0 <= x < |ts| :: ts[x].volume > 0.0
    ensures TotalVolume(ts, n) >= 0.0 && (n > 0 ==> TotalVolume(ts, n) > 0.0)
  {
    if n > 0 {
      TotalIsPositive(ts, n - 1);
    }
  }

  lemma {:induction false} NoTransfersMeansStable(grid: Grid, heights: seq<real>, slope: real, n: nat)
    requires grid.Valid() && grid.Holds(heights) && n <= |grid.first|
    ensures Transfers(grid, heights, slope, n) == []
       <==> forall k | 0 <= k < n :: Excess(grid, heights, slope, k) <= 0.0
  {
    hide Excess;
    if n > 0 {
      NoTransfersMeansStable(grid, heights, slope, n - 1);
    }
  }

  /** A pass moves nothing exactly when no pair is too steep; otherwise it moves a positive volume. */
  lemma MovesUntilStable(grid: Grid, heights: seq<real>, slope: real)
    requires grid.Valid() && grid.Holds(heights) && slope > 0.0
    ensures MovedVolume(grid, heights, slope) >= 0.0
    ensures MovedVolume(grid, heights, slope) == 0.0
       <==> forall k | 0 <= k < |grid.first| :: Excess(grid, heights, slope, k) <= 0.0
  {
    hide Excess, Transfers, Limited, Downhill;
    var ts := Transfers(grid, heights, slope, |grid.first|);
    TransfersAreDownhill(grid, heights, slope, |grid.first|);
    var limited := PassTransfers(grid, heights, slope);
    forall x | 0 <= x < |limited| ensures limited[x].volume > 0.0 {
      LimitedStillMoves(grid, heights, ts, x);
    }
    TotalIsPositive(limited, |limited|);
    NoTransfersMeansStable(grid, heights, slope, |grid.first|);
  }

  // ---------------------------------------------------------------- many passes

  /** The surface after the passes, how many ran, and the volume they moved. */
  datatype Settled = Settled(heights: seq<real>, iterations: nat, moved: real)

  /** One pass, within the limits again. */
  function Pass(grid: Grid, heights: seq<real>, slope: real): (after: seq<real>)
    requires grid.Valid() && grid.Holds(heights) && slope > 0.0
    ensures after == Relaxed(grid, heights, slope) && grid.Holds(after)
  {
    RelaxedHolds(grid, heights, slope);
    Relaxed(grid, heights, slope)
  }

  /** Passes until one moves no more than the tolerance, or the budget is spent. */
  function Settle(grid: Grid, heights: seq<real>, slope: real, budget: nat): (r: Settled)
    requires grid.Valid() && grid.Holds(heights) && slope > 0.0 && budget > 0
    ensures |r.heights| == |heights|
    decreases budget
  {
    hide Pass, MovedVolume, Relaxed, Grid.Tolerance;
    var after, moved := Pass(grid, heights, slope), MovedVolume(grid, heights, slope);
    if budget == 1 || moved <= grid.Tolerance() then Settled(after, 1, moved)
    else
      var rest := Settle(grid, after, slope, budget - 1);
      Settled(rest.heights, rest.iterations + 1, moved + rest.moved)
  }

  /** Every node that has a partner has a height in this range. */
  ghost predicate PairedWithin(grid: Grid, heights: seq<real>, low: real, high: real)
    requires |heights| == |grid.weights|
  {
    forall i: nat, j: nat | i < |heights| && Adjacent(grid, i, j) :: low <= heights[i] <= high
  }

  lemma PassKeepsRange(grid: Grid, heights: seq<real>, slope: real, low: real, high: real)
    requires grid.Valid() && grid.Holds(heights) && slope > 0.0 && PairedWithin(grid, heights, low, high)
    ensures PairedWithin(grid, Relaxed(grid, heights, slope), low, high)
  {
    hide Adjacent, Relaxed;
    forall i: nat, j: nat | i < |heights| && Adjacent(grid, i, j)
      ensures low <= Relaxed(grid, heights, slope)[i] <= high
    {
      forall other: nat | other < |heights| && Adjacent(grid, i, other) ensures low <= heights[other] <= high {
        AdjacentSymmetric(grid, i, other);
      }
      MaximumPrinciple(grid, heights, slope, i, low, high);
    }
  }

  /** Over any number of passes the volume is kept exactly, every height stays within its limits, and no paired node
      ends below the lowest or above the highest paired height there was. */
  lemma {:induction false} SettleIsSafe(grid: Grid, heights: seq<real>, slope: real, budget: nat, low: real, high: real)
    requires grid.Valid() && grid.Holds(heights) && slope > 0.0 && budget > 0
    requires PairedWithin(grid, heights, low, high)
    ensures var r := Settle(grid, heights, slope, budget);
            && grid.Holds(r.heights)
            && grid.Volume(r.heights) == grid.Volume(heights)
            && PairedWithin(grid, r.heights, low, high)
            && 1 <= r.iterations <= budget
            && r.moved >= 0.0
    decreases budget
  {
    hide PairedWithin, Relaxed, MovedVolume, Grid.Volume, Grid.Tolerance, Grid.Valid, Grid.Holds;
    var after := Relaxed(grid, heights, slope);
    RelaxedHolds(grid, heights, slope);
    RelaxedKeepsVolume(grid, heights, slope);
    PassKeepsRange(grid, heights, slope, low, high);
    MovesUntilStable(grid, heights, slope);
    if budget > 1 && MovedVolume(grid, heights, slope) > grid.Tolerance() {
      SettleIsSafe(grid, after, slope, budget - 1, low, high);
    }
  }

  /** The worst excess over all pairs, at least 0. */
  function SteepestExcess(grid: Grid, heights: seq<real>, slope: real, n: nat): real
    requires grid.Valid() && grid.Holds(heights) && n <= |grid.first|
  {
    if n == 0 then 0.0 else Max(SteepestExcess(grid, heights, slope, n - 1), Excess(grid, heights, slope, n - 1))
  }

  /** A stable surface is left alone by a single pass that moves nothing, and reports no remaining excess. */
  lemma StableSurfaceRests(grid: Grid, heights: seq<real>, slope: real, budget: nat)
    requires grid.Valid() && grid.Holds(heights) && slope > 0.0 && budget > 0
    requires forall k | 0 <= k < |grid.first| :: Excess(grid, heights, slope, k) <= 0.0
    ensures Settle(grid, heights, slope, budget) == Settled(heights, 1, 0.0)
    ensures SteepestExcess(grid, heights, slope, |grid.first|) == 0.0
  {
    hide Excess;
    NoTransfersMeansStable(grid, heights, slope, |grid.first|);
    assert PassTransfers(grid, heights, slope) == [];
    MovesUntilStable(grid, heights, slope);
    TolerancePositive(grid);
    forall i | 0 <= i < |heights| ensures Relaxed(grid, heights, slope)[i] == heights[i] {
      ZeroChange(heights[i], grid.weights[i]);
    }
    assert Relaxed(grid, heights, slope) == heights;
    NoExcess(grid, heights, slope, |grid.first|);
  }

  lemma TolerancePositive(grid: Grid)
    ensures grid.Tolerance() >= VOLUME_TOLERANCE > 0.0
  {
  }

  lemma ZeroChange(height: real, weight: real)
    ensures RelaxedHeight(height, weight, 0.0) == height
  {
  }

  lemma {:induction false} NoExcess(grid: Grid, heights: seq<real>, slope: real, n: nat)
    requires grid.Valid() && grid.Holds(heights) && n <= |grid.first|
    requires forall k | 0 <= k < |grid.first| :: Excess(grid, heights, slope, k) <= 0.0
    ensures SteepestExcess(grid, heights, slope, n) == 0.0
  {
    hide Excess;
    if n > 0 {
      NoExcess(grid, heights, slope, n - 1);
    }
  }
}

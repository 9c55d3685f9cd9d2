/** What one relaxation pass does to every pair and every node, stated pair by pair
    (services/simulation-server/src/scenario/height_field.rs, relax_neighbor_pairs and transfer_scales). */
module RelaxationPass {
  import opened Sums
  import opened Surface
  import opened SlopeRelaxation

  // ---------------------------------------------------------------- pairs

  function Higher(grid: Grid, heights: seq<real>, k: nat): (node: nat)
    requires grid.Valid() && grid.Holds(heights) && k < |grid.first|
    ensures node < |heights|
  {
    if heights[grid.first[k]] > heights[grid.second[k]] then grid.first[k] else grid.second[k]
  }

  function Lower(grid: Grid, heights: seq<real>, k: nat): (node: nat)
    requires grid.Valid() && grid.Holds(heights) && k < |grid.first|
    ensures node < |heights|
  {
    if heights[grid.first[k]] > heights[grid.second[k]] then grid.second[k] else grid.first[k]
  }

  function EndOf(grid: Grid, heights: seq<real>, k: nat, giving: bool): (node: nat)
    requires grid.Valid() && grid.Holds(heights) && k < |grid.first|
    ensures node < |heights|
  {
    if giving then Higher(grid, heights, k) else Lower(grid, heights, k)
  }

  /** By how much a pair is too steep. */
  function TooSteep(grid: Grid, heights: seq<real>, slope: real, k: nat): real
    requires grid.Valid() && grid.Holds(heights) && k < |grid.first|
  {
    heights[Higher(grid, heights, k)] - heights[Lower(grid, heights, k)] - Times(slope, grid.distance[k])
  }

  /** The volumes that the first n pairs take from a node, or give to it. */
  function PairSum(grid: Grid, heights: seq<real>, volumes: seq<real>, node: nat, giving: bool, n: nat): real
    requires grid.Valid() && grid.Holds(heights) && n <= |grid.first| == |volumes|
    decreases n
  {
    if n == 0 then 0.0
    else
      PairSum(grid, heights, volumes, node, giving, n - 1)
      + if EndOf(grid, heights, n - 1, giving) == node then volumes[n - 1] else 0.0
  }

  function Sum(volumes: seq<real>, n: nat): real
    requires n <= |volumes|
    decreases n
  {
    if n == 0 then 0.0 else Sum(volumes, n - 1) + volumes[n - 1]
  }

  /** The steepest of a node's pairs in one direction; 0 without any. */
  function Steepest(grid: Grid, heights: seq<real>, slope: real, node: nat, giving: bool, n: nat): real
    requires grid.Valid() && grid.Holds(heights) && n <= |grid.first|
    decreases n
  {
    if n == 0 then 0.0
    else
      var before := Steepest(grid, heights, slope, node, giving, n - 1);
      if EndOf(grid, heights, n - 1, giving) == node then Max(before, TooSteep(grid, heights, slope, n - 1)) else before
  }

  // ---------------------------------------------------------------- a pass, as a relation

  /** The volume each pair wants to move: what falls on one side and rises on the other closes the excess. */
  ghost predicate Wanted(grid: Grid, heights: seq<real>, slope: real, want: seq<real>)
    requires grid.Valid() && grid.Holds(heights)
  {
    && |want| == |grid.first|
    && forall k | 0 <= k < |want| ::
         if TooSteep(grid, heights, slope, k) <= 0.0 then want[k] == 0.0
         else want[k] / grid.weights[grid.first[k]] + want[k] / grid.weights[grid.second[k]]
              == TooSteep(grid, heights, slope, k)
  }

  /** The scale of a node on one side: all it is asked for, or as much as its height limit and its steepest pair
      allow. */
  ghost predicate ScaleIs(grid: Grid, heights: seq<real>, slope: real, want: seq<real>, giving: bool, i: nat,
                          scale: real)
    requires grid.Valid() && grid.Holds(heights) && |want| == |grid.first| && i < |heights|
  {
    var asked, weight := PairSum(grid, heights, want, i, giving, |want|), grid.weights[i];
    var room := if giving then heights[i] - grid.floor else grid.top - heights[i];
    && 0.0 <= scale <= 1.0 && (asked == 0.0 ==> scale == 1.0)
    && Times(scale, asked)
       == Min(asked, Min(Times(room, weight), Times(Steepest(grid, heights, slope, i, giving, |want|), weight)))
  }

  ghost predicate Scales(grid: Grid, heights: seq<real>, slope: real, want: seq<real>, giving: bool, scales: seq<real>)
    requires grid.Valid() && grid.Holds(heights) && |want| == |grid.first|
  {
    && |scales| == |heights|
    && forall i | 0 <= i < |heights| :: ScaleIs(grid, heights, slope, want, giving, i, scales[i])
  }

  /** Each pair moves what both of its nodes let pass. */
  ghost predicate Moved(grid: Grid, heights: seq<real>, want: seq<real>, give: seq<real>, take: seq<real>,
                        moved: seq<real>)
    requires grid.Valid() && grid.Holds(heights) && |want| == |grid.first| && |give| == |take| == |heights|
  {
    && |moved| == |want|
    && forall k | 0 <= k < |want| ::
         moved[k] == Times(want[k], Min(give[Higher(grid, heights, k)], take[Lower(grid, heights, k)]))
  }

  /** Each node's height changes by what it is given less what is taken from it, over its area. */
  ghost predicate Lands(grid: Grid, heights: seq<real>, moved: seq<real>, after: seq<real>)
    requires grid.Valid() && grid.Holds(heights) && |moved| == |grid.first|
  {
    && |after| == |heights|
    && forall i | 0 <= i < |heights| ::
         if grid.weights[i] > 0.0 then
           Times(grid.weights[i], after[i] - heights[i])
           == PairSum(grid, heights, moved, i, false, |moved|) - PairSum(grid, heights, moved, i, true, |moved|)
         else after[i] == heights[i]
  }

  datatype Flows = Flows(want: seq<real>, give: seq<real>, take: seq<real>, moved: seq<real>)

  // ---------------------------------------------------------------- the transfers are the steep pairs

  /** The volume that levels a pair. */
  lemma LevelsPair(excess: real, a: real, b: real)
    requires excess > 0.0 && a > 0.0 && b > 0.0
    ensures LevellingVolume(excess, a, b) / a + LevellingVolume(excess, a, b) / b == excess
    ensures LevellingVolume(excess, a, b) == LevellingVolume(excess, b, a)
  {
    var v, inverse := LevellingVolume(excess, a, b), 1.0 / a + 1.0 / b;
    QuotientTimes(excess, inverse);
    assert v / a == v * (1.0 / a) && v / b == v * (1.0 / b);
    assert v * (1.0 / a) + v * (1.0 / b) == v * inverse;
  }

  function WantedBy(grid: Grid, heights: seq<real>, slope: real, k: nat): real
    requires grid.Valid() && grid.Holds(heights) && k < |grid.first|
  {
    if Excess(grid, heights, slope, k) > 0.0 then PairTransfer(grid, heights, slope, k).volume else 0.0
  }

  lemma PairIs(grid: Grid, heights: seq<real>, slope: real, k: nat)
    requires grid.Valid() && grid.Holds(heights) && k < |grid.first| && slope > 0.0
    ensures TooSteep(grid, heights, slope, k) == Excess(grid, heights, slope, k)
    ensures WantedBy(grid, heights, slope, k) >= 0.0
    ensures Excess(grid, heights, slope, k) > 0.0 ==>
              var t := PairTransfer(grid, heights, slope, k);
              && t.source == Higher(grid, heights, k) && t.destination == Lower(grid, heights, k)
              && t.excess == TooSteep(grid, heights, slope, k)
              && t.volume / grid.weights[grid.first[k]] + t.volume / grid.weights[grid.second[k]] == t.excess
  {
    hide LevellingVolume;
    SlopeIsPositive(slope, grid.distance[k]);
    var excess := Excess(grid, heights, slope, k);
    if excess > 0.0 {
      LevelsPair(excess, grid.weights[grid.first[k]], grid.weights[grid.second[k]]);
      LevelsPair(excess, grid.weights[grid.second[k]], grid.weights[grid.first[k]]);
    }
  }

  lemma SlopeIsPositive(slope: real, distance: real)
    requires slope > 0.0 && distance > 0.0
    ensures Times(slope, distance) > 0.0
  {
  }

  lemma {:induction false} FlowOfPrefix(ts: seq<Transfer>, more: seq<Transfer>, node: nat, giving: bool, n: nat)
    requires n <= |ts|
    ensures Flow(ts + more, node, giving, n) == Flow(ts, node, giving, n)
    ensures PeakExcess(ts + more, node, giving, n) == PeakExcess(ts, node, giving, n)
    decreases n
  {
    if n > 0 {
      FlowOfPrefix(ts, more, node, giving, n - 1);
    }
  }

  lemma OneMoreFlow(ts: seq<Transfer>, t: Transfer, node: nat, giving: bool)
    ensures var all := ts + [t];
            && Flow(all, node, giving, |all|)
               == Flow(ts, node, giving, |ts|) + (if t.End(giving) == node then t.volume else 0.0)
            && PeakExcess(all, node, giving, |all|)
               == (if t.End(giving) == node then Max(PeakExcess(ts, node, giving, |ts|), t.excess)
                   else PeakExcess(ts, node, giving, |ts|))
  {
    FlowOfPrefix(ts, [t], node, giving, |ts|);
  }

  lemma {:induction false} SteepestNotNegative(grid: Grid, heights: seq<real>, slope: real, node: nat, giving: bool,
                                               n: nat)
    requires grid.Valid() && grid.Holds(heights) && n <= |grid.first|
    ensures Steepest(grid, heights, slope, node, giving, n) >= 0.0
    decreases n
  {
    hide TooSteep, EndOf;
    if n > 0 {
      SteepestNotNegative(grid, heights, slope, node, giving, n - 1);
    }
  }

  lemma {:induction false} FlowsOfPairs(grid: Grid, heights: seq<real>, slope: real, want: seq<real>, node: nat,
                                        giving: bool, n: nat)
    requires grid.Valid() && grid.Holds(heights) && slope > 0.0 && n <= |grid.first| == |want|
    requires forall k | 0 <= k < |want| :: want[k] == WantedBy(grid, heights, slope, k)
    ensures var ts := Transfers(grid, heights, slope, n);
            && Flow(ts, node, giving, |ts|) == PairSum(grid, heights, want, node, giving, n)
            && PeakExcess(ts, node, giving, |ts|) == Steepest(grid, heights, slope, node, giving, n)
    decreases n
  {
    hide Flow, PeakExcess, PairTransfer, Excess, TooSteep, Higher, Lower;
    if n == 0 {
      NoFlow([], node, giving);
    } else {
      var before := Transfers(grid, heights, slope, n - 1);
      FlowsOfPairs(grid, heights, slope, want, node, giving, n - 1);
      PairIs(grid, heights, slope, n - 1);
      SteepestNotNegative(grid, heights, slope, node, giving, n - 1);
      if Excess(grid, heights, slope, n - 1) > 0.0 {
        OneMoreFlow(before, PairTransfer(grid, heights, slope, n - 1), node, giving);
      }
    }
  }

  lemma NoFlow(ts: seq<Transfer>, node: nat, giving: bool)
    requires ts == []
    ensures Flow(ts, node, giving, 0) == 0.0 == PeakExcess(ts, node, giving, 0)
  {
  }

  // ---------------------------------------------------------------- the limited transfers

  lemma {:induction false} TransfersBegin(grid: Grid, heights: seq<real>, slope: real, n: nat, m: nat)
    requires grid.Valid() && grid.Holds(heights) && n <= m <= |grid.first|
    ensures var some, all := Transfers(grid, heights, slope, n), Transfers(grid, heights, slope, m);
            |some| <= |all| && some == all[..|some|]
    decreases m
  {
    hide Excess, PairTransfer;
    if n < m {
      TransfersBegin(grid, heights, slope, n, m - 1);
      var some, most := Transfers(grid, heights, slope, n), Transfers(grid, heights, slope, m - 1);
      var all := Transfers(grid, heights, slope, m);
      assert most == all[..|most|];
      assert all[..|some|] == most[..|some|];
    }
  }

  function MovedBy(grid: Grid, heights: seq<real>, slope: real, ts: seq<Transfer>, k: nat): real
    requires grid.Valid() && grid.Holds(heights) && k < |grid.first|
  {
    Times(WantedBy(grid, heights, slope, k),
          Min(NodeScale(grid, heights, ts, Higher(grid, heights, k), true),
              NodeScale(grid, heights, ts, Lower(grid, heights, k), false)))
  }

  lemma {:induction false} LimitedFlows(grid: Grid, heights: seq<real>, slope: real, moved: seq<real>, node: nat,
                                        giving: bool, n: nat)
    requires grid.Valid() && grid.Holds(heights) && slope > 0.0 && n <= |grid.first| == |moved|
    requires var all := Transfers(grid, heights, slope, |grid.first|);
             forall k | 0 <= k < |moved| :: moved[k] == MovedBy(grid, heights, slope, all, k)
    ensures var some, limited := Transfers(grid, heights, slope, n), PassTransfers(grid, heights, slope);
            && |some| <= |limited|
            && Flow(limited, node, giving, |some|) == PairSum(grid, heights, moved, node, giving, n)
            && TotalVolume(limited, |some|) == Sum(moved, n)
    decreases n
  {
    hide NodeScale, PairTransfer, Excess, Transfers, Higher, Lower, Times, Downhill;
    var all, limited := Transfers(grid, heights, slope, |grid.first|), PassTransfers(grid, heights, slope);
    var some := Transfers(grid, heights, slope, n);
    TransfersBegin(grid, heights, slope, n, |grid.first|);
    TransfersUnfold(grid, heights, slope, n);
    if n > 0 {
      var before := Transfers(grid, heights, slope, n - 1);
      LimitedFlows(grid, heights, slope, moved, node, giving, n - 1);
      PairIs(grid, heights, slope, n - 1);
      if Excess(grid, heights, slope, n - 1) > 0.0 {
        var t := PairTransfer(grid, heights, slope, n - 1);
        TransfersAreDownhill(grid, heights, slope, |grid.first|);
        assert some[|before|] == t && all[|before|] == t;
        assert limited[|before|] == LimitedTransfer(grid, heights, all, |before|);
      } else {
        TimesZero(Min(NodeScale(grid, heights, all, Higher(grid, heights, n - 1), true),
                      NodeScale(grid, heights, all, Lower(grid, heights, n - 1), false)));
      }
    }
  }

  lemma TransfersUnfold(grid: Grid, heights: seq<real>, slope: real, n: nat)
    requires grid.Valid() && grid.Holds(heights) && n <= |grid.first|
    ensures Transfers(grid, heights, slope, n)
         == if n == 0 then []
            else if Excess(grid, heights, slope, n - 1) > 0.0 then
              Transfers(grid, heights, slope, n - 1) + [PairTransfer(grid, heights, slope, n - 1)]
            else Transfers(grid, heights, slope, n - 1)
  {
    hide Excess, PairTransfer;
  }

  lemma ShareMeans(allowed: real, flow: real)
    requires allowed >= 0.0 && flow >= 0.0
    ensures Times(Share(allowed, flow), flow) == Min(flow, allowed)
    ensures flow == 0.0 ==> Share(allowed, flow) == 1.0
  {
    if flow > 0.0 {
      QuotientTimes(allowed, flow);
      QuotientRange(allowed - flow, flow);
      QuotientLess(allowed, flow);
    }
  }

  lemma QuotientLess(a: real, b: real)
    requires b > 0.0
    ensures a <= b <==> a / b <= 1.0
  {
  }

  lemma ScaleMeans(grid: Grid, heights: seq<real>, slope: real, want: seq<real>, giving: bool, i: nat)
    requires grid.Valid() && grid.Holds(heights) && slope > 0.0 && |want| == |grid.first| && i < |heights|
    requires forall k | 0 <= k < |want| :: want[k] == WantedBy(grid, heights, slope, k)
    ensures ScaleIs(grid, heights, slope, want, giving, i,
                    NodeScale(grid, heights, Transfers(grid, heights, slope, |grid.first|), i, giving))
  {
    hide Flow, PeakExcess, Transfers, Times, PairSum, Steepest, WantedBy, Share;
    var ts := Transfers(grid, heights, slope, |grid.first|);
    FlowsOfPairs(grid, heights, slope, want, i, giving, |grid.first|);
    TransfersAreDownhill(grid, heights, slope, |grid.first|);
    FlowNonNegative(grid, heights, ts, i, giving, |ts|);
    AllowedNonNegative(grid, heights, ts, i, giving);
    ScaleInRange(grid, heights, ts, i, giving);
    ShareMeans(Allowed(grid, heights, ts, i, giving), Flow(ts, i, giving, |ts|));
  }

  // ---------------------------------------------------------------- the pass

  /** One pass, pair by pair and node by node: each steep pair wants the volume that closes its excess, each node scales
      down what is asked of it, each pair moves what both ends let pass, and all heights change at once. */
  lemma PassIsSimultaneous(grid: Grid, heights: seq<real>, slope: real) returns (f: Flows)
    requires grid.Valid() && grid.Holds(heights) && slope > 0.0
    ensures Wanted(grid, heights, slope, f.want)
    ensures Scales(grid, heights, slope, f.want, true, f.give) && Scales(grid, heights, slope, f.want, false, f.take)
    ensures Moved(grid, heights, f.want, f.give, f.take, f.moved)
    ensures Lands(grid, heights, f.moved, Relaxed(grid, heights, slope))
    ensures MovedVolume(grid, heights, slope) == Sum(f.moved, |f.moved|)
  {
    hide Transfers, Flow, PairSum, Steepest, Times, NodeScale, Excess, PairTransfer, TooSteep, Sum, TotalVolume,
         PassTransfers, ScaleIs;
    var n, ts := |grid.first|, Transfers(grid, heights, slope, |grid.first|);
    var want := seq(n, k requires 0 <= k < n => WantedBy(grid, heights, slope, k));
    var give := seq(|heights|, i requires 0 <= i < |heights| => NodeScale(grid, heights, ts, i, true));
    var take := seq(|heights|, i requires 0 <= i < |heights| => NodeScale(grid, heights, ts, i, false));
    var moved := seq(n, k requires 0 <= k < n => MovedBy(grid, heights, slope, ts, k));
    f := Flows(want, give, take, moved);
    forall k | 0 <= k < n
      ensures if TooSteep(grid, heights, slope, k) <= 0.0 then want[k] == 0.0
              else want[k] / grid.weights[grid.first[k]] + want[k] / grid.weights[grid.second[k]]
                   == TooSteep(grid, heights, slope, k)
    {
      PairIs(grid, heights, slope, k);
    }
    forall i | 0 <= i < |heights|
      ensures ScaleIs(grid, heights, slope, want, true, i, give[i])
    {
      ScaleMeans(grid, heights, slope, want, true, i);
    }
    forall i | 0 <= i < |heights|
      ensures ScaleIs(grid, heights, slope, want, false, i, take[i])
    {
      ScaleMeans(grid, heights, slope, want, false, i);
    }
    PassLength(grid, heights, slope);
    LimitedFlows(grid, heights, slope, moved, 0, true, n);
    forall i | 0 <= i < |heights|
      ensures var after := Relaxed(grid, heights, slope)[i];
              if grid.weights[i] > 0.0 then
                Times(grid.weights[i], after - heights[i])
                == PairSum(grid, heights, moved, i, false, n) - PairSum(grid, heights, moved, i, true, n)
              else after == heights[i]
    {
      LimitedFlows(grid, heights, slope, moved, i, true, n);
      LimitedFlows(grid, heights, slope, moved, i, false, n);
      if grid.weights[i] > 0.0 {
        QuotientTimes(NetFlow(PassTransfers(grid, heights, slope), i), grid.weights[i]);
        TimesCommutes(grid.weights[i], NetFlow(PassTransfers(grid, heights, slope), i) / grid.weights[i]);
      }
    }
  }

  lemma PassLength(grid: Grid, heights: seq<real>, slope: real)
    requires grid.Valid() && grid.Holds(heights) && slope > 0.0
    ensures |PassTransfers(grid, heights, slope)| == |Transfers(grid, heights, slope, |grid.first|)|
  {
    hide Transfers;
  }

  // ---------------------------------------------------------------- a pair on its own

  /** No other pair has a node in common with this one. */
  ghost predicate Alone(grid: Grid, k: nat)
    requires grid.Valid() && k < |grid.first|
  {
    forall j | 0 <= j < |grid.first| && j != k ::
      && grid.first[j] != grid.first[k] && grid.first[j] != grid.second[k]
      && grid.second[j] != grid.first[k] && grid.second[j] != grid.second[k]
  }

  lemma {:induction false} AloneSum(grid: Grid, heights: seq<real>, slope: real, volumes: seq<real>, k: nat,
                                    giving: bool, side: bool, n: nat)
    requires grid.Valid() && grid.Holds(heights) && n <= |grid.first| == |volumes| && k < |grid.first| && Alone(grid, k)
    ensures var node := EndOf(grid, heights, k, side);
            && PairSum(grid, heights, volumes, node, giving, n) == (if k < n && giving == side then volumes[k] else 0.0)
            && Steepest(grid, heights, slope, node, giving, n)
               == (if k < n && giving == side then Max(0.0, TooSteep(grid, heights, slope, k)) else 0.0)
    decreases n
  {
    hide TooSteep;
    if n > 0 {
      AloneSum(grid, heights, slope, volumes, k, giving, side, n - 1);
    }
  }

  /** The pair's own volume is all that its nodes are asked for, and neither of them limits it. */
  lemma LonePairIsUnlimited(grid: Grid, heights: seq<real>, slope: real, k: nat, f: Flows)
    requires grid.Valid() && grid.Holds(heights) && slope > 0.0 && k < |grid.first| && Alone(grid, k)
    requires TooSteep(grid, heights, slope, k) > 0.0 && Wanted(grid, heights, slope, f.want)
    requires Scales(grid, heights, slope, f.want, true, f.give) && Scales(grid, heights, slope, f.want, false, f.take)
    requires Moved(grid, heights, f.want, f.give, f.take, f.moved)
    ensures var w, u := grid.weights[Higher(grid, heights, k)], grid.weights[Lower(grid, heights, k)];
            f.moved[k] / w + f.moved[k] / u == TooSteep(grid, heights, slope, k)
  {
    hide PairSum, Steepest, Times;
    var high, low, n := Higher(grid, heights, k), Lower(grid, heights, k), |grid.first|;
    var excess, w, u, v := TooSteep(grid, heights, slope, k), grid.weights[high], grid.weights[low], f.want[k];
    SlopeIsPositive(slope, grid.distance[k]);
    AloneSum(grid, heights, slope, f.want, k, true, true, n);
    AloneSum(grid, heights, slope, f.want, k, false, false, n);
    NotLimited(v, w, u, excess, heights[high] - grid.floor);
    NotLimited(v, u, w, excess, grid.top - heights[low]);
    FullScale(f.give[high], v);
    FullScale(f.take[low], v);
    TimesOne(v);
  }

  /** A steep pair that shares no node with another ends at exactly its stable difference in height, the higher node
      still higher, and with the same volume. */
  lemma LonePairIsLevelled(grid: Grid, heights: seq<real>, slope: real, k: nat)
    requires grid.Valid() && grid.Holds(heights) && slope > 0.0 && k < |grid.first| && Alone(grid, k)
    requires Abs(heights[grid.first[k]] - heights[grid.second[k]]) > Times(slope, grid.distance[k])
    ensures var after, a, b := Relaxed(grid, heights, slope), grid.first[k], grid.second[k];
            && Abs(after[a] - after[b]) == Times(slope, grid.distance[k])
            && (after[a] > after[b] <==> heights[a] > heights[b])
            && Times(grid.weights[a], after[a]) + Times(grid.weights[b], after[b])
               == Times(grid.weights[a], heights[a]) + Times(grid.weights[b], heights[b])
  {
    hide Relaxed, PairSum, Steepest, MovedVolume, Sum, Times, Scales;
    var f := PassIsSimultaneous(grid, heights, slope);
    var high, low, n, v := Higher(grid, heights, k), Lower(grid, heights, k), |grid.first|, f.moved[k];
    var w, u, after := grid.weights[high], grid.weights[low], Relaxed(grid, heights, slope);
    SlopeIsPositive(slope, grid.distance[k]);
    LonePairIsUnlimited(grid, heights, slope, k, f);
    AloneSum(grid, heights, slope, f.moved, k, true, true, n);
    AloneSum(grid, heights, slope, f.moved, k, false, true, n);
    AloneSum(grid, heights, slope, f.moved, k, true, false, n);
    AloneSum(grid, heights, slope, f.moved, k, false, false, n);
    Levelled(w, u, v, heights[high], heights[low], after[high], after[low], TooSteep(grid, heights, slope, k));
  }

  lemma Levelled(w: real, u: real, v: real, high: real, low: real, high': real, low': real, excess: real)
    requires w > 0.0 && u > 0.0 && Times(w, high' - high) == -v && Times(u, low' - low) == v && v / w + v / u == excess
    ensures high' - low' == high - low - excess
    ensures Times(w, high') + Times(u, low') == Times(w, high) + Times(u, low)
  {
    hide Times;
    ChangedBy(w, high' - high, -v);
    ChangedBy(u, low' - low, v);
    TimesSum(w, high', high);
    TimesSum(u, low', low);
  }

  lemma NotLimited(v: real, w: real, u: real, excess: real, room: real)
    requires w > 0.0 && u > 0.0 && v / w + v / u == excess && 0.0 < excess <= room
    ensures 0.0 < v <= Times(excess, w) <= Times(room, w)
  {
    var x, y := v / w, v / u;
    QuotientTimes(v, w);
    QuotientTimes(v, u);
    SameSign(x, w);
    SameSign(y, u);
    Monotone(x, excess, w);
    Monotone(excess, room, w);
  }

  lemma SameSign(x: real, w: real)
    requires w > 0.0
    ensures Times(x, w) > 0.0 <==> x > 0.0
  {
  }

  lemma FullScale(scale: real, v: real)
    requires v > 0.0 && Times(scale, v) == v
    ensures scale == 1.0
  {
    assert (scale - 1.0) * v == 0.0;
  }

  lemma ChangedBy(w: real, change: real, v: real)
    requires w > 0.0 && Times(w, change) == v
    ensures change == v / w && (-v) / w == -(v / w)
  {
    assert change * w == v;
  }

  // ---------------------------------------------------------------- passes until the surface rests

  /** Surfaces that follow each other by one pass: each pass but the last moves more than the tolerance, and the last
      one moves no more than that or is the last that the budget allows. */
  ghost predicate ArePasses(grid: Grid, slope: real, budget: nat, surfaces: seq<seq<real>>, moved: seq<real>)
    requires grid.Valid() && slope > 0.0
  {
    var tolerance, n := Times(Max(grid.capacity, 1.0), 0.000000000001), |moved|;
    && 1 <= n <= budget && |surfaces| == n + 1
    && (forall k | 0 <= k < n :: IsPass(grid, slope, surfaces[k], surfaces[k + 1], moved[k]))
    && (forall k | 0 <= k < n - 1 :: moved[k] > tolerance)
    && (n == budget || moved[n - 1] <= tolerance)
  }

  ghost predicate IsPass(grid: Grid, slope: real, before: seq<real>, after: seq<real>, moved: real)
    requires grid.Valid() && slope > 0.0
  {
    grid.Holds(before) && after == Relaxed(grid, before, slope) && moved == MovedVolume(grid, before, slope)
  }

  lemma {:induction false} SumFromFront(x: real, volumes: seq<real>, n: nat)
    requires n <= |volumes|
    ensures Sum([x] + volumes, n + 1) == x + Sum(volumes, n)
    decreases n
  {
    if n > 0 {
      SumFromFront(x, volumes, n - 1);
    }
  }

  lemma OneMorePass(grid: Grid, slope: real, budget: nat, heights: seq<real>, volume: real, later: seq<seq<real>>,
                    rest: seq<real>)
    requires grid.Valid() && slope > 0.0 && ArePasses(grid, slope, budget, later, rest)
    requires IsPass(grid, slope, heights, later[0], volume) && volume > Times(Max(grid.capacity, 1.0), 0.000000000001)
    ensures ArePasses(grid, slope, budget + 1, [heights] + later, [volume] + rest)
  {
    hide IsPass, Times, Grid.Valid;
    var surfaces, moved := [heights] + later, [volume] + rest;
    forall k | 0 <= k < |moved| ensures IsPass(grid, slope, surfaces[k], surfaces[k + 1], moved[k]) {
      if k > 0 {
        assert IsPass(grid, slope, later[k - 1], later[k], rest[k - 1]);
      }
    }
  }

  lemma SettleUnfolds(grid: Grid, heights: seq<real>, slope: real, budget: nat)
    requires grid.Valid() && grid.Holds(heights) && slope > 0.0 && budget > 0
    ensures var after, moved := Relaxed(grid, heights, slope), MovedVolume(grid, heights, slope);
            && grid.Holds(after) && IsPass(grid, slope, heights, after, moved)
            && Settle(grid, heights, slope, budget)
               == if budget == 1 || moved <= Times(Max(grid.capacity, 1.0), 0.000000000001) then
                    Settled(after, 1, moved)
                  else
                    var rest := Settle(grid, after, slope, budget - 1);
                    Settled(rest.heights, rest.iterations + 1, moved + rest.moved)
  {
    hide Relaxed, MovedVolume, Grid.Valid, Grid.Holds, Times, Grid.Tolerance;
    RelaxedHolds(grid, heights, slope);
    ToleranceIs(grid);
  }

  lemma {:induction false} SettlesByPasses(grid: Grid, heights: seq<real>, slope: real, budget: nat)
    returns (surfaces: seq<seq<real>>, moved: seq<real>)
    requires grid.Valid() && grid.Holds(heights) && slope > 0.0 && budget > 0
    ensures ArePasses(grid, slope, budget, surfaces, moved) && surfaces[0] == heights
    ensures Settle(grid, heights, slope, budget) == Settled(surfaces[|moved|], |moved|, Sum(moved, |moved|))
    decreases budget
  {
    hide Relaxed, MovedVolume, Grid.Valid, Grid.Holds, Times, Settle, IsPass;
    var after, volume := Relaxed(grid, heights, slope), MovedVolume(grid, heights, slope);
    SettleUnfolds(grid, heights, slope, budget);
    surfaces, moved := [heights, after], [volume];
    if budget > 1 && volume > Times(Max(grid.capacity, 1.0), 0.000000000001) {
      var later, rest := SettlesByPasses(grid, after, slope, budget - 1);
      OneMorePass(grid, slope, budget - 1, heights, volume, later, rest);
      surfaces, moved := [heights] + later, [volume] + rest;
      SumFromFront(volume, rest, |rest|);
    }
  }

  lemma ToleranceIs(grid: Grid)
    ensures grid.Tolerance() == Times(Max(grid.capacity, 1.0), 0.000000000001)
  {
  }
}

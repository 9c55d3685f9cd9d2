/** The volume-exact height change of one surface update
    (services/simulation-server/src/scenario/height_field.rs, solve_height_delta). */
module WaterFilling {
  import opened Wrappers
  import opened Sums

  const VOLUME_TOLERANCE: real := 0.000000000001

  datatype GeometryError = Invalid(message: string) | Numerical(message: string) | Allocation(message: string)

  /** How far a node is filled at a scale. */
  function FilledTo(scale: real, speed: real, room: real): real {
    Min(Times(scale, speed), room)
  }

  datatype Step = Step(breakpoint: real, slope: real)

  ghost predicate Rising(steps: seq<Step>) {
    && (forall x | 0 <= x < |steps| :: steps[x].slope > 0.0)
    && (forall x, y | 0 <= x < y < |steps| :: steps[x].breakpoint <= steps[y].breakpoint)
  }

  /** The volume once every node still filling has reached the breakpoint. */
  function VolumeAfter(breakpoint: real, slope: real, scale: real, accumulated: real): real {
    accumulated + (breakpoint - scale) * slope
  }

  /** The scale at which the request is reached on a piece of this slope. */
  function ScaleFor(slope: real, scale: real, accumulated: real, requested: real): real
    requires slope > 0.0
  {
    scale + (requested - accumulated) / slope
  }

  /** The walk: either the scale at which the volume is reached, or None past the last breakpoint. */
  function Walk(steps: seq<Step>, scale: real, accumulated: real, requested: real): Option<real>
    requires forall x | 0 <= x < |steps| :: steps[x].slope > 0.0
  {
    if |steps| == 0 then None
    else
      var nextVolume := VolumeAfter(steps[0].breakpoint, steps[0].slope, scale, accumulated);
      if nextVolume >= requested then Some(ScaleFor(steps[0].slope, scale, accumulated, requested))
      else Walk(steps[1..], steps[0].breakpoint, nextVolume, requested)
  }

  /** Node i fills at the relative speed profile[i] and has room for available[i] more height. */
  datatype Nodes = Nodes(profile: seq<real>, available: seq<real>, weights: seq<real>) {
    predicate SameShape() {
      |profile| == |available| == |weights|
    }

    ghost predicate Valid() {
      && SameShape()
      && forall i | 0 <= i < |weights| :: profile[i] >= 0.0 && available[i] >= 0.0 && weights[i] >= 0.0
    }

    function Capacity(): real
      requires SameShape()
    {
      Dot(weights, available, |weights|)
    }

    /** The volume that filling can reach at all: nodes without speed stay as they are. */
    function ReachableVolume(n: nat): real
      requires SameShape() && n <= |weights|
    {
      if n == 0 then 0.0
      else ReachableVolume(n - 1) + if profile[n - 1] > 0.0 then Times(weights[n - 1], available[n - 1]) else 0.0
    }

    /** Every node filled up to the common scale, or to its limit. */
    function Filled(scale: real): (delta: seq<real>)
      requires SameShape()
      ensures |delta| == |weights|
      ensures forall i | 0 <= i < |delta| :: delta[i] == FilledTo(scale, profile[i], available[i])
    {
      seq(|profile|, i requires 0 <= i < |profile| => FilledTo(scale, profile[i], available[i]))
    }

    // -------------------------------------------------------------- breakpoints in order

    /** The node limits the filling: it has weight, speed and room. */
    predicate Relevant(i: nat)
      requires SameShape()
    {
      i < |weights| && profile[i] > 0.0 && available[i] > 0.0 && weights[i] > 0.0
    }

    ghost predicate AllRelevant(order: seq<nat>) {
      SameShape() && forall x | 0 <= x < |order| :: Relevant(order[x])
    }

    function Breakpoint(i: nat): real
      requires SameShape() && Relevant(i)
    {
      available[i] / profile[i]
    }

    ghost predicate AtLeast(bound: real, order: seq<nat>)
      requires AllRelevant(order)
    {
      forall x | 0 <= x < |order| :: bound <= Breakpoint(order[x])
    }

    ghost predicate Sorted(order: seq<nat>)
      requires AllRelevant(order)
    {
      order != [] ==> AtLeast(Breakpoint(order[0]), order[1..]) && Sorted(order[1..])
    }

    function Insert(i: nat, order: seq<nat>): (r: seq<nat>)
      requires SameShape() && Relevant(i) && AllRelevant(order)
      ensures AllRelevant(r)
    {
      if order == [] then [i]
      else if Breakpoint(i) < Breakpoint(order[0]) then [i] + order
      else [order[0]] + Insert(i, order[1..])
    }

    /** The relevant nodes below n by increasing breakpoint, equal breakpoints by index. */
    function FillOrder(n: nat): (order: seq<nat>)
      requires SameShape()
      ensures AllRelevant(order)
    {
      if n == 0 then []
      else if Relevant(n - 1) then Insert(n - 1, FillOrder(n - 1))
      else FillOrder(n - 1)
    }

    // -------------------------------------------------------------- volumes along the order

    function VolumeAt(i: nat, scale: real): real
      requires SameShape() && i < |weights|
    {
      Times(weights[i], FilledTo(scale, profile[i], available[i]))
    }

    /** The directly summed volume of the listed nodes at a scale. */
    function OrderVolume(order: seq<nat>, scale: real): real
      requires AllRelevant(order)
    {
      if order == [] then 0.0 else VolumeAt(order[0], scale) + OrderVolume(order[1..], scale)
    }

    function OrderCapacity(order: seq<nat>): real
      requires AllRelevant(order)
    {
      if order == [] then 0.0 else Times(weights[order[0]], available[order[0]]) + OrderCapacity(order[1..])
    }

    /** The volume gained per unit of scale while every listed node is still filling. */
    function SuffixSlope(order: seq<nat>): real
      requires AllRelevant(order)
    {
      if order == [] then 0.0 else Times(weights[order[0]], profile[order[0]]) + SuffixSlope(order[1..])
    }

    // -------------------------------------------------------------- the solution

    /** What the walk sees of each node in order: its breakpoint, and the slope up to it. */
    function Steps(order: seq<nat>): (steps: seq<Step>)
      requires AllRelevant(order)
      ensures |steps| == |order|
      ensures forall x | 0 <= x < |steps| :: steps[x].slope > 0.0
    {
      if order == [] then []
      else
        SlopeIsPositive(order);
        assert Relevant(order[0]);
        [Step(Breakpoint(order[0]), SuffixSlope(order))] + Steps(order[1..])
    }

    /** The height change for one requested volume. */
    function HeightDelta(requested: real): (delta: seq<real>)
      requires SameShape()
      ensures |delta| == |weights|
    {
      if requested == 0.0 then Zeros(|weights|)
      else if requested >= Capacity() - VOLUME_TOLERANCE then available
      else
        match Walk(Steps(FillOrder(|weights|)), 0.0, 0.0, requested)
        case Some(scale) => Filled(scale)
        case None => available
    }

    lemma {:induction false} SlopeIsPositive(order: seq<nat>)
      requires AllRelevant(order)
      ensures order != [] ==> SuffixSlope(order) > 0.0
    {
      hide Times;
      if order != [] {
        assert Relevant(order[0]);
        SlopeIsPositive(order[1..]);
        PositiveProduct(weights[order[0]], profile[order[0]]);
      }
    }
  }

  function Zeros(n: nat): (z: seq<real>)
    ensures |z| == n
  {
    seq(n, i => 0.0)
  }

  lemma PositiveProduct(a: real, b: real)
    requires a > 0.0 && b > 0.0
    ensures Times(a, b) > 0.0
  {
  }

  // ---------------------------------------------------------------- the order is sorted and complete

  lemma {:induction false} InsertAtLeast(f: Nodes, bound: real, i: nat, order: seq<nat>)
    requires f.SameShape() && f.Relevant(i) && f.AllRelevant(order)
    requires bound <= f.Breakpoint(i) && f.AtLeast(bound, order)
    ensures f.AtLeast(bound, f.Insert(i, order))
  {
    if order != [] && f.Breakpoint(i) >= f.Breakpoint(order[0]) {
      InsertAtLeast(f, bound, i, order[1..]);
    }
  }

  lemma {:induction false} InsertSorted(f: Nodes, i: nat, order: seq<nat>)
    requires f.SameShape() && f.Relevant(i) && f.AllRelevant(order) && f.Sorted(order)
    ensures f.Sorted(f.Insert(i, order))
  {
    var inserted := f.Insert(i, order);
    if order == [] {
      assert inserted[1..] == [];
    } else if f.Breakpoint(i) < f.Breakpoint(order[0]) {
      assert inserted[1..] == order;
      assert f.AtLeast(f.Breakpoint(i), order) by {
        assert order == [order[0]] + order[1..];
      }
    } else {
      InsertSorted(f, i, order[1..]);
      InsertAtLeast(f, f.Breakpoint(order[0]), i, order[1..]);
      assert inserted[1..] == f.Insert(i, order[1..]);
    }
  }

  lemma {:induction false} FillOrderSorted(f: Nodes, n: nat)
    requires f.SameShape()
    ensures f.Sorted(f.FillOrder(n))
  {
    if n > 0 {
      FillOrderSorted(f, n - 1);
      if f.Relevant(n - 1) {
        InsertSorted(f, n - 1, f.FillOrder(n - 1));
      }
    }
  }

  lemma {:induction false} InsertVolume(f: Nodes, i: nat, order: seq<nat>, scale: real)
    requires f.SameShape() && f.Relevant(i) && f.AllRelevant(order)
    ensures f.OrderVolume(f.Insert(i, order), scale) == f.VolumeAt(i, scale) + f.OrderVolume(order, scale)
  {
    hide Times;
    var inserted := f.Insert(i, order);
    if order != [] && f.Breakpoint(i) >= f.Breakpoint(order[0]) {
      InsertVolume(f, i, order[1..], scale);
      assert inserted[1..] == f.Insert(i, order[1..]);
    } else {
      assert inserted[1..] == order;
    }
  }

  lemma {:induction false} InsertCapacity(f: Nodes, i: nat, order: seq<nat>)
    requires f.SameShape() && f.Relevant(i) && f.AllRelevant(order)
    ensures f.OrderCapacity(f.Insert(i, order)) == Times(f.weights[i], f.available[i]) + f.OrderCapacity(order)
  {
    hide Times;
    var inserted := f.Insert(i, order);
    if order != [] && f.Breakpoint(i) >= f.Breakpoint(order[0]) {
      InsertCapacity(f, i, order[1..]);
      assert inserted[1..] == f.Insert(i, order[1..]);
    } else {
      assert inserted[1..] == order;
    }
  }

  lemma IrrelevantTerm(profile: real, available: real, weight: real, scale: real)
    requires profile >= 0.0 && available >= 0.0 && weight >= 0.0 && scale >= 0.0
    requires profile == 0.0 || available == 0.0 || weight == 0.0
    ensures Times(weight, FilledTo(scale, profile, available)) == 0.0
  {
    assert Times(scale, profile) >= 0.0;
  }

  /** Nodes outside the order contribute nothing, so the order accounts for the whole vector. */
  lemma {:induction false} OrderAccountsForAll(f: Nodes, n: nat, scale: real)
    requires f.Valid() && n <= |f.weights| && scale >= 0.0
    ensures Dot(f.weights, f.Filled(scale), n) == f.OrderVolume(f.FillOrder(n), scale)
  {
    hide FilledTo, Times;
    if n > 0 {
      OrderAccountsForAll(f, n - 1, scale);
      if f.Relevant(n - 1) {
        InsertVolume(f, n - 1, f.FillOrder(n - 1), scale);
      } else {
        IrrelevantTerm(f.profile[n - 1], f.available[n - 1], f.weights[n - 1], scale);
      }
    }
  }

  lemma {:induction false} OrderCapacityIsReachable(f: Nodes, n: nat)
    requires f.Valid() && n <= |f.weights|
    ensures f.OrderCapacity(f.FillOrder(n)) == f.ReachableVolume(n)
  {
    hide Times;
    if n > 0 {
      OrderCapacityIsReachable(f, n - 1);
      if f.Relevant(n - 1) {
        InsertCapacity(f, n - 1, f.FillOrder(n - 1));
      } else if f.profile[n - 1] > 0.0 {
        assert f.weights[n - 1] == 0.0 || f.available[n - 1] == 0.0;
        TimesZero(f.weights[n - 1]);
        TimesZero(f.available[n - 1]);
      }
    }
  }

  // ---------------------------------------------------------------- the walk over breakpoints

  lemma BreakpointSplits(profile: real, available: real, scale: real)
    requires profile > 0.0
    ensures scale <= available / profile <==> Times(scale, profile) <= available
    ensures Times(available / profile, profile) == available
  {
  }

  lemma Distribute(weight: real, profile: real, scale: real, rest: real)
    ensures Times(scale, Times(weight, profile) + rest) == Times(weight, Times(scale, profile)) + Times(scale, rest)
  {
  }

  /** Below every breakpoint the summed volume is linear, with the suffix slope. */
  lemma {:induction false} LinearBelowBreakpoints(f: Nodes, order: seq<nat>, scale: real)
    requires f.AllRelevant(order) && f.AtLeast(scale, order)
    ensures f.OrderVolume(order, scale) == Times(scale, f.SuffixSlope(order))
  {
    hide Times;
    if order != [] {
      var i := order[0];
      assert f.Relevant(i) && scale <= f.Breakpoint(i);
      BreakpointSplits(f.profile[i], f.available[i], scale);
      LinearBelowBreakpoints(f, order[1..], scale);
      Distribute(f.weights[i], f.profile[i], scale, f.SuffixSlope(order[1..]));
    } else {
      TimesZero(scale);
    }
  }

  /** The volume at a scale on one linear piece. */
  function PieceVolume(saturated: real, slope: real, scale: real): real {
    saturated + Times(scale, slope)
  }

  lemma LinearStep(saturated: real, accumulated: real, requested: real, breakpoint: real, scale: real, slope: real)
    requires slope > 0.0 && accumulated == PieceVolume(saturated, slope, scale) && accumulated < requested
    ensures VolumeAfter(breakpoint, slope, scale, accumulated) == PieceVolume(saturated, slope, breakpoint)
    ensures VolumeAfter(breakpoint, slope, scale, accumulated) >= requested ==>
              var found := ScaleFor(slope, scale, accumulated, requested);
              scale <= found <= breakpoint && PieceVolume(saturated, slope, found) == requested
  {
    var step := (requested - accumulated) / slope;
    assert step * slope == requested - accumulated;
    assert (scale + step) * slope == scale * slope + step * slope;
    OrderFromProducts(step, breakpoint - scale, slope);
    OrderFromProducts(0.0, step, slope);
  }

  lemma OrderFromProducts(a: real, b: real, c: real)
    requires c > 0.0
    ensures a * c <= b * c ==> a <= b
  {
  }

  lemma SaturatedVolume(f: Nodes, i: nat, scale: real)
    requires f.SameShape() && f.Relevant(i) && scale >= f.Breakpoint(i)
    ensures f.VolumeAt(i, scale) == Times(f.weights[i], f.available[i])
  {
    BreakpointSplits(f.profile[i], f.available[i], f.Breakpoint(i));
    TimesOrder(f.profile[i], f.Breakpoint(i), scale);
  }

  /** Volume already in place at step k, and slope still to come; 0 past the last step. */
  function SlopeFrom(steps: seq<Step>, k: nat): real {
    if k < |steps| then steps[k].slope else 0.0
  }

  /** saturated[k] is the volume of the nodes below step k; the two linear pieces meet at each breakpoint. */
  ghost predicate PiecesMeet(steps: seq<Step>, saturated: seq<real>) {
    && |saturated| == |steps| + 1
    && forall k | 0 <= k < |steps| ::
         PieceVolume(saturated[k + 1], SlopeFrom(steps, k + 1), steps[k].breakpoint)
         == PieceVolume(saturated[k], steps[k].slope, steps[k].breakpoint)
  }

  lemma WalkUnfolds(steps: seq<Step>, breakpoint: real, slope: real, scale: real, accumulated: real, requested: real)
    requires forall x | 0 <= x < |steps| :: steps[x].slope > 0.0
    requires steps != [] && steps[0] == Step(breakpoint, slope)
    ensures slope > 0.0
    ensures var nextVolume := VolumeAfter(breakpoint, slope, scale, accumulated);
            Walk(steps, scale, accumulated, requested)
            == if nextVolume >= requested then Some(ScaleFor(slope, scale, accumulated, requested))
               else Walk(steps[1..], breakpoint, nextVolume, requested)
  {
    hide VolumeAfter, ScaleFor;
  }

  lemma WalkEnds(steps: seq<Step>, scale: real, accumulated: real, requested: real)
    requires steps == []
    ensures Walk(steps, scale, accumulated, requested) == None
  {
  }

  lemma FirstPiece(steps: seq<Step>, saturated: seq<real>, scale: real)
    requires PiecesMeet(steps, saturated)
    ensures |saturated| == |steps| + 1
    ensures steps == [] ==> PieceVolume(saturated[0], SlopeFrom(steps, 0), scale) == saturated[0]
    ensures steps != [] ==> SlopeFrom(steps, 0) == steps[0].slope
  {
  }

  lemma PiecesMeetTail(steps: seq<Step>, saturated: seq<real>)
    requires steps != [] && PiecesMeet(steps, saturated)
    ensures PiecesMeet(steps[1..], saturated[1..])
    ensures PieceVolume(saturated[1], SlopeFrom(steps[1..], 0), steps[0].breakpoint)
         == PieceVolume(saturated[0], steps[0].slope, steps[0].breakpoint)
  {
    forall k: nat ensures SlopeFrom(steps[1..], k) == SlopeFrom(steps, k + 1) {
    }
  }

  /** On a rising piecewise-linear function the walk finds the piece, and the point on it, that reaches the request. */
  lemma {:induction false} WalkFinds(steps: seq<Step>, scale: real, accumulated: real, requested: real,
                                     saturated: seq<real>)
    returns (k: nat)
    requires Rising(steps) && PiecesMeet(steps, saturated)
    requires steps != [] ==> scale <= steps[0].breakpoint
    requires accumulated == PieceVolume(saturated[0], SlopeFrom(steps, 0), scale) && accumulated < requested
    ensures var r := Walk(steps, scale, accumulated, requested);
            if r.Some? then
              && k < |steps|
              && scale <= r.value
              && (k > 0 ==> steps[k - 1].breakpoint <= r.value)
              && r.value <= steps[k].breakpoint
              && PieceVolume(saturated[k], steps[k].slope, r.value) == requested
            else saturated[|steps|] < requested
  {
    hide PiecesMeet, Walk, SlopeFrom, VolumeAfter, ScaleFor, PieceVolume, Times;
    FirstPiece(steps, saturated, scale);
    if steps == [] {
      WalkEnds(steps, scale, accumulated, requested);
      k := 0;
    } else {
      var breakpoint, slope := steps[0].breakpoint, steps[0].slope;
      WalkUnfolds(steps, breakpoint, slope, scale, accumulated, requested);
      var nextVolume := VolumeAfter(breakpoint, slope, scale, accumulated);
      PiecesMeetTail(steps, saturated);
      LinearStep(saturated[0], accumulated, requested, breakpoint, scale, slope);
      if nextVolume >= requested {
        k := 0;
      } else {
        var rest := WalkFinds(steps[1..], breakpoint, nextVolume, requested, saturated[1..]);
        k := rest + 1;
      }
    }
  }

  lemma {:induction false} CapacityBound(f: Nodes, order: seq<nat>, scale: real)
    requires f.AllRelevant(order)
    ensures f.OrderVolume(order, scale) <= f.OrderCapacity(order)
  {
    hide Times;
    if order != [] {
      assert f.Relevant(order[0]);
      TimesOrder(f.weights[order[0]], FilledTo(scale, f.profile[order[0]], f.available[order[0]]),
          f.available[order[0]]);
      CapacityBound(f, order[1..], scale);
    }
  }

  lemma {:induction false} StepsAt(f: Nodes, order: seq<nat>, k: nat)
    requires f.AllRelevant(order) && k < |order|
    ensures f.Relevant(order[k])
    ensures f.Steps(order)[k] == Step(f.Breakpoint(order[k]), f.SuffixSlope(order[k..]))
    ensures f.Steps(order)[k..] == f.Steps(order[k..])
  {
    if k > 0 {
      StepsAt(f, order[1..], k - 1);
      assert order[1..][k - 1..] == order[k..];
      assert f.Steps(order)[k..] == f.Steps(order[1..])[k - 1..];
    } else {
      assert order[0..] == order && f.Steps(order)[0..] == f.Steps(order);
    }
  }

  lemma {:induction false} SortedBreakpoints(f: Nodes, order: seq<nat>, x: nat, y: nat)
    requires f.AllRelevant(order) && f.Sorted(order) && x <= y < |order|
    ensures f.Relevant(order[x]) && f.Relevant(order[y]) && f.Breakpoint(order[x]) <= f.Breakpoint(order[y])
  {
    if x > 0 {
      SortedBreakpoints(f, order[1..], x - 1, y - 1);
    } else if y > 0 {
      assert order[y] == order[1..][y - 1];
    }
  }

  /** The volume of the first k nodes when they are full. */
  function Saturated(f: Nodes, order: seq<nat>, k: nat): real
    requires f.AllRelevant(order) && k <= |order|
  {
    if k == 0 then 0.0 else Saturated(f, order, k - 1) + Times(f.weights[order[k - 1]], f.available[order[k - 1]])
  }

  lemma {:induction false} SaturatedTail(f: Nodes, order: seq<nat>, k: nat)
    requires f.AllRelevant(order) && 0 < k <= |order|
    ensures Saturated(f, order, k)
         == Times(f.weights[order[0]], f.available[order[0]]) + Saturated(f, order[1..], k - 1)
  {
    hide Times;
    if k > 1 {
      SaturatedTail(f, order, k - 1);
    }
  }

  lemma {:induction false} SaturatedIsCapacity(f: Nodes, order: seq<nat>)
    requires f.AllRelevant(order)
    ensures Saturated(f, order, |order|) == f.OrderCapacity(order)
  {
    hide Times;
    if order != [] {
      SaturatedTail(f, order, |order|);
      SaturatedIsCapacity(f, order[1..]);
    }
  }

  lemma SaturatedNone(f: Nodes, order: seq<nat>)
    requires f.AllRelevant(order)
    ensures Saturated(f, order, 0) == 0.0
  {
  }

  lemma OrderVolumeUnfolds(f: Nodes, order: seq<nat>, scale: real)
    requires f.AllRelevant(order) && order != []
    ensures f.Relevant(order[0])
    ensures f.OrderVolume(order, scale) == f.VolumeAt(order[0], scale) + f.OrderVolume(order[1..], scale)
  {
  }

  lemma SortedUnfolds(f: Nodes, order: seq<nat>, scale: real)
    requires f.AllRelevant(order) && f.Sorted(order) && order != []
    ensures f.AllRelevant(order[1..]) && f.Sorted(order[1..])
    ensures f.Relevant(order[0]) && (scale <= f.Breakpoint(order[0]) ==> f.AtLeast(scale, order))
  {
    hide Nodes.Breakpoint;
    assert order == [order[0]] + order[1..];
  }

  /** Between the breakpoints of steps k-1 and k the direct sum is the k-th linear piece. */
  lemma {:induction false} VolumeOnPiece(f: Nodes, order: seq<nat>, k: nat, slope: real, scale: real)
    requires f.AllRelevant(order) && f.Sorted(order) && k < |order|
    requires slope == f.SuffixSlope(order[k..])
    requires f.Relevant(order[k]) && scale <= f.Breakpoint(order[k])
    requires k > 0 ==> f.Relevant(order[k - 1]) && f.Breakpoint(order[k - 1]) <= scale
    ensures f.OrderVolume(order, scale) == PieceVolume(Saturated(f, order, k), slope, scale)
  {
    hide Times, Nodes.Breakpoint, Nodes.VolumeAt, Nodes.SuffixSlope, Saturated, Nodes.OrderVolume, Nodes.Sorted,
      Nodes.AtLeast;
    SaturatedNone(f, order);
    OrderVolumeUnfolds(f, order, scale);
    SortedUnfolds(f, order, scale);
    if k == 0 {
      assert order[0..] == order;
      LinearBelowBreakpoints(f, order, scale);
    } else {
      SortedBreakpoints(f, order, 0, k - 1);
      SaturatedVolume(f, order[0], scale);
      assert order[1..][k - 1..] == order[k..];
      VolumeOnPiece(f, order[1..], k - 1, slope, scale);
      SaturatedTail(f, order, k);
    }
  }

  lemma MeetingPoint(saturated: real, weight: real, profile: real, available: real, breakpoint: real, rest: real)
    requires Times(breakpoint, profile) == available
    ensures PieceVolume(saturated + Times(weight, available), rest, breakpoint)
         == PieceVolume(saturated, Times(weight, profile) + rest, breakpoint)
  {
    assert weight * available == breakpoint * (weight * profile);
  }

  lemma StepsMeet(f: Nodes, order: seq<nat>)
    requires f.AllRelevant(order) && f.Sorted(order)
    ensures Rising(f.Steps(order))
    ensures PiecesMeet(f.Steps(order), seq(|order| + 1, k requires 0 <= k <= |order| => Saturated(f, order, k)))
  {
    hide Times, PieceVolume, Nodes.Breakpoint, Nodes.SuffixSlope, Saturated, Nodes.Steps, Nodes.Sorted, SlopeFrom;
    var steps := f.Steps(order);
    forall k | 0 <= k < |steps|
      ensures PieceVolume(Saturated(f, order, k + 1), SlopeFrom(steps, k + 1), steps[k].breakpoint)
           == PieceVolume(Saturated(f, order, k), steps[k].slope, steps[k].breakpoint)
    {
      PieceMeets(f, order, k);
    }
    forall x, y | 0 <= x < y < |steps| ensures steps[x].breakpoint <= steps[y].breakpoint {
      StepsAt(f, order, x);
      StepsAt(f, order, y);
      SortedBreakpoints(f, order, x, y);
    }
  }

  lemma BreakpointMeans(f: Nodes, i: nat)
    requires f.SameShape() && f.Relevant(i)
    ensures Times(f.Breakpoint(i), f.profile[i]) == f.available[i] && f.Breakpoint(i) >= 0.0
  {
    BreakpointSplits(f.profile[i], f.available[i], f.Breakpoint(i));
    BreakpointSplits(f.profile[i], f.available[i], 0.0);
  }

  lemma SlopeUnfolds(f: Nodes, order: seq<nat>, k: nat)
    requires f.AllRelevant(order) && k < |order|
    ensures f.Relevant(order[k])
    ensures f.SuffixSlope(order[k..]) == Times(f.weights[order[k]], f.profile[order[k]]) + f.SuffixSlope(order[k + 1..])
    ensures k + 1 == |order| ==> f.SuffixSlope(order[k + 1..]) == 0.0
  {
    assert f.Relevant(order[k]) && order[k..][1..] == order[k + 1..];
  }

  lemma SaturatedUnfolds(f: Nodes, order: seq<nat>, k: nat)
    requires f.AllRelevant(order) && k < |order|
    ensures f.Relevant(order[k])
    ensures Saturated(f, order, k + 1) == Saturated(f, order, k) + Times(f.weights[order[k]], f.available[order[k]])
  {
  }

  lemma PieceMeets(f: Nodes, order: seq<nat>, k: nat)
    requires f.AllRelevant(order) && k < |order|
    ensures var steps := f.Steps(order);
            PieceVolume(Saturated(f, order, k + 1), SlopeFrom(steps, k + 1), steps[k].breakpoint)
            == PieceVolume(Saturated(f, order, k), steps[k].slope, steps[k].breakpoint)
  {
    hide Times, PieceVolume, Nodes.Breakpoint, Nodes.SuffixSlope, Saturated, Nodes.Steps;
    var i := order[k];
    StepsAt(f, order, k);
    SlopeUnfolds(f, order, k);
    SaturatedUnfolds(f, order, k);
    BreakpointMeans(f, i);
    if k + 1 < |order| {
      StepsAt(f, order, k + 1);
    }
    MeetingPoint(Saturated(f, order, k), f.weights[i], f.profile[i], f.available[i], f.Breakpoint(i),
                 f.SuffixSlope(order[k + 1..]));
  }

  lemma FirstBreakpoint(f: Nodes, order: seq<nat>)
    requires f.AllRelevant(order)
    ensures order != [] ==> 0.0 <= f.Steps(order)[0].breakpoint
    ensures PieceVolume(0.0, SlopeFrom(f.Steps(order), 0), 0.0) == 0.0
  {
    hide Nodes.Breakpoint;
    if order != [] {
      StepsAt(f, order, 0);
      BreakpointMeans(f, order[0]);
    }
  }

  lemma PieceReaches(f: Nodes, order: seq<nat>, k: nat, scale: real, requested: real)
    requires f.AllRelevant(order) && f.Sorted(order) && k < |order|
    requires k > 0 ==> f.Steps(order)[k - 1].breakpoint <= scale
    requires scale <= f.Steps(order)[k].breakpoint
    requires PieceVolume(Saturated(f, order, k), f.Steps(order)[k].slope, scale) == requested
    ensures f.OrderVolume(order, scale) == requested && requested <= f.OrderCapacity(order)
  {
    hide Times, PieceVolume, Nodes.Breakpoint, Nodes.SuffixSlope, Saturated, Nodes.OrderVolume, Nodes.OrderCapacity,
         Nodes.Steps;
    StepsAt(f, order, k);
    if k > 0 {
      StepsAt(f, order, k - 1);
    }
    VolumeOnPiece(f, order, k, f.Steps(order)[k].slope, scale);
    CapacityBound(f, order, scale);
  }

  /** The walk over the sorted nodes reaches the request exactly when it can be reached at all. */
  lemma WalkReachesVolume(f: Nodes, order: seq<nat>, requested: real)
    requires f.AllRelevant(order) && f.Sorted(order) && requested > 0.0
    ensures var r := Walk(f.Steps(order), 0.0, 0.0, requested);
            if r.Some? then
              r.value >= 0.0 && f.OrderVolume(order, r.value) == requested && requested <= f.OrderCapacity(order)
            else f.OrderCapacity(order) < requested
  {
    hide Times, PieceVolume, PiecesMeet, SlopeFrom, Nodes.Breakpoint, Nodes.SuffixSlope, Saturated, Walk,
         Nodes.OrderVolume,
      Nodes.OrderCapacity, Nodes.Steps;
    var steps := f.Steps(order);
    var saturated := seq(|order| + 1, k requires 0 <= k <= |order| => Saturated(f, order, k));
    SaturatedNone(f, order);
    StepsMeet(f, order);
    FirstBreakpoint(f, order);
    var k := WalkFinds(steps, 0.0, 0.0, requested, saturated);
    var r := Walk(steps, 0.0, 0.0, requested);
    SaturatedIsCapacity(f, order);
    if r.Some? {
      PieceReaches(f, order, k, r.value, requested);
    }
  }

  /** What the solver promises. Short of full, one scale fills every node and the total is exactly the
      request; if nodes with room but no speed put the request out of reach, everything is filled. */
  lemma HeightDeltaIsExact(f: Nodes, requested: real)
    requires f.Valid() && requested >= 0.0
    ensures var delta, n := f.HeightDelta(requested), |f.weights|;
            if requested == 0.0 then delta == Zeros(n)
            else if requested >= f.Capacity() - VOLUME_TOLERANCE || requested > f.ReachableVolume(n) then
              delta == f.available
            else
              && Dot(f.weights, delta, n) == requested
              && exists scale :: scale >= 0.0 && delta == f.Filled(scale)
  {
    var n := |f.weights|;
    var order := f.FillOrder(n);
    if 0.0 < requested < f.Capacity() - VOLUME_TOLERANCE {
      FillOrderSorted(f, n);
      WalkReachesVolume(f, order, requested);
      OrderCapacityIsReachable(f, n);
      var r := Walk(f.Steps(order), 0.0, 0.0, requested);
      if r.Some? {
        OrderAccountsForAll(f, n, r.value);
      }
    }
  }

  /** A kernel that reaches every node with weight makes every volume reachable. */
  lemma {:induction false} EverythingReachable(f: Nodes, n: nat)
    requires f.Valid() && n <= |f.weights|
    requires forall i | 0 <= i < |f.weights| :: f.weights[i] > 0.0 ==> f.profile[i] > 0.0
    ensures f.ReachableVolume(n) == Dot(f.weights, f.available, n)
  {
    hide Times;
    if n > 0 {
      EverythingReachable(f, n - 1);
      TimesZero(f.available[n - 1]);
    }
  }

  // ---------------------------------------------------------------- the solver as it runs

  /** Suffix slopes with a compensated sum, then the walk over the sorted breakpoints. */
  method SolveHeightDelta(f: Nodes, requested: real) returns (r: Result<seq<real>, GeometryError>)
    requires f.Valid() && requested >= 0.0
    ensures r == Success(f.HeightDelta(requested))
  {
    hide Walk, Nodes.FillOrder, Nodes.Steps;
    var n := |f.weights|;
    if requested == 0.0 {
      return Success(Zeros(n));
    }
    var capacity := WeightedSum(f.weights, f.available);
    if requested >= capacity - VOLUME_TOLERANCE {
      return Success(f.available);
    }
    var order := f.FillOrder(n);
    var solved, scale := WalkBreakpoints(f, order, requested);
    if !solved {
      return Success(f.available);
    }
    SolvedScaleIsNonNegative(f, requested);
    if scale < 0.0 {
      return Failure(Numerical("surface update scale must be finite and non-negative"));
    }
    var delta := Zeros(n);
    for k := 0 to n
      invariant |delta| == n
      invariant forall i | 0 <= i < k :: delta[i] == f.Filled(scale)[i]
    {
      delta := delta[k := FilledTo(scale, f.profile[k], f.available[k])];
    }
    assert delta == f.Filled(scale);
    return Success(delta);
  }

  lemma StepOfNode(f: Nodes, order: seq<nat>, position: nat, breakpoint: real, slope: real)
    requires f.AllRelevant(order) && position < |order|
    requires f.Relevant(order[position]) && breakpoint == f.available[order[position]] / f.profile[order[position]]
    requires slope == f.SuffixSlope(order[position..])
    ensures f.Steps(order)[position] == Step(breakpoint, slope)
  {
    StepsAt(f, order, position);
  }

  method WalkBreakpoints(f: Nodes, order: seq<nat>, requested: real) returns (solved: bool, scale: real)
    requires f.AllRelevant(order)
    ensures Walk(f.Steps(order), 0.0, 0.0, requested) == if solved then Some(scale) else None
  {
    hide Walk, VolumeAfter, ScaleFor, Nodes.Breakpoint, Nodes.SuffixSlope, Nodes.Steps;
    var slopes := SuffixSlopes(f, order);
    var accumulated, position := 0.0, 0;
    ghost var steps := f.Steps(order);
    solved, scale := false, 0.0;
    while position < |order| && !solved
      invariant 0 <= position <= |order|
      invariant !solved ==> Walk(steps[position..], scale, accumulated, requested) == Walk(steps, 0.0, 0.0, requested)
      invariant solved ==> Walk(steps, 0.0, 0.0, requested) == Some(scale)
      decreases |order| - position, !solved
    {
      StepsAt(f, order, position);
      var index, slope := order[position], slopes[position];
      var breakpoint := f.available[index] / f.profile[index];
      StepOfNode(f, order, position, breakpoint, slope);
      WalkUnfolds(steps[position..], breakpoint, slope, scale, accumulated, requested);
      var nextVolume := VolumeAfter(breakpoint, slope, scale, accumulated);
      assert steps[position..][1..] == steps[position + 1..];
      if nextVolume >= requested {
        scale := ScaleFor(slope, scale, accumulated, requested);
        solved := true;
      } else {
        accumulated := nextVolume;
        scale := breakpoint;
        position := position + 1;
      }
    }
    if !solved {
      WalkEnds(steps[position..], scale, accumulated, requested);
    }
  }

  method SuffixSlopes(f: Nodes, order: seq<nat>) returns (slopes: seq<real>)
    requires f.AllRelevant(order)
    ensures |slopes| == |order| + 1
    ensures forall x | 0 <= x < |order| :: slopes[x] == f.SuffixSlope(order[x..])
  {
    slopes := seq(|order| + 1, i => 0.0);
    var total, correction := 0.0, 0.0;
    for position := |order| downto 0
      invariant |slopes| == |order| + 1 && correction == 0.0
      invariant total == f.SuffixSlope(order[position..])
      invariant forall x | position <= x < |order| :: slopes[x] == f.SuffixSlope(order[x..])
    {
      var index := order[position];
      assert f.Relevant(index);
      var value := Times(f.weights[index], f.profile[index]);
      var next := total + value;
      correction := correction + if Abs(total) >= Abs(value) then (total - next) + value else (value - next) + total;
      assert order[position..][1..] == order[position + 1..];
      total := next;
      slopes := slopes[position := total + correction];
    }
  }

  lemma SolvedScaleIsNonNegative(f: Nodes, requested: real)
    requires f.Valid() && requested > 0.0
    ensures var r := Walk(f.Steps(f.FillOrder(|f.weights|)), 0.0, 0.0, requested);
            r.Some? ==> r.value >= 0.0
  {
    FillOrderSorted(f, |f.weights|);
    WalkReachesVolume(f, f.FillOrder(|f.weights|), requested);
  }
}

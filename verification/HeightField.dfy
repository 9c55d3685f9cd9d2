/** The mutable height field: each update is checked, then applied in place
    (services/simulation-server/src/scenario/height_field.rs, HeightField). */
module HeightField {
  import opened Wrappers
  import opened Sums
  import opened WaterFilling
  import opened Surface
  import opened SlopeRelaxation
  import opened Roughness

  const MAX_SLOPE_RELAXATION_ITERATIONS: nat := 256

  datatype VolumeChange = VolumeChange(requested: real, applied: real)
  datatype RoughnessChange = RoughnessChange(requested: real, applied: real)
  datatype Relaxation = Relaxation(iterations: nat, moved: real, remainingExcess: real)

  /** What an operation needs to know of its centre and radius: whether the centre lies inside the boundary, and for
      every node the value of the Gaussian kernel and the squared relative distance. */
  datatype Footprint = Footprint(inside: bool, radius: real, gaussian: seq<real>, squared: seq<real>) {
    predicate Fits(grid: Grid) {
      |gaussian| == |squared| == |grid.weights|
    }

    predicate Usable() {
      inside && radius > 0.0
    }
  }

  class HeightField {
    const grid: Grid
    var heights: seq<real>

    ghost predicate Valid()
      reads this
    {
      grid.Valid() && grid.Holds(heights)
    }

    constructor (grid: Grid)
      requires grid.Valid()
      ensures Valid() && this.grid == grid && heights == Constant(|grid.weights|, grid.floor)
    {
      this.grid := grid;
      heights := Constant(|grid.weights|, grid.floor);
    }

    method CurrentVolume() returns (volume: real)
      requires Valid()
      ensures volume == grid.Volume(heights)
    {
      volume := WeightedSum(grid.weights, grid.Room(heights, false));
    }

    method RequireCenterRadius(at: Footprint) returns (r: Result<(), GeometryError>)
      ensures r.Success? <==> at.Usable()
      ensures r.Failure? ==> r.error.Invalid?
    {
      if !at.inside {
        return Failure(Invalid("surface operation center must lie inside the boundary"));
      }
      if at.radius <= 0.0 {
        return Failure(Invalid("surface radius must be finite and positive"));
      }
      return Success(());
    }

    // ---------------------------------------------------------------- volume

    method ChangeVolume(requested: real, profile: seq<real>, adding: bool)
      returns (r: Result<VolumeChange, GeometryError>)
      requires Valid() && grid.Reaches(profile) && requested >= 0.0
      modifies this
      ensures Valid() && heights == grid.Changed(old(heights), profile, requested, adding)
      ensures r == Success(VolumeChange(requested,
                                        Min(requested, Abs(grid.Volume(heights) - grid.Volume(old(heights))))))
      ensures grid.Volume(heights)
           == old(grid.Volume(heights))
              + Signed(grid.Moved(if adding then grid.capacity - old(grid.Volume(heights))
                  else old(grid.Volume(heights)),
                                  requested), adding)
    {
      hide Times, Dot, Nodes.HeightDelta;
      var n := |heights|;
      ghost var before := heights;
      var available := Constant(n, 0.0);
      for i := 0 to n
        invariant |available| == n
        invariant forall j | 0 <= j < i :: available[j] == grid.Room(heights, adding)[j]
      {
        available := available[i := if adding then grid.top - heights[i] else heights[i] - grid.floor];
      }
      assert available == grid.Room(heights, adding);
      var solved := SolveHeightDelta(Nodes(profile, available, grid.weights), requested);
      var delta := solved.value;
      var applied := WeightedSum(grid.weights, delta);
      ChangedByDelta(grid, heights, profile, requested, adding);
      ChangeIsExact(grid, heights, profile, requested, adding);
      VolumeInRange(grid, heights);
      AppliedIsClose(grid, if adding then grid.capacity - grid.Volume(heights) else grid.Volume(heights), requested);
      if applied < 0.0 || applied - requested > grid.Tolerance() {
        return Failure(Numerical("surface update did not preserve the requested volume"));
      }
      for i := 0 to n
        invariant |heights| == n
        invariant forall j | 0 <= j < i :: heights[j] == grid.MovedHeight(before[j], delta[j], adding)
        invariant forall j | i <= j < n :: heights[j] == before[j]
      {
        heights := heights[i := if adding then Min(heights[i] + delta[i], grid.top)
                                else Max(heights[i] - delta[i], grid.floor)];
      }
      assert heights == grid.Changed(before, profile, requested, adding);
      r := Success(VolumeChange(requested, Min(requested, applied)));
    }

    /** Adds material around a point. */
    method AddVolume(volume: real, at: Footprint) returns (r: Result<VolumeChange, GeometryError>)
      requires Valid() && at.Fits(grid)
      modifies this
      ensures Valid()
      ensures r.Success? <==> volume >= 0.0 && at.Usable()
      ensures r.Failure? ==> r.error.Invalid? && heights == old(heights)
      ensures r.Success? ==>
                && heights == grid.Changed(old(heights), grid.LocalProfile(at.gaussian), volume, true)
                && grid.Volume(heights)
                   == old(grid.Volume(heights)) + grid.Moved(grid.capacity - old(grid.Volume(heights)), volume)
                && r.value == VolumeChange(volume, Min(volume, grid.Volume(heights) - old(grid.Volume(heights))))
    {
      hide Grid.Moved, Grid.Changed;
      if volume < 0.0 {
        return Failure(Invalid("volume must be finite and non-negative"));
      }
      var checked := RequireCenterRadius(at);
      if checked.Failure? {
        return Failure(checked.error);
      }
      ProfilesReach(grid, at.gaussian);
      VolumeInRange(grid, heights);
      AppliedIsClose(grid, grid.capacity - grid.Volume(heights), volume);
      r := ChangeVolume(volume, grid.LocalProfile(at.gaussian), true);
    }

    /** Removes material around a point. */
    method RemoveVolume(volume: real, at: Footprint) returns (r: Result<VolumeChange, GeometryError>)
      requires Valid() && at.Fits(grid)
      modifies this
      ensures Valid()
      ensures r.Success? <==> volume >= 0.0 && at.Usable()
      ensures r.Failure? ==> r.error.Invalid? && heights == old(heights)
      ensures r.Success? ==>
                && heights == grid.Changed(old(heights), grid.LocalProfile(at.gaussian), volume, false)
                && grid.Volume(heights) == old(grid.Volume(heights)) - grid.Moved(old(grid.Volume(heights)), volume)
                && r.value == VolumeChange(volume, Min(volume, old(grid.Volume(heights)) - grid.Volume(heights)))
    {
      hide Grid.Moved, Grid.Changed;
      if volume < 0.0 {
        return Failure(Invalid("volume must be finite and non-negative"));
      }
      var checked := RequireCenterRadius(at);
      if checked.Failure? {
        return Failure(checked.error);
      }
      ProfilesReach(grid, at.gaussian);
      VolumeInRange(grid, heights);
      AppliedIsClose(grid, grid.Volume(heights), volume);
      r := ChangeVolume(volume, grid.LocalProfile(at.gaussian), false);
    }

    /** Removes the same height everywhere, as far as it is there. */
    method RemoveVolumeUniformly(volume: real) returns (r: Result<VolumeChange, GeometryError>)
      requires Valid()
      modifies this
      ensures Valid()
      ensures r.Success? <==> volume >= 0.0
      ensures r.Failure? ==> r.error.Invalid? && heights == old(heights)
      ensures r.Success? ==>
                && heights == grid.Changed(old(heights), grid.UniformProfile(), volume, false)
                && grid.Volume(heights) == old(grid.Volume(heights)) - grid.Moved(old(grid.Volume(heights)), volume)
                && r.value == VolumeChange(volume, Min(volume, old(grid.Volume(heights)) - grid.Volume(heights)))
    {
      hide Grid.Moved, Grid.Changed;
      if volume < 0.0 {
        return Failure(Invalid("volume must be finite and non-negative"));
      }
      ProfilesReach(grid, Constant(|heights|, 0.0));
      VolumeInRange(grid, heights);
      AppliedIsClose(grid, grid.Volume(heights), volume);
      r := ChangeVolume(volume, grid.UniformProfile(), false);
    }

    // ---------------------------------------------------------------- slopes

    /** Requested volumes and steepest excess per node, turned into a scale per node. */
    method TransferScales(ts: seq<Transfer>, giving: bool) returns (scales: seq<real>)
      requires Valid() && AllDownhill(grid, heights, ts)
      ensures |scales| == |heights|
      ensures forall i | 0 <= i < |scales| :: scales[i] == NodeScale(grid, heights, ts, i, giving)
    {
      hide Times, Adjacent;
      var n := |heights|;
      var requested, excess := Constant(n, 0.0), Constant(n, 0.0);
      for x := 0 to |ts|
        invariant |requested| == |excess| == n
        invariant forall i | 0 <= i < n :: requested[i] == Flow(ts, i, giving, x)
        invariant forall i | 0 <= i < n :: excess[i] == PeakExcess(ts, i, giving, x)
      {
        assert Downhill(grid, heights, ts[x]);
        var index := ts[x].End(giving);
        requested := requested[index := requested[index] + ts[x].volume];
        excess := excess[index := Max(excess[index], ts[x].excess)];
      }
      scales := requested;
      for i := 0 to n
        invariant |scales| == n
        invariant forall j | 0 <= j < i :: scales[j] == NodeScale(grid, heights, ts, j, giving)
        invariant forall j | i <= j < n :: scales[j] == requested[j]
      {
        if scales[i] > 0.0 {
          var availableHeight := if giving then heights[i] - grid.floor else grid.top - heights[i];
          var allowed := Min(Times(availableHeight, grid.weights[i]), Times(excess[i], grid.weights[i]));
          scales := scales[i := Min(allowed / scales[i], 1.0)];
        } else {
          scales := scales[i := 1.0];
        }
      }
    }

    method CollectTransfers(slope: real) returns (ts: seq<Transfer>)
      requires Valid() && slope > 0.0
      ensures ts == Transfers(grid, heights, slope, |grid.first|)
    {
      hide Times;
      ts := [];
      for k := 0 to |grid.first|
        invariant ts == Transfers(grid, heights, slope, k)
      {
        var first, second := grid.first[k], grid.second[k];
        var difference := heights[first] - heights[second];
        var excess := Abs(difference) - Times(slope, grid.distance[k]);
        if excess > 0.0 {
          var source, destination := first, second;
          if difference <= 0.0 {
            source, destination := second, first;
          }
          var volume := LevellingVolume(excess, grid.weights[source], grid.weights[destination]);
          ts := ts + [Transfer(source, destination, volume, excess)];
        }
      }
    }

    /** Two ordered scatter passes add up what leaves and what enters every node. */
    method Scatter(ts: seq<Transfer>) returns (changes: seq<real>)
      requires Valid() && forall x | 0 <= x < |ts| :: ts[x].source < |heights| && ts[x].destination < |heights|
      ensures |changes| == |heights|
      ensures forall i | 0 <= i < |changes| :: changes[i] == NetFlow(ts, i)
    {
      var n := |heights|;
      changes := Constant(n, 0.0);
      for x := 0 to |ts|
        invariant |changes| == n
        invariant forall i | 0 <= i < n :: changes[i] == -Flow(ts, i, true, x)
      {
        changes := changes[ts[x].source := changes[ts[x].source] - ts[x].volume];
      }
      for x := 0 to |ts|
        invariant |changes| == n
        invariant forall i | 0 <= i < n :: changes[i] == Flow(ts, i, false, x) - Flow(ts, i, true, |ts|)
      {
        changes := changes[ts[x].destination := changes[ts[x].destination] + ts[x].volume];
      }
    }

    method Limit(ts: seq<Transfer>) returns (limited: seq<Transfer>)
      requires Valid() && AllDownhill(grid, heights, ts)
      requires forall x | 0 <= x < |ts| :: ts[x].source < |heights| && ts[x].destination < |heights|
      ensures limited == Limited(grid, heights, ts)
    {
      hide Times, NodeScale, Downhill;
      var sourceScales := TransferScales(ts, true);
      var destinationScales := TransferScales(ts, false);
      limited := ts;
      for x := 0 to |ts|
        invariant |limited| == |ts|
        invariant forall y | 0 <= y < x :: limited[y] == LimitedTransfer(grid, heights, ts, y)
        invariant forall y | x <= y < |ts| :: limited[y] == ts[y]
      {
        var t := limited[x];
        limited := limited[x := t.(volume := Times(t.volume, Min(sourceScales[t.source],
                                                                 destinationScales[t.destination])))];
      }
      assert limited == Limited(grid, heights, ts);
    }

    method RelaxNeighborPairs(slope: real) returns (moved: real)
      requires Valid() && slope > 0.0
      modifies this
      ensures Valid()
      ensures heights == Relaxed(grid, old(heights), slope)
      ensures moved == MovedVolume(grid, old(heights), slope)
    {
      hide Transfers, Downhill, Limited, Flow, Adjacent;
      RelaxedHolds(grid, heights, slope);
      TransfersAreDownhill(grid, heights, slope, |grid.first|);
      ghost var before := heights;
      var ts := CollectTransfers(slope);
      EndsInRange(grid, heights, ts);
      if ts == [] {
        NothingToMove(grid, heights, slope);
        return 0.0;
      }
      var limited := Limit(ts);
      assert limited == PassTransfers(grid, heights, slope);
      LimitedEnds(grid, heights, ts);
      var changes := Scatter(limited);
      var n := |heights|;
      for i := 0 to n
        invariant |heights| == n
        invariant forall j | 0 <= j < i :: heights[j] == RelaxedHeight(before[j], grid.weights[j], changes[j])
        invariant forall j | i <= j < n :: heights[j] == before[j]
      {
        if grid.weights[i] > 0.0 {
          heights := heights[i := heights[i] + changes[i] / grid.weights[i]];
        }
      }
      assert heights == Relaxed(grid, before, slope);
      moved := 0.0;
      for x := 0 to |limited|
        invariant moved == TotalVolume(limited, x)
      {
        moved := moved + limited[x].volume;
      }
    }

    /** Relaxes slopes steeper than the angle of repose, whose tangent is given. */
    method RelaxSlopesWith(angleOfRepose: real, tangent: real, maxIterations: nat)
      returns (r: Result<Relaxation, GeometryError>)
      requires Valid() && (0.0 < angleOfRepose < 90.0 ==> tangent > 0.0)
      modifies this
      ensures Valid() && grid.Volume(heights) == old(grid.Volume(heights))
      ensures r.Success? <==> 0.0 < angleOfRepose < 90.0 && 0 < maxIterations <= MAX_SLOPE_RELAXATION_ITERATIONS
      ensures r.Failure? ==> heights == old(heights)
      ensures r.Failure? ==>
                (r.error.Allocation? <==> 0.0 < angleOfRepose < 90.0 && maxIterations > MAX_SLOPE_RELAXATION_ITERATIONS)
                && (r.error.Invalid? <==> !r.error.Allocation?)
      ensures r.Success? ==>
                var settled := Settle(grid, old(heights), tangent, maxIterations);
                && heights == settled.heights
                && r.value == Relaxation(settled.iterations, settled.moved,
                                         SteepestExcess(grid, heights, tangent, |grid.first|))
    {
      hide Settle, SteepestExcess, Adjacent, Times, Dot, Grid.Volume, Grid.Tolerance;
      if angleOfRepose <= 0.0 || angleOfRepose >= 90.0 {
        return Failure(Invalid("angle of repose must be finite and between 0 and 90 degrees"));
      }
      if maxIterations == 0 {
        return Failure(Invalid("slope relaxation iterations must be positive"));
      }
      if maxIterations > MAX_SLOPE_RELAXATION_ITERATIONS {
        return Failure(Allocation("slope relaxation exceeds MAX_SLOPE_RELAXATION_ITERATIONS"));
      }
      SettleIsSafe(grid, heights, tangent, maxIterations, grid.floor, grid.top);
      var initialVolume := CurrentVolume();
      var iterations, moved := RunPasses(tangent, maxIterations);
      ClampAll();
      var volume := CurrentVolume();
      TolerancePositive(grid);
      if Abs(volume - initialVolume) > grid.Tolerance() {
        return Failure(Numerical("slope relaxation did not preserve surface volume"));
      }
      var excess := RemainingExcess(tangent);
      r := Success(Relaxation(iterations, moved, excess));
    }

    /** The final clamp changes nothing, because every pass keeps the limits. */
    method ClampAll()
      requires Valid()
      modifies this
      ensures heights == old(heights)
    {
      for i := 0 to |heights|
        invariant heights == old(heights)
      {
        heights := heights[i := Clamp(heights[i], grid.floor, grid.top)];
      }
    }

    method RemainingExcess(slope: real) returns (excess: real)
      requires Valid()
      ensures excess == SteepestExcess(grid, heights, slope, |grid.first|)
    {
      hide Excess;
      excess := 0.0;
      for k := 0 to |grid.first|
        invariant excess == SteepestExcess(grid, heights, slope, k)
      {
        excess := Max(excess, ExcessOf(k, slope));
      }
    }

    function ExcessOf(k: nat, slope: real): (excess: real)
      requires Valid() && k < |grid.first|
      reads this
      ensures excess == Excess(grid, heights, slope, k)
    {
      Abs(heights[grid.first[k]] - heights[grid.second[k]]) - Times(slope, grid.distance[k])
    }

    method RunPasses(slope: real, maxIterations: nat) returns (iterations: nat, moved: real)
      requires Valid() && slope > 0.0 && maxIterations > 0
      modifies this
      ensures Valid()
      ensures Settled(heights, iterations, moved) == Settle(grid, old(heights), slope, maxIterations)
    {
      hide Relaxed, MovedVolume, Settle, Grid.Tolerance, Grid.Valid, Grid.Holds;
      ghost var goal := Settle(grid, heights, slope, maxIterations);
      iterations, moved := 0, 0.0;
      var settled := false;
      while iterations < maxIterations && !settled
        invariant Valid() && iterations <= maxIterations
        invariant settled || iterations == maxIterations ==> Settled(heights, iterations, moved) == goal
        invariant !settled && iterations < maxIterations ==>
                    goal == ContinuedBy(iterations, moved, Settle(grid, heights, slope, maxIterations - iterations))
        decreases maxIterations - iterations, !settled
      {
        SettleUnfolds(grid, heights, slope, maxIterations - iterations);
        var step := RelaxNeighborPairs(slope);
        moved := moved + step;
        iterations := iterations + 1;
        settled := step <= grid.Tolerance();
      }
    }

    // ---------------------------------------------------------------- roughness

    /** Adds a volume-neutral bump around a point. */
    method ApplyLocalRoughness(at: Footprint, peak: real) returns (r: Result<RoughnessChange, GeometryError>)
      requires Valid() && at.Fits(grid)
      modifies this
      ensures Valid() && grid.Volume(heights) == old(grid.Volume(heights))
      ensures r.Success? <==> at.Usable()
      ensures r.Failure? ==> r.error.Invalid? && heights == old(heights)
      ensures r.Success? ==>
                var roughened := Roughen(grid, old(heights), at.squared, peak);
                heights == roughened.heights && r.value == RoughnessChange(peak, roughened.applied)
    {
      hide Times, Dot, Acts, Shape, FittingScale;
      var checked := RequireCenterRadius(at);
      if checked.Failure? {
        return Failure(checked.error);
      }
      RoughenKeepsVolume(grid, heights, at.squared, peak);
      var n := |heights|;
      var shape := RoughnessShape(at.squared, peak);
      if shape.None? {
        return Success(RoughnessChange(peak, 0.0));
      }
      var delta := shape.value;
      var scale := FitScale(delta);
      scale := Clamp(scale, 0.0, 1.0);
      var scaled := Scaled(scale, delta);
      ShapeIsNeutral(grid, at.squared, peak, scale);
      var volumeDelta := WeightedSum(grid.weights, scaled);
      TolerancePositive(grid);
      if Abs(volumeDelta) > grid.Tolerance() {
        return Failure(Numerical("local roughness did not preserve surface volume"));
      }
      ghost var before := heights;
      for i := 0 to n
        invariant |heights| == n
        invariant forall j | 0 <= j < i :: heights[j] == Clamp(before[j] + scaled[j], grid.floor, grid.top)
        invariant forall j | i <= j < n :: heights[j] == before[j]
      {
        heights := heights[i := Clamp(heights[i] + scaled[i], grid.floor, grid.top)];
      }
      assert heights == Added(grid, before, scaled);
      r := Success(RoughnessChange(peak, Times(peak, scale)));
    }

    /** The change each node would make at the requested peak, or None when nothing can be done. */
    method RoughnessShape(squared: seq<real>, peak: real) returns (shape: Option<seq<real>>)
      requires Valid() && |squared| == |grid.weights|
      ensures shape == if Acts(grid, squared, peak) then Some(Shape(grid, squared, peak)) else None
    {
      hide Times, Dot, Largest, Smallest, Mean;
      if peak == 0.0 {
        return None;
      }
      var count, area := MeasureSupport(squared);
      SupportHasArea(grid, squared, |squared|);
      if count < 2 {
        return None;
      }
      var bumpVolume := WeightedSum(Bumps(grid, squared), grid.weights);
      var mean := bumpVolume / area;
      DotCommutes(Bumps(grid, squared), grid.weights, |squared|);
      MeanIs(grid, squared, bumpVolume, area);
      var centered := Centered(grid, squared, mean);
      var positivePeak, negativePeak := Peaks(centered);
      if positivePeak <= 0.0 || negativePeak >= 0.0 {
        return None;
      }
      return Some(Scaled(peak / positivePeak, centered));
    }

    method MeasureSupport(squared: seq<real>) returns (count: nat, area: real)
      requires Valid() && |squared| == |grid.weights|
      ensures count == SupportCount(grid, squared, |squared|) && area == SupportArea(grid, squared, |squared|)
    {
      count, area := 0, 0.0;
      for i := 0 to |squared|
        invariant count == SupportCount(grid, squared, i) && area == SupportArea(grid, squared, i)
      {
        if Supported(grid, squared, i) {
          count, area := count + 1, area + grid.weights[i];
        }
      }
    }

    method Peaks(s: seq<real>) returns (largest: real, smallest: real)
      requires |s| > 0
      ensures largest == Largest(s, |s|) && smallest == Smallest(s, |s|)
    {
      largest, smallest := s[0], s[0];
      for i := 1 to |s|
        invariant largest == Largest(s, i) && smallest == Smallest(s, i)
      {
        largest, smallest := Max(largest, s[i]), Min(smallest, s[i]);
      }
    }

    method FitScale(delta: seq<real>) returns (scale: real)
      requires Valid() && |delta| == |heights|
      ensures scale == FittingScale(grid, heights, delta, |heights|)
    {
      scale := 1.0;
      for i := 0 to |delta|
        invariant scale == FittingScale(grid, heights, delta, i)
      {
        if delta[i] > 0.0 {
          scale := Min(scale, (grid.top - heights[i]) / delta[i]);
        }
        if delta[i] < 0.0 {
          scale := Min(scale, (heights[i] - grid.floor) / -delta[i]);
        }
      }
    }
  }

  // ---------------------------------------------------------------- lemmas for the methods

  function ContinuedBy(iterations: nat, moved: real, rest: Settled): Settled {
    Settled(rest.heights, iterations + rest.iterations, moved + rest.moved)
  }

  lemma SettleUnfolds(grid: Grid, heights: seq<real>, slope: real, budget: nat)
    requires grid.Valid() && grid.Holds(heights) && slope > 0.0 && budget > 0
    ensures var after, moved := Relaxed(grid, heights, slope), MovedVolume(grid, heights, slope);
            && grid.Holds(after)
            && Settle(grid, heights, slope, budget)
               == if budget == 1 || moved <= grid.Tolerance() then Settled(after, 1, moved)
                  else ContinuedBy(1, moved, Settle(grid, after, slope, budget - 1))
  {
    hide Relaxed, MovedVolume, Grid.Tolerance, Grid.Valid, Grid.Holds;
    RelaxedHolds(grid, heights, slope);
  }

  lemma AppliedIsClose(grid: Grid, room: real, requested: real)
    requires room >= 0.0 && requested >= 0.0
    ensures 0.0 <= grid.Moved(room, requested) <= requested + VOLUME_TOLERANCE
    ensures grid.Moved(room, requested) <= room
    ensures grid.Tolerance() >= VOLUME_TOLERANCE
  {
    TolerancePositive(grid);
  }

  lemma EndsInRange(grid: Grid, heights: seq<real>, ts: seq<Transfer>)
    requires AllDownhill(grid, heights, ts)
    ensures forall x | 0 <= x < |ts| :: ts[x].source < |heights| && ts[x].destination < |heights|
  {
    hide Adjacent;
  }

  lemma LimitedEnds(grid: Grid, heights: seq<real>, ts: seq<Transfer>)
    requires |heights| == |grid.weights|
    requires forall x | 0 <= x < |ts| :: ts[x].source < |heights| && ts[x].destination < |heights|
    ensures var limited := Limited(grid, heights, ts);
            forall x | 0 <= x < |limited| :: limited[x].source < |heights| && limited[x].destination < |heights|
  {
    hide NodeScale;
  }

  lemma NothingToMove(grid: Grid, heights: seq<real>, slope: real)
    requires grid.Valid() && grid.Holds(heights) && slope > 0.0 && Transfers(grid, heights, slope, |grid.first|) == []
    ensures Relaxed(grid, heights, slope) == heights && MovedVolume(grid, heights, slope) == 0.0
  {
    assert PassTransfers(grid, heights, slope) == [];
    forall i | 0 <= i < |heights| ensures Relaxed(grid, heights, slope)[i] == heights[i] {
      ZeroChange(heights[i], grid.weights[i]);
    }
  }

  lemma {:induction false} DotCommutes(a: seq<real>, b: seq<real>, n: nat)
    requires n <= |a| && n <= |b|
    ensures Dot(a, b, n) == Dot(b, a, n)
  {
    hide Times;
    if n > 0 {
      DotCommutes(a, b, n - 1);
      TimesCommutes(a[n - 1], b[n - 1]);
    }
  }

  lemma MeanIs(grid: Grid, squared: seq<real>, bumpVolume: real, area: real)
    requires |squared| == |grid.weights|
    requires area == SupportArea(grid, squared, |squared|) && area > 0.0
    requires bumpVolume == Dot(grid.weights, Bumps(grid, squared), |squared|)
    ensures Mean(grid, squared) == bumpVolume / area
  {
  }
}

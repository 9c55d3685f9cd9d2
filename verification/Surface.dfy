/** The gridded surface and its volume-changing updates
    (services/simulation-server/src/scenario/height_field.rs, change_volume and its callers). */
module Surface {
  import opened Sums
  import opened WaterFilling

  const KERNEL_WEIGHT_FLOOR: real := 0.000000000001

  /** The fixed part of a height field: node areas, height limits, and the pairs of adjacent nodes. */
  datatype Grid = Grid(weights: seq<real>, floor: real, top: real, capacity: real,
                       first: seq<nat>, second: seq<nat>, distance: seq<real>) {
    ghost predicate Valid() {
      && floor < top
      && (forall i | 0 <= i < |weights| :: weights[i] >= 0.0)
      && capacity == Dot(weights, Constant(|weights|, top - floor), |weights|)
      && |first| == |second| == |distance|
      && forall k | 0 <= k < |first| ::
           && first[k] < |weights| && second[k] < |weights| && first[k] != second[k]
           && weights[first[k]] > 0.0 && weights[second[k]] > 0.0 && distance[k] > 0.0
    }

    /** Every height lies between floor and top. */
    ghost predicate Holds(heights: seq<real>) {
      |heights| == |weights| && forall i | 0 <= i < |heights| :: floor <= heights[i] <= top
    }

    /** The height each node can still gain, or lose. */
    function Room(heights: seq<real>, adding: bool): (room: seq<real>)
      ensures |room| == |heights|
      ensures forall i | 0 <= i < |room| :: room[i] == if adding then top - heights[i] else heights[i] - floor
    {
      seq(|heights|, i requires 0 <= i < |heights| => if adding then top - heights[i] else heights[i] - floor)
    }

    function Volume(heights: seq<real>): real
      requires |heights| == |weights|
    {
      Dot(weights, Room(heights, false), |weights|)
    }

    function Tolerance(): real {
      Max(capacity, 1.0) * VOLUME_TOLERANCE
    }

    /** Every node with area, and no other, takes part in an update. */
    ghost predicate Reaches(profile: seq<real>) {
      && |profile| == |weights|
      && forall i | 0 <= i < |profile| :: profile[i] >= 0.0 && (profile[i] > 0.0 <==> weights[i] > 0.0)
    }

    /** The kernel around a point; tails are floored so that every node with area takes part. */
    function LocalProfile(gaussian: seq<real>): (profile: seq<real>)
      requires |gaussian| == |weights|
      ensures |profile| == |weights|
      ensures forall i | 0 <= i < |weights| ::
                profile[i] == if weights[i] > 0.0 then Max(gaussian[i], KERNEL_WEIGHT_FLOOR) else 0.0
    {
      seq(|weights|, i requires 0 <= i < |weights| =>
        if weights[i] > 0.0 then Max(gaussian[i], KERNEL_WEIGHT_FLOOR) else 0.0)
    }

    function UniformProfile(): (profile: seq<real>)
      ensures |profile| == |weights|
      ensures forall i | 0 <= i < |weights| :: profile[i] == if weights[i] > 0.0 then 1.0 else 0.0
    {
      seq(|weights|, i requires 0 <= i < |weights| => if weights[i] > 0.0 then 1.0 else 0.0)
    }

    /** The solver's input for one update. */
    function Update(heights: seq<real>, profile: seq<real>, adding: bool): Nodes {
      Nodes(profile, Room(heights, adding), weights)
    }

    function MovedHeight(height: real, delta: real, adding: bool): real {
      if adding then Min(height + delta, top) else Max(height - delta, floor)
    }

    /** The heights after one update. */
    function Changed(heights: seq<real>, profile: seq<real>, requested: real, adding: bool): (after: seq<real>)
      requires |heights| == |profile| == |weights|
      ensures |after| == |heights|
      ensures var delta := Update(heights, profile, adding).HeightDelta(requested);
              forall i | 0 <= i < |after| :: after[i] == MovedHeight(heights[i], delta[i], adding)
    {
      var delta := Update(heights, profile, adding).HeightDelta(requested);
      seq(|heights|, i requires 0 <= i < |heights| => MovedHeight(heights[i], delta[i], adding))
    }

    /** The volume an update moves: the request, or everything there is once it comes within the tolerance. */
    function Moved(room: real, requested: real): real {
      if requested == 0.0 then 0.0 else if requested >= room - VOLUME_TOLERANCE then room else requested
    }
  }

  function Signed(value: real, positive: bool): real {
    if positive then value else -value
  }

  function Constant(n: nat, value: real): (c: seq<real>)
    ensures |c| == n
    ensures forall i | 0 <= i < n :: c[i] == value
  {
    seq(n, i => value)
  }

  lemma ProfilesReach(grid: Grid, gaussian: seq<real>)
    requires grid.Valid() && |gaussian| == |grid.weights|
    ensures grid.Reaches(grid.LocalProfile(gaussian)) && grid.Reaches(grid.UniformProfile())
  {
  }

  lemma RoomsAddUp(grid: Grid, heights: seq<real>)
    requires |heights| == |grid.weights|
    ensures var n := |grid.weights|;
            Dot(grid.weights, Constant(n, grid.top - grid.floor), n)
            == Dot(grid.weights, grid.Room(heights, true), n) + Dot(grid.weights, grid.Room(heights, false), n)
  {
    hide Times, Dot;
    var n := |grid.weights|;
    DotSum(grid.weights, grid.Room(heights, true), grid.Room(heights, false), Constant(n, grid.top - grid.floor), n);
  }

  /** What can be added and what can be removed make up the capacity. */
  lemma RoomIsCapacity(grid: Grid, heights: seq<real>)
    requires grid.Valid() && grid.Holds(heights)
    ensures Dot(grid.weights, grid.Room(heights, true), |grid.weights|) == grid.capacity - grid.Volume(heights)
  {
    hide Times, Dot;
    RoomsAddUp(grid, heights);
  }

  lemma RoomNonNegative(w: seq<real>, room: seq<real>, n: nat)
    requires n <= |w| && n <= |room|
    requires forall i | 0 <= i < n :: w[i] >= 0.0 && room[i] >= 0.0
    ensures Dot(w, room, n) >= 0.0
  {
    if n > 0 {
      RoomNonNegative(w, room, n - 1);
    }
  }

  /** A surface that holds its limits holds a volume between nothing and the capacity. */
  lemma VolumeInRange(grid: Grid, heights: seq<real>)
    requires grid.Valid() && grid.Holds(heights)
    ensures 0.0 <= grid.Volume(heights) <= grid.capacity
  {
    hide Times;
    RoomIsCapacity(grid, heights);
    RoomNonNegative(grid.weights, grid.Room(heights, true), |heights|);
    RoomNonNegative(grid.weights, grid.Room(heights, false), |heights|);
  }

  lemma FilledInRoom(f: Nodes, scale: real)
    requires f.Valid() && scale >= 0.0
    ensures forall i | 0 <= i < |f.weights| :: 0.0 <= f.Filled(scale)[i] <= f.available[i]
  {
    hide Times;
    forall i | 0 <= i < |f.weights| ensures Times(scale, f.profile[i]) >= 0.0 {
      TimesOrder(scale, 0.0, f.profile[i]);
      TimesZero(scale);
    }
  }

  lemma DeltaInRoom(f: Nodes, requested: real)
    requires f.Valid() && requested >= 0.0
    ensures forall i | 0 <= i < |f.weights| :: 0.0 <= f.HeightDelta(requested)[i] <= f.available[i]
  {
    hide Walk, Nodes.FillOrder, Nodes.Steps, Dot;
    HeightDeltaIsExact(f, requested);
    if f.HeightDelta(requested) != f.available && requested != 0.0 {
      var scale :| scale >= 0.0 && f.HeightDelta(requested) == f.Filled(scale);
      FilledInRoom(f, scale);
    }
  }

  /** The clamp after an update never acts, no node leaves its limits, and the surface gains or loses the weighted
      sum of the deltas. */
  lemma ChangedByDelta(grid: Grid, heights: seq<real>, profile: seq<real>, requested: real, adding: bool)
    requires grid.Valid() && grid.Holds(heights) && grid.Reaches(profile) && requested >= 0.0
    ensures var after, delta := grid.Changed(heights, profile, requested, adding),
                                grid.Update(heights, profile, adding).HeightDelta(requested);
            && grid.Holds(after)
            && (forall i | 0 <= i < |heights| ::
                  0.0 <= delta[i] && after[i] == heights[i] + Signed(delta[i], adding))
            && grid.Volume(after) == grid.Volume(heights) + Signed(Dot(grid.weights, delta, |delta|), adding)
  {
    hide Times, Dot, Nodes.HeightDelta;
    var f := grid.Update(heights, profile, adding);
    var delta, after := f.HeightDelta(requested), grid.Changed(heights, profile, requested, adding);
    DeltaInRoom(f, requested);
    var before, now := grid.Room(heights, false), grid.Room(after, false);
    if adding {
      DotSum(grid.weights, before, delta, now, |heights|);
    } else {
      DotSum(grid.weights, now, delta, before, |heights|);
    }
  }

  lemma AppliedVolume(grid: Grid, heights: seq<real>, profile: seq<real>, requested: real, adding: bool)
    requires grid.Valid() && grid.Holds(heights) && grid.Reaches(profile) && requested >= 0.0
    ensures var delta := grid.Update(heights, profile, adding).HeightDelta(requested);
            Dot(grid.weights, delta, |delta|)
            == grid.Moved(Dot(grid.weights, grid.Room(heights, adding), |grid.weights|), requested)
  {
    hide Times, Nodes.HeightDelta;
    var f := grid.Update(heights, profile, adding);
    var delta, n := f.HeightDelta(requested), |heights|;
    HeightDeltaIsExact(f, requested);
    EverythingReachable(f, n);
    ZeroVolume(grid.weights, n);
  }

  lemma {:induction false} ZeroVolume(w: seq<real>, n: nat)
    requires n <= |w|
    ensures Dot(w, Zeros(|w|), n) == 0.0
  {
    hide Times;
    if n > 0 {
      ZeroVolume(w, n - 1);
      TimesZero(w[n - 1]);
    }
  }

  /** An update moves exactly the requested volume, or all there is when the request comes within the tolerance of it. */
  lemma ChangeIsExact(grid: Grid, heights: seq<real>, profile: seq<real>, requested: real, adding: bool)
    requires grid.Valid() && grid.Holds(heights) && grid.Reaches(profile) && requested >= 0.0
    ensures var after, volume := grid.Changed(heights, profile, requested, adding), grid.Volume(heights);
            && grid.Holds(after)
            && grid.Volume(after)
               == (if adding then volume + grid.Moved(grid.capacity - volume, requested)
                   else volume - grid.Moved(volume, requested))
            && forall i | 0 <= i < |heights| :: Signed(heights[i], adding) <= Signed(after[i], adding)
  {
    hide Nodes.HeightDelta, Times;
    ChangedByDelta(grid, heights, profile, requested, adding);
    AppliedVolume(grid, heights, profile, requested, adding);
    RoomIsCapacity(grid, heights);
  }

  // ---------------------------------------------------------------- what an update does

  /** A volume spread over the surface: every node moves in proportion to its speed until it meets its limit; and once
      the volume comes within the tolerance of all there is, every node is at its limit. */
  ghost predicate Spread(grid: Grid, before: seq<real>, speed: seq<real>, volume: real, adding: bool, after: seq<real>)
    requires |before| == |speed| == |grid.weights|
  {
    && |after| == |before|
    && if volume > 0.0
          && volume >= (if adding then grid.capacity - grid.Volume(before) else grid.Volume(before)) - 0.000000000001
       then forall i | 0 <= i < |after| :: after[i] == if adding then grid.top else grid.floor
       else
         && grid.Volume(after) == (if adding then grid.Volume(before) + volume else grid.Volume(before) - volume)
         && exists scale :: scale >= 0.0 && AtScale(grid, before, speed, scale, adding, after)
  }

  ghost predicate AtScale(grid: Grid, before: seq<real>, speed: seq<real>, scale: real, adding: bool, after: seq<real>)
    requires |before| == |speed| == |after|
  {
    forall i | 0 <= i < |after| ::
      after[i] == if adding then Min(before[i] + Times(scale, speed[i]), grid.top)
                  else Max(before[i] - Times(scale, speed[i]), grid.floor)
  }

  lemma ChangeIsSpread(grid: Grid, heights: seq<real>, profile: seq<real>, requested: real, adding: bool)
    requires grid.Valid() && grid.Holds(heights) && grid.Reaches(profile) && requested >= 0.0
    ensures Spread(grid, heights, profile, requested, adding, grid.Changed(heights, profile, requested, adding))
  {
    hide Times, Dot, Nodes.HeightDelta;
    var f, after := grid.Update(heights, profile, adding), grid.Changed(heights, profile, requested, adding);
    ChangeIsExact(grid, heights, profile, requested, adding);
    ChangedByDelta(grid, heights, profile, requested, adding);
    HeightDeltaIsExact(f, requested);
    EverythingReachable(f, |heights|);
    RoomIsCapacity(grid, heights);
    if requested == 0.0 {
      assert AtScale(grid, heights, profile, 0.0, adding, after) by {
        forall i | 0 <= i < |heights| ensures Times(0.0, profile[i]) == 0.0 { TimesZero(profile[i]); }
      }
    } else if requested < f.Capacity() - VOLUME_TOLERANCE {
      var scale :| scale >= 0.0 && f.HeightDelta(requested) == f.Filled(scale);
      assert AtScale(grid, heights, profile, scale, adding, after);
    }
  }
}

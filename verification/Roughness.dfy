/** A volume-neutral bump on the surface
    (services/simulation-server/src/scenario/height_field.rs, apply_local_roughness). */
module Roughness {
  import opened Sums
  import opened Surface

  /** A node takes part when it has area and lies inside the radius; the argument holds squared relative radii. */
  predicate Supported(grid: Grid, squared: seq<real>, i: nat)
    requires |squared| == |grid.weights| && i < |squared|
  {
    squared[i] < 1.0 && grid.weights[i] > 0.0
  }

  function SupportCount(grid: Grid, squared: seq<real>, n: nat): nat
    requires |squared| == |grid.weights| && n <= |squared|
  {
    if n == 0 then 0 else SupportCount(grid, squared, n - 1) + if Supported(grid, squared, n - 1) then 1 else 0
  }

  function SupportArea(grid: Grid, squared: seq<real>, n: nat): real
    requires |squared| == |grid.weights| && n <= |squared|
  {
    if n == 0 then 0.0
    else SupportArea(grid, squared, n - 1) + if Supported(grid, squared, n - 1) then grid.weights[n - 1] else 0.0
  }

  function Bump(grid: Grid, squared: seq<real>, i: nat): real
    requires |squared| == |grid.weights| && i < |squared|
  {
    if Supported(grid, squared, i) then Times(1.0 - squared[i], 1.0 - squared[i]) else 0.0
  }

  function Bumps(grid: Grid, squared: seq<real>): (bumps: seq<real>)
    requires |squared| == |grid.weights|
    ensures |bumps| == |squared| && forall i | 0 <= i < |bumps| :: bumps[i] == Bump(grid, squared, i)
  {
    seq(|squared|, i requires 0 <= i < |squared| => Bump(grid, squared, i))
  }

  /** The area-weighted mean of the bump over its support. */
  function Mean(grid: Grid, squared: seq<real>): real
    requires |squared| == |grid.weights| && SupportArea(grid, squared, |squared|) > 0.0
  {
    Dot(grid.weights, Bumps(grid, squared), |squared|) / SupportArea(grid, squared, |squared|)
  }

  function Centered(grid: Grid, squared: seq<real>, mean: real): (centered: seq<real>)
    requires |squared| == |grid.weights|
    ensures |centered| == |squared|
    ensures forall i | 0 <= i < |centered| ::
              centered[i] == if Supported(grid, squared, i) then Bump(grid, squared, i) - mean else 0.0
  {
    seq(|squared|, i requires 0 <= i < |squared| =>
      if Supported(grid, squared, i) then Bump(grid, squared, i) - mean else 0.0)
  }

  function Largest(s: seq<real>, n: nat): real
    requires 0 < n <= |s|
  {
    if n == 1 then s[0] else Max(Largest(s, n - 1), s[n - 1])
  }

  function Smallest(s: seq<real>, n: nat): real
    requires 0 < n <= |s|
  {
    if n == 1 then s[0] else Min(Smallest(s, n - 1), s[n - 1])
  }

  function Scaled(factor: real, s: seq<real>): (r: seq<real>)
    ensures |r| == |s| && forall i | 0 <= i < |s| :: r[i] == Times(factor, s[i])
  {
    seq(|s|, i requires 0 <= i < |s| => Times(factor, s[i]))
  }

  /** The scale at which a node with this change would still stay within its limits. */
  function LimitScale(scale: real, delta: real, above: real, below: real): real {
    if delta > 0.0 then Min(scale, above / delta)
    else if delta < 0.0 then Min(scale, below / -delta)
    else scale
  }

  function FittingScale(grid: Grid, heights: seq<real>, delta: seq<real>, n: nat): real
    requires n <= |delta| && n <= |heights|
  {
    if n == 0 then 1.0
    else LimitScale(FittingScale(grid, heights, delta, n - 1), delta[n - 1],
                    grid.top - heights[n - 1], heights[n - 1] - grid.floor)
  }

  /** The heights and the peak change really applied. */
  datatype Roughened = Roughened(heights: seq<real>, applied: real)

  /** A roughness request can act: its support has two nodes, and subtracting the mean leaves a rise and a fall. */
  predicate Acts(grid: Grid, squared: seq<real>, peak: real)
    requires |squared| == |grid.weights|
  {
    && peak != 0.0
    && SupportCount(grid, squared, |squared|) >= 2
    && SupportArea(grid, squared, |squared|) > 0.0
    && var centered := Centered(grid, squared, Mean(grid, squared));
       0 < |centered| && Largest(centered, |centered|) > 0.0 && Smallest(centered, |centered|) < 0.0
  }

  /** The centered bump at the requested peak. */
  function Shape(grid: Grid, squared: seq<real>, peak: real): (delta: seq<real>)
    requires |squared| == |grid.weights| && Acts(grid, squared, peak)
    ensures |delta| == |squared|
  {
    var centered := Centered(grid, squared, Mean(grid, squared));
    Scaled(peak / Largest(centered, |centered|), centered)
  }

  function Roughen(grid: Grid, heights: seq<real>, squared: seq<real>, peak: real): (r: Roughened)
    requires |heights| == |squared| == |grid.weights|
    ensures |r.heights| == |heights|
    ensures !Acts(grid, squared, peak) ==> r == Roughened(heights, 0.0)
  {
    if !Acts(grid, squared, peak) then Roughened(heights, 0.0)
    else
      var delta := Shape(grid, squared, peak);
      var scale := Clamp(FittingScale(grid, heights, delta, |heights|), 0.0, 1.0);
      Roughened(Added(grid, heights, Scaled(scale, delta)), Times(peak, scale))
  }

  function Added(grid: Grid, heights: seq<real>, delta: seq<real>): (after: seq<real>)
    requires |heights| == |delta|
    ensures |after| == |heights|
    ensures forall i | 0 <= i < |after| :: after[i] == Clamp(heights[i] + delta[i], grid.floor, grid.top)
  {
    seq(|heights|, i requires 0 <= i < |heights| => Clamp(heights[i] + delta[i], grid.floor, grid.top))
  }

  // ---------------------------------------------------------------- proofs

  lemma {:induction false} SupportHasArea(grid: Grid, squared: seq<real>, n: nat)
    requires |squared| == |grid.weights| && n <= |squared|
    ensures SupportArea(grid, squared, n) >= 0.0
    ensures SupportCount(grid, squared, n) > 0 ==> SupportArea(grid, squared, n) > 0.0
  {
    if n > 0 {
      SupportHasArea(grid, squared, n - 1);
    }
  }

  lemma {:induction false} CenteredVolume(grid: Grid, squared: seq<real>, mean: real, n: nat)
    requires |squared| == |grid.weights| && n <= |squared|
    ensures Dot(grid.weights, Centered(grid, squared, mean), n)
         == Dot(grid.weights, Bumps(grid, squared), n) - Times(mean, SupportArea(grid, squared, n))
  {
    hide Times;
    if n == 0 {
      TimesZero(mean);
    } else {
      CenteredVolume(grid, squared, mean, n - 1);
      var w := grid.weights[n - 1];
      if Supported(grid, squared, n - 1) {
        TimesSum(w, Bump(grid, squared, n - 1), mean);
        TimesSum(mean, SupportArea(grid, squared, n - 1), w);
        TimesCommutes(w, mean);
      } else {
        TimesZero(w);
      }
    }
  }

  /** Subtracting the mean leaves no volume. */
  lemma CenteredIsNeutral(grid: Grid, squared: seq<real>)
    requires |squared| == |grid.weights| && SupportArea(grid, squared, |squared|) > 0.0
    ensures Dot(grid.weights, Centered(grid, squared, Mean(grid, squared)), |squared|) == 0.0
  {
    hide Times, SupportArea, Dot;
    CenteredVolume(grid, squared, Mean(grid, squared), |squared|);
    QuotientTimes(Dot(grid.weights, Bumps(grid, squared), |squared|), SupportArea(grid, squared, |squared|));
  }

  lemma LimitScaleFits(scale: real, delta: real, above: real, below: real)
    requires 0.0 <= scale <= 1.0 && above >= 0.0 && below >= 0.0
    ensures var r := LimitScale(scale, delta, above, below);
            && 0.0 <= r <= scale
            && -below <= Times(r, delta) <= above
            && (r < scale ==> Times(r, delta) == above || Times(r, delta) == -below)
  {
    if delta > 0.0 {
      QuotientTimes(above, delta);
      Quotient(above, delta);
    } else if delta < 0.0 {
      QuotientTimes(below, -delta);
      Quotient(below, -delta);
      NegativeFactor(LimitScale(scale, delta, above, below), delta);
    }
    SmallerScale(LimitScale(scale, delta, above, below), delta, above, below);
  }

  lemma SmallerScale(scale: real, delta: real, above: real, below: real)
    requires scale >= 0.0 && above >= 0.0 && below >= 0.0
    requires delta > 0.0 ==> scale <= above / delta
    requires delta < 0.0 ==> scale <= below / -delta
    ensures -below <= Times(scale, delta) <= above
  {
    if delta > 0.0 {
      QuotientTimes(above, delta);
      Monotone(scale, above / delta, delta);
    } else if delta < 0.0 {
      QuotientTimes(below, -delta);
      Monotone(scale, below / -delta, -delta);
      NegativeFactor(scale, delta);
    }
  }

  /** A smaller scale keeps what a larger one kept. */
  lemma ShrinkKeepsLimits(small: real, large: real, delta: real, above: real, below: real)
    requires 0.0 <= small <= large && above >= 0.0 && below >= 0.0
    requires -below <= Times(large, delta) <= above
    ensures -below <= Times(small, delta) <= above
  {
    if delta >= 0.0 {
      Monotone(small, large, delta);
    } else {
      Monotone(small, large, -delta);
      NegativeFactor(small, delta);
      NegativeFactor(large, delta);
    }
  }

  /** The fitting scale keeps every node within its limits, and is below 1 only when some node reaches its limit. */
  lemma {:induction false} FittingScaleFits(grid: Grid, heights: seq<real>, delta: seq<real>, n: nat)
    requires grid.Holds(heights) && |delta| == |heights| && n <= |heights|
    ensures var scale := FittingScale(grid, heights, delta, n);
            && 0.0 <= scale <= 1.0
            && (forall i | 0 <= i < n :: grid.floor <= heights[i] + Times(scale, delta[i]) <= grid.top)
            && (scale < 1.0 ==> exists i :: 0 <= i < n && AtLimit(grid, heights[i] + Times(scale, delta[i])))
  {
    hide Times, LimitScale;
    if n > 0 {
      FittingScaleFits(grid, heights, delta, n - 1);
      var before, scale := FittingScale(grid, heights, delta, n - 1), FittingScale(grid, heights, delta, n);
      LimitScaleFits(before, delta[n - 1], grid.top - heights[n - 1], heights[n - 1] - grid.floor);
      forall i | 0 <= i < n - 1 ensures grid.floor <= heights[i] + Times(scale, delta[i]) <= grid.top {
        ShrinkKeepsLimits(scale, before, delta[i], grid.top - heights[i], heights[i] - grid.floor);
      }
      if scale < before {
        assert AtLimit(grid, heights[n - 1] + Times(scale, delta[n - 1]));
      }
    }
  }

  predicate AtLimit(grid: Grid, height: real) {
    height == grid.floor || height == grid.top
  }

  lemma {:induction false} LargestIsAttained(s: seq<real>, n: nat) returns (i: nat)
    requires 0 < n <= |s|
    ensures i < n && s[i] == Largest(s, n)
  {
    i := n - 1;
    if n > 1 && s[n - 1] <= Largest(s, n - 1) {
      i := LargestIsAttained(s, n - 1);
    }
  }

  lemma AddedVolume(grid: Grid, heights: seq<real>, delta: seq<real>)
    requires grid.Valid() && grid.Holds(heights) && |delta| == |heights|
    requires forall i | 0 <= i < |heights| :: grid.floor <= heights[i] + delta[i] <= grid.top
    ensures var after := Added(grid, heights, delta);
            && grid.Holds(after)
            && (forall i | 0 <= i < |heights| :: after[i] == heights[i] + delta[i])
            && grid.Volume(after) == grid.Volume(heights) + Dot(grid.weights, delta, |delta|)
  {
    hide Times, Dot;
    DotSum(grid.weights, grid.Room(heights, false), delta, grid.Room(Added(grid, heights, delta), false), |heights|);
  }

  lemma ShapeIsNeutral(grid: Grid, squared: seq<real>, peak: real, scale: real)
    requires |squared| == |grid.weights| && Acts(grid, squared, peak)
    ensures var delta := Shape(grid, squared, peak);
            Dot(grid.weights, Scaled(scale, delta), |squared|) == 0.0
  {
    hide Times, Dot;
    var centered := Centered(grid, squared, Mean(grid, squared));
    var delta := Shape(grid, squared, peak);
    var amplitude := peak / Largest(centered, |centered|);
    CenteredIsNeutral(grid, squared);
    DotScaled(grid.weights, centered, delta, amplitude, |squared|);
    DotScaled(grid.weights, delta, Scaled(scale, delta), scale, |squared|);
    TimesZero(amplitude);
    TimesZero(scale);
  }

  /** Roughness keeps the volume exactly and every height within its limits, so the closing clamp never acts and the
      volume error cannot occur. Nodes off the support keep their height, one node moves by exactly the applied peak
      change, and less than the requested peak is applied only when a node would pass its limit. */
  lemma RoughenKeepsVolume(grid: Grid, heights: seq<real>, squared: seq<real>, peak: real)
    requires grid.Valid() && grid.Holds(heights) && |squared| == |heights|
    ensures var r := Roughen(grid, heights, squared, peak);
            && grid.Holds(r.heights)
            && grid.Volume(r.heights) == grid.Volume(heights)
            && (forall i | 0 <= i < |heights| :: !Supported(grid, squared, i) ==> r.heights[i] == heights[i])
            && (Acts(grid, squared, peak) ==>
                  && (exists i :: 0 <= i < |heights| && r.heights[i] == heights[i] + r.applied)
                  && (r.applied != peak ==> exists i :: 0 <= i < |heights| && AtLimit(grid, r.heights[i])))
  {
    hide Times, Acts, Dot, Largest, FittingScale;
    if Acts(grid, squared, peak) {
      RoughenActs(grid, heights, squared, peak);
    }
  }

  lemma RoughenActs(grid: Grid, heights: seq<real>, squared: seq<real>, peak: real)
    requires grid.Valid() && grid.Holds(heights) && |squared| == |heights| && Acts(grid, squared, peak)
    ensures var r := Roughen(grid, heights, squared, peak);
            && grid.Holds(r.heights)
            && grid.Volume(r.heights) == grid.Volume(heights)
            && (forall i | 0 <= i < |heights| :: !Supported(grid, squared, i) ==> r.heights[i] == heights[i])
            && (exists i :: 0 <= i < |heights| && r.heights[i] == heights[i] + r.applied)
            && (r.applied != peak ==> exists i :: 0 <= i < |heights| && AtLimit(grid, r.heights[i]))
  {
    hide Times, Dot, FittingScale, Acts, Shape;
    var delta := Shape(grid, squared, peak);
    var scale := FittingScale(grid, heights, delta, |heights|);
    FittingScaleFits(grid, heights, delta, |heights|);
    AddedVolume(grid, heights, Scaled(scale, delta));
    ShapeIsNeutral(grid, squared, peak, scale);
    OffSupport(grid, squared, peak, scale);
    var r := Roughen(grid, heights, squared, peak);
    var i := PeakNode(grid, squared, peak, scale);
    assert r.heights[i] == heights[i] + r.applied;
    TimesOne(peak);
    if r.applied != peak {
      var j :| 0 <= j < |heights| && AtLimit(grid, heights[j] + Times(scale, delta[j]));
      assert AtLimit(grid, r.heights[j]);
    }
  }

  lemma OffSupport(grid: Grid, squared: seq<real>, peak: real, scale: real)
    requires |squared| == |grid.weights| && Acts(grid, squared, peak)
    ensures forall i | 0 <= i < |squared| ::
              !Supported(grid, squared, i) ==> Scaled(scale, Shape(grid, squared, peak))[i] == 0.0
  {
    hide Times, Dot, Largest;
    var centered := Centered(grid, squared, Mean(grid, squared));
    TimesZero(peak / Largest(centered, |centered|));
    TimesZero(scale);
  }

  lemma PeakNode(grid: Grid, squared: seq<real>, peak: real, scale: real) returns (i: nat)
    requires |squared| == |grid.weights| && Acts(grid, squared, peak)
    ensures i < |squared| && Scaled(scale, Shape(grid, squared, peak))[i] == Times(peak, scale)
  {
    hide Times, Dot, Largest;
    var centered := Centered(grid, squared, Mean(grid, squared));
    i := LargestIsAttained(centered, |centered|);
    QuotientTimes(peak, centered[i]);
    TimesCommutes(peak, scale);
  }

  // ---------------------------------------------------------------- what a roughness does

  /** The square of the distance to the rim: 1 at the centre and 0 at the radius. */
  function Rise(squared: real): real {
    Times(1.0 - squared, 1.0 - squared)
  }

  predicate Inside(grid: Grid, squared: seq<real>, i: nat)
    requires |squared| == |grid.weights| && i < |squared|
  {
    squared[i] < 1.0 && grid.weights[i] > 0.0
  }

  /** Two nodes inside the radius rise differently, so that a neutral change exists. */
  ghost predicate Uneven(grid: Grid, squared: seq<real>)
    requires |squared| == |grid.weights|
  {
    exists i: nat, j: nat ::
      i < |squared| && j < |squared| && Inside(grid, squared, i) && Inside(grid, squared, j)
      && Rise(squared[i]) < Rise(squared[j])
  }

  /** Every node inside changes in proportion to how far it rises above the mean, and no other node changes. */
  ghost predicate IsBump(grid: Grid, squared: seq<real>, before: seq<real>, after: seq<real>, factor: real, mean: real)
    requires |squared| == |grid.weights| == |before|
  {
    && |after| == |before|
    && forall i: nat | i < |before| ::
         after[i] - before[i]
         == if Inside(grid, squared, i) then Times(factor, Rise(squared[i]) - mean) else 0.0
  }

  /** No node rises further than this one. */
  ghost predicate IsCrest(grid: Grid, squared: seq<real>, top: nat)
    requires |squared| == |grid.weights|
  {
    && top < |squared| && Inside(grid, squared, top)
    && forall i: nat | i < |squared| && Inside(grid, squared, i) :: Rise(squared[i]) <= Rise(squared[top])
  }

  lemma {:induction false} TwoInside(grid: Grid, squared: seq<real>, n: nat, i: nat, j: nat)
    requires |squared| == |grid.weights| && n <= |squared| && i < |squared| && j < |squared| && i != j
    requires Inside(grid, squared, i) && Inside(grid, squared, j)
    ensures SupportCount(grid, squared, n) >= (if i < n then 1 else 0) + (if j < n then 1 else 0)
    decreases n
  {
    if n > 0 {
      TwoInside(grid, squared, n - 1, i, j);
    }
  }

  lemma {:induction false} BoundsOf(s: seq<real>, n: nat)
    requires 0 < n <= |s|
    ensures forall i | 0 <= i < n :: Smallest(s, n) <= s[i] <= Largest(s, n)
    decreases n
  {
    if n > 1 {
      BoundsOf(s, n - 1);
    }
  }

  lemma {:induction false} SmallestIsAttained(s: seq<real>, n: nat) returns (i: nat)
    requires 0 < n <= |s|
    ensures i < n && s[i] == Smallest(s, n)
    decreases n
  {
    i := n - 1;
    if n > 1 && s[n - 1] >= Smallest(s, n - 1) {
      i := SmallestIsAttained(s, n - 1);
    }
  }

  /** A weighted sum without negative terms is positive as soon as one term is. */
  lemma {:induction false} PositiveTerm(w: seq<real>, s: seq<real>, n: nat, k: nat, positive: bool)
    requires n <= |w| && n <= |s| && (forall i | 0 <= i < n :: w[i] >= 0.0 && Signed(s[i], positive) >= 0.0)
    requires k < |w| && k < |s| && w[k] > 0.0 && Signed(s[k], positive) > 0.0
    ensures Signed(Dot(w, s, n), positive) >= 0.0 && (k < n ==> Signed(Dot(w, s, n), positive) > 0.0)
    decreases n
  {
    hide Times;
    if n > 0 {
      PositiveTerm(w, s, n - 1, k, positive);
      ProductSign(w[n - 1], s[n - 1], positive);
    }
  }

  lemma ProductSign(w: real, x: real, positive: bool)
    requires w >= 0.0 && Signed(x, positive) >= 0.0
    ensures Signed(Times(w, x), positive) >= 0.0
    ensures w > 0.0 && Signed(x, positive) > 0.0 ==> Signed(Times(w, x), positive) > 0.0
  {
  }

  /** With the mean subtracted, some node rises and some node falls exactly when two nodes rise differently. */
  lemma UnevenActs(grid: Grid, squared: seq<real>, peak: real)
    requires grid.Valid() && |squared| == |grid.weights|
    ensures Acts(grid, squared, peak) <==> peak != 0.0 && Uneven(grid, squared)
  {
    hide Times, Dot, Largest, Smallest, SupportCount, SupportArea, Bump, Rise;
    var n := |squared|;
    SupportHasArea(grid, squared, n);
    assert forall i: nat | i < n :: Inside(grid, squared, i) == Supported(grid, squared, i);
    forall i: nat | i < n && Inside(grid, squared, i) ensures Bump(grid, squared, i) == Rise(squared[i]) {
      BumpIsRise(grid, squared, i);
    }
    if peak != 0.0 && Uneven(grid, squared) {
      var i: nat, j: nat :| i < n && j < n && Inside(grid, squared, i) && Inside(grid, squared, j)
                            && Rise(squared[i]) < Rise(squared[j]);
      TwoInside(grid, squared, n, i, j);
      var centered := Centered(grid, squared, Mean(grid, squared));
      BoundsOf(centered, n);
      CenteredIsNeutral(grid, squared);
      if Largest(centered, n) <= 0.0 {
        PositiveTerm(grid.weights, centered, n, i, false);
      }
      if Smallest(centered, n) >= 0.0 {
        PositiveTerm(grid.weights, centered, n, j, true);
      }
    }
    if Acts(grid, squared, peak) {
      var centered := Centered(grid, squared, Mean(grid, squared));
      var j := LargestIsAttained(centered, n);
      var i := SmallestIsAttained(centered, n);
      assert Inside(grid, squared, i) && Inside(grid, squared, j);
    }
  }

  lemma BumpIsRise(grid: Grid, squared: seq<real>, i: nat)
    requires |squared| == |grid.weights| && i < |squared| && Inside(grid, squared, i)
    ensures Bump(grid, squared, i) == Rise(squared[i])
  {
  }

  /** A roughness leaves the surface alone unless it can act. Otherwise it is one bump, neutral in volume, of which the
      crest moves in the direction of the peak, by the whole peak unless a node reaches its limit. */
  lemma RoughenIsBump(grid: Grid, heights: seq<real>, squared: seq<real>, peak: real)
    returns (factor: real, mean: real, top: nat)
    requires grid.Valid() && grid.Holds(heights) && |squared| == |heights|
    ensures var r := Roughen(grid, heights, squared, peak);
            if peak == 0.0 || !Uneven(grid, squared) then r.heights == heights && r.applied == 0.0
            else
              && IsBump(grid, squared, heights, r.heights, factor, mean)
              && grid.Volume(r.heights) == grid.Volume(heights)
              && IsCrest(grid, squared, top) && r.heights[top] - heights[top] == r.applied
              && (if peak > 0.0 then 0.0 <= r.applied <= peak else peak <= r.applied <= 0.0)
              && (r.applied != peak ==> exists i :: 0 <= i < |heights| && AtLimit(grid, r.heights[i]))
  {
    hide Times, Dot, Largest, Smallest, FittingScale, Acts, Uneven, Bump, Rise, IsCrest, IsBump, Mean;
    factor, mean, top := 0.0, 0.0, 0;
    UnevenActs(grid, squared, peak);
    RoughenKeepsVolume(grid, heights, squared, peak);
    if Acts(grid, squared, peak) {
      factor, mean, top := BumpOf(grid, heights, squared, peak);
    }
  }

  lemma BumpOf(grid: Grid, heights: seq<real>, squared: seq<real>, peak: real)
    returns (factor: real, mean: real, top: nat)
    requires grid.Valid() && grid.Holds(heights) && |squared| == |heights| && Acts(grid, squared, peak)
    ensures var r := Roughen(grid, heights, squared, peak);
            && IsBump(grid, squared, heights, r.heights, factor, mean)
            && IsCrest(grid, squared, top) && r.heights[top] - heights[top] == r.applied
            && (if peak > 0.0 then 0.0 <= r.applied <= peak else peak <= r.applied <= 0.0)
  {
    hide Times, Dot, FittingScale, Largest, Smallest, Rise, Bump;
    mean := Mean(grid, squared);
    var centered, delta := Centered(grid, squared, mean), Shape(grid, squared, peak);
    var scale := FittingScale(grid, heights, delta, |heights|);
    var amplitude := peak / Largest(centered, |centered|);
    FittingScaleFits(grid, heights, delta, |heights|);
    AddedVolume(grid, heights, Scaled(scale, delta));
    factor := Times(scale, amplitude);
    forall i: nat | i < |heights|
      ensures Scaled(scale, delta)[i] == Times(factor, centered[i])
      ensures Inside(grid, squared, i) ==> centered[i] == Rise(squared[i]) - mean
      ensures !Inside(grid, squared, i) ==> centered[i] == 0.0
    {
      TimesAssociates(scale, amplitude, centered[i]);
      if Inside(grid, squared, i) {
        BumpIsRise(grid, squared, i);
      }
    }
    TimesZero(factor);
    top := LargestIsAttained(centered, |centered|);
    BoundsOf(centered, |centered|);
    QuotientTimes(peak, centered[top]);
    TimesCommutes(peak, scale);
    ScaledPeak(peak, scale);
  }

  lemma TimesAssociates(a: real, b: real, c: real)
    ensures Times(a, Times(b, c)) == Times(Times(a, b), c)
  {
  }

  lemma ScaledPeak(peak: real, scale: real)
    requires 0.0 <= scale <= 1.0
    ensures if peak > 0.0 then 0.0 <= Times(peak, scale) <= peak else peak <= Times(peak, scale) <= 0.0
  {
  }
}

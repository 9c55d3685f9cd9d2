/** The surface follows its plan: volumes over every run of the scenario
    (services/simulation-server/src/scenario/simulator.rs, apply_phase_change and transition_phase). */
module ScenarioVolume {
  import opened Wrappers
  import opened Sums
  import opened Randomness
  import opened RateProfile
  import opened RateProfileCreation
  import opened Surface
  import opened WaterFilling
  import opened SlopeRelaxation
  import opened Roughness
  import opened HeightField
  import opened Scenario

  /** The profile's integral up to the last update. */
  function Integrated(settings: Settings, s: State): real
    requires settings.Valid() && Sound(settings, s)
  {
    var plan := ActivePlan(s);
    BalancedProfileIsValid(settings, s);
    plan.profile.IntegratedTo(settings.kernel, s.updatedAt - plan.startedAt)
  }

  lemma BalancedProfileIsValid(settings: Settings, s: State)
    requires settings.Valid() && Sound(settings, s)
    ensures ActivePlan(s).profile.Valid() && |s.heights| == |settings.grid.weights|
  {
  }

  /** The volume law. A fill is at rate * F above nothing, a collection at rate * F below its starting volume, up to the
      solver's tolerance; and a deviation from that occurs only at a full, or an empty, surface. */
  ghost predicate OnPlan(settings: Settings, s: State)
    requires settings.Valid() && Sound(settings, s)
  {
    var volume, moved := settings.grid.Volume(s.heights), Times(ActivePlan(s).rate, Integrated(settings, s));
    if s.phase.Filling? then
      && 0.0 < s.fillPlan.targetVolume <= settings.grid.capacity
      && CloseAbove(volume, moved, settings.grid.capacity)
    else
      var starting := s.collectionPlan.value.startingVolume;
      && 0.0 <= starting <= settings.grid.capacity
      && CloseAbove(-volume, moved - starting, 0.0)
  }

  /** The value is the planned one, or it is at the limit and at most the tolerance above the plan. */
  ghost predicate CloseAbove(value: real, planned: real, limit: real) {
    value == planned || (value == limit && planned <= value <= planned + VOLUME_TOLERANCE)
  }

  // ---------------------------------------------------------------- one update of the surface

  /** Slopes and roughness keep the volume, so an update changes it exactly by what the solver moves. */
  lemma ChangedSurfaceVolume(settings: Settings, s: State, requested: real)
    requires settings.Valid() && settings.grid.Holds(s.heights) && requested >= 0.0
    ensures var heights, volume := ChangedSurface(settings, s, requested), settings.grid.Volume(s.heights);
            && settings.grid.Holds(heights)
            && settings.grid.Volume(heights)
               == if s.phase.Filling? then volume + settings.grid.Moved(settings.grid.capacity - volume, requested)
                  else volume - settings.grid.Moved(volume, requested)
  {
    hide Times, Dot, Grid.Changed, Settle, Grid.Moved, Grid.Volume, Grid.LocalProfile, Grid.UniformProfile;
    var grid := settings.grid;
    var profile := if s.phase.Filling? then grid.LocalProfile(settings.footprint(AtInlet(s.inlet),
        settings.spreadRadius).gaussian)
                   else grid.UniformProfile();
    ProfilesReach(grid, settings.footprint(AtInlet(s.inlet), settings.spreadRadius).gaussian);
    ChangeIsExact(grid, s.heights, profile, requested, s.phase.Filling?);
    var changed := grid.Changed(s.heights, profile, requested, s.phase.Filling?);
    HeightsWithinLimits(grid, changed);
    SettleIsSafe(grid, changed, settings.tangent, RELAXATION_ITERATIONS, grid.floor, grid.top);
  }

  lemma HeightsWithinLimits(grid: Grid, heights: seq<real>)
    requires grid.Holds(heights)
    ensures PairedWithin(grid, heights, grid.floor, grid.top)
  {
  }

  lemma RoughenAtVolume(settings: Settings, heights: seq<real>, inlet: nat, position: nat)
    requires settings.Valid() && settings.grid.Holds(heights)
    ensures var r := RoughenAt(settings, heights, inlet, position);
            settings.grid.Holds(r.0) && settings.grid.Volume(r.0) == settings.grid.Volume(heights)
  {
    hide Times, Dot, Roughen, Uniform, Grid.Volume;
    var peak := Uniform(settings.roughnessWords(position), settings.roughnessHeight.lower,
        settings.roughnessHeight.upper);
    if peak != 0.0 {
      var radius := Uniform(settings.roughnessWords(position + 1),
                            settings.roughnessRadius.lower, settings.roughnessRadius.upper);
      var (center, next) := SampleCenter(settings, inlet, position + 2, ROUGHNESS_CENTER_ATTEMPTS);
      RoughenKeepsVolume(settings.grid, heights, settings.footprint(center, radius).squared, peak);
    }
  }

  /** After a successful phase change the volume is the old one plus, or minus, what the solver moves, and only heights
      and the roughness stream have changed. */
  lemma PhaseChangeVolume(settings: Settings, s: State, through: real)
    requires settings.Valid() && Sound(settings, s)
    requires s.updatedAt < through <= ActivePlan(s).startedAt + ActivePlan(s).duration
    ensures Requested(settings, s, through) >= 0.0
    ensures var requested, volume := Requested(settings, s, through), settings.grid.Volume(s.heights);
            var r := ApplyPhaseChange(settings, s, through);
            && (r.Success? <==> Unapplied(settings, s, requested) <= Tolerance(settings.grid))
            && (r.Success? ==>
                  && settings.grid.Holds(r.value.heights)
                  && r.value == s.(heights := r.value.heights, roughnessPosition := r.value.roughnessPosition)
                  && settings.grid.Volume(r.value.heights)
                     == if s.phase.Filling? then volume
                         + settings.grid.Moved(settings.grid.capacity - volume, requested)
                        else volume - settings.grid.Moved(volume, requested))
            && (r.Failure? ==> r.error.State?)
  {
    hide Requested, ChangedSurface, RoughenAt, Grid.Volume, Grid.Moved, Unapplied, Tolerance, Grid.Holds, Balanced,
         ActivePlan;
    RequestIsPositive(settings, s, through);
    var requested := Requested(settings, s, through);
    ChangedSurfaceVolume(settings, s, requested);
    RoughenAtVolume(settings, ChangedSurface(settings, s, requested), s.inlet, s.roughnessPosition);
  }

  // ---------------------------------------------------------------- the law, in plain numbers

  /** One step of a fill: planned volumes p1 < p2 within the capacity. */
  lemma FillStep(grid: Grid, volume: real, p1: real, p2: real)
    requires grid.capacity > 0.0 && p1 < p2 <= grid.capacity && volume <= grid.capacity
    requires CloseAbove(volume, p1, grid.capacity)
    ensures var moved := grid.Moved(grid.capacity - volume, p2 - p1);
            CloseAbove(volume + moved, p2, grid.capacity) && p2 - p1 - moved <= VOLUME_TOLERANCE
  {
  }

  /** The last step of a fill: exactly at the target, unless that is within the tolerance of full. */
  lemma FillEnd(grid: Grid, volume: real, p1: real, target: real)
    requires grid.capacity > 0.0 && p1 <= target <= grid.capacity && volume <= grid.capacity
    requires CloseAbove(volume, p1, grid.capacity)
    ensures var requested := Max(target - volume, 0.0);
            var moved := grid.Moved(grid.capacity - volume, requested);
            && CloseAbove(volume + moved, target, grid.capacity)
            && (target < grid.capacity - VOLUME_TOLERANCE ==> volume + moved == target)
            && requested - moved <= VOLUME_TOLERANCE
  {
  }

  /** One step of a collection: planned removals p1 < p2 within the starting volume. */
  lemma CollectionStep(grid: Grid, volume: real, starting: real, p1: real, p2: real)
    requires p1 <= p2 <= starting && volume >= 0.0
    requires CloseAbove(-volume, p1 - starting, 0.0)
    ensures var requested := Min(volume, p2 - p1);
            var moved := grid.Moved(volume, requested);
            CloseAbove(moved - volume, p2 - starting, 0.0) && requested <= moved + VOLUME_TOLERANCE
  {
  }

  /** The last step of a collection takes everything. */
  lemma CollectionEnd(grid: Grid, volume: real)
    requires volume >= 0.0
    ensures grid.Moved(volume, volume) == volume
  {
  }

  lemma ToleranceCovers(grid: Grid)
    ensures Tolerance(grid) >= VOLUME_TOLERANCE > 0.0
  {
  }

  // ---------------------------------------------------------------- the law over one event

  lemma RateTimesDuration(total: real, duration: real)
    requires duration > 0.0
    ensures Times(total / duration, duration) == total
    ensures total > 0.0 ==> total / duration > 0.0
  {
  }

  /** What was planned by the last update and what is planned by the next one. */
  lemma PlannedVolumes(settings: Settings, s: State, through: real)
    requires settings.Valid() && Sound(settings, s)
    requires s.updatedAt < through <= ActivePlan(s).startedAt + ActivePlan(s).duration
    ensures var plan := ActivePlan(s);
            PlannedChange(settings, s, through)
            == Times(plan.rate, plan.profile.IntegratedTo(settings.kernel, through - plan.startedAt))
               - Times(plan.rate, Integrated(settings, s))
    ensures var plan := ActivePlan(s);
            && Integrated(settings, s) < plan.profile.IntegratedTo(settings.kernel, through - plan.startedAt)
                <= plan.duration
            && (through == plan.startedAt + plan.duration ==>
                  plan.profile.IntegratedTo(settings.kernel, through - plan.startedAt) == plan.duration)
  {
    hide Times, Balanced, Profile.IntegratedTo;
    var plan := ActivePlan(s);
    var limits := if s.phase.Filling? then settings.fillRate else settings.collectionRate;
    BalancedIsValid(plan.profile, limits.lower, limits.upper);
    IntegralIsBounded(plan.profile, settings.kernel, limits.lower, limits.upper,
                      s.updatedAt - plan.startedAt, through - plan.startedAt);
    IntegralRises(plan.profile, settings.kernel, limits.lower, limits.upper, through - plan.startedAt);
    TimesSum(plan.rate, plan.profile.IntegratedTo(settings.kernel, through - plan.startedAt), Integrated(settings, s));
  }

  lemma IntegralRises(p: Profile, kernel: Kernel, lower: real, upper: real, t: real)
    requires kernel.Valid() && Balanced(p, lower, upper) && 0.0 <= t <= p.duration
    ensures p.IntegratedTo(kernel, t) <= p.duration
  {
    hide Profile.IntegratedTo, Total;
    IntegralIsBounded(p, kernel, lower, upper, t, p.duration);
  }

  /** Within a phase every update keeps the volume law, and the planned change can always be applied. */
  lemma UpdateKeepsPlan(settings: Settings, s: State, through: real)
    requires settings.Valid() && Sound(settings, s) && OnPlan(settings, s)
    requires s.updatedAt < through < ActivePlan(s).startedAt + ActivePlan(s).duration
    ensures var r := ApplyPhaseChange(settings, s, through);
            && r.Success?
            && Sound(settings, r.value.(updatedAt := through))
            && OnPlan(settings, r.value.(updatedAt := through))
  {
    hide Times, Balanced, Grid.Volume, Grid.Moved, Tolerance, Integrated, PlannedChange, ApplyPhaseChange, CloseAbove,
         Grid.Holds;
    BalancedProfileIsValid(settings, s);
    var grid, plan, volume := settings.grid, ActivePlan(s), settings.grid.Volume(s.heights);
    var later := plan.profile.IntegratedTo(settings.kernel, through - plan.startedAt);
    var p1, p2 := Times(plan.rate, Integrated(settings, s)), Times(plan.rate, later);
    PlannedVolumes(settings, s, through);
    PhaseChangeVolume(settings, s, through);
    VolumeInRange(grid, s.heights);
    ToleranceCovers(grid);
    PlannedWithinTotal(settings, s, later, Integrated(settings, s));
    if s.phase.Filling? {
      FillStep(grid, volume, p1, p2);
    } else {
      CollectionStep(grid, volume, s.collectionPlan.value.startingVolume, p1, p2);
    }
    SameIntegral(settings, s, ApplyPhaseChange(settings, s, through), through);
  }

  lemma SameIntegral(settings: Settings, s: State, r: Result<State, ScenarioError>, through: real)
    requires settings.Valid() && Sound(settings, s)
             && s.updatedAt < through < ActivePlan(s).startedAt + ActivePlan(s).duration
    requires r.Success? && settings.grid.Holds(r.value.heights)
    requires r.value == s.(heights := r.value.heights, roughnessPosition := r.value.roughnessPosition)
    ensures ActivePlan(s).profile.Valid()
    ensures var t := r.value.(updatedAt := through);
            && Sound(settings, t) && ActivePlan(t) == ActivePlan(s)
            && Integrated(settings, t) == ActivePlan(s).profile.IntegratedTo(settings.kernel,
                through - ActivePlan(s).startedAt)
  {
    BalancedProfileIsValid(settings, s);
  }

  /** Planned volumes stay below the total of the phase, and rise during a fill. */
  lemma PlannedWithinTotal(settings: Settings, s: State, later: real, now: real)
    requires settings.Valid() && Sound(settings, s) && now < later <= ActivePlan(s).duration
    ensures var rate := ActivePlan(s).rate;
            && Times(rate, now) <= Times(rate, later)
            && (s.phase.Filling? ==> Times(rate, later) <= s.fillPlan.targetVolume)
            && (s.phase.Filling? && s.fillPlan.targetVolume > 0.0 ==> Times(rate, now) < Times(rate, later))
            && (s.phase.Collecting? ==> Times(rate, later) <= s.collectionPlan.value.startingVolume)
  {
    hide Balanced;
    var plan := ActivePlan(s);
    var total := if s.phase.Filling? then s.fillPlan.targetVolume else s.collectionPlan.value.startingVolume;
    RateTimesDuration(total, plan.duration);
    TimesOrder(plan.rate, now, later);
    TimesOrder(plan.rate, later, plan.duration);
  }

  /** At the end of a phase: a fill stands at its target, exactly unless the target is within the tolerance of full,
      and a collection has emptied the surface. */
  lemma PhaseEndsOnTarget(settings: Settings, s: State, through: real)
    requires settings.Valid() && Sound(settings, s) && OnPlan(settings, s)
    requires through == ActivePlan(s).startedAt + ActivePlan(s).duration
    ensures var r := ApplyPhaseChange(settings, s, through);
            && r.Success?
            && settings.grid.Holds(r.value.heights)
            && r.value == s.(heights := r.value.heights, roughnessPosition := r.value.roughnessPosition)
            && var volume := settings.grid.Volume(r.value.heights);
               if s.phase.Filling? then
                 && CloseAbove(volume, s.fillPlan.targetVolume, settings.grid.capacity)
                 && (s.fillPlan.targetVolume < settings.grid.capacity - VOLUME_TOLERANCE
                     ==> volume == s.fillPlan.targetVolume)
               else volume == 0.0
  {
    hide Times, Balanced, Grid.Volume, Grid.Moved, Tolerance, Integrated, PlannedChange, ApplyPhaseChange, CloseAbove,
         Grid.Holds;
    BalancedProfileIsValid(settings, s);
    var grid, plan, volume := settings.grid, ActivePlan(s), settings.grid.Volume(s.heights);
    PlannedVolumes(settings, s, through);
    PhaseChangeVolume(settings, s, through);
    VolumeInRange(grid, s.heights);
    ToleranceCovers(grid);
    PlannedWithinTotal(settings, s, plan.duration, Integrated(settings, s));
    if s.phase.Filling? {
      FillEnd(grid, volume, Times(plan.rate, Integrated(settings, s)), s.fillPlan.targetVolume);
    } else {
      CollectionEnd(grid, volume);
    }
  }

  /** The two volume checks of a phase transition can never fail. */
  lemma TransitionChecksPass(settings: Settings, volume: real, target: real)
    requires CloseAbove(volume, target, settings.grid.capacity)
    ensures Abs(volume - target) <= Tolerance(settings.grid)
  {
    ToleranceCovers(settings.grid);
  }

  // ---------------------------------------------------------------- new plans

  /** A new fill plan is sound, and an empty surface is on it. */
  lemma FillPlanStarts(settings: Settings, s: State, at: real)
    requires settings.Valid() && settings.grid.Holds(s.heights) && s.inlet < settings.inlets
    requires s.phase.Filling? && s.updatedAt == at
    ensures var r := WithFillPlan(settings, s, at);
            if r.Success? then
              && Sound(settings, r.value) && r.value.fillPlan.startedAt == at
              && r.value == s.(cyclePosition := r.value.cyclePosition, fillPosition := r.value.fillPosition,
                  fillPlan := r.value.fillPlan)
              && (settings.grid.Volume(s.heights) == 0.0 ==> OnPlan(settings, r.value))
            else r.error == Rate(SegmentLimit)
  {
    hide Times, Balanced, CreateProfile, Uniform, Grid.Volume, Profile.IntegratedTo, Grid.Holds;
    var factor := Uniform(settings.cycleWords(s.cyclePosition), settings.fillDuration.lower,
        settings.fillDuration.upper);
    var duration := Times(settings.meanFillDuration, factor);
    var ratio := Uniform(settings.cycleWords(s.cyclePosition + 1), settings.threshold.lower, settings.threshold.upper);
    var target := Times(settings.grid.capacity, ratio);
    ProductIsPositive(settings.meanFillDuration, factor);
    ProductIsPositive(settings.grid.capacity, ratio);
    TimesOrder(settings.grid.capacity, ratio, 1.0);
    TimesOne(settings.grid.capacity);
    RateTimesDuration(target, duration);
    var request := Request(duration, settings.fillRate.lower, settings.fillRate.upper,
                           settings.fillRateChange.lower, settings.fillRateChange.upper);
    CreatedProfileIsBalanced(settings.fillWords, s.fillPosition, request);
    var r := WithFillPlan(settings, s, at);
    if r.Success? {
      StartsOnPlan(settings, r.value);
    }
  }

  lemma ProductIsPositive(a: real, b: real)
    requires a > 0.0 && b > 0.0
    ensures Times(a, b) > 0.0
  {
  }

  /** Nothing is integrated at the start of a phase. */
  lemma StartsOnPlan(settings: Settings, s: State)
    requires settings.Valid() && Sound(settings, s) && s.updatedAt == ActivePlan(s).startedAt
    ensures Times(ActivePlan(s).rate, Integrated(settings, s)) == 0.0
  {
    hide Balanced, Profile.IntegratedTo;
    var plan := ActivePlan(s);
    var limits := if s.phase.Filling? then settings.fillRate else settings.collectionRate;
    BalancedIsValid(plan.profile, limits.lower, limits.upper);
    IntegralIsBounded(plan.profile, settings.kernel, limits.lower, limits.upper, 0.0, 0.0);
    TimesZero(plan.rate);
  }

  /** A new collection plan is sound, and the surface it starts from is on it. */
  lemma CollectionPlanStarts(settings: Settings, s: State, at: real)
    requires settings.Valid() && settings.grid.Holds(s.heights) && s.inlet < settings.inlets
    requires s.phase.Collecting? && s.updatedAt == at && s.fillPlan.duration > 0.0
    ensures var r := WithCollectionPlan(settings, s, at);
            if r.Success? then
              && Sound(settings, r.value) && r.value.collectionPlan.value.startedAt == at
              && r.value == s.(cyclePosition := r.value.cyclePosition, collectionPosition := r.value.collectionPosition,
                               collectionPlan := r.value.collectionPlan)
              && OnPlan(settings, r.value)
            else r.error == Rate(SegmentLimit)
  {
    hide Times, Balanced, CreateProfile, Uniform, Grid.Volume, Profile.IntegratedTo;
    var factor := Uniform(settings.cycleWords(s.cyclePosition),
                          settings.collectionDuration.lower, settings.collectionDuration.upper);
    var duration := Times(settings.meanFillDuration, factor);
    ProductIsPositive(settings.meanFillDuration, factor);
    VolumeInRange(settings.grid, s.heights);
    Quotient(settings.grid.Volume(s.heights), duration);
    var request := Request(duration, settings.collectionRate.lower, settings.collectionRate.upper,
                           settings.collectionRateChange.lower, settings.collectionRateChange.upper);
    CreatedProfileIsBalanced(settings.collectionWords, s.collectionPosition, request);
    var r := WithCollectionPlan(settings, s, at);
    if r.Success? {
      StartsOnPlan(settings, r.value);
    }
  }
}

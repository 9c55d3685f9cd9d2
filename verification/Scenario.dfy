/** The fill and collect cycle as a pure state machine
    (services/simulation-server/src/scenario/simulator.rs, ScenarioSimulator::advance_inner and what it calls). */
module Scenario {
  import opened Wrappers
  import opened Sums
  import opened Randomness
  import opened RateProfile
  import opened RateProfileCreation
  import opened Surface
  import opened WaterFilling
  import opened SlopeRelaxation
  import opened Roughness
  import opened HeightField

  const STATE_TOLERANCE: real := 0.000000000001
  const ROUGHNESS_CENTER_ATTEMPTS: nat := 32
  const RELAXATION_ITERATIONS: nat := 32
  const U64_LIMIT: nat := 0x1_0000_0000_0000_0000

  datatype ScenarioError = Invalid(message: string) | State(message: string) | Resource(message: string)
                         | Rate(error: RateProfileError)

  datatype Range = Range(lower: real, upper: real) {
    predicate Positive() {
      0.0 < lower <= upper
    }
  }

  /** Where a surface operation is centred: at an inlet, or at the point that two words place around an inlet. */
  datatype Center = AtInlet(inlet: nat) | Around(inlet: nat, distance: Word, angle: Word)

  /** The validated configuration, the random streams, and what the geometry answers about points. */
  datatype Settings = Settings(
    grid: Grid, kernel: Kernel,
    meanFillDuration: real, fillDuration: Range, fillRate: Range, fillRateChange: Range,
    threshold: Range, collectionDuration: Range, collectionRate: Range, collectionRateChange: Range,
    inlets: nat, activationRatio: real, heightDifference: real,
    updateInterval: real, updateTime: nat -> Option<real>,
    roughnessHeight: Range, roughnessRadius: Range, spreadRadius: real, tangent: real,
    inside: Center -> bool, footprint: (Center, real) -> Footprint, meanHeight: (seq<real>, nat) -> real,
    cycleWords: Stream, fillWords: Stream, collectionWords: Stream, roughnessWords: Stream)
  {
    ghost predicate Valid() {
      && grid.Valid() && grid.capacity > 0.0 && kernel.Valid()
      && meanFillDuration > 0.0 && fillDuration.Positive() && collectionDuration.Positive()
      && fillRate.Positive() && fillRate.lower <= 1.0 <= fillRate.upper && fillRateChange.Positive()
      && collectionRate.Positive() && collectionRate.lower <= 1.0 <= collectionRate.upper
      && collectionRateChange.Positive()
      && threshold.Positive() && threshold.upper <= 1.0
      && inlets > 0 && updateInterval > 0.0 && tangent > 0.0 && spreadRadius > 0.0
      && roughnessHeight.lower <= roughnessHeight.upper && roughnessRadius.Positive()
      && (forall inlet | 0 <= inlet < inlets :: inside(AtInlet(inlet)))
      && (forall center, radius: real :: footprint(center, radius).Fits(grid)
            && footprint(center, radius).inside == inside(center) && footprint(center, radius).radius == radius)
    }
  }

  datatype Phase = Filling | Collecting

  datatype FillPlan = FillPlan(startedAt: real, duration: real, targetRatio: real, targetVolume: real,
                               profile: Profile) {
    function EndsAt(): real { startedAt + duration }
    function AverageRate(): real requires duration > 0.0 { targetVolume / duration }
  }

  datatype CollectionPlan = CollectionPlan(startedAt: real, duration: real, startingVolume: real, profile: Profile) {
    function EndsAt(): real { startedAt + duration }
    function AverageRate(): real requires duration > 0.0 { startingVolume / duration }
  }

  datatype State = State(
    heights: seq<real>, cyclePosition: nat, fillPosition: nat, collectionPosition: nat, roughnessPosition: nat,
    elapsed: real, updatedAt: real, nextUpdateIndex: nat, cycleIndex: nat, phase: Phase, inlet: nat,
    fillPlan: FillPlan, collectionPlan: Option<CollectionPlan>)

  /** The plan of the active phase in common terms. */
  datatype Plan = Plan(startedAt: real, duration: real, rate: real, profile: Profile)

  /** The active phase has a balanced profile and a current time inside it; heights and inlet are in range. */
  ghost predicate Sound(settings: Settings, s: State) {
    && settings.grid.Holds(s.heights)
    && s.inlet < settings.inlets
    && (s.phase.Collecting? ==> s.collectionPlan.Some?)
    && s.fillPlan.duration > 0.0
    && var limits := if s.phase.Filling? then settings.fillRate else settings.collectionRate;
       var plan := ActivePlan(s);
       && plan.duration > 0.0 && plan.rate >= 0.0 && Balanced(plan.profile, limits.lower, limits.upper)
       && plan.profile.duration == plan.duration
       && plan.startedAt <= s.updatedAt < plan.startedAt + plan.duration
  }

  function ActivePlan(s: State): Plan
    requires s.phase.Collecting? ==> s.collectionPlan.Some?
  {
    if s.phase.Filling? then
      Plan(s.fillPlan.startedAt, s.fillPlan.duration,
           if s.fillPlan.duration > 0.0 then s.fillPlan.AverageRate() else 0.0, s.fillPlan.profile)
    else
      var plan := s.collectionPlan.value;
      Plan(plan.startedAt, plan.duration, if plan.duration > 0.0 then plan.AverageRate() else 0.0, plan.profile)
  }

  function Tolerance(grid: Grid): real {
    Times(Max(grid.capacity, 1.0), STATE_TOLERANCE)
  }

  // ---------------------------------------------------------------- schedules

  function UpdateTime(settings: Settings, s: State): Result<real, ScenarioError> {
    var value := settings.updateTime(s.nextUpdateIndex);
    if value.None? || value.value <= s.updatedAt then
      Failure(ScenarioError.State("scenario update schedule cannot advance finitely"))
    else Success(value.value)
  }

  function PhaseEnd(s: State): Result<real, ScenarioError> {
    if s.phase.Collecting? && s.collectionPlan.None? then
      Failure(ScenarioError.State("collection phase has no active plan"))
    else
      var end := ActivePlan(s).startedAt + ActivePlan(s).duration;
      if end <= s.updatedAt then Failure(ScenarioError.State("scenario phase schedule cannot advance finitely"))
      else Success(end)
  }

  function NextEvent(settings: Settings, s: State): Result<real, ScenarioError> {
    var update := UpdateTime(settings, s);
    if update.Failure? then update
    else
      var end := PhaseEnd(s);
      if end.Failure? then end else Success(Min(update.value, end.value))
  }

  // ---------------------------------------------------------------- plans

  /** The state with a new fill plan; two cycle words and the words of one profile are consumed. */
  function WithFillPlan(settings: Settings, s: State, startedAt: real): Result<State, ScenarioError>
    requires settings.Valid()
  {
    var factor := Uniform(settings.cycleWords(s.cyclePosition), settings.fillDuration.lower,
        settings.fillDuration.upper);
    var duration := Times(settings.meanFillDuration, factor);
    var ratio := Uniform(settings.cycleWords(s.cyclePosition + 1), settings.threshold.lower, settings.threshold.upper);
    if duration <= 0.0 then Failure(ScenarioError.State("scenario phase schedule cannot advance finitely"))
    else
      var drawn := CreateProfile(settings.fillWords, s.fillPosition,
                                 Request(duration, settings.fillRate.lower, settings.fillRate.upper,
                                         settings.fillRateChange.lower, settings.fillRateChange.upper));
      if drawn.Failure? then Failure(Rate(drawn.error))
      else Success(s.(cyclePosition := s.cyclePosition + 2, fillPosition := drawn.value.position,
                      fillPlan := FillPlan(startedAt, duration, ratio, Times(settings.grid.capacity, ratio),
                                           drawn.value.profile)))
  }

  function WithCollectionPlan(settings: Settings, s: State, startedAt: real): Result<State, ScenarioError>
    requires settings.Valid() && |s.heights| == |settings.grid.weights|
  {
    var factor := Uniform(settings.cycleWords(s.cyclePosition),
                          settings.collectionDuration.lower, settings.collectionDuration.upper);
    var duration := Times(settings.meanFillDuration, factor);
    if duration <= 0.0 then Failure(ScenarioError.State("scenario phase schedule cannot advance finitely"))
    else
      var drawn := CreateProfile(settings.collectionWords, s.collectionPosition,
                                 Request(duration, settings.collectionRate.lower, settings.collectionRate.upper,
                                         settings.collectionRateChange.lower, settings.collectionRateChange.upper));
      if drawn.Failure? then Failure(Rate(drawn.error))
      else Success(s.(cyclePosition := s.cyclePosition + 1, collectionPosition := drawn.value.position,
                      collectionPlan := Some(CollectionPlan(startedAt, duration, settings.grid.Volume(s.heights),
                                                            drawn.value.profile))))
  }

  // ---------------------------------------------------------------- the surface between two events

  /** The volume the profile plans for the time since the last event. */
  function PlannedChange(settings: Settings, s: State, through: real): real
    requires settings.Valid() && Sound(settings, s)
             && s.updatedAt < through <= ActivePlan(s).startedAt + ActivePlan(s).duration
  {
    var plan := ActivePlan(s);
    Times(plan.rate, plan.profile.IntegratedBetween(settings.kernel, Max(s.updatedAt - plan.startedAt, 0.0),
                                                    Min(through - plan.startedAt, plan.duration)).value)
  }

  /** The volume requested of the surface: at the end of a phase, whatever is still missing or left. */
  function Requested(settings: Settings, s: State, through: real): (volume: real)
    requires settings.Valid() && Sound(settings, s)
             && s.updatedAt < through <= ActivePlan(s).startedAt + ActivePlan(s).duration
  {
    var volume := settings.grid.Volume(s.heights);
    var ending := through == ActivePlan(s).startedAt + ActivePlan(s).duration;
    if s.phase.Filling? then
      if ending then Max(s.fillPlan.targetVolume - volume, 0.0) else PlannedChange(settings, s, through)
    else if ending then volume
    else Min(volume, PlannedChange(settings, s, through))
  }

  /** The point where roughness goes: the first of 32 candidates inside the boundary, or else the inlet. */
  function SampleCenter(settings: Settings, inlet: nat, position: nat, attempts: nat): (Center, nat)
    decreases attempts
  {
    if attempts == 0 then (AtInlet(inlet), position)
    else
      var candidate := Around(inlet, settings.roughnessWords(position), settings.roughnessWords(position + 1));
      if settings.inside(candidate) then (candidate, position + 2)
      else SampleCenter(settings, inlet, position + 2, attempts - 1)
  }

  lemma SampleUnfolds(settings: Settings, inlet: nat, position: nat, attempts: nat)
    ensures SampleCenter(settings, inlet, position, 0) == (AtInlet(inlet), position)
    ensures var candidate := Around(inlet, settings.roughnessWords(position), settings.roughnessWords(position + 1));
            attempts > 0 ==>
              SampleCenter(settings, inlet, position, attempts)
              == if settings.inside(candidate) then (candidate, position + 2)
                 else SampleCenter(settings, inlet, position + 2, attempts - 1)
  {
  }

  /** The drawn point is inside the boundary, because every inlet is. */
  lemma {:induction false} CenterIsInside(settings: Settings, inlet: nat, position: nat, attempts: nat)
    requires settings.Valid() && inlet < settings.inlets
    ensures settings.inside(SampleCenter(settings, inlet, position, attempts).0)
    decreases attempts
  {
    if attempts > 0 {
      CenterIsInside(settings, inlet, position + 2, attempts - 1);
    }
  }

  /** Whatever is drawn for a roughness fits the surface and can be used there. */
  lemma RoughnessFits(settings: Settings, center: Center)
    requires settings.Valid()
    ensures settings.roughnessHeight.lower <= settings.roughnessHeight.upper
    ensures 0.0 < settings.roughnessRadius.lower <= settings.roughnessRadius.upper
    ensures forall radius: real ::
              settings.footprint(center, radius).Fits(settings.grid)
              && (settings.inside(center) && radius > 0.0 ==> settings.footprint(center, radius).Usable())
  {
    hide Grid.Valid;
  }

  /** Roughness on a surface, with the number of words used. */
  function RoughenAt(settings: Settings, heights: seq<real>, inlet: nat, position: nat): (r: (seq<real>, nat))
    requires settings.Valid() && |heights| == |settings.grid.weights|
    ensures |r.0| == |heights|
  {
    var peak := Uniform(settings.roughnessWords(position), settings.roughnessHeight.lower,
        settings.roughnessHeight.upper);
    if peak == 0.0 then (heights, position + 1)
    else
      var radius := Uniform(settings.roughnessWords(position + 1),
                            settings.roughnessRadius.lower, settings.roughnessRadius.upper);
      var (center, next) := SampleCenter(settings, inlet, position + 2, ROUGHNESS_CENTER_ATTEMPTS);
      (Roughen(settings.grid, heights, settings.footprint(center, radius).squared, peak).heights, next)
  }

  /** Adds or removes a volume and lets slopes settle. */
  function ChangedSurface(settings: Settings, s: State, requested: real): (heights: seq<real>)
    requires settings.Valid() && settings.grid.Holds(s.heights) && requested >= 0.0
    ensures |heights| == |s.heights|
  {
    var grid := settings.grid;
    var profile := if s.phase.Filling? then grid.LocalProfile(settings.footprint(AtInlet(s.inlet),
        settings.spreadRadius).gaussian)
                   else grid.UniformProfile();
    ProfilesReach(grid, settings.footprint(AtInlet(s.inlet), settings.spreadRadius).gaussian);
    ChangeIsExact(grid, s.heights, profile, requested, s.phase.Filling?);
    Settle(grid, grid.Changed(s.heights, profile, requested, s.phase.Filling?), settings.tangent,
        RELAXATION_ITERATIONS).heights
  }

  function Unapplied(settings: Settings, s: State, requested: real): real
    requires settings.Valid() && |s.heights| == |settings.grid.weights|
  {
    var volume := settings.grid.Volume(s.heights);
    Max(requested - settings.grid.Moved(if s.phase.Filling? then settings.grid.capacity - volume
        else volume, requested), 0.0)
  }

  function ApplyPhaseChange(settings: Settings, s: State, through: real): Result<State, ScenarioError>
    requires settings.Valid() && Sound(settings, s)
             && s.updatedAt < through <= ActivePlan(s).startedAt + ActivePlan(s).duration
  {
    RequestIsPositive(settings, s, through);
    var requested := Requested(settings, s, through);
    var settled := ChangedSurface(settings, s, requested);
    var (heights, position) := if s.phase.Filling? then RoughenAt(settings, settled, s.inlet, s.roughnessPosition)
                               else (settled, s.roughnessPosition);
    if Unapplied(settings, s, requested) > Tolerance(settings.grid) then
      Failure(ScenarioError.State("scenario surface could not apply the planned volume change"))
    else Success(s.(heights := heights, roughnessPosition := position))
  }

  // ---------------------------------------------------------------- phase ends and inlets

  function TransitionPhase(settings: Settings, s: State, at: real): Result<State, ScenarioError>
    requires settings.Valid() && |s.heights| == |settings.grid.weights|
  {
    var volume := settings.grid.Volume(s.heights);
    if s.phase.Filling? then
      if Abs(volume - s.fillPlan.targetVolume) > Tolerance(settings.grid) then
        Failure(ScenarioError.State("fill phase did not reach its planned threshold volume"))
      else WithCollectionPlan(settings, s.(phase := Collecting), at)
    else if volume > Tolerance(settings.grid) then
      Failure(ScenarioError.State("collection phase did not empty the surface"))
    else if s.cycleIndex + 1 >= U64_LIMIT then Failure(Resource("scenario cycle index exceeds the engine limit"))
    else WithFillPlan(settings, s.(cycleIndex := s.cycleIndex + 1, phase := Filling, inlet := 0,
         collectionPlan := None), at)
  }

  function FillRatio(grid: Grid, heights: seq<real>): real
    requires |heights| == |grid.weights| && grid.capacity > 0.0
  {
    Clamp(grid.Volume(heights) / grid.capacity, 0.0, 1.0)
  }

  /** The first inlet below n with the lowest mean height around it. */
  function LowestInlet(settings: Settings, heights: seq<real>, n: nat): (lowest: nat)
    requires n > 0
    ensures lowest < n
  {
    if n == 1 then 0
    else
      var lowest := LowestInlet(settings, heights, n - 1);
      if settings.meanHeight(heights, n - 1) < settings.meanHeight(heights, lowest) then n - 1 else lowest
  }

  function SwitchedInlet(settings: Settings, s: State): (inlet: nat)
    requires settings.Valid() && |s.heights| == |settings.grid.weights| && s.inlet < settings.inlets
    ensures inlet < settings.inlets
  {
    if FillRatio(settings.grid, s.heights) < settings.activationRatio then s.inlet
    else
      var lowest := LowestInlet(settings, s.heights, settings.inlets);
      var current, lowestHeight := settings.meanHeight(s.heights, s.inlet), settings.meanHeight(s.heights, lowest);
      if lowest != s.inlet && current > lowestHeight && current - lowestHeight >= settings.heightDifference then lowest
      else s.inlet
  }

  /** No inlet is lower, and every earlier one is higher. */
  lemma {:induction false} LowestIsFirst(settings: Settings, heights: seq<real>, n: nat, k: nat)
    requires k < n
    ensures var lowest := LowestInlet(settings, heights, n);
            && settings.meanHeight(heights, lowest) <= settings.meanHeight(heights, k)
            && (k < lowest ==> settings.meanHeight(heights, lowest) < settings.meanHeight(heights, k))
    decreases n
  {
    if n > 1 {
      LowestIsFirst(settings, heights, n - 1, if k == n - 1 then 0 else k);
      LowestIsFirst(settings, heights, n - 1, LowestInlet(settings, heights, n - 1));
    }
  }

  /** From the activation ratio on, the inlet stays exactly when no other one is lower by at least the difference; and it
      only ever switches to the lowest. */
  lemma InletSwitchesToLowest(settings: Settings, s: State)
    requires settings.Valid() && |s.heights| == |settings.grid.weights| && s.inlet < settings.inlets
    ensures var next, h := SwitchedInlet(settings, s), settings.meanHeight;
            && (next == s.inlet <==>
                  || FillRatio(settings.grid, s.heights) < settings.activationRatio
                  || forall k: nat | k < settings.inlets ::
                       h(s.heights, s.inlet) <= h(s.heights, k)
                       || h(s.heights, s.inlet) - h(s.heights, k) < settings.heightDifference)
            && (next != s.inlet ==> forall k: nat | k < settings.inlets :: h(s.heights, next) <= h(s.heights, k))
  {
    hide Settings.Valid, FillRatio;
    forall k: nat | k < settings.inlets
      ensures settings.meanHeight(s.heights, LowestInlet(settings, s.heights, settings.inlets))
              <= settings.meanHeight(s.heights, k)
    {
      LowestIsFirst(settings, s.heights, settings.inlets, k);
    }
  }

  // ---------------------------------------------------------------- events

  datatype Snapshot = Snapshot(
    elapsed: real, updatedAt: real, cycleIndex: nat, phase: Phase, phaseStartedAt: real, phaseEndsAt: real,
    phaseDuration: real, rateFactor: real, targetRatio: real, fillRatio: real, volume: real, inlet: Option<nat>)

  datatype Event = Event(elapsed: real, updateDue: bool, transitionDue: bool, snapshot: Snapshot, heights: seq<real>)

  function TakeSnapshot(settings: Settings, s: State): Result<Snapshot, ScenarioError>
    requires settings.Valid() && Sound(settings, s)
  {
    var plan := ActivePlan(s);
    var factor := plan.profile.FactorAt(settings.kernel, Clamp(s.elapsed - plan.startedAt, 0.0, plan.duration));
    if factor.Failure? then Failure(Rate(factor.error))
    else Success(Snapshot(s.elapsed, s.updatedAt, s.cycleIndex, s.phase, plan.startedAt, plan.startedAt + plan.duration,
                          plan.duration, factor.value, s.fillPlan.targetRatio, FillRatio(settings.grid, s.heights),
                          settings.grid.Volume(s.heights), if s.phase.Filling? then Some(s.inlet) else None))
  }

  // ---------------------------------------------------------------- soundness of the parts

  lemma FactorIsAlwaysAvailable(settings: Settings, s: State)
    requires settings.Valid() && Sound(settings, s)
    ensures TakeSnapshot(settings, s).Success?
  {
    hide Balanced;
    var plan := ActivePlan(s);
    var limits := if s.phase.Filling? then settings.fillRate else settings.collectionRate;
    BalancedIsValid(plan.profile, limits.lower, limits.upper);
    FactorIsBounded(plan.profile, settings.kernel, limits.lower, limits.upper,
                    Clamp(s.elapsed - plan.startedAt, 0.0, plan.duration));
  }

  lemma BalancedIsValid(p: Profile, lower: real, upper: real)
    requires Balanced(p, lower, upper)
    ensures p.Valid()
  {
  }

  /** The integral over an interval inside the phase exists and is positive, and so is every request. */
  lemma RequestIsPositive(settings: Settings, s: State, through: real)
    requires settings.Valid() && Sound(settings, s)
             && s.updatedAt < through <= ActivePlan(s).startedAt + ActivePlan(s).duration
    ensures Requested(settings, s, through) >= 0.0
  {
    hide Times, Balanced, Profile.IntegratedTo, Dot;
    var plan := ActivePlan(s);
    var limits := if s.phase.Filling? then settings.fillRate else settings.collectionRate;
    BalancedIsValid(plan.profile, limits.lower, limits.upper);
    IntegralIsBounded(plan.profile, settings.kernel, limits.lower, limits.upper,
                      s.updatedAt - plan.startedAt, through - plan.startedAt);
    VolumeInRange(settings.grid, s.heights);
    TimesOrder(plan.rate, 0.0, plan.profile.IntegratedBetween(settings.kernel, s.updatedAt - plan.startedAt,
                                                             through - plan.startedAt).value);
    TimesZero(plan.rate);
  }
}

/** What one event of a run does, clause by clause: when it happens, what it pours or takes, how the surface settles and
    roughens, which inlet fills next, and what a new phase draws
    (services/simulation-server/src/scenario/simulator.rs, advance_inner and what it calls). */
module ScenarioEvents {
  import opened Wrappers
  import opened Sums
  import opened Randomness
  import opened RateProfile
  import opened RateProfileCreation
  import opened Surface
  import opened SlopeRelaxation
  import opened Roughness
  import opened RelaxationPass
  import opened Scenario
  import opened ScenarioVolume
  import opened ScenarioRuns

  // ---------------------------------------------------------------- when

  function EndOfPhaseAt(s: State): real
    requires s.phase.Collecting? ==> s.collectionPlan.Some?
  {
    if s.phase.Filling? then s.fillPlan.startedAt + s.fillPlan.duration
    else s.collectionPlan.value.startedAt + s.collectionPlan.value.duration
  }

  /** An event happens at the earlier of the next scheduled update and the end of the phase, and is marked by which of
      the two, or both, it meets. */
  lemma TimeOfEvent(settings: Settings, s: State)
    requires settings.Valid() && Sound(settings, s)
    ensures var r := Step(settings, s);
            r.Success? ==>
              var e, update := r.value.event, settings.updateTime(s.nextUpdateIndex);
              && update.Some? && s.updatedAt < update.value && s.updatedAt < EndOfPhaseAt(s)
              && e.elapsed == Min(update.value, EndOfPhaseAt(s))
              && (e.updateDue <==> e.elapsed == update.value)
              && (e.transitionDue <==> e.elapsed == EndOfPhaseAt(s))
  {
    hide Updated, Continued, TakeSnapshot, Settings.Valid, Balanced;
    SoundPhaseEnd(settings, s);
  }

  lemma StepUnfolds(settings: Settings, s: State)
    requires settings.Valid() && Sound(settings, s) && Step(settings, s).Success?
    ensures var t, e := Step(settings, s).value.state, Step(settings, s).value.event;
            var end := ActivePlan(s).startedAt + ActivePlan(s).duration;
            && s.updatedAt < e.elapsed <= end && (e.transitionDue <==> e.elapsed == end)
            && var u := Updated(settings, s, e.elapsed, e.updateDue);
               && u.Success? && |u.value.heights| == |settings.grid.weights| && u.value.inlet < settings.inlets
               && Continued(settings, u.value, e.elapsed, e.transitionDue) == Success(t)
               && Sound(settings, t) && TakeSnapshot(settings, t) == Success(e.snapshot)
  {
    hide Updated, Continued, TakeSnapshot, Settings.Valid, Sound, ActivePlan;
    SoundPhaseEnd(settings, s);
    var update, end := UpdateTime(settings, s), ActivePlan(s).startedAt + ActivePlan(s).duration;
    ContinuedIsSound(settings, s, Min(update.value, end), Min(update.value, end) == update.value);
  }

  lemma StepParts(settings: Settings, s: State)
    requires settings.Valid() && Sound(settings, s) && Step(settings, s).Success?
    ensures var t, e := Step(settings, s).value.state, Step(settings, s).value.event;
            var end := ActivePlan(s).startedAt + ActivePlan(s).duration;
            && s.updatedAt < e.elapsed <= end && (e.transitionDue <==> e.elapsed == end)
            && var u := Updated(settings, s, e.elapsed, e.updateDue);
               && u.Success? && settings.grid.Holds(u.value.heights)
               && u.value == s.(heights := u.value.heights, roughnessPosition := u.value.roughnessPosition,
                                elapsed := e.elapsed, updatedAt := e.elapsed,
                                nextUpdateIndex := s.nextUpdateIndex + if e.updateDue then 1 else 0)
               && |u.value.heights| == |settings.grid.weights| && u.value.inlet < settings.inlets
               && Continued(settings, u.value, e.elapsed, e.transitionDue) == Success(t)
               && t.heights == u.value.heights && t.roughnessPosition == u.value.roughnessPosition
  {
    hide Step, Updated, Continued, TakeSnapshot, Settings.Valid, Sound, Grid.Holds, ActivePlan;
    var e := Step(settings, s).value.event;
    StepUnfolds(settings, s);
    UpdatedMeans(settings, s, e.elapsed, e.updateDue);
    ContinuedLeavesSurface(settings, Updated(settings, s, e.elapsed, e.updateDue).value, e.elapsed, e.transitionDue);
  }

  lemma ContinuedLeavesSurface(settings: Settings, t: State, next: real, transitionDue: bool)
    requires settings.Valid() && |t.heights| == |settings.grid.weights| && t.inlet < settings.inlets
    ensures var r := Continued(settings, t, next, transitionDue);
            r.Success? ==> r.value.heights == t.heights && r.value.roughnessPosition == t.roughnessPosition
  {
    hide CreateProfile, Uniform, SwitchedInlet, Tolerance, Grid.Volume, Times, Settings.Valid;
  }

  // ---------------------------------------------------------------- the inlet

  /** An inlet that stands lower than another by a positive amount of at least the configured difference. */
  predicate MuchLower(settings: Settings, heights: seq<real>, low: nat, high: nat) {
    var h := settings.meanHeight;
    h(heights, high) > h(heights, low) && h(heights, high) - h(heights, low) >= settings.heightDifference
  }

  /** The first inlet of least mean height. */
  ghost predicate FirstLowest(settings: Settings, heights: seq<real>, inlet: nat) {
    && inlet < settings.inlets
    && forall k: nat | k < settings.inlets ::
         && settings.meanHeight(heights, inlet) <= settings.meanHeight(heights, k)
         && (k < inlet ==> settings.meanHeight(heights, inlet) < settings.meanHeight(heights, k))
  }

  lemma RatioBelow(settings: Settings, heights: seq<real>)
    requires settings.Valid() && settings.grid.Holds(heights)
    ensures FillRatio(settings.grid, heights) == settings.grid.Volume(heights) / settings.grid.capacity
  {
    hide Grid.Volume, Times;
    VolumeInRange(settings.grid, heights);
    QuotientRange(settings.grid.capacity - settings.grid.Volume(heights), settings.grid.capacity);
    WithinOne(settings.grid.Volume(heights), settings.grid.capacity);
  }

  lemma WithinOne(volume: real, capacity: real)
    requires 0.0 <= volume <= capacity && capacity > 0.0
    ensures 0.0 <= volume / capacity <= 1.0
  {
  }

  lemma InletChoice(settings: Settings, s: State)
    requires settings.Valid() && settings.grid.Holds(s.heights) && s.inlet < settings.inlets
    ensures var next := SwitchedInlet(settings, s);
            var full := settings.grid.Volume(s.heights) / settings.grid.capacity >= settings.activationRatio;
            && (next == s.inlet <==>
                  !full || forall k: nat | k < settings.inlets :: !MuchLower(settings, s.heights, k, s.inlet))
            && (next != s.inlet ==> FirstLowest(settings, s.heights, next))
  {
    hide Settings.Valid, FillRatio;
    RatioBelow(settings, s.heights);
    assert settings.inlets > 0;
    var lowest := LowestInlet(settings, s.heights, settings.inlets);
    forall k: nat | k < settings.inlets
      ensures settings.meanHeight(s.heights, lowest) <= settings.meanHeight(s.heights, k)
      ensures k < lowest ==> settings.meanHeight(s.heights, lowest) < settings.meanHeight(s.heights, k)
    {
      LowestIsFirst(settings, s.heights, settings.inlets, k);
    }
    assert FirstLowest(settings, s.heights, lowest);
    if SwitchedInlet(settings, s) != s.inlet {
      assert MuchLower(settings, s.heights, lowest, s.inlet);
    }
  }

  /** An event during a fill leaves the inlet exactly when the surface is not full enough, or no inlet is much lower;
      otherwise the fill goes on at the first of the lowest. A new fill starts at inlet 0, a collection changes none. */
  lemma InletOfEvent(settings: Settings, s: State)
    requires settings.Valid() && Sound(settings, s)
    ensures var r := Step(settings, s);
            r.Success? ==>
              var t, e := r.value.state, r.value.event;
              if e.transitionDue then t.inlet == (if s.phase.Filling? then s.inlet else 0)
              else if s.phase.Collecting? then t.inlet == s.inlet
              else
                var full := |t.heights| == |settings.grid.weights|
                            && settings.grid.Volume(t.heights) / settings.grid.capacity >= settings.activationRatio;
                && (t.inlet == s.inlet <==>
                      !full || forall k: nat | k < settings.inlets :: !MuchLower(settings, t.heights, k, s.inlet))
                && (t.inlet != s.inlet ==> FirstLowest(settings, t.heights, t.inlet))
  {
    hide Step, Updated, SwitchedInlet, MuchLower, FirstLowest, Grid.Volume, Tolerance, CreateProfile, Uniform, Times,
         Sound, TakeSnapshot;
    if Step(settings, s).Success? {
      var e := Step(settings, s).value.event;
      SoundPhaseEnd(settings, s);
      StepParts(settings, s);
      InletChoice(settings, Updated(settings, s, e.elapsed, e.updateDue).value);
    }
  }

  // ---------------------------------------------------------------- what is poured or taken

  /** The volume asked of the surface: what the active profile integrates to since the last event, at the average rate;
      at the end of a phase whatever is missing or left; and never more than there is to take. */
  ghost predicate Asked(settings: Settings, s: State, at: real, volume: real)
    requires settings.Valid() && Sound(settings, s) && ActivePlan(s).profile.Valid()
  {
    var held := settings.grid.Volume(s.heights);
    if s.phase.Filling? then
      var plan := s.fillPlan;
      volume == if at == plan.startedAt + plan.duration then Max(plan.targetVolume - held, 0.0)
                else Integral(settings.kernel, plan.profile, plan.targetVolume / plan.duration,
                              s.updatedAt - plan.startedAt, at - plan.startedAt)
    else
      var plan := s.collectionPlan.value;
      volume == if at == plan.startedAt + plan.duration then held
                else Min(held, Integral(settings.kernel, plan.profile, plan.startingVolume / plan.duration,
                                        s.updatedAt - plan.startedAt, at - plan.startedAt))
  }

  function Integral(kernel: Kernel, profile: Profile, rate: real, from: real, to: real): real
    requires profile.Valid()
  {
    Times(rate, profile.IntegratedTo(kernel, to)) - Times(rate, profile.IntegratedTo(kernel, from))
  }

  lemma RequestIsAsked(settings: Settings, s: State, at: real)
    requires settings.Valid() && Sound(settings, s)
    requires s.updatedAt < at <= ActivePlan(s).startedAt + ActivePlan(s).duration
    ensures ActivePlan(s).profile.Valid() && Asked(settings, s, at, Requested(settings, s, at))
  {
    hide Balanced, Times, Profile.IntegratedTo, Grid.Volume, PlannedChange;
    BalancedProfileIsValid(settings, s);
    PlannedVolumes(settings, s, at);
  }

  /** Speeds of the nodes: the kernel around the inlet with its floor, or the same everywhere; nothing without area. */
  ghost predicate Speeds(settings: Settings, s: State, speed: seq<real>) {
    && |speed| == |settings.grid.weights|
    && var gaussian := settings.footprint(AtInlet(s.inlet), settings.spreadRadius).gaussian;
       && |gaussian| == |speed|
       && forall i | 0 <= i < |speed| ::
            speed[i] == if settings.grid.weights[i] <= 0.0 then 0.0
                        else if s.phase.Filling? then Max(gaussian[i], 0.000000000001) else 1.0
  }

  ghost predicate SettlesTo(grid: Grid, slope: real, budget: nat, before: seq<real>, after: seq<real>)
    requires grid.Valid() && slope > 0.0
  {
    exists surfaces, moved ::
      ArePasses(grid, slope, budget, surfaces, moved) && surfaces[0] == before && surfaces[|moved|] == after
  }

  lemma SurfaceChanges(settings: Settings, s: State, requested: real) returns (speed: seq<real>, poured: seq<real>)
    requires settings.Valid() && settings.grid.Holds(s.heights) && requested >= 0.0
    ensures Speeds(settings, s, speed) && Spread(settings.grid, s.heights, speed, requested, s.phase.Filling?, poured)
    ensures SettlesTo(settings.grid, settings.tangent, 32, poured, ChangedSurface(settings, s, requested))
  {
    hide Spread, Speeds, ArePasses, Settle, Grid.Changed, Grid.Volume, Grid.Holds, Grid.Valid, Times;
    var grid, gaussian := settings.grid, settings.footprint(AtInlet(s.inlet), settings.spreadRadius).gaussian;
    SpeedsOf(settings, s);
    HoldsAll(grid, s.heights);
    speed := if s.phase.Filling? then grid.LocalProfile(gaussian) else grid.UniformProfile();
    ProfilesReach(grid, gaussian);
    poured := grid.Changed(s.heights, speed, requested, s.phase.Filling?);
    ChangeIsExact(grid, s.heights, speed, requested, s.phase.Filling?);
    ChangeIsSpread(grid, s.heights, speed, requested, s.phase.Filling?);
    var surfaces, moved := SettlesByPasses(grid, poured, settings.tangent, 32);
  }

  lemma HoldsAll(grid: Grid, heights: seq<real>)
    requires grid.Holds(heights)
    ensures |heights| == |grid.weights|
  {
  }

  lemma SpeedsOf(settings: Settings, s: State)
    requires settings.Valid()
    ensures var grid, gaussian := settings.grid, settings.footprint(AtInlet(s.inlet), settings.spreadRadius).gaussian;
            && |gaussian| == |grid.weights|
            && Speeds(settings, s, if s.phase.Filling? then grid.LocalProfile(gaussian) else grid.UniformProfile())
  {
  }

  /** The roughness after a fill: a height, a radius, and the first of 32 points around the inlet that lies inside the
      boundary, or else the inlet itself; no more than the first word is used for a height of zero. */
  ghost predicate RoughensTo(settings: Settings, inlet: nat, position: nat, before: seq<real>, next: nat,
                             after: seq<real>, peak: real, radius: real, tried: nat)
    requires settings.Valid() && |before| == |settings.grid.weights|
  {
    var words := settings.roughnessWords;
    && IsDraw(words(position), settings.roughnessHeight.lower, settings.roughnessHeight.upper, peak)
    && if peak == 0.0 then next == position + 1 && after == before
       else
         && IsDraw(words(position + 1), settings.roughnessRadius.lower, settings.roughnessRadius.upper, radius)
         && ChosenAfter(settings, inlet, position + 2, tried, 32)
         && next == position + 2 + 2 * (if tried < 32 then tried + 1 else 32)
         && var center := if tried < 32 then Candidate(settings, inlet, position + 2, tried) else AtInlet(inlet);
            after == Roughen(settings.grid, before, settings.footprint(center, radius).squared, peak).heights
  }

  function Candidate(settings: Settings, inlet: nat, position: nat, k: nat): Center {
    Around(inlet, settings.roughnessWords(position + 2 * k), settings.roughnessWords(position + 2 * k + 1))
  }

  /** So many candidates lie outside, and the next one inside unless there is none. */
  ghost predicate ChosenAfter(settings: Settings, inlet: nat, position: nat, tried: nat, attempts: nat) {
    && tried <= attempts
    && (forall k: nat | k < tried :: !settings.inside(Candidate(settings, inlet, position, k)))
    && (tried < attempts ==> settings.inside(Candidate(settings, inlet, position, tried)))
  }

  lemma {:induction false} CenterChosen(settings: Settings, inlet: nat, position: nat, attempts: nat)
    returns (tried: nat)
    ensures ChosenAfter(settings, inlet, position, tried, attempts)
    ensures SampleCenter(settings, inlet, position, attempts)
         == if tried < attempts then (Candidate(settings, inlet, position, tried), position + 2 * (tried + 1))
            else (AtInlet(inlet), position + 2 * attempts)
    decreases attempts
  {
    tried := 0;
    if attempts > 0 && !settings.inside(Candidate(settings, inlet, position, 0)) {
      var later := CenterChosen(settings, inlet, position + 2, attempts - 1);
      tried := later + 1;
      assert Candidate(settings, inlet, position + 2, later) == Candidate(settings, inlet, position, tried);
      forall k: nat | k < tried ensures !settings.inside(Candidate(settings, inlet, position, k)) {
        if k > 0 {
          assert Candidate(settings, inlet, position + 2, k - 1) == Candidate(settings, inlet, position, k);
        }
      }
    }
  }

  lemma RoughenAtMeans(settings: Settings, heights: seq<real>, inlet: nat, position: nat)
    returns (peak: real, radius: real, tried: nat)
    requires settings.Valid() && |heights| == |settings.grid.weights|
    ensures var r := RoughenAt(settings, heights, inlet, position);
            RoughensTo(settings, inlet, position, heights, r.1, r.0, peak, radius, tried)
  {
    hide Uniform, Roughen, SampleCenter, ChosenAfter, Candidate, IsDraw, Grid.Valid;
    var words, h, w := settings.roughnessWords, settings.roughnessHeight, settings.roughnessRadius;
    RoughnessFits(settings, AtInlet(inlet));
    peak, radius := Uniform(words(position), h.lower, h.upper), Uniform(words(position + 1), w.lower, w.upper);
    UniformIsDraw(words(position), h.lower, h.upper);
    UniformIsDraw(words(position + 1), w.lower, w.upper);
    tried := CenterChosen(settings, inlet, position + 2, 32);
  }

  datatype Change = Change(volume: real, speed: seq<real>, poured: seq<real>, settled: seq<real>,
                           peak: real, radius: real, tried: nat)

  ghost predicate IsChange(settings: Settings, s: State, at: real, next: nat, after: seq<real>, c: Change)
    requires settings.Valid() && Sound(settings, s)
  {
    && ActivePlan(s).profile.Valid() && Asked(settings, s, at, c.volume) && Speeds(settings, s, c.speed)
    && |s.heights| == |settings.grid.weights|
    && Spread(settings.grid, s.heights, c.speed, c.volume, s.phase.Filling?, c.poured)
    && SettlesTo(settings.grid, settings.tangent, 32, c.poured, c.settled) && |c.settled| == |s.heights|
    && if s.phase.Filling? then
         RoughensTo(settings, s.inlet, s.roughnessPosition, c.settled, next, after, c.peak, c.radius, c.tried)
       else next == s.roughnessPosition && after == c.settled
  }

  lemma PhaseChangeIs(settings: Settings, s: State, at: real) returns (c: Change)
    requires settings.Valid() && Sound(settings, s)
    requires s.updatedAt < at <= ActivePlan(s).startedAt + ActivePlan(s).duration
    requires ApplyPhaseChange(settings, s, at).Success?
    ensures var t := ApplyPhaseChange(settings, s, at).value;
            IsChange(settings, s, at, t.roughnessPosition, t.heights, c)
  {
    hide Requested, ChangedSurface, RoughenAt, Unapplied, Tolerance, Balanced, ActivePlan, Asked, Speeds, Spread,
         SettlesTo, RoughensTo, Grid.Volume, Times, Settings.Valid;
    RequestIsAsked(settings, s, at);
    RequestIsPositive(settings, s, at);
    var volume := Requested(settings, s, at);
    var speed, poured := SurfaceChanges(settings, s, volume);
    var settled := ChangedSurface(settings, s, volume);
    c := Change(volume, speed, poured, settled, 0.0, 0.0, 0);
    if s.phase.Filling? {
      var peak, radius, tried := RoughenAtMeans(settings, settled, s.inlet, s.roughnessPosition);
      c := Change(volume, speed, poured, settled, peak, radius, tried);
    }
  }

  /** The surface of an event: the volume asked for is poured around the current inlet, or taken evenly; slopes settle
      within 32 passes; and a fill roughens the surface. */
  lemma SurfaceOfEvent(settings: Settings, s: State) returns (c: Change)
    requires settings.Valid() && Sound(settings, s) && Step(settings, s).Success?
    ensures var t, e := Step(settings, s).value.state, Step(settings, s).value.event;
            IsChange(settings, s, e.elapsed, t.roughnessPosition, t.heights, c)
  {
    hide Step, ApplyPhaseChange, IsChange, Sound, Continued, TakeSnapshot, Settings.Valid, ActivePlan;
    var e := Step(settings, s).value.event;
    StepParts(settings, s);
    c := PhaseChangeIs(settings, s, e.elapsed);
  }

  // ---------------------------------------------------------------- what a phase draws

  ghost predicate IsProfile(words: Stream, position: nat, duration: real, rates: Range, changes: Range,
                            profile: Profile, next: nat)
  {
    && profile.Valid() && profile.duration == duration && next == position + 2 * |profile.segments|
    && if rates.lower < 1.0 < rates.upper then
         ArePairs(words, position, Request(duration, rates.lower, rates.upper, changes.lower, changes.upper), 0.0,
                  profile.segments)
       else profile.segments == []
  }

  /** The fill plan of t, drawn from the streams where s left them: a duration, a target, and a rate profile. */
  ghost predicate FillDrawn(settings: Settings, s: State, t: State, at: real, factor: real) {
    && IsDraw(settings.cycleWords(s.cyclePosition), settings.fillDuration.lower, settings.fillDuration.upper, factor)
    && IsDraw(settings.cycleWords(s.cyclePosition + 1), settings.threshold.lower, settings.threshold.upper,
              t.fillPlan.targetRatio)
    && t.fillPlan.startedAt == at && t.fillPlan.duration == Times(settings.meanFillDuration, factor)
    && t.fillPlan.targetVolume == Times(settings.grid.capacity, t.fillPlan.targetRatio)
    && IsProfile(settings.fillWords, s.fillPosition, t.fillPlan.duration, settings.fillRate, settings.fillRateChange,
                 t.fillPlan.profile, t.fillPosition)
    && t.cyclePosition == s.cyclePosition + 2 && t.collectionPosition == s.collectionPosition
    && t.collectionPlan == None
  }

  /** The collection plan of t: a duration, everything that is on the surface, and a rate profile. */
  ghost predicate CollectionDrawn(settings: Settings, s: State, t: State, at: real, factor: real) {
    && |t.heights| == |settings.grid.weights| && t.collectionPlan.Some?
    && t.cyclePosition == s.cyclePosition + 1 && t.fillPosition == s.fillPosition && t.fillPlan == s.fillPlan
    && var plan := t.collectionPlan.value;
    && IsDraw(settings.cycleWords(s.cyclePosition), settings.collectionDuration.lower,
              settings.collectionDuration.upper, factor)
    && plan.startedAt == at && plan.duration == Times(settings.meanFillDuration, factor)
    && plan.startingVolume == settings.grid.Volume(t.heights)
    && IsProfile(settings.collectionWords, s.collectionPosition, plan.duration, settings.collectionRate,
                 settings.collectionRateChange, plan.profile, t.collectionPosition)
  }

  lemma CreatedIsProfile(words: Stream, position: nat, duration: real, rates: Range, changes: Range)
    requires var request := Request(duration, rates.lower, rates.upper, changes.lower, changes.upper);
             && CreateProfile(words, position, request).Success?
             && request.Rejection() == None
    ensures var request := Request(duration, rates.lower, rates.upper, changes.lower, changes.upper);
            var drawn := CreateProfile(words, position, request).value;
            IsProfile(words, position, duration, rates, changes, drawn.profile, drawn.position)
  {
    hide CreateProfile, ArePairs, Total;
    var request := Request(duration, rates.lower, rates.upper, changes.lower, changes.upper);
    CreatedProfileIsDrawn(words, position, request);
    CreatedProfileIsBalanced(words, position, request);
  }

  lemma FillIsDrawn(settings: Settings, s: State, at: real) returns (factor: real)
    requires settings.Valid() && WithFillPlan(settings, s, at).Success? && s.collectionPlan == None
    ensures FillDrawn(settings, s, WithFillPlan(settings, s, at).value, at, factor)
  {
    hide CreateProfile, Uniform, IsDraw, IsProfile, Times, Grid.Valid;
    var word, d, threshold := settings.cycleWords, settings.fillDuration, settings.threshold;
    factor := Uniform(word(s.cyclePosition), d.lower, d.upper);
    UniformIsDraw(word(s.cyclePosition), d.lower, d.upper);
    UniformIsDraw(word(s.cyclePosition + 1), threshold.lower, threshold.upper);
    CreatedIsProfile(settings.fillWords, s.fillPosition, Times(settings.meanFillDuration, factor), settings.fillRate,
                     settings.fillRateChange);
  }

  lemma CollectionIsDrawn(settings: Settings, s: State, at: real) returns (factor: real)
    requires settings.Valid() && |s.heights| == |settings.grid.weights| && WithCollectionPlan(settings, s, at).Success?
    ensures CollectionDrawn(settings, s, WithCollectionPlan(settings, s, at).value, at, factor)
  {
    hide CreateProfile, Uniform, IsDraw, IsProfile, Times, Grid.Valid, Grid.Volume;
    var word, d := settings.cycleWords, settings.collectionDuration;
    factor := Uniform(word(s.cyclePosition), d.lower, d.upper);
    UniformIsDraw(word(s.cyclePosition), d.lower, d.upper);
    CreatedIsProfile(settings.collectionWords, s.collectionPosition, Times(settings.meanFillDuration, factor),
                     settings.collectionRate, settings.collectionRateChange);
  }

  /** Only a transition draws a plan: the end of a fill that of a collection, the end of a collection that of a fill. Any
      other event leaves plans and their streams alone. */
  lemma PlansOfEvent(settings: Settings, s: State) returns (factor: real)
    requires settings.Valid() && Sound(settings, s) && Step(settings, s).Success?
    ensures var t, e := Step(settings, s).value.state, Step(settings, s).value.event;
            if !e.transitionDue then
              && t.fillPlan == s.fillPlan && t.collectionPlan == s.collectionPlan && t.phase == s.phase
              && t.cyclePosition == s.cyclePosition && t.fillPosition == s.fillPosition
              && t.collectionPosition == s.collectionPosition
            else if s.phase.Filling? then t.phase.Collecting? && CollectionDrawn(settings, s, t, e.elapsed, factor)
            else t.phase.Filling? && FillDrawn(settings, s, t, e.elapsed, factor)
  {
    hide Step, Updated, WithFillPlan, WithCollectionPlan, Sound, SwitchedInlet, TakeSnapshot, Settings.Valid,
         Tolerance, Grid.Volume, IsProfile, IsDraw, Times;
    var e := Step(settings, s).value.event;
    SoundPhaseEnd(settings, s);
    StepParts(settings, s);
    var u := Updated(settings, s, e.elapsed, e.updateDue).value;
    factor := 0.0;
    if e.transitionDue {
      if s.phase.Filling? {
        CollectionPlanKeeps(settings, u.(phase := Collecting), e.elapsed);
        factor := CollectionIsDrawn(settings, u.(phase := Collecting), e.elapsed);
      } else {
        var empty := u.(cycleIndex := u.cycleIndex + 1, phase := Filling, inlet := 0, collectionPlan := None);
        FillPlanKeeps(settings, empty, e.elapsed);
        factor := FillIsDrawn(settings, empty, e.elapsed);
      }
    }
  }

  lemma FillPlanKeeps(settings: Settings, s: State, at: real)
    requires settings.Valid()
    ensures var r := WithFillPlan(settings, s, at); r.Success? ==> r.value.phase == s.phase
  {
    hide CreateProfile, Uniform, Times, Settings.Valid;
  }

  lemma CollectionPlanKeeps(settings: Settings, s: State, at: real)
    requires settings.Valid() && |s.heights| == |settings.grid.weights|
    ensures var r := WithCollectionPlan(settings, s, at); r.Success? ==> r.value.phase == s.phase
  {
    hide CreateProfile, Uniform, Times, Settings.Valid, Grid.Volume;
  }

  /** A simulation starts empty, filling at inlet 0, with a fill plan drawn from the very beginning of the streams. */
  lemma StartIsDrawn(settings: Settings) returns (factor: real, s: State)
    requires settings.Valid() && Start(settings).Success?
    ensures var t := Start(settings).value;
            && |t.heights| == |settings.grid.weights| && (forall h | h in t.heights :: h == settings.grid.floor)
            && t.elapsed == t.updatedAt == 0.0 && t.nextUpdateIndex == 1 && t.cycleIndex == 0 && t.inlet == 0
            && t.phase.Filling? && t.roughnessPosition == 0
            && s.cyclePosition == s.fillPosition == s.collectionPosition == 0 && FillDrawn(settings, s, t, 0.0, factor)
  {
    hide WithFillPlan, FillDrawn, Settings.Valid;
    s := State.State(Constant(|settings.grid.weights|, settings.grid.floor), 0, 0, 0, 0, 0.0, 0.0, 1, 0, Filling, 0,
                     FillPlan(0.0, 1.0, 0.0, 0.0, Profile(1.0, [], Prefixes([]))), None);
    factor := FillIsDrawn(settings, s, 0.0);
    FillPlanLeaves(settings, s, 0.0);
  }

  lemma FillPlanLeaves(settings: Settings, s: State, at: real)
    requires settings.Valid()
    ensures var r := WithFillPlan(settings, s, at);
            r.Success? ==> r.value == s.(cyclePosition := r.value.cyclePosition, fillPosition := r.value.fillPosition,
                                         fillPlan := r.value.fillPlan)
  {
    hide CreateProfile, Uniform, Times, Settings.Valid;
  }

  // ---------------------------------------------------------------- what an event reports

  /** A snapshot reports the active phase, the factor of its profile at the time within it, the target of the last fill,
      and how full the surface is; it names the inlet only during a fill. */
  lemma SnapshotOfEvent(settings: Settings, s: State)
    requires settings.Valid() && Sound(settings, s)
    ensures var r := Step(settings, s);
            r.Success? ==>
              var t, p := r.value.state, r.value.event.snapshot;
              && Sound(settings, t) && |t.heights| == |settings.grid.weights|
              && p.elapsed == p.updatedAt == r.value.event.elapsed && p.phase == t.phase && p.cycleIndex == t.cycleIndex
              && p.phaseEndsAt == EndOfPhaseAt(t) == p.phaseStartedAt + p.phaseDuration
              && p.phaseStartedAt == (if t.phase.Filling? then t.fillPlan.startedAt else t.collectionPlan.value.startedAt)
              && p.volume == settings.grid.Volume(t.heights) && p.fillRatio == p.volume / settings.grid.capacity
              && p.targetRatio == t.fillPlan.targetRatio
              && p.inlet == (if t.phase.Filling? then Some(t.inlet) else None)
              && var profile := if t.phase.Filling? then t.fillPlan.profile else t.collectionPlan.value.profile;
                 && profile.Valid()
                 && profile.FactorAt(settings.kernel, p.elapsed - p.phaseStartedAt) == Success(p.rateFactor)
  {
    hide Step, Sound, Updated, Continued, Settings.Valid, Grid.Volume, Profile.FactorAt, Grid.Holds, FillRatio;
    StepMeans(settings, s);
    var r := Step(settings, s);
    if r.Success? {
      BalancedProfileIsValid(settings, r.value.state);
      SoundTimes(settings, r.value.state);
      RatioBelow(settings, r.value.state.heights);
    }
  }

  lemma SoundTimes(settings: Settings, s: State)
    requires settings.Valid() && Sound(settings, s)
    ensures ActivePlan(s).startedAt <= s.updatedAt < ActivePlan(s).startedAt + ActivePlan(s).duration
    ensures settings.grid.Holds(s.heights) && (s.phase.Collecting? ==> s.collectionPlan.Some?)
  {
  }

  // ---------------------------------------------------------------- how far one advance may go

  /** As many events as fit 16 MiB of heights at eight bytes each, but no more than 4096. */
  lemma LimitOfEvents(nodes: nat)
    requires nodes > 0
    ensures var limit := EventLimit(nodes);
            && limit.Success? && limit.value <= 4096 && Size(limit.value, nodes) <= 16_777_216
            && (limit.value < 4096 ==> Size(limit.value + 1, nodes) > 16_777_216)
  {
    FittingCount(nodes);
  }

  function Size(events: nat, nodes: nat): nat {
    8 * events * nodes
  }

  lemma FittingCount(nodes: nat)
    requires nodes > 0
    ensures var fitting := 16_777_216 / (8 * nodes);
            && 0 <= fitting && Size(fitting, nodes) <= 16_777_216 && Size(fitting + 1, nodes) > 16_777_216
            && (fitting >= 4096 ==> Size(4096, nodes) <= 16_777_216)
  {
    var fitting := 16_777_216 / (8 * nodes);
    assert fitting * (8 * nodes) <= 16_777_216 < (fitting + 1) * (8 * nodes);
  }

  /** An advance refuses to go back in time, and to make more updates than its limit by their numbers alone. Otherwise it
      is the run up to its time with that limit. */
  lemma AdvanceIsRun(settings: Settings, s: State, until: real)
    requires settings.Valid() && Sound(settings, s)
    ensures |s.heights| > 0 && EventLimit(|s.heights|).Success?
    ensures var r, limit := Advance(settings, s, until), EventLimit(|s.heights|).value;
            var completed := if s.nextUpdateIndex == 0 then 0 else s.nextUpdateIndex - 1;
            if until < s.elapsed then r.Failure? && r.error.Invalid?
            else if Times(settings.updateInterval, (completed + limit + 1) as real) <= until then
              r.Failure? && r.error.Resource?
            else r == Run(settings, s, until, limit)
  {
    hide Sound, Run;
    SurfaceHasNodes(settings);
    SoundPhaseEnd(settings, s);
    var completed: nat := if s.nextUpdateIndex == 0 then 0 else s.nextUpdateIndex - 1;
    var limit := EventLimit(|s.heights|).value;
    FloorExceeds(until, settings.updateInterval, completed + limit);
  }

  lemma FloorExceeds(until: real, interval: real, n: nat)
    requires interval > 0.0
    ensures (until / interval).Floor > n <==> Times(interval, (n + 1) as real) <= until
  {
    QuotientTimes(until, interval);
    TimesCommutes(until / interval, interval);
    if (n + 1) as real <= until / interval {
      TimesOrder(interval, (n + 1) as real, until / interval);
    } else {
      StrictOrder(interval, until / interval, (n + 1) as real);
    }
  }

  lemma StrictOrder(weight: real, a: real, b: real)
    requires weight > 0.0 && a < b
    ensures Times(weight, a) < Times(weight, b)
  {
  }
}

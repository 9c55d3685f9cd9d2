/** Whole runs of the scenario: what every event keeps, and why cutting a run in two changes nothing
    (services/simulation-server/src/scenario/simulator.rs, advance_to and advance_inner). */
module ScenarioRuns {
  import opened Wrappers
  import opened Sums
  import opened Surface
  import opened WaterFilling
  import opened Randomness
  import opened RateProfile
  import opened RateProfileCreation
  import opened SlopeRelaxation
  import opened Scenario
  import opened ScenarioVolume

  const MAX_EVENTS_PER_ADVANCE: nat := 4_096
  const MAX_EVENT_SNAPSHOT_BYTES: nat := 16 * 1024 * 1024

  datatype Stepped = Stepped(state: State, event: Event)
  datatype Ran = Ran(state: State, events: seq<Event>)

  // ---------------------------------------------------------------- one event

  /** The surface brought up to the event, and the update counter when an update is due. */
  function Updated(settings: Settings, s: State, next: real, updateDue: bool): Result<State, ScenarioError>
    requires settings.Valid() && Sound(settings, s)
    requires s.updatedAt < next <= ActivePlan(s).startedAt + ActivePlan(s).duration
  {
    var applied := ApplyPhaseChange(settings, s, next);
    if applied.Failure? then applied
    else
      var t := applied.value.(updatedAt := next, elapsed := next);
      if !updateDue then Success(t)
      else if t.nextUpdateIndex + 1 >= U64_LIMIT then
        Failure(Resource("scenario update index exceeds the engine limit"))
      else Success(t.(nextUpdateIndex := t.nextUpdateIndex + 1))
  }

  /** The phase transition when one is due, or else a possible change of inlet. */
  function Continued(settings: Settings, t: State, next: real, transitionDue: bool): Result<State, ScenarioError>
    requires settings.Valid() && |t.heights| == |settings.grid.weights| && t.inlet < settings.inlets
  {
    if transitionDue then TransitionPhase(settings, t, next)
    else if t.phase.Filling? then Success(t.(inlet := SwitchedInlet(settings, t)))
    else Success(t)
  }

  lemma UpdatedMeans(settings: Settings, s: State, next: real, updateDue: bool)
    requires settings.Valid() && Sound(settings, s)
    requires s.updatedAt < next <= ActivePlan(s).startedAt + ActivePlan(s).duration
    ensures var r := Updated(settings, s, next, updateDue);
            r.Success? ==>
              && settings.grid.Holds(r.value.heights)
              && r.value == s.(heights := r.value.heights, roughnessPosition := r.value.roughnessPosition,
                               elapsed := next, updatedAt := next,
                               nextUpdateIndex := s.nextUpdateIndex + if updateDue then 1 else 0)
  {
    hide ApplyPhaseChange, Sound, Grid.Holds;
    PhaseChangeVolume(settings, s, next);
  }

  /** Whatever happens at an event, the state stays sound. */
  lemma ContinuedIsSound(settings: Settings, s: State, next: real, updateDue: bool)
    requires settings.Valid() && Sound(settings, s)
    requires s.updatedAt < next <= ActivePlan(s).startedAt + ActivePlan(s).duration
    requires Updated(settings, s, next, updateDue).Success?
    ensures var t := Updated(settings, s, next, updateDue).value;
            && |t.heights| == |settings.grid.weights| && t.inlet < settings.inlets
            && var r := Continued(settings, t, next, next == ActivePlan(s).startedAt + ActivePlan(s).duration);
               r.Success? ==> Sound(settings, r.value) && r.value.updatedAt == next && r.value.elapsed == next
  {
    hide Updated, WithFillPlan, WithCollectionPlan, SwitchedInlet, Balanced, Times, Grid.Volume, Tolerance;
    UpdatedMeans(settings, s, next, updateDue);
    var t := Updated(settings, s, next, updateDue).value;
    if next == ActivePlan(s).startedAt + ActivePlan(s).duration {
      if t.phase.Filling? {
        CollectionPlanStarts(settings, t.(phase := Collecting), next);
      } else {
        FillPlanStarts(settings, t.(cycleIndex := t.cycleIndex + 1, phase := Filling, inlet := 0,
            collectionPlan := None), next);
      }
    }
  }

  /** One turn of the loop: the earlier of the next update and the end of the phase. */
  function Step(settings: Settings, s: State): Result<Stepped, ScenarioError>
    requires settings.Valid() && Sound(settings, s)
  {
    var update := UpdateTime(settings, s);
    if update.Failure? then Failure(update.error)
    else
      var end := ActivePlan(s).startedAt + ActivePlan(s).duration;
      var next := Min(update.value, end);
      var updated := Updated(settings, s, next, next == update.value);
      if updated.Failure? then Failure(updated.error)
      else
        ContinuedIsSound(settings, s, next, next == update.value);
        var continued := Continued(settings, updated.value, next, next == end);
        if continued.Failure? then Failure(continued.error)
        else
          var snapshot := TakeSnapshot(settings, continued.value);
          if snapshot.Failure? then Failure(snapshot.error)
          else Success(Stepped(continued.value,
               Event(next, next == update.value, next == end, snapshot.value, continued.value.heights)))
  }

  /** A sound phase always has an end to come, so only the update schedule can hold up the next event. */
  lemma NextEventMeans(settings: Settings, s: State)
    requires settings.Valid() && Sound(settings, s)
    ensures var update := UpdateTime(settings, s);
            NextEvent(settings, s)
            == if update.Failure? then update
                else Success(Min(update.value, ActivePlan(s).startedAt + ActivePlan(s).duration))
  {
  }

  // ---------------------------------------------------------------- runs

  /** Events up to a time, at most budget of them. */
  function Run(settings: Settings, s: State, elapsed: real, budget: nat): (r: Result<Ran, ScenarioError>)
    requires settings.Valid() && Sound(settings, s)
    ensures r.Success? ==> Sound(settings, r.value.state) && |r.value.events| <= budget
    decreases budget
  {
    hide Sound, Step;
    var next := NextEvent(settings, s);
    if next.Failure? then Failure(next.error)
    else if next.value > elapsed then
      LaterIsSound(settings, s, elapsed);
      Success(Ran(s.(elapsed := elapsed), []))
    else if budget == 0 then Failure(Resource("scenario advance exceeds the event output limit"))
    else
      var step := Step(settings, s);
      if step.Failure? then Failure(step.error)
      else
        StepMeans(settings, s);
        var rest := Run(settings, step.value.state, elapsed, budget - 1);
        if rest.Failure? then rest
        else Success(Ran(rest.value.state, [step.value.event] + rest.value.events))
  }

  lemma LaterIsSound(settings: Settings, s: State, elapsed: real)
    requires settings.Valid() && Sound(settings, s)
    ensures Sound(settings, s.(elapsed := elapsed))
  {
  }

  /** One event: a sound state again, at the time of the event; the phase flips exactly at a transition, and the cycle
      is counted when a fill begins. */
  lemma StepMeans(settings: Settings, s: State)
    requires settings.Valid() && Sound(settings, s)
    ensures var r := Step(settings, s);
            r.Success? ==>
              var t, e := r.value.state, r.value.event;
              && Sound(settings, t) && TakeSnapshot(settings, t) == Success(e.snapshot) && e.heights == t.heights
              && t.elapsed == t.updatedAt == e.elapsed > s.updatedAt
              && NextEvent(settings, s) == Success(e.elapsed)
              && t.phase == (if e.transitionDue then Flipped(s.phase) else s.phase)
              && t.cycleIndex == s.cycleIndex + (if e.transitionDue && s.phase.Collecting? then 1 else 0)
              && t.nextUpdateIndex == s.nextUpdateIndex + (if e.updateDue then 1 else 0)
              && (e.updateDue || e.transitionDue)
  {
    hide Updated, WithFillPlan, WithCollectionPlan, SwitchedInlet, Balanced, Times, Grid.Volume, Tolerance, Sound,
         TakeSnapshot;
    NextEventMeans(settings, s);
    var r := Step(settings, s);
    if r.Success? {
      SoundPhaseEnd(settings, s);
      var update, end := UpdateTime(settings, s), ActivePlan(s).startedAt + ActivePlan(s).duration;
      var next := Min(update.value, end);
      UpdatedMeans(settings, s, next, next == update.value);
      ContinuedIsSound(settings, s, next, next == update.value);
      ContinuedCounts(settings, Updated(settings, s, next, next == update.value).value, next, next == end);
    }
  }

  lemma SoundPhaseEnd(settings: Settings, s: State)
    requires settings.Valid() && Sound(settings, s)
    ensures s.updatedAt < ActivePlan(s).startedAt + ActivePlan(s).duration
    ensures |s.heights| == |settings.grid.weights| && s.inlet < settings.inlets
    ensures s.phase.Collecting? ==> s.collectionPlan.Some?
  {
  }

  function Flipped(phase: Phase): Phase {
    if phase.Filling? then Collecting else Filling
  }

  lemma ContinuedCounts(settings: Settings, t: State, next: real, transitionDue: bool)
    requires settings.Valid() && |t.heights| == |settings.grid.weights| && t.inlet < settings.inlets
    ensures var r := Continued(settings, t, next, transitionDue);
            r.Success? ==>
              && r.value.phase == (if transitionDue then Flipped(t.phase) else t.phase)
              && r.value.cycleIndex == t.cycleIndex + (if transitionDue && t.phase.Collecting? then 1 else 0)
              && r.value.nextUpdateIndex == t.nextUpdateIndex
              && r.value.heights == t.heights
  {
    hide CreateProfile, Uniform, SwitchedInlet, Tolerance, Grid.Volume, Times;
  }

  // ---------------------------------------------------------------- advancing

  lemma QuotientIsNat(a: nat, b: nat)
    requires b > 0
    ensures a / b >= 0
  {
  }

  /** How many snapshots of this surface one advance may return. */
  function EventLimit(nodes: nat): Result<nat, ScenarioError> {
    if nodes == 0 then Failure(ScenarioError.State("scenario surface must contain height nodes"))
    else
      var bytes := 8 * nodes;
      QuotientIsNat(MAX_EVENT_SNAPSHOT_BYTES, bytes);
      var fitting: nat := MAX_EVENT_SNAPSHOT_BYTES / bytes;
      var limit: nat := if MAX_EVENTS_PER_ADVANCE <= fitting then MAX_EVENTS_PER_ADVANCE else fitting;
      Success(limit)
  }

  /** The updates that an advance would have to make, by index alone, exceed its event limit. */
  predicate TooManyUpdates(settings: Settings, s: State, elapsed: real, limit: nat)
    requires settings.updateInterval > 0.0
  {
    (elapsed / settings.updateInterval).Floor - (if s.nextUpdateIndex == 0 then 0 else s.nextUpdateIndex - 1) > limit
  }

  function Advance(settings: Settings, s: State, elapsed: real): (r: Result<Ran, ScenarioError>)
    requires settings.Valid() && Sound(settings, s)
    ensures r.Success? ==> Sound(settings, r.value.state)
  {
    hide Sound, Run;
    var limit := EventLimit(|s.heights|);
    if elapsed < s.elapsed then Failure(ScenarioError.Invalid("scenario elapsed time must be finite and monotonic"))
    else if limit.Failure? then Failure(limit.error)
    else if TooManyUpdates(settings, s, elapsed, limit.value) then
      Failure(Resource("scenario advance exceeds the event output limit"))
    else Run(settings, s, elapsed, limit.value)
  }

  // ---------------------------------------------------------------- order of events

  /** Each event is later than the one before, flips the phase exactly when a transition is due, and counts a cycle
      exactly when that starts a fill. */
  ghost predicate Follow(time: real, phase: Phase, cycle: nat, events: seq<Event>)
    decreases |events|
  {
    events == [] ||
    var e := events[0];
    && time < e.elapsed
    && e.snapshot.elapsed == e.elapsed
    && e.snapshot.phase == (if e.transitionDue then Flipped(phase) else phase)
    && e.snapshot.cycleIndex == cycle + (if e.transitionDue && phase.Collecting? then 1 else 0)
    && Follow(e.elapsed, e.snapshot.phase, e.snapshot.cycleIndex, events[1..])
  }

  lemma {:induction false} EventsFollow(settings: Settings, s: State, elapsed: real, budget: nat)
    requires settings.Valid() && Sound(settings, s)
    ensures var r := Run(settings, s, elapsed, budget);
            r.Success? ==>
              && Follow(s.updatedAt, s.phase, s.cycleIndex, r.value.events)
              && (forall k | 0 <= k < |r.value.events| :: r.value.events[k].elapsed <= elapsed)
              && r.value.state.elapsed == elapsed
              && r.value.state.nextUpdateIndex >= s.nextUpdateIndex
    decreases budget
  {
    hide Sound, Step;
    var r := Run(settings, s, elapsed, budget);
    if r.Success? && NextEvent(settings, s).value <= elapsed {
      StepMeans(settings, s);
      var step := Step(settings, s).value;
      SnapshotOf(settings, step.state);
      EventsFollow(settings, step.state, elapsed, budget - 1);
      assert r.value.events[1..] == Run(settings, step.state, elapsed, budget - 1).value.events;
    }
  }

  lemma SnapshotOf(settings: Settings, s: State)
    requires settings.Valid() && Sound(settings, s)
    ensures TakeSnapshot(settings, s).Success?
    ensures var snapshot := TakeSnapshot(settings, s).value;
            && snapshot.elapsed == s.elapsed && snapshot.phase == s.phase && snapshot.cycleIndex == s.cycleIndex
            && snapshot.volume == settings.grid.Volume(s.heights)
  {
    hide Balanced;
    FactorIsAlwaysAvailable(settings, s);
  }

  lemma {:induction false} EventTimesIncrease(time: real, phase: Phase, cycle: nat, events: seq<Event>, j: nat, k: nat)
    requires Follow(time, phase, cycle, events) && j < k < |events|
    ensures time < events[j].elapsed < events[k].elapsed
    decreases |events|
  {
    var e := events[0];
    if j > 0 {
      EventTimesIncrease(e.elapsed, e.snapshot.phase, e.snapshot.cycleIndex, events[1..], j - 1, k - 1);
    } else if k > 1 {
      EventTimesIncrease(e.elapsed, e.snapshot.phase, e.snapshot.cycleIndex, events[1..], 0, k - 1);
    }
  }

  lemma {:induction false} LaterThanBefore(time: real, phase: Phase, cycle: nat, events: seq<Event>, k: nat)
    requires Follow(time, phase, cycle, events) && k < |events|
    ensures time < events[k].elapsed
    decreases |events|
  {
    if k > 0 {
      EventTimesIncrease(time, phase, cycle, events, 0, k);
    }
  }

  // ---------------------------------------------------------------- cutting a run in two

  /** A step does not look at the elapsed time. */
  lemma StepIgnoresElapsed(settings: Settings, s: State, elapsed: real)
    requires settings.Valid() && Sound(settings, s)
    ensures Sound(settings, s.(elapsed := elapsed))
    ensures NextEvent(settings, s.(elapsed := elapsed)) == NextEvent(settings, s)
    ensures Step(settings, s.(elapsed := elapsed)) == Step(settings, s)
  {
    hide Balanced, Times, Requested, ChangedSurface, RoughenAt, Unapplied, Tolerance, Continued, TakeSnapshot,
         Grid.Holds,
      ApplyPhaseChange;
    var t := s.(elapsed := elapsed);
    SoundPhaseEnd(settings, s);
    var update, end := UpdateTime(settings, s), ActivePlan(s).startedAt + ActivePlan(s).duration;
    if update.Success? {
      var next := Min(update.value, end);
      UpdatedIgnoresElapsed(settings, s, elapsed, next, next == update.value);
    }
  }

  lemma RequestIgnoresElapsed(settings: Settings, s: State, elapsed: real, next: real)
    requires settings.Valid() && Sound(settings, s)
    requires s.updatedAt < next <= ActivePlan(s).startedAt + ActivePlan(s).duration
    ensures Sound(settings, s.(elapsed := elapsed))
    ensures Requested(settings, s.(elapsed := elapsed), next) == Requested(settings, s, next)
  {
    hide Balanced, Times, Profile.IntegratedTo, Grid.Volume;
    BalancedProfileIsValid(settings, s);
  }

  lemma SurfaceIgnoresElapsed(settings: Settings, s: State, elapsed: real, requested: real)
    requires settings.Valid() && settings.grid.Holds(s.heights) && requested >= 0.0
    ensures ChangedSurface(settings, s.(elapsed := elapsed), requested) == ChangedSurface(settings, s, requested)
    ensures Unapplied(settings, s.(elapsed := elapsed), requested) == Unapplied(settings, s, requested)
  {
    hide Times, Grid.Changed, Settle, Grid.LocalProfile, Grid.UniformProfile, Grid.Volume, Grid.Moved;
  }

  lemma UpdatedIgnoresElapsed(settings: Settings, s: State, elapsed: real, next: real, updateDue: bool)
    requires settings.Valid() && Sound(settings, s)
    requires s.updatedAt < next <= ActivePlan(s).startedAt + ActivePlan(s).duration
    ensures Sound(settings, s.(elapsed := elapsed))
    ensures Updated(settings, s.(elapsed := elapsed), next, updateDue) == Updated(settings, s, next, updateDue)
  {
    hide Balanced, Times, RoughenAt, ChangedSurface, Requested, Unapplied, Tolerance, Grid.Volume, Grid.Holds;
    RequestIgnoresElapsed(settings, s, elapsed, next);
    RequestIsPositive(settings, s, next);
    SurfaceIgnoresElapsed(settings, s, elapsed, Requested(settings, s, next));
  }

  lemma {:induction false} MoreBudget(settings: Settings, s: State, elapsed: real, budget: nat, more: nat)
    requires settings.Valid() && Sound(settings, s) && budget <= more
    requires Run(settings, s, elapsed, budget).Success?
    ensures Run(settings, s, elapsed, more) == Run(settings, s, elapsed, budget)
    decreases budget
  {
    hide Sound, Step, Run, NextEvent;
    RunUnfolds(settings, s, elapsed, budget);
    RunUnfolds(settings, s, elapsed, more);
    if NextEvent(settings, s).value <= elapsed {
      MoreBudget(settings, Step(settings, s).value.state, elapsed, budget - 1, more - 1);
    }
  }

  lemma RunUnfolds(settings: Settings, s: State, elapsed: real, budget: nat)
    requires settings.Valid() && Sound(settings, s)
    ensures var next, step := NextEvent(settings, s), Step(settings, s);
            && Sound(settings, s.(elapsed := elapsed))
            && (step.Success? ==> Sound(settings, step.value.state))
            && Run(settings, s, elapsed, budget)
               == if next.Failure? then Failure(next.error)
                  else if next.value > elapsed then Success(Ran(s.(elapsed := elapsed), []))
                  else if budget == 0 then Failure(Resource("scenario advance exceeds the event output limit"))
                  else if step.Failure? then Failure(step.error)
                  else Preceded(step.value.event, Run(settings, step.value.state, elapsed, budget - 1))
  {
    hide Sound, Step;
    StepMeans(settings, s);
    LaterIsSound(settings, s, elapsed);
  }

  function Preceded(event: Event, rest: Result<Ran, ScenarioError>): Result<Ran, ScenarioError> {
    if rest.Failure? then rest else Success(Ran(rest.value.state, [event] + rest.value.events))
  }

  lemma RunIgnoresElapsed(settings: Settings, s: State, elapsed: real, until: real, budget: nat)
    requires settings.Valid() && Sound(settings, s)
    ensures Sound(settings, s.(elapsed := elapsed))
    ensures Run(settings, s.(elapsed := elapsed), until, budget) == Run(settings, s, until, budget)
  {
    hide Sound, Step;
    StepIgnoresElapsed(settings, s, elapsed);
  }

  /** A run to b can be stopped at a and resumed with the rest of the budget: same final state, and the events of both
      parts in order. */
  lemma {:induction false} RunSplits(settings: Settings, s: State, a: real, b: real, budget: nat)
    returns (first: Ran, second: Ran, left: nat)
    requires settings.Valid() && Sound(settings, s) && a <= b
    requires Run(settings, s, b, budget).Success?
    ensures Run(settings, s, a, budget) == Success(first) && Sound(settings, first.state)
    ensures left + |first.events| == budget
    ensures Run(settings, first.state, b, left) == Success(second)
    ensures Run(settings, s, b, budget) == Success(Ran(second.state, first.events + second.events))
    decreases budget
  {
    hide Sound, Step, Run, NextEvent;
    RunUnfolds(settings, s, a, budget);
    RunUnfolds(settings, s, b, budget);
    if NextEvent(settings, s).value <= a {
      var step := Step(settings, s).value;
      var part;
      part, second, left := RunSplits(settings, step.state, a, b, budget - 1);
      first := Ran(part.state, [step.event] + part.events);
      assert [step.event] + (part.events + second.events) == first.events + second.events;
    } else {
      RunIgnoresElapsed(settings, s, a, b, budget);
      first, left := Ran(s.(elapsed := a), []), budget;
      second := Run(settings, first.state, b, budget).value;
      assert first.events + second.events == second.events;
    }
  }

  /** Two runs one after the other are one run, given the budget for the events of both. */
  lemma {:induction false} RunsJoin(settings: Settings, s: State, a: real, b: real, budget: nat, more: nat,
                                    first: Ran, second: Ran, total: nat)
    requires settings.Valid() && Sound(settings, s) && a <= b
    requires Run(settings, s, a, budget) == Success(first) && Sound(settings, first.state)
    requires Run(settings, first.state, b, more) == Success(second)
    requires total == |first.events| + |second.events|
    ensures Run(settings, s, b, total) == Success(Ran(second.state, first.events + second.events))
    decreases budget
  {
    hide Sound, Step, Run, NextEvent;
    RunUnfolds(settings, s, a, budget);
    if NextEvent(settings, s).value <= a {
      var step := Step(settings, s).value;
      var part := Run(settings, step.state, a, budget - 1).value;
      RunsJoin(settings, step.state, a, b, budget - 1, more, part, second, total - 1);
      RunUnfolds(settings, s, b, total);
      assert [step.event] + (part.events + second.events) == first.events + second.events;
    } else {
      RunIgnoresElapsed(settings, s, a, b, more);
      ExactBudget(settings, s, b, more, second, total);
      assert first.events + second.events == second.events;
    }
  }

  lemma {:induction false} ExactBudget(settings: Settings, s: State, elapsed: real, budget: nat, ran: Ran, count: nat)
    requires settings.Valid() && Sound(settings, s)
    requires Run(settings, s, elapsed, budget) == Success(ran) && count == |ran.events|
    ensures Run(settings, s, elapsed, count) == Success(ran)
    decreases budget
  {
    hide Sound, Step, Run, NextEvent;
    RunUnfolds(settings, s, elapsed, budget);
    RunUnfolds(settings, s, elapsed, count);
    if NextEvent(settings, s).value <= elapsed {
      var step := Step(settings, s).value;
      ExactBudget(settings, step.state, elapsed, budget - 1, Run(settings, step.state, elapsed, budget - 1).value,
          count - 1);
    }
  }

  lemma FloorMonotone(a: real, b: real, interval: real)
    requires a <= b && interval > 0.0
    ensures (a / interval).Floor <= (b / interval).Floor
  {
    assert b / interval - a / interval == (b - a) / interval;
    Quotient(b - a, interval);
  }

  /** An advance to b that hits no limit is the same as an advance to a followed by one to b. */
  lemma AdvanceSplits(settings: Settings, s: State, a: real, b: real)
    requires settings.Valid() && Sound(settings, s) && s.elapsed <= a <= b
    requires Advance(settings, s, b).Success?
    ensures var whole, first := Advance(settings, s, b), Advance(settings, s, a);
            && first.Success?
            && var second := Advance(settings, first.value.state, b);
               && second.Success?
               && second.value.state == whole.value.state
               && whole.value.events == first.value.events + second.value.events
  {
    hide Sound, Run, Follow;
    var limit := EventLimit(|s.heights|).value;
    var first, second, left := RunSplits(settings, s, a, b, limit);
    EventsFollow(settings, s, a, limit);
    SoundPhaseEnd(settings, s);
    SoundPhaseEnd(settings, first.state);
    FloorMonotone(a, b, settings.updateInterval);
    MoreBudget(settings, first.state, b, left, limit);
  }

  /** Conversely two advances make one, unless together they pass a limit that each of them keeps. */
  lemma AdvancesJoin(settings: Settings, s: State, a: real, b: real)
    requires settings.Valid() && Sound(settings, s) && a <= b
    requires Advance(settings, s, a).Success? && Advance(settings, Advance(settings, s, a).value.state, b).Success?
    ensures var first := Advance(settings, s, a).value;
            var second := Advance(settings, first.state, b).value;
            var limit := EventLimit(|s.heights|).value;
            !TooManyUpdates(settings, s, b, limit) && |first.events| + |second.events| <= limit ==>
              Advance(settings, s, b) == Success(Ran(second.state, first.events + second.events))
  {
    hide Sound, Run, Follow, TooManyUpdates;
    var limit := EventLimit(|s.heights|).value;
    var first := Run(settings, s, a, limit).value;
    SoundPhaseEnd(settings, s);
    SoundPhaseEnd(settings, first.state);
    var second := Run(settings, first.state, b, limit).value;
    var total := |first.events| + |second.events|;
    RunsJoin(settings, s, a, b, limit, limit, first, second, total);
    if total <= limit {
      MoreBudget(settings, s, b, total, limit);
    }
  }

  // ---------------------------------------------------------------- volumes over runs

  /** The errors that an advance on plan can meet: a held-up update schedule, an engine limit, too many rate segments. */
  predicate Tolerated(error: ScenarioError) {
    error == ScenarioError.State("scenario update schedule cannot advance finitely") || IsLimit(error)
  }

  predicate IsLimit(error: ScenarioError) {
    error.Resource? || error == Rate(SegmentLimit)
  }

  /** What the transition at the end of a phase leaves: a fill at its target, a collection at an empty surface. */
  ghost predicate EndedOnTarget(settings: Settings, t: State)
    requires settings.Valid() && Sound(settings, t)
  {
    var volume := settings.grid.Volume(t.heights);
    if t.phase.Collecting? then
      && t.collectionPlan.value.startingVolume == volume
      && CloseAbove(volume, t.fillPlan.targetVolume, settings.grid.capacity)
      && (t.fillPlan.targetVolume < settings.grid.capacity - VOLUME_TOLERANCE ==> volume == t.fillPlan.targetVolume)
    else volume == 0.0
  }

  /** Every event keeps the volume law; phases end on target; and no volume error can occur. */
  lemma StepKeepsPlan(settings: Settings, s: State)
    requires settings.Valid() && Sound(settings, s) && OnPlan(settings, s)
    ensures var r := Step(settings, s);
            if r.Success? then
              && Sound(settings, r.value.state) && OnPlan(settings, r.value.state)
              && (r.value.event.transitionDue ==> EndedOnTarget(settings, r.value.state))
            else Tolerated(r.error) && (UpdateTime(settings, s).Success? ==> IsLimit(r.error))
  {
    hide ApplyPhaseChange, OnPlan, Sound, Updated, Continued, TakeSnapshot, EndedOnTarget, Grid.Volume, CloseAbove;
    StepMeans(settings, s);
    SoundPhaseEnd(settings, s);
    var update, end := UpdateTime(settings, s), ActivePlan(s).startedAt + ActivePlan(s).duration;
    if update.Success? {
      var next := Min(update.value, end);
      if next == end {
        PhaseEndsOnTarget(settings, s, end);
        EndOfPhase(settings, s, end, next == update.value);
      } else {
        UpdateKeepsPlan(settings, s, next);
        MiddleOfPhase(settings, s, next, next == update.value);
      }
      if Updated(settings, s, next, next == update.value).Success? {
        SnapshotAfter(settings, s, next, next == update.value);
      }
    }
  }

  lemma SnapshotAfter(settings: Settings, s: State, next: real, updateDue: bool)
    requires settings.Valid() && Sound(settings, s)
    requires s.updatedAt < next <= ActivePlan(s).startedAt + ActivePlan(s).duration
    requires Updated(settings, s, next, updateDue).Success?
    ensures var t := Updated(settings, s, next, updateDue).value;
            && |t.heights| == |settings.grid.weights| && t.inlet < settings.inlets
            && var r := Continued(settings, t, next, next == ActivePlan(s).startedAt + ActivePlan(s).duration);
               r.Success? ==> Sound(settings, r.value) && TakeSnapshot(settings, r.value).Success?
  {
    hide Sound, Updated, Continued, TakeSnapshot;
    SoundPhaseEnd(settings, s);
    ContinuedIsSound(settings, s, next, updateDue);
    var t := Updated(settings, s, next, updateDue).value;
    var r := Continued(settings, t, next, next == ActivePlan(s).startedAt + ActivePlan(s).duration);
    if r.Success? {
      FactorIsAlwaysAvailable(settings, r.value);
    }
  }

  lemma MiddleOfPhase(settings: Settings, s: State, next: real, updateDue: bool)
    requires settings.Valid() && Sound(settings, s)
    requires s.updatedAt < next < ActivePlan(s).startedAt + ActivePlan(s).duration
    requires var r := ApplyPhaseChange(settings, s, next);
             r.Success? && Sound(settings, r.value.(updatedAt := next)) && OnPlan(settings, r.value.(updatedAt := next))
    ensures var u := Updated(settings, s, next, updateDue);
            if u.Success? then
              && |u.value.heights| == |settings.grid.weights| && u.value.inlet < settings.inlets
              && var r := Continued(settings, u.value, next, false);
                 r.Success? && Sound(settings, r.value) && OnPlan(settings, r.value)
            else u.error.Resource?
  {
    hide ApplyPhaseChange, SwitchedInlet, Times, Balanced, Grid.Volume, CloseAbove, Profile.IntegratedTo, Grid.Holds;
    var t := ApplyPhaseChange(settings, s, next).value.(updatedAt := next);
    SoundPhaseEnd(settings, t);
    assert Integrated(settings, t) == Integrated(settings, t.(elapsed := next));
  }

  lemma EndOfPhase(settings: Settings, s: State, end: real, updateDue: bool)
    requires settings.Valid() && Sound(settings, s) && end == ActivePlan(s).startedAt + ActivePlan(s).duration
    requires var r := ApplyPhaseChange(settings, s, end);
             && r.Success? && settings.grid.Holds(r.value.heights)
             && r.value == s.(heights := r.value.heights, roughnessPosition := r.value.roughnessPosition)
             && var volume := settings.grid.Volume(r.value.heights);
                if s.phase.Filling? then
                  && CloseAbove(volume, s.fillPlan.targetVolume, settings.grid.capacity)
                  && (s.fillPlan.targetVolume < settings.grid.capacity - VOLUME_TOLERANCE
                      ==> volume == s.fillPlan.targetVolume)
                else volume == 0.0
    ensures var u := Updated(settings, s, end, updateDue);
            if u.Success? then
              && |u.value.heights| == |settings.grid.weights| && u.value.inlet < settings.inlets
              && var r := Continued(settings, u.value, end, true);
                 if r.Success? then
                   Sound(settings, r.value) && OnPlan(settings, r.value) && EndedOnTarget(settings, r.value)
                 else IsLimit(r.error)
            else u.error.Resource?
  {
    hide ApplyPhaseChange, WithFillPlan, WithCollectionPlan, OnPlan, Balanced, Tolerance, Grid.Volume, Times,
         CloseAbove;
    SoundPhaseEnd(settings, s);
    var u := Updated(settings, s, end, updateDue);
    ToleranceCovers(settings.grid);
    if u.Success? {
      var t := u.value;
      if s.phase.Filling? {
        TransitionChecksPass(settings, settings.grid.Volume(t.heights), t.fillPlan.targetVolume);
        CollectionPlanStarts(settings, t.(phase := Collecting), end);
        CollectionStartsWithVolume(settings, t.(phase := Collecting), end);
      } else {
        FillPlanStarts(settings, t.(cycleIndex := t.cycleIndex + 1, phase := Filling, inlet := 0,
            collectionPlan := None), end);
      }
    }
  }

  lemma CollectionStartsWithVolume(settings: Settings, s: State, at: real)
    requires settings.Valid() && |s.heights| == |settings.grid.weights|
    ensures var r := WithCollectionPlan(settings, s, at);
            r.Success? ==>
              && r.value.collectionPlan.Some?
              && r.value.collectionPlan.value.startingVolume == settings.grid.Volume(s.heights)
  {
    hide CreateProfile, Uniform, Grid.Volume, Times;
  }

  lemma NothingMoreNow(settings: Settings, s: State)
    requires settings.Valid() && Sound(settings, s) && s.elapsed == s.updatedAt && NextEvent(settings, s).Success?
    ensures Run(settings, s, s.elapsed, 0) == Success(Ran(s, []))
  {
    hide Sound;
  }

  /** Over every run each event is the snapshot of the state that the run has reached with that event: it obeys the volume
      law, with the plan and the profile that it holds. */
  lemma {:induction false} VolumesFollowPlan(settings: Settings, s: State, elapsed: real, budget: nat, k: nat)
    returns (t: State)
    requires settings.Valid() && Sound(settings, s) && OnPlan(settings, s)
    requires Run(settings, s, elapsed, budget).Success? && k < |Run(settings, s, elapsed, budget).value.events|
    ensures var events := Run(settings, s, elapsed, budget).value.events;
            var e := events[k];
            && Run(settings, s, e.elapsed, k + 1) == Success(Ran(t, events[..k + 1]))
            && Sound(settings, t) && OnPlan(settings, t)
            && t.updatedAt == t.elapsed == e.elapsed && e.heights == t.heights
            && TakeSnapshot(settings, t) == Success(e.snapshot)
            && (e.transitionDue ==> EndedOnTarget(settings, t))
    decreases budget
  {
    hide Sound, Step, OnPlan, EndedOnTarget, TakeSnapshot, Run, NextEvent, Follow;
    RunUnfolds(settings, s, elapsed, budget);
    StepMeans(settings, s);
    StepKeepsPlan(settings, s);
    var first := Step(settings, s).value;
    var events := Run(settings, s, elapsed, budget).value.events;
    var rest := Run(settings, first.state, elapsed, budget - 1).value.events;
    assert events[1..] == rest && events[..k + 1] == [first.event] + rest[..k];
    EventsFollow(settings, first.state, elapsed, budget - 1);
    if k > 0 {
      LaterThanBefore(first.state.updatedAt, first.state.phase, first.state.cycleIndex, rest, k - 1);
    }
    RunUnfolds(settings, s, events[k].elapsed, k + 1);
    RunUnfolds(settings, first.state, elapsed, budget - 1);
    t := first.state;
    if k > 0 {
      t := VolumesFollowPlan(settings, t, elapsed, budget - 1, k - 1);
    } else {
      NothingMoreNow(settings, t);
    }
  }

  /** A run ends on plan, or with one of the tolerated errors. */
  lemma {:induction false} RunKeepsPlan(settings: Settings, s: State, elapsed: real, budget: nat)
    requires settings.Valid() && Sound(settings, s) && OnPlan(settings, s)
    ensures var r := Run(settings, s, elapsed, budget);
            if r.Success? then OnPlan(settings, r.value.state) else Tolerated(r.error)
    decreases budget
  {
    hide Sound, Step, OnPlan;
    NextEventMeans(settings, s);
    StepKeepsPlan(settings, s);
    var r := Run(settings, s, elapsed, budget);
    if NextEvent(settings, s).Success? {
      if NextEvent(settings, s).value > elapsed {
        LaterOnPlan(settings, s, elapsed);
      } else if budget > 0 && Step(settings, s).Success? {
        RunKeepsPlan(settings, Step(settings, s).value.state, elapsed, budget - 1);
      }
    }
  }

  lemma LaterOnPlan(settings: Settings, s: State, elapsed: real)
    requires settings.Valid() && Sound(settings, s) && OnPlan(settings, s)
    ensures Sound(settings, s.(elapsed := elapsed)) && OnPlan(settings, s.(elapsed := elapsed))
  {
    hide Times, Balanced, Grid.Volume, CloseAbove, Profile.IntegratedTo;
    assert Integrated(settings, s) == Integrated(settings, s.(elapsed := elapsed));
  }

  // ---------------------------------------------------------------- from the start

  /** A new simulation: an empty surface and the first fill plan. */
  function Start(settings: Settings): (r: Result<State, ScenarioError>)
    requires settings.Valid()
  {
    var empty := FillPlan(0.0, 1.0, 0.0, 0.0, Profile(1.0, [], Prefixes([])));
    WithFillPlan(settings, State.State(Constant(|settings.grid.weights|, settings.grid.floor), 0, 0, 0, 0,
                                       0.0, 0.0, 1, 0, Filling, 0, empty, None), 0.0)
  }

  lemma {:induction false} EmptyVolume(grid: Grid, heights: seq<real>, n: nat)
    requires |heights| == |grid.weights| && n <= |heights|
    requires forall i | 0 <= i < |heights| :: heights[i] == grid.floor
    ensures Dot(grid.weights, grid.Room(heights, false), n) == 0.0
  {
    hide Times;
    if n > 0 {
      EmptyVolume(grid, heights, n - 1);
      TimesZero(grid.weights[n - 1]);
    }
  }

  /** A new simulation is on plan. */
  lemma StartIsOnPlan(settings: Settings)
    requires settings.Valid()
    ensures var r := Start(settings);
            if r.Success? then Sound(settings, r.value) && OnPlan(settings, r.value) && r.value.elapsed == 0.0
            else r.error == Rate(SegmentLimit)
  {
    hide WithFillPlan, OnPlan, Balanced, Times, Dot;
    var empty := FillPlan(0.0, 1.0, 0.0, 0.0, Profile(1.0, [], Prefixes([])));
    var s := State.State(Constant(|settings.grid.weights|, settings.grid.floor), 0, 0, 0, 0,
                         0.0, 0.0, 1, 0, Filling, 0, empty, None);
    EmptyVolume(settings.grid, s.heights, |s.heights|);
    FillPlanStarts(settings, s, 0.0);
  }

  /** Advances to the given times, one after the other. */
  function AdvanceAll(settings: Settings, s: State, times: seq<real>): Result<State, ScenarioError>
    requires settings.Valid() && Sound(settings, s)
    decreases |times|
  {
    hide Sound, Advance;
    if times == [] then Success(s)
    else
      var r := Advance(settings, s, times[0]);
      if r.Failure? then Failure(r.error) else AdvanceAll(settings, r.value.state, times[1..])
  }

  /** A surface with a capacity has nodes. */
  lemma SurfaceHasNodes(settings: Settings)
    requires settings.Valid()
    ensures |settings.grid.weights| > 0
  {
  }

  /** Whatever times a simulation is advanced to, it stays on plan; besides times that run backwards, only the tolerated
      errors stop it. */
  lemma {:induction false} EveryRunFollowsPlan(settings: Settings, s: State, times: seq<real>)
    requires settings.Valid() && Sound(settings, s) && OnPlan(settings, s)
    ensures var r := AdvanceAll(settings, s, times);
            if r.Success? then Sound(settings, r.value) && OnPlan(settings, r.value)
            else Tolerated(r.error) || r.error.Invalid?
    decreases |times|
  {
    hide Sound, OnPlan, Run;
    if times != [] {
      SoundPhaseEnd(settings, s);
      SurfaceHasNodes(settings);
      RunKeepsPlan(settings, s, times[0], EventLimit(|s.heights|).value);
      var r := Advance(settings, s, times[0]);
      if r.Success? {
        EveryRunFollowsPlan(settings, r.value.state, times[1..]);
      }
    }
  }

  // ---------------------------------------------------------------- what is current after a run

  /** The phase began no earlier than 0, no event is overdue, and the volume obeys the plan. */
  ghost predicate UpToDate(settings: Settings, s: State)
    requires settings.Valid() && Sound(settings, s)
  {
    && 0.0 <= ActivePlan(s).startedAt && s.updatedAt <= s.elapsed
    && (NextEvent(settings, s).Success? ==> NextEvent(settings, s).value > s.elapsed)
    && OnPlan(settings, s)
  }

  /** A phase begins where the one before it ended. */
  lemma PhaseBegins(settings: Settings, s: State)
    requires settings.Valid() && Sound(settings, s)
    ensures var r := Step(settings, s);
            r.Success? ==>
              && Sound(settings, r.value.state)
              && ActivePlan(r.value.state).startedAt
                 == if r.value.event.transitionDue then r.value.event.elapsed else ActivePlan(s).startedAt
  {
    hide Updated, WithFillPlan, WithCollectionPlan, SwitchedInlet, Balanced, Times, Grid.Volume, Tolerance,
         TakeSnapshot;
    StepMeans(settings, s);
    NextEventMeans(settings, s);
    if Step(settings, s).Success? {
      var update, end := UpdateTime(settings, s), ActivePlan(s).startedAt + ActivePlan(s).duration;
      var next := Min(update.value, end);
      UpdatedMeans(settings, s, next, next == update.value);
      var t := Updated(settings, s, next, next == update.value).value;
      if next == end {
        if t.phase.Filling? {
          CollectionPlanStarts(settings, t.(phase := Collecting), next);
        } else {
          FillPlanStarts(settings, t.(cycleIndex := t.cycleIndex + 1, phase := Filling, inlet := 0,
              collectionPlan := None), next);
        }
      }
    }
  }

  /** A run leaves nothing overdue, and its last event shows the surface it ends with. */
  lemma {:induction false} RunIsUpToDate(settings: Settings, s: State, elapsed: real, budget: nat)
    requires settings.Valid() && Sound(settings, s) && OnPlan(settings, s)
    requires 0.0 <= ActivePlan(s).startedAt && s.updatedAt <= elapsed
    ensures var r := Run(settings, s, elapsed, budget);
            r.Success? ==>
              && UpToDate(settings, r.value.state)
              && (r.value.events == [] ==> r.value.state == s.(elapsed := elapsed))
              && (r.value.events != [] ==>
                    var last := r.value.events[|r.value.events| - 1];
                    last.elapsed == r.value.state.updatedAt && last.heights == r.value.state.heights)
    decreases budget
  {
    hide Sound, Step, OnPlan, Run;
    RunUnfolds(settings, s, elapsed, budget);
    if Run(settings, s, elapsed, budget).Success? {
      if NextEvent(settings, s).value > elapsed {
        LaterOnPlan(settings, s, elapsed);
        NextIgnoresElapsed(settings, s, elapsed);
      } else {
        StepMeans(settings, s);
        StepKeepsPlan(settings, s);
        PhaseBegins(settings, s);
        StartsLater(settings, s);
        RunIsUpToDate(settings, Step(settings, s).value.state, elapsed, budget - 1);
      }
    }
  }

  lemma NextIgnoresElapsed(settings: Settings, s: State, elapsed: real)
    requires settings.Valid() && Sound(settings, s)
    ensures Sound(settings, s.(elapsed := elapsed))
    ensures NextEvent(settings, s.(elapsed := elapsed)) == NextEvent(settings, s)
    ensures ActivePlan(s.(elapsed := elapsed)) == ActivePlan(s)
  {
  }

  lemma StartsLater(settings: Settings, s: State)
    requires settings.Valid() && Sound(settings, s)
    ensures ActivePlan(s).startedAt <= s.updatedAt
  {
  }

  lemma StartTimes(settings: Settings)
    requires settings.Valid()
    ensures var r := Start(settings);
            r.Success? ==>
              && r.value.phase.Filling? && r.value.elapsed == r.value.updatedAt == 0.0 == r.value.fillPlan.startedAt
              && (NextEvent(settings, r.value).Success? ==> NextEvent(settings, r.value).value > 0.0)
  {
    hide CreateProfile, Uniform, Times;
  }
}

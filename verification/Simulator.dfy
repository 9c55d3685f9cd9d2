/** The scenario simulator as it runs: an advance works on a copy, and replaces the simulator only when it succeeds
    (services/simulation-server/src/scenario/simulator.rs, ScenarioSimulator). */
module Simulator {
  import opened Wrappers
  import opened Sums
  import opened Randomness
  import opened RateProfile
  import opened RateProfileCreation
  import opened Surface
  import opened SlopeRelaxation
  import opened Roughness
  import HF = HeightField
  import opened Scenario
  import opened ScenarioVolume
  import opened ScenarioRuns

  const DEFAULT_ANGLE_OF_REPOSE: real := 35.0

  class ScenarioSimulator {
    const settings: Settings
    var surface: HF.HeightField
    var cyclePosition: nat
    var fillPosition: nat
    var collectionPosition: nat
    var roughnessPosition: nat
    var elapsed: real
    var updatedAt: real
    var nextUpdateIndex: nat
    var cycleIndex: nat
    var phase: Phase
    var inlet: nat
    var fillPlan: FillPlan
    var collectionPlan: Option<CollectionPlan>

    function Current(): State
      reads this, surface
    {
      State.State(surface.heights, cyclePosition, fillPosition, collectionPosition, roughnessPosition,
                  elapsed, updatedAt, nextUpdateIndex, cycleIndex, phase, inlet, fillPlan, collectionPlan)
    }

    /** The surface belongs to the configured grid and holds its limits. */
    ghost predicate Usable()
      reads this, surface
    {
      settings.Valid() && surface.grid == settings.grid && surface.Valid() && inlet < settings.inlets
    }

    ghost predicate Valid()
      reads this, surface
    {
      Usable() && Sound(settings, Current())
    }

    /** An empty surface at time 0, still without a plan. */
    constructor Empty(settings: Settings)
      requires settings.Valid()
      ensures this.settings == settings && fresh(surface) && Usable()
      ensures WithFillPlan(settings, Current(), 0.0) == Start(settings)
    {
      hide WithFillPlan;
      this.settings := settings;
      surface := new HF.HeightField(settings.grid);
      cyclePosition, fillPosition, collectionPosition, roughnessPosition := 0, 0, 0, 0;
      elapsed, updatedAt, nextUpdateIndex, cycleIndex := 0.0, 0.0, 1, 0;
      phase, inlet, collectionPlan := Filling, 0, None;
      fillPlan := FillPlan(0.0, 1.0, 0.0, 0.0, Profile(1.0, [], Prefixes([])));
    }

    /** A simulation at its start, with its first fill plan. */
    static method Build(settings: Settings) returns (r: Result<ScenarioSimulator, ScenarioError>)
      requires settings.Valid()
      ensures r.Success? ==> fresh(r.value) && fresh(r.value.surface) && r.value.settings == settings && r.value.Valid()
      ensures r.Success? ==> Start(settings) == Success(r.value.Current()) && OnPlan(settings, r.value.Current())
      ensures r.Failure? ==> Start(settings) == Failure(r.error)
    {
      hide WithFillPlan, Start, Sound, OnPlan;
      var simulator := new ScenarioSimulator.Empty(settings);
      StartIsOnPlan(settings);
      var planned := simulator.CreateFillPlan(0.0);
      if planned.Failure? {
        return Failure(planned.error);
      }
      return Success(simulator);
    }

    /** A copy with a surface of its own. */
    constructor CopyOf(other: ScenarioSimulator)
      requires other.Valid()
      ensures fresh(surface) && settings == other.settings && Valid() && Current() == other.Current()
    {
      settings := other.settings;
      var copy := new HF.HeightField(other.settings.grid);
      copy.heights := other.surface.heights;
      surface := copy;
      cyclePosition, fillPosition := other.cyclePosition, other.fillPosition;
      collectionPosition, roughnessPosition := other.collectionPosition, other.roughnessPosition;
      elapsed, updatedAt := other.elapsed, other.updatedAt;
      nextUpdateIndex, cycleIndex := other.nextUpdateIndex, other.cycleIndex;
      phase, inlet := other.phase, other.inlet;
      fillPlan, collectionPlan := other.fillPlan, other.collectionPlan;
    }

    // ---------------------------------------------------------------- plans

    method CreateFillPlan(startedAt: real) returns (r: Result<(), ScenarioError>)
      requires Usable()
      modifies this
      ensures surface == old(surface) && Usable()
      ensures var spec := WithFillPlan(settings, old(Current()), startedAt);
              if spec.Success? then r.Success? && Current() == spec.value else r == Failure(spec.error)
    {
      hide Times, Uniform, CreateProfile;
      var factor := Uniform(settings.cycleWords(cyclePosition), settings.fillDuration.lower,
          settings.fillDuration.upper);
      cyclePosition := cyclePosition + 1;
      var duration := Times(settings.meanFillDuration, factor);
      if duration <= 0.0 {
        return Failure(ScenarioError.State("scenario phase schedule cannot advance finitely"));
      }
      var ratio := Uniform(settings.cycleWords(cyclePosition), settings.threshold.lower, settings.threshold.upper);
      cyclePosition := cyclePosition + 1;
      var drawn := CreateProfile(settings.fillWords, fillPosition,
                                 Request(duration, settings.fillRate.lower, settings.fillRate.upper,
                                         settings.fillRateChange.lower, settings.fillRateChange.upper));
      if drawn.Failure? {
        return Failure(Rate(drawn.error));
      }
      fillPosition := drawn.value.position;
      fillPlan := FillPlan(startedAt, duration, ratio, Times(settings.grid.capacity, ratio), drawn.value.profile);
      return Success(());
    }

    method CreateCollectionPlan(startedAt: real) returns (r: Result<(), ScenarioError>)
      requires Usable()
      modifies this
      ensures surface == old(surface) && Usable()
      ensures var spec := WithCollectionPlan(settings, old(Current()), startedAt);
              if spec.Success? then r.Success? && Current() == spec.value else r == Failure(spec.error)
    {
      hide Times, Uniform, CreateProfile, Grid.Volume;
      var factor := Uniform(settings.cycleWords(cyclePosition),
                            settings.collectionDuration.lower, settings.collectionDuration.upper);
      cyclePosition := cyclePosition + 1;
      var duration := Times(settings.meanFillDuration, factor);
      if duration <= 0.0 {
        return Failure(ScenarioError.State("scenario phase schedule cannot advance finitely"));
      }
      var startingVolume := surface.CurrentVolume();
      var drawn := CreateProfile(settings.collectionWords, collectionPosition,
                                 Request(duration, settings.collectionRate.lower, settings.collectionRate.upper,
                                         settings.collectionRateChange.lower, settings.collectionRateChange.upper));
      if drawn.Failure? {
        return Failure(Rate(drawn.error));
      }
      collectionPosition := drawn.value.position;
      collectionPlan := Some(CollectionPlan(startedAt, duration, startingVolume, drawn.value.profile));
      return Success(());
    }

    // ---------------------------------------------------------------- the surface between two events

    method SampleRoughnessCenter() returns (center: Center)
      modifies this`roughnessPosition
      ensures (center, roughnessPosition)
           == SampleCenter(settings, inlet, old(roughnessPosition), ROUGHNESS_CENTER_ATTEMPTS)
    {
      hide Settings.Valid, SampleCenter;
      ghost var goal := SampleCenter(settings, inlet, roughnessPosition, ROUGHNESS_CENTER_ATTEMPTS);
      for attempt := 0 to ROUGHNESS_CENTER_ATTEMPTS
        invariant SampleCenter(settings, inlet, roughnessPosition, ROUGHNESS_CENTER_ATTEMPTS - attempt) == goal
      {
        SampleUnfolds(settings, inlet, roughnessPosition, ROUGHNESS_CENTER_ATTEMPTS - attempt);
        var candidate := Around(inlet, settings.roughnessWords(roughnessPosition),
                                settings.roughnessWords(roughnessPosition + 1));
        roughnessPosition := roughnessPosition + 2;
        if settings.inside(candidate) {
          return candidate;
        }
      }
      SampleUnfolds(settings, inlet, roughnessPosition, 0);
      return AtInlet(inlet);
    }

    /** Draws a height, a radius and a place, and roughens the surface there. */
    method ApplyLocalRoughness()
      requires Usable()
      modifies this`roughnessPosition, surface
      ensures Usable()
      ensures (surface.heights, roughnessPosition)
           == RoughenAt(settings, old(surface.heights), inlet, old(roughnessPosition))
    {
      hide Uniform, Roughen, SampleCenter, Grid.Volume, Grid.Valid, Grid.Holds, Settings.Valid;
      RoughnessFits(settings, AtInlet(inlet));
      var peak := Uniform(settings.roughnessWords(roughnessPosition),
                          settings.roughnessHeight.lower, settings.roughnessHeight.upper);
      roughnessPosition := roughnessPosition + 1;
      if peak == 0.0 {
        return;
      }
      var radius := Uniform(settings.roughnessWords(roughnessPosition),
                            settings.roughnessRadius.lower, settings.roughnessRadius.upper);
      roughnessPosition := roughnessPosition + 1;
      CenterIsInside(settings, inlet, roughnessPosition, ROUGHNESS_CENTER_ATTEMPTS);
      var center := SampleRoughnessCenter();
      RoughnessFits(settings, center);
      var change := surface.ApplyLocalRoughness(settings.footprint(center, radius), peak);
      assert change.Success?;
    }

    /** Moves the volume of one phase change, and tells what could not be applied. */
    method MoveVolume(requested: real) returns (unapplied: real)
      requires Usable() && requested >= 0.0
      modifies surface
      ensures Usable() && surface.heights == ChangedSurface(settings, old(Current()), requested)
      ensures unapplied == Unapplied(settings, old(Current()), requested)
    {
      hide Settle, SteepestExcess, Grid.Changed, Grid.Moved, Grid.Volume, Grid.Valid, Grid.Holds, Grid.LocalProfile,
        Grid.UniformProfile;
      SurfaceMeans(settings, Current(), requested);
      var change;
      if phase.Filling? {
        var at := settings.footprint(AtInlet(inlet), settings.spreadRadius);
        change := surface.AddVolume(requested, at);
      } else {
        change := surface.RemoveVolumeUniformly(requested);
      }
      var relaxed := surface.RelaxSlopesWith(DEFAULT_ANGLE_OF_REPOSE, settings.tangent, RELAXATION_ITERATIONS);
      unapplied := Max(change.value.requested - change.value.applied, 0.0);
    }

    method ApplyPhaseChange(through: real) returns (r: Result<(), ScenarioError>)
      requires Valid() && updatedAt < through <= ActivePlan(Current()).startedAt + ActivePlan(Current()).duration
      modifies this`roughnessPosition, surface
      ensures Usable()
      ensures var spec := Scenario.ApplyPhaseChange(settings, old(Current()), through);
              if spec.Success? then r.Success? && Current() == spec.value else r == Failure(spec.error)
    {
      hide Requested, ChangedSurface, RoughenAt, Unapplied, Tolerance, Sound, ActivePlan;
      var requested := RequestedVolume(through);
      RequestIsPositive(settings, Current(), through);
      var unapplied := MoveVolume(requested);
      if phase.Filling? {
        ApplyLocalRoughness();
      }
      if unapplied > Tolerance(settings.grid) {
        return Failure(ScenarioError.State("scenario surface could not apply the planned volume change"));
      }
      return Success(());
    }

    method RequestedVolume(through: real) returns (requested: real)
      requires Valid() && updatedAt < through <= ActivePlan(Current()).startedAt + ActivePlan(Current()).duration
      ensures requested == Requested(settings, Current(), through)
    {
      hide Times, Balanced, Profile.IntegratedTo, Grid.Volume;
      BalancedProfileIsValid(settings, Current());
      var plan := ActivePlan(Current());
      var ending := through == plan.startedAt + plan.duration;
      var integrated := plan.profile.IntegratedBetween(settings.kernel, Max(updatedAt - plan.startedAt, 0.0),
                                                       Min(through - plan.startedAt, plan.duration)).value;
      var volume := surface.CurrentVolume();
      if phase.Filling? {
        requested := if ending then Max(fillPlan.targetVolume - volume, 0.0) else Times(plan.rate, integrated);
      } else {
        requested := if ending then volume else Min(volume, Times(plan.rate, integrated));
      }
    }

    // ---------------------------------------------------------------- phase ends and inlets

    method TransitionPhase(at: real) returns (r: Result<(), ScenarioError>)
      requires Usable()
      modifies this
      ensures surface == old(surface) && (r.Success? ==> Usable())
      ensures var spec := Scenario.TransitionPhase(settings, old(Current()), at);
              if spec.Success? then r.Success? && Current() == spec.value else r == Failure(spec.error)
    {
      hide WithFillPlan, WithCollectionPlan, Tolerance, Grid.Volume, Grid.Valid, Grid.Holds;
      var volume := surface.CurrentVolume();
      if phase.Filling? {
        if Abs(volume - fillPlan.targetVolume) > Tolerance(settings.grid) {
          return Failure(ScenarioError.State("fill phase did not reach its planned threshold volume"));
        }
        phase := Collecting;
        r := CreateCollectionPlan(at);
      } else {
        if volume > Tolerance(settings.grid) {
          return Failure(ScenarioError.State("collection phase did not empty the surface"));
        }
        if cycleIndex + 1 >= U64_LIMIT {
          return Failure(Resource("scenario cycle index exceeds the engine limit"));
        }
        cycleIndex := cycleIndex + 1;
        phase, inlet, collectionPlan := Filling, 0, None;
        r := CreateFillPlan(at);
      }
    }

    method SwitchInletIfNeeded()
      requires Usable()
      modifies this`inlet
      ensures Usable() && inlet == SwitchedInlet(settings, old(Current()))
    {
      hide FillRatio, Grid.Volume;
      if FillRatio(settings.grid, surface.heights) < settings.activationRatio {
        return;
      }
      var lowest, lowestHeight := 0, settings.meanHeight(surface.heights, 0);
      for index := 1 to settings.inlets
        invariant lowest == LowestInlet(settings, surface.heights, index)
        invariant lowestHeight == settings.meanHeight(surface.heights, lowest)
      {
        var height := settings.meanHeight(surface.heights, index);
        if height < lowestHeight {
          lowest, lowestHeight := index, height;
        }
      }
      var currentHeight := settings.meanHeight(surface.heights, inlet);
      if lowest != inlet && currentHeight > lowestHeight
         && currentHeight - lowestHeight >= settings.heightDifference {
        inlet := lowest;
      }
    }

    // ---------------------------------------------------------------- events

    /** Brings the surface and the counters up to the event. */
    method BringUpTo(next: real, updateDue: bool) returns (r: Result<(), ScenarioError>)
      requires Valid() && updatedAt < next <= ActivePlan(Current()).startedAt + ActivePlan(Current()).duration
      modifies this, surface
      ensures surface == old(surface) && Usable()
      ensures var spec := Updated(settings, old(Current()), next, updateDue);
              if spec.Success? then r.Success? && Current() == spec.value else r == Failure(spec.error)
    {
      hide Sound, Scenario.ApplyPhaseChange, ActivePlan, Settings.Valid, Grid.Valid, Grid.Holds;
      var applied := ApplyPhaseChange(next);
      if applied.Failure? {
        return Failure(applied.error);
      }
      updatedAt, elapsed := next, next;
      if updateDue {
        if nextUpdateIndex + 1 >= U64_LIMIT {
          return Failure(Resource("scenario update index exceeds the engine limit"));
        }
        nextUpdateIndex := nextUpdateIndex + 1;
      }
      return Success(());
    }

    /** One turn of the event loop. */
    method TakeStep(next: real, updateDue: bool, transitionDue: bool) returns (r: Result<Event, ScenarioError>)
      requires Valid()
      requires UpdateTime(settings, Current()).Success?
      requires var end := ActivePlan(Current()).startedAt + ActivePlan(Current()).duration;
               && next == Min(UpdateTime(settings, Current()).value, end)
               && updateDue == (next == UpdateTime(settings, Current()).value)
               && transitionDue == (next == end)
      modifies this, surface
      ensures surface == old(surface)
      ensures var spec := Step(settings, old(Current()));
              if spec.Success? then Valid() && Current() == spec.value.state && r == Success(spec.value.event)
              else r == Failure(spec.error)
    {
      hide Sound, Updated, Scenario.TransitionPhase, SwitchedInlet, TakeSnapshot, ActivePlan, UpdateTime, Grid.Valid,
        Grid.Holds, Settings.Valid;
      SoundPhaseEnd(settings, Current());
      UpdateIsLater(settings, Current());
      ghost var before := Current();
      var updated := BringUpTo(next, updateDue);
      if updated.Failure? {
        return Failure(updated.error);
      }
      ContinuedIsSound(settings, before, next, updateDue);
      if transitionDue {
        var moved := TransitionPhase(next);
        if moved.Failure? {
          return Failure(moved.error);
        }
      } else if phase.Filling? {
        SwitchInletIfNeeded();
      }
      var snapshot := TakeSnapshot(settings, Current());
      if snapshot.Failure? {
        return Failure(snapshot.error);
      }
      return Success(Event(next, updateDue, transitionDue, snapshot.value, surface.heights));
    }

    method AdvanceInner(until: real, limit: nat) returns (r: Result<seq<Event>, ScenarioError>)
      requires Valid()
      modifies this, surface
      ensures surface == old(surface)
      ensures var spec := Run(settings, old(Current()), until, limit);
              if spec.Success? then Valid() && Current() == spec.value.state && r == Success(spec.value.events)
              else r == Failure(spec.error)
    {
      hide Run, Sound, Step, NextEvent, ActivePlan, UpdateTime;
      ghost var goal := Run(settings, Current(), until, limit);
      var events := [];
      PrependNothing(goal, events);
      while true
        invariant Valid() && surface == old(surface) && |events| <= limit
        invariant goal == Prepend(events, Run(settings, Current(), until, limit - |events|))
        decreases limit - |events|
      {
        RunUnfolds(settings, Current(), until, limit - |events|);
        NextEventMeans(settings, Current());
        SoundPhaseEnd(settings, Current());
        var next := NextEvent(settings, Current());
        if next.Failure? {
          return Failure(next.error);
        }
        if next.value > until {
          break;
        }
        if |events| == limit {
          return Failure(Resource("scenario advance exceeds the event output limit"));
        }
        ghost var rest := events;
        var update := UpdateTime(settings, Current());
        var end := ActivePlan(Current()).startedAt + ActivePlan(Current()).duration;
        var event :- TakeStep(next.value, next.value == update.value, next.value == end);
        PrependOne(rest, event, Run(settings, Current(), until, limit - |rest| - 1));
        events := events + [event];
      }
      LaterIsSound(settings, Current(), until);
      elapsed := until;
      PrependAll(events, Current());
      return Success(events);
    }

    /** Advances to a time. Either the whole advance happens, or nothing changes. */
    method AdvanceTo(until: real) returns (r: Result<seq<Event>, ScenarioError>)
      requires Valid()
      modifies this
      ensures Valid()
      ensures surface == old(surface) || fresh(surface)
      ensures var spec := Advance(settings, old(Current()), until);
              if spec.Success? then Current() == spec.value.state && r == Success(spec.value.events)
              else r == Failure(spec.error) && Current() == old(Current())
    {
      hide Run, Sound, TooManyUpdates;
      SoundPhaseEnd(settings, Current());
      if until < elapsed {
        return Failure(ScenarioError.Invalid("scenario elapsed time must be finite and monotonic"));
      }
      var limit: nat;
      match EventLimit(|surface.heights|) {
        case Failure(error) => return Failure(error);
        case Success(value) => limit := value;
      }
      if TooManyUpdates(settings, Current(), until, limit) {
        return Failure(Resource("scenario advance exceeds the event output limit"));
      }
      var candidate := new ScenarioSimulator.CopyOf(this);
      var events :- candidate.AdvanceInner(until, limit);
      Become(candidate);
      return Success(events);
    }

    method Become(other: ScenarioSimulator)
      requires other != this
      modifies this
      ensures surface == other.surface
      ensures cyclePosition == other.cyclePosition && fillPosition == other.fillPosition
      ensures collectionPosition == other.collectionPosition && roughnessPosition == other.roughnessPosition
      ensures elapsed == other.elapsed && updatedAt == other.updatedAt
      ensures nextUpdateIndex == other.nextUpdateIndex && cycleIndex == other.cycleIndex
      ensures phase == other.phase && inlet == other.inlet
      ensures fillPlan == other.fillPlan && collectionPlan == other.collectionPlan
    {
      TakeStreams(other);
      TakeClock(other);
      surface, fillPlan, collectionPlan := other.surface, other.fillPlan, other.collectionPlan;
    }

    method TakeStreams(other: ScenarioSimulator)
      requires other != this
      modifies this`cyclePosition, this`fillPosition, this`collectionPosition, this`roughnessPosition
      ensures cyclePosition == other.cyclePosition && fillPosition == other.fillPosition
      ensures collectionPosition == other.collectionPosition && roughnessPosition == other.roughnessPosition
    {
      cyclePosition, fillPosition := other.cyclePosition, other.fillPosition;
      collectionPosition, roughnessPosition := other.collectionPosition, other.roughnessPosition;
    }

    method TakeClock(other: ScenarioSimulator)
      requires other != this
      modifies this`elapsed, this`updatedAt, this`nextUpdateIndex, this`cycleIndex, this`phase, this`inlet
      ensures elapsed == other.elapsed && updatedAt == other.updatedAt
      ensures nextUpdateIndex == other.nextUpdateIndex && cycleIndex == other.cycleIndex
      ensures phase == other.phase && inlet == other.inlet
    {
      elapsed, updatedAt, nextUpdateIndex := other.elapsed, other.updatedAt, other.nextUpdateIndex;
      cycleIndex, phase, inlet := other.cycleIndex, other.phase, other.inlet;
    }
  }

  function Prepend(events: seq<Event>, rest: Result<Ran, ScenarioError>): Result<Ran, ScenarioError> {
    if rest.Failure? then rest else Success(Ran(rest.value.state, events + rest.value.events))
  }

  lemma PrependNothing(rest: Result<Ran, ScenarioError>, events: seq<Event>)
    requires events == []
    ensures Prepend(events, rest) == rest
  {
    if rest.Success? {
      assert events + rest.value.events == rest.value.events;
    }
  }

  lemma PrependAll(events: seq<Event>, s: State)
    ensures Prepend(events, Success(Ran(s, []))) == Success(Ran(s, events))
  {
    assert events + [] == events;
  }

  lemma PrependOne(events: seq<Event>, event: Event, rest: Result<Ran, ScenarioError>)
    ensures Prepend(events, Preceded(event, rest)) == Prepend(events + [event], rest)
  {
    if rest.Success? {
      assert events + ([event] + rest.value.events) == (events + [event]) + rest.value.events;
    }
  }

  lemma UpdateIsLater(settings: Settings, s: State)
    ensures UpdateTime(settings, s).Success? ==> UpdateTime(settings, s).value > s.updatedAt
  {
  }

  lemma SurfaceMeans(settings: Settings, s: State, requested: real)
    requires settings.Valid() && settings.grid.Holds(s.heights) && requested >= 0.0
    ensures var grid := settings.grid;
            var profile := if s.phase.Filling?
                then grid.LocalProfile(settings.footprint(AtInlet(s.inlet), settings.spreadRadius).gaussian)
                           else grid.UniformProfile();
            var changed := grid.Changed(s.heights, profile, requested, s.phase.Filling?);
            && grid.Holds(changed)
            && ChangedSurface(settings, s, requested)
                == Settle(grid, changed, settings.tangent, RELAXATION_ITERATIONS).heights
  {
    hide Settle, Grid.Changed, Grid.Moved, Grid.Volume, Grid.LocalProfile, Grid.UniformProfile;
    var grid := settings.grid;
    var profile := if s.phase.Filling? then grid.LocalProfile(settings.footprint(AtInlet(s.inlet),
        settings.spreadRadius).gaussian)
                   else grid.UniformProfile();
    ProfilesReach(grid, settings.footprint(AtInlet(s.inlet), settings.spreadRadius).gaussian);
    ChangeIsExact(grid, s.heights, profile, requested, s.phase.Filling?);
  }
}

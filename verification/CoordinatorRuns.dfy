/** Runs of the two-sensor coordinator: the pruned histories answer every lookup as full ones would
    (services/simulation-server/src/runtime/generation.rs). */
module CoordinatorRuns {
  import opened Wrappers
  import opened Sums
  import Sc = Scenario
  import Volume = ScenarioVolume
  import Runs = ScenarioRuns
  import Sn = Snapshots
  import Sp = Spatial
  import Ro = Rotation
  import V = VoidCoverage
  import opened Coordinator

  // ---------------------------------------------------------------- one world

  /** The surface history ends with the current surface, and the spatial history reaches the current time with valid
      events. */
  ghost predicate Steady(env: Environment, w: World) {
    && Defined(env, w) && Runs.UpToDate(env.settings, w.scenario)
    && Sn.Valid(w.entries) && w.entries[0].surface.grid == env.grid
    && w.entries[|w.entries| - 1] == Sn.Entry(w.scenario.updatedAt, Frozen(env, w.scenario.heights))
    && (w.spatial.Some? ==>
          w.spatial.value.resolver.advancedTo == w.scenario.elapsed && Sp.Sound(w.spatial.value.resolver))
  }

  /** The errors that can stop a steady runtime; history errors are not among them. */
  predicate Possible(error: RuntimeError) {
    match error
    case FromScenario(e) => Runs.Tolerated(e)
    case FromRotation(e) => e == Ro.ScanIdExhausted || e == Ro.SampleIndexExhausted || e == Ro.RotationTimeOutOfRange
    case FromSpatial(e) => e == Sp.InvalidEvent || e == Sp.OutsideInterval || e == Sp.TooManyEvents
    case FromCoverage(e) => e != V.CursorStuck
    case DrawFailed => true
    case RetainedEventLimit => true
    case EventOutputLimit => true
    case _ => false
  }

  /** Advancing is stopped by the tolerated scenario errors only. */
  lemma AdvanceStays(settings: Sc.Settings, s: Sc.State, to: real)
    requires settings.Valid() && Sc.Sound(settings, s) && Runs.UpToDate(settings, s) && s.elapsed <= to
    ensures var r := Runs.Advance(settings, s, to);
            if r.Success? then
              && Runs.UpToDate(settings, r.value.state) && r.value.state.elapsed == to
              && (r.value.events == [] ==> r.value.state == s.(elapsed := to))
              && (r.value.events != [] ==>
                    var last := r.value.events[|r.value.events| - 1];
                    last.elapsed == r.value.state.updatedAt && last.heights == r.value.state.heights)
              && Runs.Follow(s.updatedAt, s.phase, s.cycleIndex, r.value.events)
            else Runs.Tolerated(r.error)
  {
    hide Sc.Sound, Runs.Run, Volume.OnPlan;
    Runs.SurfaceHasNodes(settings);
    Runs.SoundPhaseEnd(settings, s);
    var limit := Runs.EventLimit(|s.heights|).value;
    Runs.RunKeepsPlan(settings, s, to, limit);
    Runs.RunIsUpToDate(settings, s, to, limit);
    Runs.EventsFollow(settings, s, to, limit);
  }

  /** Events in order of time are all accepted by the surface history, and it ends with the last of them. */
  lemma {:induction false} AllPushed(env: Environment, entries: seq<Sn.Entry>, time: real, phase: Sc.Phase,
                                     cycle: nat, events: seq<Sc.Event>)
    requires Sn.Valid(entries) && entries[0].surface.grid == env.grid && Sn.Latest(entries) == time
    requires Runs.Follow(time, phase, cycle, events)
    ensures var r := PushAll(env, entries, events);
            && r.Success? && Sn.Valid(r.value) && r.value[0] == entries[0]
            && r.value[|r.value| - 1]
               == if events == [] then entries[|entries| - 1]
                  else Sn.Entry(events[|events| - 1].elapsed, Frozen(env, events[|events| - 1].heights))
    decreases |events|
  {
    if events != [] {
      var e := events[0];
      var pushed := Sn.Push(entries, e.elapsed, Frozen(env, e.heights)).value;
      AllPushed(env, pushed, e.elapsed, e.snapshot.phase, e.snapshot.cycleIndex, events[1..]);
    }
  }

  /** The interval up to the next event lies within the active phase. */
  lemma IntervalAccepted(env: Environment, w: World, to: real)
    requires Steady(env, w) && w.scenario.elapsed <= to
    requires Sc.NextEvent(env.settings, w.scenario).Success? && to <= Sc.NextEvent(env.settings, w.scenario).value
    ensures IntervalFits(Sc.ActivePlan(w.scenario), w.scenario.elapsed, w.scenario.elapsed, to)
  {
    hide Volume.OnPlan, Sn.Valid;
    Runs.NextEventMeans(env.settings, w.scenario);
    Runs.SoundPhaseEnd(env.settings, w.scenario);
    Runs.StartsLater(env.settings, w.scenario);
  }

  /** New voids start inside the interval, before its end; running out of moves of the cursor is impossible. */
  lemma NewVoidsStartInside(env: Environment, s: Sc.State, voids: seq<Sp.Event>, generators: nat, to: real)
    requires s.elapsed < to && (s.phase.Collecting? ==> s.collectionPlan.Some?)
    ensures var r := NewEvents(env, s, voids, generators, to);
            if r.Success? then forall k | 0 <= k < |r.value.voids| :: s.elapsed <= r.value.voids[k].startedAt < to
            else Possible(r.error)
  {
    hide V.Cover, Sp.Event.Valid;
    if s.phase.Filling? && env.drawFalling(generators, s, to).Some? && env.voids {
      var phaseEnd := Sc.ActivePlan(s).startedAt + Sc.ActivePlan(s).duration;
      V.CoverMeans(VoidSource(env, s, phaseEnd), voids, s.elapsed, s.elapsed, to, [],
                   env.drawFalling(generators, s, to).value.generators);
    }
  }

  /** The timeline moves on with valid events, so resolving can never find an invalid one. */
  lemma SpatialStays(env: Environment, w: World, to: real, bounded: bool)
    requires Steady(env, w) && w.scenario.elapsed < to
    requires Sc.NextEvent(env.settings, w.scenario).Success? && to <= Sc.NextEvent(env.settings, w.scenario).value
    ensures w.scenario.phase.Collecting? ==> w.scenario.collectionPlan.Some?
    ensures var r := MovedSpatial(env, w, to, bounded);
            if r.Success? then
              && (r.value.Some? <==> w.spatial.Some?)
              && (r.value.Some? ==>
                    && r.value.value.resolver.advancedTo == to && Sp.Sound(r.value.value.resolver)
                    && r.value.value.resolver.retainedFrom == w.spatial.value.resolver.retainedFrom)
            else Possible(r.error)
  {
    hide IntervalFits, Sp.AdvanceWith, Sp.ClosedTo, Sp.Sound, Runs.UpToDate, Sn.Valid, NewEvents;
    Runs.SoundPhaseEnd(env.settings, w.scenario);
    if w.spatial.Some? {
      IntervalAccepted(env, w, to);
      var t, at, closes := w.spatial.value, w.scenario.elapsed, Closes(env, w.scenario);
      var closed := Sp.CloseVoids(t.resolver, at, closes);
      Sp.CloseIsSound(t.resolver, closes);
      NewVoidsStartInside(env, w.scenario, closed.voids, t.generators, to);
      var drawn := NewEvents(env, w.scenario, closed.voids, t.generators, to);
      if drawn.Success? {
        Sp.AdvanceIsSound(closed, to, drawn.value.falling, drawn.value.voids, drawn.value.collection);
      }
    }
  }

  /** The spatial history still begins where it did. */
  predicate SameRetention(w: World, v: World) {
    && (w.spatial.Some? <==> v.spatial.Some?)
    && (w.spatial.Some? ==> w.spatial.value.resolver.retainedFrom == v.spatial.value.resolver.retainedFrom)
  }

  lemma PassedStays(env: Environment, w: World, to: real, spatial: Option<Timeline>, budget: nat)
    requires Steady(env, w) && w.scenario.elapsed <= to
    requires spatial.Some? ==> spatial.value.resolver.advancedTo == to && Sp.Sound(spatial.value.resolver)
    ensures var r := Passed(env, w, to, spatial, budget);
            if r.Success? then
              && Steady(env, r.value.world) && r.value.world.scenario.elapsed == to
              && r.value.world.entries[0] == w.entries[0] && r.value.world.spatial == spatial
            else Possible(r.error)
  {
    hide Runs.Advance, PushAll, Sc.Sound, Runs.UpToDate, Sp.Sound;
    AdvanceStays(env.settings, w.scenario, to);
    var advance := Runs.Advance(env.settings, w.scenario, to);
    if advance.Success? {
      AllPushed(env, w.entries, w.scenario.updatedAt, w.scenario.phase, w.scenario.cycleIndex, advance.value.events);
    }
  }

  /** A turn keeps a world steady, and history errors cannot occur. */
  lemma TurnStays(env: Environment, w: World, through: real, bounded: bool, budget: nat)
    requires Steady(env, w) && w.scenario.elapsed < through
    ensures var r := Turn(env, w, through, bounded, budget);
            if r.Success? then
              && Steady(env, r.value.world) && r.value.world.scenario.elapsed <= through
              && r.value.world.entries[0] == w.entries[0] && SameRetention(w, r.value.world)
            else Possible(r.error)
  {
    hide MovedSpatial, Passed, Steady, Sc.NextEvent;
    SteadyMeans(env, w);
    NextErrors(env.settings, w.scenario);
    var next := Sc.NextEvent(env.settings, w.scenario);
    if next.Success? {
      var to := Min(next.value, through);
      SpatialStays(env, w, to, bounded);
      var spatial := MovedSpatial(env, w, to, bounded);
      if spatial.Success? {
        PassedStays(env, w, to, spatial.value, budget);
      }
    }
  }

  /** So do all turns up to the end of a batch, and they reach it. */
  lemma {:induction false} AdvanceAllStays(env: Environment, w: World, through: real, bounded: bool, budget: nat)
    requires Steady(env, w) && w.scenario.elapsed <= through
    ensures Defined(env, w)
    ensures var r := AdvanceAll(env, w, through, bounded, budget);
            if r.Success? then
              && Steady(env, r.value.world) && r.value.world.scenario.elapsed == through
              && r.value.world.entries[0] == w.entries[0] && SameRetention(w, r.value.world)
            else Possible(r.error)
    decreases budget, if w.scenario.elapsed < through then 1 else 0
  {
    hide Turn, Defined, Possible, Runs.UpToDate, Sp.Sound;
    if w.scenario.elapsed < through {
      TurnStays(env, w, through, bounded, budget);
      TurnReaches(env, w, through, bounded, budget);
      var turned := Turn(env, w, through, bounded, budget);
      if turned.Success? {
        AdvanceAllStays(env, turned.value.world, through, bounded, budget - |turned.value.events|);
      }
    }
  }

  lemma NextErrors(settings: Sc.Settings, s: Sc.State)
    requires settings.Valid() && Sc.Sound(settings, s)
    ensures Sc.NextEvent(settings, s).Failure? ==> Runs.Tolerated(Sc.NextEvent(settings, s).error)
  {
    Runs.NextEventMeans(settings, s);
  }

  // ---------------------------------------------------------------- a pruned and a full world

  /** The pruned world differs from the full one only in what it forgot before a time. */
  ghost predicate Together(env: Environment, pruned: World, full: World, from: real) {
    && Steady(env, pruned) && Steady(env, full)
    && pruned.scenario == full.scenario
    && Sn.SameFrom(pruned.entries, full.entries, from) && full.entries[0].startedAt == 0.0 <= from
    && (pruned.spatial.Some? <==> full.spatial.Some?)
    && (pruned.spatial.Some? ==>
          && Sp.Stands(pruned.spatial.value.resolver, full.spatial.value.resolver)
          && pruned.spatial.value.generators == full.spatial.value.generators
          && pruned.spatial.value.resolver.retainedFrom <= from)
  }

  lemma {:induction false} PushedTogether(env: Environment, pruned: seq<Sn.Entry>, full: seq<Sn.Entry>, from: real,
                                          events: seq<Sc.Event>)
    requires Sn.SameFrom(pruned, full, from)
    ensures var p, f := PushAll(env, pruned, events), PushAll(env, full, events);
            if p.Success? then f.Success? && Sn.SameFrom(p.value, f.value, from) else f == p
    decreases |events|
  {
    hide Sn.SameFrom;
    if events != [] {
      var e := events[0];
      SameFromIsNotEmpty(pruned, full, from);
      Sn.PushKeepsAnswers(pruned, full, from, e.elapsed, Frozen(env, e.heights));
      var p, f := Sn.Push(pruned, e.elapsed, Frozen(env, e.heights)), Sn.Push(full, e.elapsed, Frozen(env, e.heights));
      if p.Success? {
        PushedTogether(env, p.value, f.value, from, events[1..]);
      }
    }
  }

  lemma SameFromIsNotEmpty(pruned: seq<Sn.Entry>, full: seq<Sn.Entry>, from: real)
    requires Sn.SameFrom(pruned, full, from)
    ensures pruned != [] && full != []
  {
  }

  /** The same live voids lead to the same new events: the search for open voids sees only live ones. */
  lemma NewEventsTogether(env: Environment, s: Sc.State, a: seq<Sp.Event>, b: seq<Sp.Event>, time: real,
                          generators: nat, to: real)
    requires s.phase.Collecting? ==> s.collectionPlan.Some?
    requires Sp.Live(a, time) == Sp.Live(b, time) && time <= s.elapsed
    ensures NewEvents(env, s, a, generators, to) == NewEvents(env, s, b, generators, to)
  {
    hide V.Cover, Sp.LiveTo;
    if s.phase.Filling? && env.drawFalling(generators, s, to).Some? && env.voids {
      var phaseEnd := Sc.ActivePlan(s).startedAt + Sc.ActivePlan(s).duration;
      V.CoverTogether(VoidSource(env, s, phaseEnd), a, b, time, s.elapsed, to, [],
                      env.drawFalling(generators, s, to).value.generators);
    }
  }

  lemma SteadyReaches(env: Environment, w: World)
    requires Steady(env, w) && w.spatial.Some?
    ensures w.spatial.value.resolver.advancedTo == w.scenario.elapsed
  {
  }

  /** Both spatial histories close the same open voids, are led to the same new events, and accept them alike. */
  lemma SpatialTogether(env: Environment, pruned: World, full: World, from: real, to: real)
    requires Together(env, pruned, full, from) && pruned.spatial.Some? && pruned.scenario.elapsed <= to
    requires pruned.scenario.phase.Collecting? ==> pruned.scenario.collectionPlan.Some?
    ensures var p, f := SpatialTo(env, pruned, pruned.spatial.value, to, true),
            SpatialTo(env, full, full.spatial.value, to, false);
            if p.Success? then
              && f.Success? && Sp.Stands(p.value.resolver, f.value.resolver) && p.value.generators == f.value.generators
              && p.value.resolver.retainedFrom == pruned.spatial.value.resolver.retainedFrom
            else p.error == RetainedEventLimit || f == Failure(p.error)
  {
    hide Steady, Sn.SameFrom, IntervalFits, Sp.AdvanceWith, Sp.ClosedTo, Sp.LiveTo, NewEvents;
    var p, f, at := pruned.spatial.value.resolver, full.spatial.value.resolver, pruned.scenario.elapsed;
    var closes := Closes(env, pruned.scenario);
    SteadyReaches(env, pruned);
    Sp.CloseStands(p, f, at, closes);
    var p', f' := Sp.CloseVoids(p, at, closes), Sp.CloseVoids(f, at, closes);
    NewEventsTogether(env, pruned.scenario, p'.voids, f'.voids, Sp.Since(p'), pruned.spatial.value.generators, to);
    var drawn := NewEvents(env, pruned.scenario, p'.voids, pruned.spatial.value.generators, to);
    if drawn.Success? {
      Sp.AdvanceStands(p', f', to, drawn.value.falling, drawn.value.voids, drawn.value.collection);
      AdvanceKeepsRetention(p', to, drawn.value);
    }
  }

  lemma AdvanceKeepsRetention(r: Sp.Resolver, to: real, drawn: Drawn)
    ensures var a := Sp.AdvanceWith(r, to, drawn.falling, drawn.voids, drawn.collection);
            a.Success? ==> a.value.retainedFrom == r.retainedFrom
  {
    hide Sp.Rejected, Sp.Merged;
  }

  lemma PassedTogether(env: Environment, pruned: World, full: World, from: real, to: real, budget: nat,
                       s: Option<Timeline>, t: Option<Timeline>)
    requires Defined(env, pruned) && Defined(env, full) && pruned.scenario == full.scenario
    requires Sn.SameFrom(pruned.entries, full.entries, from)
    ensures var p, f := Passed(env, pruned, to, s, budget), Passed(env, full, to, t, budget);
            if p.Success? then
              && f.Success? && p.value.events == f.value.events && p.value.world.scenario == f.value.world.scenario
              && p.value.world.spatial == s && f.value.world.spatial == t
              && p.value.world.scenario.elapsed == to
              && Sn.SameFrom(p.value.world.entries, f.value.world.entries, from)
            else f == Failure(p.error)
  {
    hide Runs.Advance, PushAll, Sc.Sound, Sc.NextEvent, Sn.SameFrom;
    AdvanceReaches(env.settings, pruned.scenario, to);
    var advance := Runs.Advance(env.settings, pruned.scenario, to);
    if advance.Success? {
      PushedTogether(env, pruned.entries, full.entries, from, advance.value.events);
    }
  }

  lemma TurnTogether(env: Environment, pruned: World, full: World, from: real, through: real, budget: nat)
    requires Together(env, pruned, full, from) && pruned.scenario.elapsed < through
    ensures Defined(env, pruned) && Defined(env, full)
    ensures var p, f := Turn(env, pruned, through, true, budget), Turn(env, full, through, false, budget);
            if p.Success? then
              f.Success? && p.value.events == f.value.events && Together(env, p.value.world, f.value.world, from)
            else Possible(p.error) && (p.error == RetainedEventLimit || f == Failure(p.error))
  {
    hide SpatialTo, Passed, Sc.NextEvent, Sn.SameFrom, Sp.Stands, Steady, Possible, Defined;
    SteadyMeans(env, pruned);
    SteadyMeans(env, full);
    TurnStays(env, pruned, through, true, budget);
    TurnStays(env, full, through, false, budget);
    var next := Sc.NextEvent(env.settings, pruned.scenario);
    if next.Success? {
      var to := Min(next.value, through);
      if pruned.spatial.Some? {
        SpatialTogether(env, pruned, full, from, to);
      }
      var s, t := MovedSpatial(env, pruned, to, true), MovedSpatial(env, full, to, false);
      if s.Success? {
        PassedTogether(env, pruned, full, from, to, budget, s.value, t.value);
      }
    }
  }

  lemma SteadyMeans(env: Environment, w: World)
    requires Steady(env, w)
    ensures Defined(env, w)
    ensures w.scenario.phase.Collecting? ==> w.scenario.collectionPlan.Some?
    ensures Sc.NextEvent(env.settings, w.scenario).Success?
            ==> Sc.NextEvent(env.settings, w.scenario).value > w.scenario.elapsed
  {
    hide Volume.OnPlan, Sc.NextEvent;
    Runs.SoundPhaseEnd(env.settings, w.scenario);
  }

  /** All turns of a batch. */
  lemma {:induction false} AdvanceTogether(env: Environment, pruned: World, full: World, from: real, through: real,
                                           budget: nat)
    requires Together(env, pruned, full, from) && pruned.scenario.elapsed <= through
    ensures Defined(env, pruned) && Defined(env, full)
    ensures var p, f := AdvanceAll(env, pruned, through, true, budget), AdvanceAll(env, full, through, false, budget);
            if p.Success? then
              && f.Success? && p.value.events == f.value.events && Together(env, p.value.world, f.value.world, from)
              && p.value.world.scenario.elapsed == through
            else Possible(p.error) && (p.error == RetainedEventLimit || f == Failure(p.error))
    decreases budget, if pruned.scenario.elapsed < through then 1 else 0
  {
    hide Together, Turn, Defined, Possible;
    TogetherIsDefined(env, pruned, full, from);
    if pruned.scenario.elapsed < through {
      TurnTogether(env, pruned, full, from, through, budget);
      TurnReaches(env, pruned, through, true, budget);
      TurnReaches(env, full, through, false, budget);
      var p, f := Turn(env, pruned, through, true, budget), Turn(env, full, through, false, budget);
      if p.Success? {
        AdvanceTogether(env, p.value.world, f.value.world, from, through, budget - |p.value.events|);
      }
    }
  }

  lemma TogetherIsDefined(env: Environment, pruned: World, full: World, from: real)
    requires Together(env, pruned, full, from)
    ensures Defined(env, pruned) && Defined(env, full) && pruned.scenario == full.scenario
  {
  }
}

/** What a batch measures and what a turn of the coordinator does, sample by sample and event by event
    (services/simulation-server/src/runtime/generation.rs; services/simulation-server/src/measurement/reference.rs). */
module Measuring {
  import opened Wrappers
  import opened Sums
  import Sc = Scenario
  import Runs = ScenarioRuns
  import Sn = Snapshots
  import Sp = Spatial
  import Ro = Rotation
  import V = VoidCoverage
  import opened Coordinator
  import opened CoordinatorRuns
  import opened CoordinatorBatches

  // ---------------------------------------------------------------- one scan

  /** The distance of a sample whose ray is cast against a surface: the ray's own, or what distortions make of it. */
  ghost predicate IsDistance(env: Environment, spatial: Option<Timeline>, sensor: nat, sample: nat, at: real,
                             surface: Sn.Surface, distance: real)
  {
    var ray := env.castRay(sensor, sample, surface);
    if spatial.None? then distance == ray.distance
    else Sp.IsDistorted(Sp.Sample(at, ray.distance, ray.hit, ray.staticDistance), spatial.value.resolver,
                        env.minimum, env.maximum, distance)
  }

  /** Every sample of the scan is measured against the surface in force at its own time. */
  ghost predicate IsMeasured(env: Environment, entries: seq<Sn.Entry>, spatial: Option<Timeline>, sensor: nat,
                             scan: Ro.Scan, m: Measured)
  {
    && m.sensor == sensor && m.scanId == scan.scanId && m.completedAt == scan.completedAt
    && |m.distances| == |scan.times| == |scan.samples|
    && forall k: nat, j: nat | k < |scan.times| && Sn.InForce(entries, scan.times[k], j) ::
         IsDistance(env, spatial, sensor, scan.samples[k], scan.times[k], entries[j].surface, m.distances[k])
  }

  lemma {:induction false} LookedUp(env: Environment, sensor: nat, entries: seq<Sn.Entry>, scan: Ro.Scan, n: nat)
    requires |scan.samples| == |scan.times| && n <= |scan.times| && Sn.Valid(entries)
    requires Lookups(env, sensor, entries, scan, n).Success?
    ensures var samples := Lookups(env, sensor, entries, scan, n).value;
            forall k: nat, j: nat | k < n && Sn.InForce(entries, scan.times[k], j) ::
              var ray := env.castRay(sensor, scan.samples[k], entries[j].surface);
              samples[k] == Sp.Sample(scan.times[k], ray.distance, ray.hit, ray.staticDistance)
    ensures forall k: nat | k < n :: scan.times[k] >= 0.0 && entries[0].startedAt <= scan.times[k]
    decreases n
  {
    hide Sn.SnapshotAt, Sn.InForce, Sn.Valid;
    if n > 0 {
      LookedUp(env, sensor, entries, scan, n - 1);
      Sn.NotEmpty(entries);
      Sn.AnswerIsInForce(entries, scan.times[n - 1]);
    }
  }

  lemma SamplesResolved(env: Environment, sensor: nat, w: World, scan: Ro.Scan, samples: seq<Sp.Sample>)
    requires |scan.samples| == |scan.times| > 0 && Measure(env, sensor, w, scan).Success?
    requires Lookups(env, sensor, w.entries, scan, |scan.times|) == Success(samples)
    ensures |samples| == |scan.times|
    ensures var m := Measure(env, sensor, w, scan).value;
            && m.sensor == sensor && m.scanId == scan.scanId && m.completedAt == scan.completedAt
            && |m.distances| == |samples|
            && forall k | 0 <= k < |samples| ::
                 if w.spatial.None? then m.distances[k] == samples[k].distance
                 else Sp.IsDistorted(samples[k], w.spatial.value.resolver, env.minimum, env.maximum, m.distances[k])
  {
    hide Lookups, Sp.ResolveAll, Sp.IsDistorted;
    if w.spatial.Some? {
      var r := w.spatial.value.resolver;
      Sp.ResolveCounts(r, samples, scan.completedAt, env.minimum, env.maximum);
      forall k | 0 <= k < |samples|
        ensures Sp.IsDistorted(samples[k], r, env.minimum, env.maximum,
                               Sp.ResolveAll(r, samples, scan.completedAt, env.minimum, env.maximum).value[k])
      {
        Sp.ResolvedDistances(r, samples, scan.completedAt, env.minimum, env.maximum, k);
      }
    }
  }

  /** A measured scan: each sample casts its ray against the surface that was in force when it was taken, and there is
      such a surface for every sample. */
  lemma ScanIsMeasured(env: Environment, sensor: nat, w: World, scan: Ro.Scan)
    requires |scan.samples| == |scan.times| > 0 && Sn.Valid(w.entries) && Measure(env, sensor, w, scan).Success?
    ensures IsMeasured(env, w.entries, w.spatial, sensor, scan, Measure(env, sensor, w, scan).value)
    ensures forall k | 0 <= k < |scan.times| :: Sn.Reaches(w.entries, scan.times[k])
  {
    hide Lookups, Sn.Valid, Sp.ResolveAll, Sp.IsDistorted, Distances;
    var n, m := |scan.times|, Measure(env, sensor, w, scan).value;
    LookedUp(env, sensor, w.entries, scan, n);
    var samples := Lookups(env, sensor, w.entries, scan, n).value;
    SamplesResolved(env, sensor, w, scan, samples);
    Sn.NotEmpty(w.entries);
    forall k | 0 <= k < n ensures Sn.Reaches(w.entries, scan.times[k]) {
      Sn.AnswerIsInForce(w.entries, scan.times[k]);
    }
  }

  // ---------------------------------------------------------------- one batch

  /** The pending scans that complete at a time, in sensor order, each measured in a world. */
  ghost predicate AreMeasured(env: Environment, w: World, first: Sensor, second: Sensor, now: real,
                              scans: seq<Measured>)
  {
    var one, two := first.pending.completedAt == now, second.pending.completedAt == now;
    && |scans| == (if one then 1 else 0) + (if two then 1 else 0)
    && (one ==> IsMeasured(env, w.entries, w.spatial, 0, first.pending, scans[0]))
    && (two ==> IsMeasured(env, w.entries, w.spatial, 1, second.pending, scans[|scans| - 1]))
  }

  lemma ScansAreMeasured(env: Environment, w: World, r: Runtime, now: real)
    requires Ready(r.first) && Ready(r.second) && Sn.Valid(w.entries)
    ensures |r.first.pending.samples| == |r.first.pending.times| > 0
    ensures |r.second.pending.samples| == |r.second.pending.times| > 0
    ensures var one, two := MeasuredNow(env, 0, w, r.first, now), MeasuredNow(env, 1, w, r.second, now);
            one.Success? && two.Success? ==> AreMeasured(env, w, r.first, r.second, now, one.value + two.value)
  {
    hide Ready, Measure, IsMeasured, Sn.Valid;
    ReadyMeans(r.first);
    ReadyMeans(r.second);
    var one, two := MeasuredNow(env, 0, w, r.first, now), MeasuredNow(env, 1, w, r.second, now);
    if one.Success? && r.first.pending.completedAt == now {
      ScanIsMeasured(env, 0, w, r.first.pending);
    }
    if two.Success? && r.second.pending.completedAt == now {
      ScanIsMeasured(env, 1, w, r.second.pending);
    }
  }

  /** A batch holds the pending scans that complete first. Each is measured against the complete history of surfaces and
      distortions as it stands once everything has advanced to that time, though the runtime has forgotten part of it. */
  lemma BatchIsMeasured(env: Environment, pruned: Runtime, full: Runtime)
    requires Paired(env, pruned, full)
    ensures Usable(env, pruned) && Usable(env, full)
    ensures var p, f := Next(env, pruned, true), Next(env, full, false);
            p.Success? ==>
              var now := Min(pruned.first.pending.completedAt, pruned.second.pending.completedAt);
              && f.Success? && p.value.batch == f.value.batch && p.value.batch.completedAt == now
              && AreMeasured(env, f.value.runtime.world, pruned.first, pruned.second, now, p.value.batch.scans)
  {
    hide Ready, AdvanceAll, After, MeasuredNow, Forgotten, AreMeasured, Usable, Sn.Valid, Runs.UpToDate, Sp.Sound, Next,
         Defined, Sp.Stands;
    NextTogether(env, pruned, full);
    var f := Next(env, full, false);
    if f.Success? {
      NextMeasures(env, full);
      var limit := Runs.EventLimit(|full.world.scenario.heights|);
      AdvanceAllStays(env, full.world, Completion(full), false, limit.value);
      ScansAreMeasured(env, f.value.runtime.world, full, Completion(full));
    }
  }

  lemma NextMeasures(env: Environment, r: Runtime)
    requires Usable(env, r) && Next(env, r, false).Success?
    ensures Defined(env, r.world)
    ensures |r.first.pending.samples| == |r.first.pending.times| > 0
    ensures |r.second.pending.samples| == |r.second.pending.times| > 0
    ensures var s, limit := Next(env, r, false).value, Runs.EventLimit(|r.world.scenario.heights|);
            && limit.Success?
            && var advanced := AdvanceAll(env, r.world, Completion(r), false, limit.value);
               && advanced.Success? && advanced.value.world == s.runtime.world
               && var one, two := MeasuredNow(env, 0, s.runtime.world, r.first, Completion(r)),
                                  MeasuredNow(env, 1, s.runtime.world, r.second, Completion(r));
                  one.Success? && two.Success? && s.batch.scans == one.value + two.value
  {
    hide Defined, Ready, AdvanceAll, After, MeasuredNow, Forgotten;
    ReadyMeans(r.first);
    ReadyMeans(r.second);
  }

  // ---------------------------------------------------------------- the histories over a turn

  /** Every event of the scenario adds one entry: its time, and the surface it left. */
  ghost predicate Recorded(env: Environment, before: seq<Sn.Entry>, events: seq<Sc.Event>, after: seq<Sn.Entry>) {
    && |after| == |before| + |events| && before <= after
    && forall k | 0 <= k < |events| ::
         after[|before| + k] == Sn.Entry(events[k].elapsed, Sn.Surface(env.grid, events[k].heights))
  }

  lemma {:induction false} PushedIsRecorded(env: Environment, entries: seq<Sn.Entry>, events: seq<Sc.Event>)
    requires entries != [] && PushAll(env, entries, events).Success?
    ensures Recorded(env, entries, events, PushAll(env, entries, events).value)
    decreases |events|
  {
    if events != [] {
      PushedIsRecorded(env, Sn.Push(entries, events[0].elapsed, Frozen(env, events[0].heights)).value, events[1..]);
    }
  }

  /** The spatial history over an interval. Voids that are covered, or all of them once collection runs, close at its
      start, with the surface as it is then. A fill draws falling material and, if configured, voids in rounds; a
      collection draws occlusions. What is drawn joins the history, and the generators move on. */
  ghost predicate Distorts(env: Environment, s: Sc.State, t: Timeline, to: real, closed: Sp.Resolver, drawn: Drawn,
                           source: V.Source, rounds: seq<V.Round>, after: Timeline)
    requires s.phase.Collecting? ==> s.collectionPlan.Some?
  {
    var surface := Sn.Surface(env.grid, s.heights);
    && closed == t.resolver.(voids := closed.voids) && |closed.voids| == |t.resolver.voids|
    && (forall k | 0 <= k < |closed.voids| ::
          var e := t.resolver.voids[k];
          closed.voids[k] == if e.startedAt <= s.elapsed < e.endsAt && (s.phase.Collecting? || env.covered(surface, e))
                             then e.(endsAt := s.elapsed) else e)
    && (if s.phase.Collecting? then
          && drawn.falling == drawn.voids == []
          && env.drawCollection(t.generators, s, to) == Some(Draw(drawn.collection, drawn.generators))
        else
          && drawn.collection == [] && env.drawFalling(t.generators, s, to).Some?
          && var falling := env.drawFalling(t.generators, s, to).value;
             && drawn.falling == falling.events
             && if env.voids then
                  && IsSource(env, s, source)
                  && V.AreRounds(source, closed.voids, s.elapsed, to, falling.generators, rounds, drawn.voids,
                                 drawn.generators)
                else drawn.voids == [] && drawn.generators == falling.generators)
    && Joined(closed.falling, drawn.falling, after.resolver.falling)
    && Joined(closed.voids, drawn.voids, after.resolver.voids)
    && Joined(closed.collection, drawn.collection, after.resolver.collection)
    && after.resolver.advancedTo == to && after.resolver.retainedFrom == t.resolver.retainedFrom
    && after.generators == drawn.generators
  }

  /** Voids are attempted with the scenario as it stands, against the configured area, and close with the phase. */
  ghost predicate IsSource(env: Environment, s: Sc.State, source: V.Source)
    requires s.phase.Collecting? ==> s.collectionPlan.Some?
  {
    && source.area == env.voidArea && source.target == env.voidTarget
    && source.phaseEnd == Sc.ActivePlan(s).startedAt + Sc.ActivePlan(s).duration
    && forall generators: nat, at: real, open: seq<Sp.Event> ::
         source.attempt(generators, at, open) == env.voidAttempt(generators, s, at, open)
  }

  ghost predicate Joined(before: seq<Sp.Event>, more: seq<Sp.Event>, after: seq<Sp.Event>) {
    multiset(after) == multiset(before) + multiset(more) && (Sp.InOrder(before) ==> Sp.InOrder(after))
  }

  lemma DrawnIs(env: Environment, s: Sc.State, voids: seq<Sp.Event>, generators: nat, to: real)
    returns (source: V.Source, rounds: seq<V.Round>)
    requires s.phase.Collecting? ==> s.collectionPlan.Some?
    requires NewEvents(env, s, voids, generators, to).Success?
    ensures var drawn := NewEvents(env, s, voids, generators, to).value;
            if s.phase.Collecting? then
              && drawn.falling == drawn.voids == []
              && env.drawCollection(generators, s, to) == Some(Draw(drawn.collection, drawn.generators))
            else
              && drawn.collection == [] && env.drawFalling(generators, s, to).Some?
              && var falling := env.drawFalling(generators, s, to).value;
                 && drawn.falling == falling.events
                 && if env.voids then
                      && IsSource(env, s, source)
                      && V.AreRounds(source, voids, s.elapsed, to, falling.generators, rounds, drawn.voids,
                                     drawn.generators)
                    else drawn.voids == [] && drawn.generators == falling.generators
  {
    hide V.Cover, V.AreRounds;
    source, rounds := VoidSource(env, s, Sc.ActivePlan(s).startedAt + Sc.ActivePlan(s).duration), [];
    if s.phase.Filling? && env.voids {
      var placed;
      rounds, placed := V.CoverGoesInRounds(source, voids, s.elapsed, to, [],
                                            env.drawFalling(generators, s, to).value.generators);
      assert voids + [] == voids && [] + placed == placed;
    }
  }

  lemma ClosesMeans(env: Environment, s: Sc.State, e: Sp.Event)
    ensures Closes(env, s)(e) <==> s.phase.Collecting? || env.covered(Sn.Surface(env.grid, s.heights), e)
  {
    assert Frozen(env, s.heights) == Sn.Surface(env.grid, s.heights);
  }

  /** An interval that the spatial history accepts starts where it stands, up to the tolerance, and lies in the active
      phase; it changes the history in the way described, and a bounded runtime retains at most 100000 events. */
  lemma IntervalDistorts(env: Environment, w: World, t: Timeline, to: real, bounded: bool)
    returns (closed: Sp.Resolver, drawn: Drawn, source: V.Source, rounds: seq<V.Round>)
    requires w.scenario.phase.Collecting? ==> w.scenario.collectionPlan.Some?
    requires SpatialTo(env, w, t, to, bounded).Success?
    ensures var after := SpatialTo(env, w, t, to, bounded).value;
            && Distorts(env, w.scenario, t, to, closed, drawn, source, rounds, after)
            && (bounded ==> |after.resolver.falling| + |after.resolver.voids| + |after.resolver.collection| <= 100_000)
    ensures var s, plan := w.scenario, Sc.ActivePlan(w.scenario);
            && Abs(s.elapsed - t.resolver.advancedTo) <= 0.000000000001 && 0.0 <= s.elapsed <= to
            && plan.startedAt - 0.000000000001 <= s.elapsed && to <= plan.startedAt + plan.duration + 0.000000000001
  {
    hide NewEvents, Sp.AdvanceWith, Sp.ClosedTo, V.AreRounds, Sp.InOrder;
    var s := w.scenario;
    closed := Sp.CloseVoids(t.resolver, s.elapsed, Closes(env, s));
    drawn := NewEvents(env, s, closed.voids, t.generators, to).value;
    Sp.CloseCutsShort(t.resolver, s.elapsed, Closes(env, s));
    forall e: Sp.Event
      ensures Closes(env, s)(e) <==> s.phase.Collecting? || env.covered(Sn.Surface(env.grid, s.heights), e)
    {
      ClosesMeans(env, s, e);
    }
    source, rounds := DrawnIs(env, s, closed.voids, t.generators, to);
    Sp.AdvanceJoins(closed, to, drawn.falling, drawn.voids, drawn.collection);
  }

  /** One turn goes to the next event of the surface, or to the end of the batch when that comes first. The scenario runs
      there, the surface history records its events, and the spatial history is changed beforehand, by the scenario as it
      stood before the turn. */
  lemma TurnMeans(env: Environment, w: World, through: real, bounded: bool, budget: nat)
    requires Defined(env, w) && Turn(env, w, through, bounded, budget).Success?
    ensures var t := Turn(env, w, through, bounded, budget).value;
            && (w.scenario.phase.Collecting? ==> w.scenario.collectionPlan.Some?)
            && Sc.NextEvent(env.settings, w.scenario).Success?
            && var to := Min(Sc.NextEvent(env.settings, w.scenario).value, through);
               && Runs.Advance(env.settings, w.scenario, to) == Success(Runs.Ran(t.world.scenario, t.events))
               && Recorded(env, w.entries, t.events, t.world.entries) && |t.events| <= budget
               && (w.spatial.None? <==> t.world.spatial.None?)
               && (w.spatial.Some? ==>
                     SpatialTo(env, w, w.spatial.value, to, bounded) == Success(t.world.spatial.value))
  {
    hide Sc.Sound, Runs.Advance, PushAll, SpatialTo, Sc.NextEvent, Recorded;
    SoundCollecting(env, w);
    var to := Min(Sc.NextEvent(env.settings, w.scenario).value, through);
    DefinedHasEntries(env, w);
    PushedIsRecorded(env, w.entries, Runs.Advance(env.settings, w.scenario, to).value.events);
  }

  /** The surface history over a whole batch: one entry for each event of it, in order. */
  lemma {:induction false} BatchIsRecorded(env: Environment, w: World, through: real, bounded: bool, budget: nat)
    requires Defined(env, w) && AdvanceAll(env, w, through, bounded, budget).Success?
    ensures var t := AdvanceAll(env, w, through, bounded, budget).value;
            Recorded(env, w.entries, t.events, t.world.entries)
    decreases budget, if w.scenario.elapsed < through then 1 else 0
  {
    hide Defined, Turn, Runs.Advance, SpatialTo;
    if w.scenario.elapsed < through {
      TurnMeans(env, w, through, bounded, budget);
      TurnReaches(env, w, through, bounded, budget);
      var t := Turn(env, w, through, bounded, budget).value;
      BatchIsRecorded(env, t.world, through, bounded, budget - |t.events|);
    }
  }

  // ---------------------------------------------------------------- forgetting

  /** Forgetting drops every surface that was replaced by the given time and every spatial event that has ended by then,
      and nothing else. */
  lemma ForgettingDropsEnded(env: Environment, w: World, time: real) returns (n: nat)
    requires w.entries != [] && Forgotten(w, time).Success?
    ensures var v := Forgotten(w, time).value;
            && v.scenario == w.scenario && n < |w.entries| && v.entries == w.entries[n..]
            && (forall k | 0 < k <= n :: w.entries[k].startedAt <= time)
            && (n + 1 < |w.entries| ==> w.entries[n + 1].startedAt > time)
            && (w.spatial.None? <==> v.spatial.None?)
            && (w.spatial.Some? ==>
                  var r, d := w.spatial.value.resolver, v.spatial.value.resolver;
                  && Sp.OnlyLater(r.falling, d.falling, time) && Sp.OnlyLater(r.voids, d.voids, time)
                  && Sp.OnlyLater(r.collection, d.collection, time)
                  && d.advancedTo == r.advancedTo && d.retainedFrom == time
                  && v.spatial.value.generators == w.spatial.value.generators)
  {
    hide Sp.DiscardBefore, Sp.OnlyLater, Sp.InOrder, Sn.Trim;
    n := Sn.TrimDropsEnded(w.entries, time);
    if w.spatial.Some? {
      Sp.DiscardDropsEnded(w.spatial.value.resolver, time);
    }
  }

  /** After a batch a bounded runtime forgets up to the earliest sample still pending, and no further. */
  lemma BatchForgets(env: Environment, r: Runtime)
    requires Usable(env, r) && Next(env, r, true).Success?
    ensures var s, limit := Next(env, r, true).value, Runs.EventLimit(|r.world.scenario.heights|);
            && limit.Success? && Defined(env, r.world)
            && var advanced := AdvanceAll(env, r.world, Completion(r), true, limit.value);
               && advanced.Success? && advanced.value.world.entries != []
               && s.batch.events == advanced.value.events
               && s.runtime.first.pending.times != [] && s.runtime.second.pending.times != []
               && Forgotten(advanced.value.world,
                            Min(s.runtime.first.pending.times[0], s.runtime.second.pending.times[0]))
                  == Success(s.runtime.world)
  {
    hide Defined, Ready, AdvanceAll, MovedOn, MeasuredNow, Forgotten;
    ReadyMeans(r.first);
    ReadyMeans(r.second);
    MovedIsReady(r.first, Completion(r));
    MovedIsReady(r.second, Completion(r));
    var s := Next(env, r, true).value;
    ReadyMeans(s.runtime.first);
    ReadyMeans(s.runtime.second);
    var limit := Runs.EventLimit(|r.world.scenario.heights|);
    DefinedHasEntries(env, AdvanceAll(env, r.world, Completion(r), true, limit.value).value.world);
  }
}

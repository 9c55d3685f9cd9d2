/** The two-sensor runtime as it runs: candidates advanced in a loop and committed together, a terminal flag after any
    error (services/simulation-server/src/runtime/generation.rs, GenerationRuntime). */
module GenerationRuntime {
  import opened Wrappers
  import opened Sums
  import Sc = Scenario
  import Runs = ScenarioRuns
  import Sn = Snapshots
  import Sp = Spatial
  import Ro = Rotation
  import opened Coordinator

  const MAX_U64: nat := 0xffff_ffff_ffff_ffff

  function SaturatingAdd(count: nat, more: nat): nat {
    if count + more <= MAX_U64 then count + more else MAX_U64
  }

  /** The result of all turns, given the events of the turns already made and the result of the others. */
  function Preceded(events: seq<Sc.Event>, rest: Result<Turned, RuntimeError>): Result<Turned, RuntimeError> {
    if rest.Failure? then rest else Success(Turned(rest.value.world, events + rest.value.events))
  }

  class GenerationRuntime {
    const env: Environment
    var world: World
    var first: Sensor
    var second: Sensor
    var completedBatches: nat
    var generatedScans: nat
    var terminal: bool

    function Current(): Runtime
      reads this
    {
      Runtime(world, first, second)
    }

    ghost predicate Valid()
      reads this
    {
      env.settings.Valid() && (!terminal ==> Usable(env, Current()))
    }

    constructor (env: Environment, start: Runtime)
      requires Usable(env, start)
      ensures Valid() && this.env == env && Current() == start && !terminal && completedBatches == generatedScans == 0
    {
      this.env := env;
      world, first, second := start.world, start.first, start.second;
      completedBatches, generatedScans, terminal := 0, 0, false;
    }

    /** The surface history with all events of one advance, or the first error. */
    method PushEvents(entries: seq<Sn.Entry>, events: seq<Sc.Event>) returns (r: Result<seq<Sn.Entry>, Sn.HistoryError>)
      requires entries != []
      ensures r == PushAll(env, entries, events)
    {
      var candidate := entries;
      for k := 0 to |events|
        invariant candidate != []
        invariant PushAll(env, candidate, events[k..]) == PushAll(env, entries, events)
      {
        assert events[k..][0] == events[k] && events[k..][1..] == events[k + 1..];
        var pushed := Sn.Push(candidate, events[k].elapsed, Frozen(env, events[k].heights));
        if pushed.Failure? {
          return pushed;
        }
        candidate := pushed.value;
      }
      assert events[|events|..] == [];
      return Success(candidate);
    }

    /** One turn: the spatial history first, then the scenario, then the surface history. */
    method MakeTurn(w: World, through: real, budget: nat) returns (r: Result<Turned, RuntimeError>)
      requires Defined(env, w)
      ensures r == Turn(env, w, through, true, budget)
    {
      hide Defined, MovedSpatial, PushAll, Runs.Advance, Sc.NextEvent;
      DefinedMeans(env, w);
      var next := Sc.NextEvent(env.settings, w.scenario);
      if next.Failure? {
        return Failure(FromScenario(next.error));
      }
      var to := Min(next.value, through);
      var spatial := MovedSpatial(env, w, to, true);
      if spatial.Failure? {
        return Failure(spatial.error);
      }
      var advance := Runs.Advance(env.settings, w.scenario, to);
      if advance.Failure? {
        return Failure(FromScenario(advance.error));
      }
      if |advance.value.events| > budget {
        return Failure(EventOutputLimit);
      }
      var entries := PushEvents(w.entries, advance.value.events);
      if entries.Failure? {
        return Failure(FromHistory(entries.error));
      }
      return Success(Turned(World(advance.value.state, entries.value, spatial.value), advance.value.events));
    }

    /** All turns up to the completion, committed only when every one of them succeeds. */
    method AdvanceScenarioAndDistortions(through: real) returns (r: Result<seq<Sc.Event>, RuntimeError>)
      requires Defined(env, world)
      modifies this`world
      ensures var limit := Runs.EventLimit(|old(world).scenario.heights|);
              if limit.Failure? then r == Failure(FromScenario(limit.error)) && world == old(world)
              else
                var spec := AdvanceAll(env, old(world), through, true, limit.value);
                if spec.Success? then r == Success(spec.value.events) && world == spec.value.world
                else r == Failure(spec.error) && world == old(world)
    {
      hide Defined, Turn, AdvanceAll, Preceded;
      var limit := Runs.EventLimit(|world.scenario.heights|);
      if limit.Failure? {
        return Failure(FromScenario(limit.error));
      }
      var w, events := world, [];
      ghost var spec := AdvanceAll(env, world, through, true, limit.value);
      NothingPrecedes(spec);
      while w.scenario.elapsed < through
        invariant Defined(env, w) && |events| <= limit.value && world == old(world)
        invariant spec == Preceded(events, AdvanceAll(env, w, through, true, limit.value - |events|))
        decreases limit.value - |events|, if w.scenario.elapsed < through then 1 else 0
      {
        AdvanceUnfolds(env, w, through, limit.value - |events|);
        var turn := MakeTurn(w, through, limit.value - |events|);
        if turn.Failure? {
          PrecededMeans(events, Failure(turn.error));
          return Failure(turn.error);
        }
        PrecededTwice(events, turn.value.events,
                      AdvanceAll(env, turn.value.world, through, true, limit.value - |events| - |turn.value.events|));
        w := turn.value.world;
        events := events + turn.value.events;
      }
      AdvanceUnfolds(env, w, through, limit.value - |events|);
      PrecededMeans(events, Success(Turned(w, [])));
      world := w;
      return Success(events);
    }

    /** Every sample looked up in turn, then the spatial distortions of the whole scan. */
    method GenerateScan(sensor: nat, scan: Ro.Scan) returns (r: Result<Measured, RuntimeError>)
      requires |scan.samples| == |scan.times| > 0
      ensures r == Measure(env, sensor, world, scan)
    {
      hide Sn.SnapshotAt, Sp.ResolveAll;
      var samples := [];
      for n := 0 to |scan.times|
        invariant Lookups(env, sensor, world.entries, scan, n) == Success(samples)
      {
        var surface := Sn.SnapshotAt(world.entries, scan.times[n]);
        if surface.Failure? {
          LookupsFail(env, sensor, world.entries, scan, n + 1, |scan.times|);
          return Failure(FromHistory(surface.error));
        }
        var ray := env.castRay(sensor, scan.samples[n], surface.value);
        samples := samples + [Sp.Sample(scan.times[n], ray.distance, ray.hit, ray.staticDistance)];
      }
      if world.spatial.None? {
        return Success(Measured(sensor, scan.scanId, scan.completedAt, Distances(samples)));
      }
      var resolved := Sp.ResolveAll(world.spatial.value.resolver, samples, scan.completedAt, env.minimum, env.maximum);
      if resolved.Failure? {
        return Failure(FromSpatial(resolved.error));
      }
      return Success(Measured(sensor, scan.scanId, scan.completedAt, resolved.value));
    }

    /** The scan of a sensor, when it is due. */
    method GenerateDue(sensor: nat, s: Sensor, completion: real) returns (r: Result<seq<Measured>, RuntimeError>)
      requires |s.pending.samples| == |s.pending.times| > 0
      ensures r == MeasuredNow(env, sensor, world, s, completion)
    {
      hide Measure;
      if s.pending.completedAt != completion {
        return Success([]);
      }
      var measured := GenerateScan(sensor, s.pending);
      if measured.Failure? {
        return Failure(measured.error);
      }
      return Success([measured.value]);
    }

    method TryNextCompletedScans() returns (r: Result<Batch, RuntimeError>)
      requires Usable(env, Current())
      modifies this`world, this`first, this`second, this`completedBatches, this`generatedScans
      ensures var spec := Next(env, old(Current()), true);
              if spec.Success? then
                && r == Success(spec.value.batch) && Current() == spec.value.runtime
                && completedBatches == SaturatingAdd(old(completedBatches), 1)
                && generatedScans == SaturatingAdd(old(generatedScans), |spec.value.batch.scans|)
              else
                && r == Failure(spec.error)
                && completedBatches == old(completedBatches) && generatedScans == old(generatedScans)
    {
      hide Defined, AdvanceAll, Ready, After, MeasuredNow, Sp.DiscardBefore, Sn.Trim;
      ghost var spec := Next(env, Current(), true);
      ReadyMeans(first);
      ReadyMeans(second);
      var completion := Min(first.pending.completedAt, second.pending.completedAt);
      MovedIsReady(first, completion);
      MovedIsReady(second, completion);
      var events := AdvanceScenarioAndDistortions(completion);
      if events.Failure? {
        return Failure(events.error);
      }
      var nextFirst, nextSecond := After(first, completion), After(second, completion);
      var one := GenerateDue(0, first, completion);
      var two := GenerateDue(1, second, completion);
      if nextFirst.Failure? {
        return Failure(nextFirst.error);
      }
      if nextSecond.Failure? {
        return Failure(nextSecond.error);
      }
      if one.Failure? {
        return Failure(one.error);
      }
      if two.Failure? {
        return Failure(two.error);
      }
      first, second := nextFirst.value, nextSecond.value;
      ReadyMeans(first);
      ReadyMeans(second);
      DefinedMeans(env, world);
      var earliest := Min(first.pending.times[0], second.pending.times[0]);
      var entries := Sn.Discard(world.entries, earliest);
      if entries.Failure? {
        return Failure(FromHistory(entries.error));
      }
      world := world.(entries := entries.value);
      if world.spatial.Some? {
        var spatial := Sp.DiscardBefore(world.spatial.value.resolver, earliest);
        if spatial.Failure? {
          return Failure(FromSpatial(spatial.error));
        }
        world := world.(spatial := Some(world.spatial.value.(resolver := spatial.value)));
      }
      completedBatches := SaturatingAdd(completedBatches, 1);
      generatedScans := SaturatingAdd(generatedScans, |one.value + two.value|);
      return Success(Batch(completion, one.value + two.value, events.value));
    }

    /** The next batch, until the first error; from then on the runtime is terminal and nothing changes any more. */
    method NextCompletedScans() returns (r: Result<Batch, RuntimeError>)
      requires Valid()
      modifies this
      ensures Valid()
      ensures old(terminal) ==> r == Failure(Terminal) && terminal && Current() == old(Current())
      ensures !old(terminal) ==>
                var spec := Next(env, old(Current()), true);
                if spec.Success? then
                  && r == Success(spec.value.batch) && Current() == spec.value.runtime && !terminal
                  && completedBatches == SaturatingAdd(old(completedBatches), 1)
                  && generatedScans == SaturatingAdd(old(generatedScans), |spec.value.batch.scans|)
                else r == Failure(spec.error) && terminal
    {
      hide Next, Usable;
      if terminal {
        return Failure(Terminal);
      }
      r := TryNextCompletedScans();
      if r.Failure? {
        terminal := true;
      }
    }
  }

  lemma AdvanceUnfolds(env: Environment, w: World, through: real, budget: nat)
    requires Defined(env, w)
    ensures var all, turn := AdvanceAll(env, w, through, true, budget), Turn(env, w, through, true, budget);
            if w.scenario.elapsed >= through then all == Success(Turned(w, []))
            else if turn.Failure? then all == Failure(turn.error)
            else
              && Defined(env, turn.value.world) && |turn.value.events| <= budget
              && (turn.value.world.scenario.elapsed < through ==> |turn.value.events| > 0)
              && all == Preceded(turn.value.events,
                                 AdvanceAll(env, turn.value.world, through, true, budget - |turn.value.events|))
  {
    hide Defined, Turn;
    TurnReaches(env, w, through, true, budget);
  }

  lemma PrecededTwice(a: seq<Sc.Event>, b: seq<Sc.Event>, rest: Result<Turned, RuntimeError>)
    ensures Preceded(a, Preceded(b, rest)) == Preceded(a + b, rest)
  {
    if rest.Success? {
      assert a + (b + rest.value.events) == a + b + rest.value.events;
    }
  }

  lemma PrecededMeans(events: seq<Sc.Event>, rest: Result<Turned, RuntimeError>)
    ensures rest.Failure? ==> Preceded(events, rest) == rest
    ensures rest.Success? && rest.value.events == []
            ==> Preceded(events, rest) == Success(Turned(rest.value.world, events))
  {
    assert events + [] == events;
  }

  lemma NothingPrecedes(rest: Result<Turned, RuntimeError>)
    ensures Preceded([], rest) == rest
  {
    if rest.Success? {
      assert [] + rest.value.events == rest.value.events;
    }
  }

  lemma DefinedMeans(env: Environment, w: World)
    requires Defined(env, w)
    ensures w.entries != [] && env.settings.Valid() && Sc.Sound(env.settings, w.scenario)
    ensures w.scenario.phase.Collecting? ==> w.scenario.collectionPlan.Some?
  {
    Runs.SoundPhaseEnd(env.settings, w.scenario);
  }

  /** The first failing lookup decides. */
  lemma {:induction false} LookupsFail(env: Environment, sensor: nat, entries: seq<Sn.Entry>, scan: Ro.Scan, n: nat,
                                       m: nat)
    requires |scan.samples| == |scan.times| && n <= m <= |scan.times|
    requires Lookups(env, sensor, entries, scan, n).Failure?
    ensures Lookups(env, sensor, entries, scan, m) == Lookups(env, sensor, entries, scan, n)
    decreases m
  {
    hide Sn.SnapshotAt;
    if n < m {
      LookupsFail(env, sensor, entries, scan, n, m - 1);
    }
  }
}

/** Whole runs of the two-sensor coordinator from its start
    (services/simulation-server/src/runtime/generation.rs, from_inputs and next_completed_scans). */
module CoordinatorHistory {
  import opened Wrappers
  import opened Sums
  import DecimalRatio
  import Sc = Scenario
  import Volume = ScenarioVolume
  import Runs = ScenarioRuns
  import Sn = Snapshots
  import Sp = Spatial
  import Ro = Rotation
  import opened Coverage
  import opened Coordinator
  import opened CoordinatorRuns
  import opened CoordinatorBatches

  /** The batches up to a count or the first error, and what is left then. */
  datatype History = History(batches: seq<Batch>, end: Result<Runtime, RuntimeError>)

  function Batches(env: Environment, r: Runtime, count: nat, bounded: bool): History
    requires Usable(env, r)
    decreases count
  {
    hide Usable, Next;
    if count == 0 then History([], Success(r))
    else
      var next := Next(env, r, bounded);
      if next.Failure? then History([], Failure(next.error))
      else
        var rest := Batches(env, next.value.runtime, count - 1, bounded);
        History([next.value.batch] + rest.batches, rest.end)
  }

  // ---------------------------------------------------------------- every run

  ghost predicate CompletionsRise(batches: seq<Batch>) {
    forall j, k | 0 <= j < k < |batches| :: batches[j].completedAt < batches[k].completedAt
  }

  /** Over every run of a punctual runtime, each batch is the one that full histories would give, and completions rise.
      Neither history ever fails to answer or to forget. */
  lemma {:induction false} EveryRun(env: Environment, pruned: Runtime, full: Runtime, count: nat)
    requires Paired(env, pruned, full) && Punctual(pruned)
    ensures Usable(env, pruned) && Usable(env, full)
    ensures var p, f := Batches(env, pruned, count, true), Batches(env, full, count, false);
            && p.batches <= f.batches && CompletionsRise(p.batches)
            && (p.batches != [] ==> p.batches[0].completedAt == Completion(pruned))
            && (if p.end.Success? then
                  && p.batches == f.batches && f.end.Success? && Paired(env, p.end.value, f.end.value)
                  && (forall k | 0 <= k < |p.batches| :: p.batches[k].completedAt < Completion(p.end.value))
                else Possible(p.end.error) && (p.end.error == RetainedEventLimit || f == p))
    decreases count
  {
    hide Next, Paired, Punctual, Usable, Possible;
    PunctualStaysPaired(env, pruned, full);
    if count > 0 {
      var p, f := Next(env, pruned, true), Next(env, full, false);
      if p.Success? {
        EveryRun(env, p.value.runtime, f.value.runtime, count - 1);
        var rest := Batches(env, p.value.runtime, count - 1, true);
        LaterThanFirst(p.value.batch, rest.batches, Completion(p.value.runtime));
      }
    }
  }

  /** In none of the next batches of the full histories does a spatial event end between the completion and the next
      pending sample. */
  ghost predicate Undisturbed(env: Environment, full: Runtime, count: nat)
    requires Usable(env, full)
    decreases count
  {
    hide Usable, Next;
    var f := Next(env, full, false);
    count > 0 && f.Success? ==>
      && QuietAfter(env, f.value.runtime)
      && Undisturbed(env, f.value.runtime, count - 1)
  }

  ghost predicate QuietAfter(env: Environment, r: Runtime)
    requires Usable(env, r)
  {
    ReadyMeans(r.first);
    ReadyMeans(r.second);
    Quiet(r.world, Earliest(r.first, r.second))
  }

  /** The same at any rates, for as long as nothing ends in those gaps; where there is a gap, a run may also end because
      the next sample is late. */
  lemma {:induction false} EveryQuietRun(env: Environment, pruned: Runtime, full: Runtime, count: nat)
    requires Paired(env, pruned, full)
    ensures Usable(env, pruned) && Usable(env, full)
    ensures var p, f := Batches(env, pruned, count, true), Batches(env, full, count, false);
            Undisturbed(env, full, count) ==>
              && p.batches <= f.batches
              && (if p.end.Success? then
                    p.batches == f.batches && f.end.Success? && Paired(env, p.end.value, f.end.value)
                  else
                    || (Possible(p.end.error) && (p.end.error == RetainedEventLimit || f == p))
                    || (p.end.error == FromSpatial(Sp.InvalidRetention) && |p.batches| < |f.batches|))
    decreases count
  {
    hide Next, Paired, Usable, Possible, Quiet, After;
    PairedIsUsable(env, pruned, full);
    NextTogether(env, pruned, full);
    assert Possible(RetainedEventLimit) by { LimitIsPossible(); }
    if count > 0 && Undisturbed(env, full, count) {
      var p, f := Next(env, pruned, true), Next(env, full, false);
      if p.Success? {
        EveryQuietRun(env, p.value.runtime, f.value.runtime, count - 1);
      }
    }
  }

  lemma LaterThanFirst(first: Batch, rest: seq<Batch>, completion: real)
    requires CompletionsRise(rest) && first.completedAt < completion
    requires rest != [] ==> rest[0].completedAt == completion
    ensures CompletionsRise([first] + rest)
  {
    var all := [first] + rest;
    forall j, k | 0 <= j < k < |all| ensures all[j].completedAt < all[k].completedAt {
      if j == 0 && k > 1 {
        assert rest[0].completedAt < rest[k - 1].completedAt;
      }
    }
  }

  // ---------------------------------------------------------------- no scan is lost or repeated

  function IdsIn(scans: seq<Measured>, sensor: nat): seq<nat>
    decreases |scans|
  {
    if scans == [] then []
    else if scans[0].sensor == sensor then [scans[0].scanId] + IdsIn(scans[1..], sensor)
    else IdsIn(scans[1..], sensor)
  }

  function ScanIds(batches: seq<Batch>, sensor: nat): seq<nat>
    decreases |batches|
  {
    if batches == [] then [] else IdsIn(batches[0].scans, sensor) + ScanIds(batches[1..], sensor)
  }

  function SensorOf(r: Runtime, sensor: nat): Sensor {
    if sensor == 0 then r.first else r.second
  }

  lemma MeasuredIds(env: Environment, index: nat, w: World, s: Sensor, completion: real, sensor: nat)
    requires Ready(s)
    ensures |s.pending.samples| == |s.pending.times| > 0
    ensures var r := MeasuredNow(env, index, w, s, completion);
            r.Success? ==> IdsIn(r.value, sensor)
                           == if s.pending.completedAt == completion && index == sensor then [s.pending.scanId] else []
  {
    hide Lookups, Sp.ResolveAll;
    ReadyMeans(s);
  }

  lemma {:induction false} IdsOfBoth(a: seq<Measured>, b: seq<Measured>, sensor: nat)
    ensures IdsIn(a + b, sensor) == IdsIn(a, sensor) + IdsIn(b, sensor)
    decreases |a|
  {
    if a == [] {
      assert a + b == b;
    } else {
      IdsOfBoth(a[1..], b, sensor);
      assert (a + b)[1..] == a[1..] + b;
    }
  }

  /** A batch holds the pending scan of each sensor that completes now, and only those; their successors are pending. */
  lemma BatchHoldsWhatIsDue(env: Environment, r: Runtime, bounded: bool, sensor: nat)
    requires Usable(env, r) && sensor < 2
    ensures var s := Next(env, r, bounded);
            s.Success? ==>
              var due := SensorOf(r, sensor).pending.completedAt == Completion(r);
              && IdsIn(s.value.batch.scans, sensor) == (if due then [SensorOf(r, sensor).pending.scanId] else [])
              && SensorOf(s.value.runtime, sensor).pending.scanId
                 == SensorOf(r, sensor).pending.scanId + (if due then 1 else 0)
              && s.value.batch.scans != []
  {
    hide Defined, Ready, AdvanceAll, After, MeasuredNow, Forgotten;
    var now, limit := Completion(r), Runs.EventLimit(|r.world.scenario.heights|);
    if Next(env, r, bounded).Success? {
      var w := AdvanceAll(env, r.world, now, bounded, limit.value).value.world;
      MovedIsReady(r.first, now);
      MovedIsReady(r.second, now);
      MeasuredIds(env, 0, w, r.first, now, sensor);
      MeasuredIds(env, 1, w, r.second, now, sensor);
      MeasuredIds(env, 0, w, r.first, now, 0);
      MeasuredIds(env, 1, w, r.second, now, 1);
      IdsOfBoth(MeasuredNow(env, 0, w, r.first, now).value, MeasuredNow(env, 1, w, r.second, now).value, sensor);
    }
  }

  /** Over every run each sensor's scans appear once each and in order. */
  lemma {:induction false} ScansInOrder(env: Environment, r: Runtime, count: nat, bounded: bool, sensor: nat)
    requires Usable(env, r) && sensor < 2
    ensures var h := Batches(env, r, count, bounded);
            var ids := ScanIds(h.batches, sensor);
            && (forall x | 0 <= x < |ids| :: ids[x] == SensorOf(r, sensor).pending.scanId + x)
            && (h.end.Success? ==>
                  SensorOf(h.end.value, sensor).pending.scanId == SensorOf(r, sensor).pending.scanId + |ids|)
    decreases count
  {
    hide Next, Usable;
    if count > 0 {
      BatchHoldsWhatIsDue(env, r, bounded, sensor);
      var next := Next(env, r, bounded);
      if next.Success? {
        ScansInOrder(env, next.value.runtime, count - 1, bounded, sensor);
        var rest := Batches(env, next.value.runtime, count - 1, bounded).batches;
        assert ([next.value.batch] + rest)[1..] == rest;
      }
    }
  }

  // ---------------------------------------------------------------- the scenario does not notice

  function AllEvents(batches: seq<Batch>): seq<Sc.Event>
    decreases |batches|
  {
    if batches == [] then [] else batches[0].events + AllEvents(batches[1..])
  }

  /** Stopping at every surface event and at the completion changes nothing: the turns of a batch are one scenario run. */
  lemma {:induction false} TurnsAreOneRun(env: Environment, w: World, through: real, bounded: bool, budget: nat)
    requires Defined(env, w) && Runs.UpToDate(env.settings, w.scenario) && w.scenario.elapsed < through
    ensures var r := AdvanceAll(env, w, through, bounded, budget);
            r.Success? ==>
              && Runs.Run(env.settings, w.scenario, through, |r.value.events|)
                 == Success(Runs.Ran(r.value.world.scenario, r.value.events))
              && Runs.UpToDate(env.settings, r.value.world.scenario) && r.value.world.scenario.elapsed == through
    decreases budget, if w.scenario.elapsed < through then 1 else 0
  {
    hide Turn, Sc.Sound, Runs.Run, Runs.UpToDate;
    var turned := Turn(env, w, through, bounded, budget);
    if turned.Success? {
      TurnReaches(env, w, through, bounded, budget);
      TurnIsRun(env, w, through, bounded, budget);
      var t := turned.value;
      var limit := Runs.EventLimit(|w.scenario.heights|).value;
      var ran := Runs.Ran(t.world.scenario, t.events);
      if t.world.scenario.elapsed < through {
        TurnsAreOneRun(env, t.world, through, bounded, budget - |t.events|);
        var rest := AdvanceAll(env, t.world, through, bounded, budget - |t.events|);
        if rest.Success? {
          Runs.RunsJoin(env.settings, w.scenario, t.world.scenario.elapsed, through, limit, |rest.value.events|,
                        ran, Runs.Ran(rest.value.world.scenario, rest.value.events), |t.events| + |rest.value.events|);
        }
      } else {
        Runs.ExactBudget(env.settings, w.scenario, through, limit, ran, |t.events|);
        assert t.events + [] == t.events;
      }
    }
  }

  lemma TurnIsRun(env: Environment, w: World, through: real, bounded: bool, budget: nat)
    requires Defined(env, w) && Runs.UpToDate(env.settings, w.scenario) && w.scenario.elapsed < through
    ensures var r := Turn(env, w, through, bounded, budget);
            r.Success? ==>
              && Runs.EventLimit(|w.scenario.heights|).Success?
              && Runs.Run(env.settings, w.scenario, r.value.world.scenario.elapsed,
                  Runs.EventLimit(|w.scenario.heights|).value)
                 == Success(Runs.Ran(r.value.world.scenario, r.value.events))
              && Runs.UpToDate(env.settings, r.value.world.scenario)
  {
    hide MovedSpatial, Runs.Run, PushAll, Sc.Sound, Runs.UpToDate;
    var next := Sc.NextEvent(env.settings, w.scenario);
    if Turn(env, w, through, bounded, budget).Success? {
      var to := Min(next.value, through);
      DueLater(env.settings, w.scenario);
      AdvanceReaches(env.settings, w.scenario, to);
      AdvanceStays(env.settings, w.scenario, to);
    }
  }

  lemma DueLater(settings: Sc.Settings, s: Sc.State)
    requires settings.Valid() && Sc.Sound(settings, s) && Runs.UpToDate(settings, s)
    ensures Sc.NextEvent(settings, s).Success? ==> Sc.NextEvent(settings, s).value > s.elapsed
  {
  }

  lemma BatchIsRun(env: Environment, r: Runtime, bounded: bool)
    requires Usable(env, r) && Runs.UpToDate(env.settings, r.world.scenario)
    requires r.world.scenario.elapsed < Completion(r)
    ensures var s := Next(env, r, bounded);
            s.Success? ==>
              var t, events := s.value.runtime, s.value.batch.events;
              && Runs.Run(env.settings, r.world.scenario, Completion(r), |events|)
                  == Success(Runs.Ran(t.world.scenario, events))
              && Runs.UpToDate(env.settings, t.world.scenario)
              && s.value.batch.completedAt == Completion(r) == t.world.scenario.elapsed < Completion(t)
  {
    hide Ready, AdvanceAll, After, MeasuredNow, Runs.UpToDate, Runs.Run, Sc.Sound, Sn.Discard, Sp.DiscardBefore;
    if Next(env, r, bounded).Success? {
      TurnsAreOneRun(env, r.world, Completion(r), bounded, Runs.EventLimit(|r.world.scenario.heights|).value);
      MovedIsReady(r.first, Completion(r));
      MovedIsReady(r.second, Completion(r));
    }
  }

  /** The events of the batches are those of one scenario run from a state to an end. */
  ghost predicate IsOneRun(settings: Sc.Settings, s: Sc.State, batches: seq<Batch>, end: Sc.State)
    requires settings.Valid() && Sc.Sound(settings, s)
  {
    var events := AllEvents(batches);
    Runs.Run(settings, s, end.elapsed, |events|) == Success(Runs.Ran(end, events))
  }

  lemma OneMoreBatch(settings: Sc.Settings, s: Sc.State, batch: Batch, t: Sc.State, rest: seq<Batch>, end: Sc.State)
    requires settings.Valid() && Sc.Sound(settings, s) && Sc.Sound(settings, t)
    requires Runs.Run(settings, s, t.elapsed, |batch.events|) == Success(Runs.Ran(t, batch.events))
    requires if rest == [] then t == end else t.elapsed <= end.elapsed && IsOneRun(settings, t, rest, end)
    ensures IsOneRun(settings, s, [batch] + rest, end)
  {
    hide Runs.Run, Sc.Sound, AllEvents;
    EventsUnfold(batch, rest);
    if rest != [] {
      var more := AllEvents(rest);
      Runs.RunsJoin(settings, s, t.elapsed, end.elapsed, |batch.events|, |more|, Runs.Ran(t, batch.events),
                    Runs.Ran(end, more), |batch.events| + |more|);
    }
  }

  /** However many batches are taken, the scenario goes through one run to the last completion, and the events of the
      batches are the events of that run. */
  lemma {:induction false} BatchesAreOneRun(env: Environment, r: Runtime, count: nat, bounded: bool)
    requires Usable(env, r) && Runs.UpToDate(env.settings, r.world.scenario)
    requires r.world.scenario.elapsed < Completion(r) && count > 0
    ensures var h := Batches(env, r, count, bounded);
            h.end.Success? ==>
              var end := h.end.value.world.scenario;
              && |h.batches| == count && h.batches[count - 1].completedAt == end.elapsed >= Completion(r)
              && IsOneRun(env.settings, r.world.scenario, h.batches, end)
    decreases count
  {
    hide Next, Usable, Runs.UpToDate, Runs.Run, Sc.Sound, Batches, IsOneRun;
    BatchIsRun(env, r, bounded);
    UsableMeans(env, r);
    BatchesUnfold(env, r, count, bounded);
    var next := Next(env, r, bounded);
    if next.Success? {
      var t, batch := next.value.runtime, next.value.batch;
      UsableMeans(env, t);
      BatchesUnfold(env, t, count - 1, bounded);
      if count > 1 {
        BatchesAreOneRun(env, t, count - 1, bounded);
      }
      var rest := Batches(env, t, count - 1, bounded);
      if rest.end.Success? {
        OneMoreBatch(env.settings, r.world.scenario, batch, t.world.scenario, rest.batches,
            rest.end.value.world.scenario);
      }
    }
  }

  lemma BatchesUnfold(env: Environment, r: Runtime, count: nat, bounded: bool)
    requires Usable(env, r)
    ensures Batches(env, r, 0, bounded) == History([], Success(r))
    ensures var next := Next(env, r, bounded);
            count > 0 ==>
              Batches(env, r, count, bounded)
              == if next.Failure? then History([], Failure(next.error))
                 else var rest := Batches(env, next.value.runtime, count - 1, bounded);
                      History([next.value.batch] + rest.batches, rest.end)
  {
    hide Next, Usable;
  }

  lemma EventsUnfold(batch: Batch, rest: seq<Batch>)
    ensures AllEvents([batch] + rest) == batch.events + AllEvents(rest)
    ensures AllEvents([]) == [] && batch.events + [] == batch.events
  {
    assert ([batch] + rest)[1..] == rest;
  }

  lemma UsableMeans(env: Environment, r: Runtime)
    requires Usable(env, r)
    ensures Defined(env, r.world) && Sc.Sound(env.settings, r.world.scenario)
  {
  }

  // ---------------------------------------------------------------- from the start

  function BeginSensor(rates: Ro.Rates): Result<Sensor, RuntimeError>
    requires rates.Valid()
  {
    var scan := Ro.NextScan(rates, Ro.Schedule(0, 0));
    if scan.Failure? then Failure(FromRotation(scan.error)) else Success(Sensor(rates, scan.value.1, scan.value.0))
  }

  /** A new runtime: a new scenario, its empty surface as the history, and the first rotation of each sensor pending. */
  function Begin(env: Environment, first: Ro.Rates, second: Ro.Rates, distorted: bool): Result<Runtime, RuntimeError>
    requires env.settings.Valid() && first.Valid() && second.Valid()
  {
    var scenario := Runs.Start(env.settings);
    if scenario.Failure? then Failure(FromScenario(scenario.error))
    else
      var spatial := if distorted then Some(Timeline(Sp.NEW_RESOLVER, 0)) else None;
      var one, two := BeginSensor(first), BeginSensor(second);
      if one.Failure? then Failure(one.error)
      else if two.Failure? then Failure(two.error)
      else Success(Runtime(World(scenario.value, [Sn.Entry(0.0, Frozen(env, scenario.value.heights))], spatial),
                           one.value, two.value))
  }

  lemma FirstScanIsReady(rates: Ro.Rates)
    requires rates.Valid()
    ensures var r := BeginSensor(rates);
            r.Success? ==>
              && Ready(r.value) && r.value.rates == rates && r.value.pending.scanId == 1
              && r.value.pending.completedAt == rates.Boundary(1) > 0.0
  {
    hide Ro.NextScan, Ro.Rates.PointTime, Ro.Rates.Boundary, DecimalRatio.Ceiling;
    StartsAligned(rates);
    Ro.NextScanIsRotation(rates, Ro.Schedule(0, 0));
    ScanTimes(rates, Ro.Schedule(0, 0));
    Ro.BoundariesRise(rates, 0);
  }

  lemma StartsAligned(rates: Ro.Rates)
    requires rates.Valid()
    ensures Ro.Aligned(rates, Ro.Schedule(0, 0))
  {
  }

  /** A new runtime is paired with itself: nothing has been forgotten yet. */
  lemma BeginIsPaired(env: Environment, first: Ro.Rates, second: Ro.Rates, distorted: bool)
    requires env.settings.Valid() && first.Valid() && second.Valid()
    ensures var r := Begin(env, first, second, distorted);
            r.Success? ==>
              && Paired(env, r.value, r.value) && Completion(r.value) == Min(first.Boundary(1), second.Boundary(1))
              && r.value.first.rates == first && r.value.second.rates == second
              && r.value.first.pending.scanId == r.value.second.pending.scanId == 1
              && (r.value.world.spatial.Some? <==> distorted)
  {
    hide Runs.Start, BeginSensor, Ready, Runs.UpToDate, Ro.Rates.Boundary, Sp.Live;
    var r := Begin(env, first, second, distorted);
    if r.Success? {
      FirstScanIsReady(first);
      FirstScanIsReady(second);
      ReadyMeans(r.value.first);
      ReadyMeans(r.value.second);
      PendingTimes(r.value.first, 0);
      PendingTimes(r.value.second, 0);
      StartIsUpToDate(env.settings);
    }
  }

  lemma StartIsUpToDate(settings: Sc.Settings)
    requires settings.Valid()
    ensures var r := Runs.Start(settings);
            r.Success? ==>
              && Sc.Sound(settings, r.value) && Runs.UpToDate(settings, r.value)
                  && r.value.elapsed == r.value.updatedAt == 0.0
  {
    hide Volume.OnPlan, Sc.WithFillPlan;
    Runs.StartIsOnPlan(settings);
    Runs.StartTimes(settings);
  }

  /** From the start, with whole numbers of samples per rotation or without distortions, every batch is what full
      histories would give, until the scenario, a draw, a number range or a limit stops the runtime. */
  lemma EveryRunFromTheStart(env: Environment, first: Ro.Rates, second: Ro.Rates, distorted: bool, count: nat)
    requires env.settings.Valid() && first.Valid() && second.Valid()
    requires !distorted || (WholeNumber(first) && WholeNumber(second))
    requires Begin(env, first, second, distorted).Success?
    ensures var r := Begin(env, first, second, distorted).value;
            && Usable(env, r)
            && var p, f := Batches(env, r, count, true), Batches(env, r, count, false);
               && p.batches <= f.batches && CompletionsRise(p.batches)
               && (p.end.Success? ==> p.batches == f.batches)
               && (p.end.Failure? ==> Possible(p.end.error))
  {
    hide Begin, Paired, WholeNumber, Usable, Ready, Batches, Possible;
    BeginIsPaired(env, first, second, distorted);
    var r := Begin(env, first, second, distorted).value;
    PairedIsUsable(env, r, r);
    assert Ready(r.first) && Ready(r.second) by { PairedIsReady(env, r, r); }
    EveryRun(env, r, r, count);
  }

  lemma PairedIsReady(env: Environment, pruned: Runtime, full: Runtime)
    requires Paired(env, pruned, full)
    ensures Ready(pruned.first) && Ready(pruned.second)
  {
  }

  /** With three samples in two rotations and distortions on, no runtime gets past its first batch: the next sample, at
      2/3 s, lies past the completion at 1/2 s, and the spatial history cannot be cut there. */
  lemma ThreeHalvesStopTheRuntime(env: Environment, first: Ro.Rates, second: Ro.Rates)
    requires env.settings.Valid() && first.Valid() && second.Valid()
    requires first.sampleRate == second.sampleRate == 3.0 && first.rotationRate == second.rotationRate == 2.0
    requires first.samplesPerRotation == second.samplesPerRotation == DecimalRatio.PositiveRatio(3, 2)
    requires Begin(env, first, second, true).Success?
    ensures var r := Begin(env, first, second, true).value;
            && Usable(env, r) && Next(env, r, true).Failure?
            && Ro.FirstSample(first, 1) == 2 && first.PointTime(2) == 2.0 / 3.0 > 0.5 == Completion(r)
  {
    hide Next, Paired, Ready, Usable, After, Possible, Together, Begin, Ro.FirstSample;
    BeginIsPaired(env, first, second, true);
    var r := Begin(env, first, second, true).value;
    NextTogether(env, r, r);
    PairedIsReady(env, r, r);
    ThreeHalvesSensor(r.first);
    ThreeHalvesSensor(r.second);
  }

  lemma ThreeHalvesSensor(s: Sensor)
    requires Ready(s) && s.pending.scanId == 1 && s.rates.sampleRate == 3.0 && s.rates.rotationRate == 2.0
    requires s.rates.samplesPerRotation == DecimalRatio.PositiveRatio(3, 2)
    ensures Ro.FirstSample(s.rates, 1) == 2 && s.rates.PointTime(2) == 2.0 / 3.0 && s.pending.completedAt == 0.5
    ensures After(s, 0.5).Success? ==>
              After(s, 0.5).value.pending.times != [] && After(s, 0.5).value.pending.times[0] == 2.0 / 3.0
  {
    hide After, DecimalRatio.Ceiling;
    ThreeHalvesCeiling(s.rates);
    if After(s, 0.5).Success? {
      FirstSampleAfter(s, 0.5);
    }
  }

  lemma ThreeHalvesCeiling(rates: Ro.Rates)
    requires rates.samplesPerRotation == DecimalRatio.PositiveRatio(3, 2)
    ensures Ro.FirstSample(rates, 1) == 2
  {
    assert DecimalRatio.Times(3, 1) == 3;
    assert DecimalRatio.Quotient(1, 2) == 0 && DecimalRatio.Remainder(1, 2) == 1;
  }

  lemma FirstSampleAfter(s: Sensor, completion: real)
    requires Ready(s) && s.pending.completedAt == completion && After(s, completion).Success?
    ensures var next := After(s, completion).value;
            && Ready(next) && next.pending.times != []
            && next.pending.times[0] == s.rates.PointTime(Ro.FirstSample(s.rates, s.schedule.nextRotation))
  {
    hide Ro.NextScan, Ro.FirstSample, Ro.Rates.PointTime, Ro.Rates.Boundary;
    MovedIsReady(s, completion);
  }

  // ---------------------------------------------------------------- sensors that share their rates

  /** Rates that differ at most in the first angle and its quantisation. */
  predicate SameRates(a: Ro.Rates, b: Ro.Rates) {
    && a.sampleRate == b.sampleRate && a.rotationRate == b.rotationRate
    && a.samplesPerRotation == b.samplesPerRotation && a.rotationRateFraction == b.rotationRateFraction
  }

  /** When there is a next scan, and where it leaves the schedule. */
  lemma NextScanExists(rates: Ro.Rates, s: Ro.Schedule)
    requires rates.Valid() && Ro.Aligned(rates, s)
    ensures var r, end := Ro.NextScan(rates, s), Ro.EndSample(rates, s.nextRotation + 1);
            && (r.Success? <==>
                  && s.nextRotation + 1 <= Ro.MAX_I64 && end.Some? && s.nextSample < end.value <= Ro.MAX_I64
                  && rates.rotationRateFraction.ReciprocalMultipleToF64(s.nextRotation).Some?
                  && rates.rotationRateFraction.ReciprocalMultipleToF64(s.nextRotation + 1).Some?)
            && (r.Success? ==> r.value.1 == Ro.Schedule(s.nextRotation + 1, end.value))
  {
    hide Ro.FirstSample, Ro.Points, Ro.EndSample, Ro.Aligned, Ro.Rates.Boundary, Ro.Rates.PointTime,
         DecimalRatio.Quotient,
      DecimalRatio.Ceiling, DecimalRatio.PositiveRatio.ReciprocalMultipleToF64;
    Ro.NextScanIsRotation(rates, s);
  }

  /** The angle has no say in whether there is a next scan, or when. */
  lemma SameSchedules(a: Ro.Rates, b: Ro.Rates, s: Ro.Schedule)
    requires a.Valid() && b.Valid() && SameRates(a, b) && Ro.Aligned(a, s)
    ensures var x, y := Ro.NextScan(a, s), Ro.NextScan(b, s);
            && (x.Success? <==> y.Success?)
            && (x.Success? ==> x.value.1 == y.value.1)
  {
    hide Ro.FirstSample, Ro.NextScan, Ro.EndSample, Ro.Aligned, DecimalRatio.PositiveRatio.ReciprocalMultipleToF64;
    AlignedAlike(a, b, s);
    NextScanExists(a, s);
    NextScanExists(b, s);
    EndsAlike(a, b, s.nextRotation + 1);
  }

  lemma AlignedAlike(a: Ro.Rates, b: Ro.Rates, s: Ro.Schedule)
    requires a.Valid() && b.Valid() && SameRates(a, b) && Ro.Aligned(a, s)
    ensures Ro.Aligned(b, s)
  {
  }

  lemma EndsAlike(a: Ro.Rates, b: Ro.Rates, scanId: nat)
    requires a.Valid() && b.Valid() && SameRates(a, b)
    ensures Ro.EndSample(a, scanId) == Ro.EndSample(b, scanId)
  {
  }

  /** The sensors of one runtime run at the same rates, so they stay in step: each batch holds one scan of each, with
      the same number. */
  lemma SensorsStayInStep(env: Environment, r: Runtime, bounded: bool)
    requires Usable(env, r) && SameRates(r.first.rates, r.second.rates) && r.first.schedule == r.second.schedule
    ensures var s := Next(env, r, bounded);
            s.Success? ==>
              var t := s.value.runtime;
              && SameRates(t.first.rates, t.second.rates) && t.first.schedule == t.second.schedule
              && IdsIn(s.value.batch.scans, 0) == IdsIn(s.value.batch.scans, 1) == [r.first.schedule.nextRotation]
  {
    hide Next, Defined, Ro.NextScan, Ro.FirstSample, Ro.Rates.PointTime;
    BatchHoldsWhatIsDue(env, r, bounded, 0);
    BatchHoldsWhatIsDue(env, r, bounded, 1);
    SameSchedules(r.first.rates, r.second.rates, r.first.schedule);
    BatchMovesOn(env, r, bounded);
  }

  lemma BatchMovesOn(env: Environment, r: Runtime, bounded: bool)
    requires Usable(env, r)
    ensures var s, now := Next(env, r, bounded), Completion(r);
            s.Success? ==> After(r.first, now) == Success(s.value.runtime.first)
                           && After(r.second, now) == Success(s.value.runtime.second)
  {
    hide Defined, Ready, AdvanceAll, After, MeasuredNow, Forgotten;
  }

  // ---------------------------------------------------------------- the rates decide

  /** The first sample of a rotation is not late for forgetting. */
  predicate OnTime(rates: Ro.Rates, rotation: nat)
    requires rates.Valid()
  {
    rates.PointTime(Ro.FirstSample(rates, rotation)) <= rates.Boundary(rotation) + Sp.TIME_TOLERANCE
  }

  /** The widest gap between the start of a rotation and its first sample is within the tolerance: with n / d samples per
      rotation and their common divisor g, it is (d - g) / (d * sample rate). */
  predicate GapsFit(rates: Ro.Rates)
    requires rates.Valid()
  {
    var n, d := rates.samplesPerRotation.numerator, rates.samplesPerRotation.denominator;
    (d - DecimalRatio.GreatestCommonDivisor(n, d)) as real
    <= Times(Sp.TIME_TOLERANCE, Times(rates.sampleRate, d as real))
  }

  /** A runtime with distortions whose sensors share their rates, with the given rotation pending on both. */
  ghost predicate InStep(env: Environment, r: Runtime, rates: Ro.Rates, rotation: nat) {
    && Going(env, r) && r.world.spatial.Some? && rates.Valid()
    && r.first.rates == rates && SameRates(rates, r.second.rates)
    && r.first.schedule == r.second.schedule && r.first.schedule.nextRotation == rotation
  }

  lemma InStepMeans(env: Environment, r: Runtime, rates: Ro.Rates, rotation: nat)
    requires InStep(env, r, rates, rotation)
    ensures Usable(env, r) && Going(env, r) && Ready(r.first) && Ready(r.second) && rates.Valid() && rotation > 0
    ensures r.first.pending.completedAt == r.second.pending.completedAt == Completion(r) == rates.Boundary(rotation)
  {
    hide Steady, Ro.FirstSample;
    GoingIsUsable(env, r);
  }

  /** Where the schedules agree, the pending samples of both sensors after a batch begin at the same time. */
  lemma LateMeans(env: Environment, r: Runtime, rates: Ro.Rates, rotation: nat)
    requires InStep(env, r, rates, rotation)
    ensures Ready(r.first) && Ready(r.second) && (NextIsLate(r) ==> !OnTime(rates, rotation))
    ensures After(r.first, Completion(r)).Success? && After(r.second, Completion(r)).Success?
            ==> (NextIsLate(r) <==> !OnTime(rates, rotation))
  {
    hide Going, Ready, After, Ro.FirstSample, Ro.Rates.PointTime, Ro.Rates.Boundary, Completion;
    InStepMeans(env, r, rates, rotation);
    var now := Completion(r);
    ReadyMeans(r.first);
    ReadyMeans(r.second);
    SamePoints(rates, r.second.rates, rotation);
    if After(r.first, now).Success? && After(r.second, now).Success? {
      FirstSampleAfter(r.first, now);
      FirstSampleAfter(r.second, now);
    }
  }

  lemma SamePoints(a: Ro.Rates, b: Ro.Rates, rotation: nat)
    requires a.Valid() && b.Valid() && SameRates(a, b)
    ensures Ro.FirstSample(a, rotation) == Ro.FirstSample(b, rotation)
    ensures a.PointTime(Ro.FirstSample(a, rotation)) == b.PointTime(Ro.FirstSample(b, rotation))
  {
    hide DecimalRatio.Ceiling;
  }

  /** One batch of sensors in step: they stay in step, or a possible error stops them, or the rotation that begins at the
      completion starts late. */
  lemma NextInStep(env: Environment, r: Runtime, rates: Ro.Rates, rotation: nat)
    requires InStep(env, r, rates, rotation)
    ensures Usable(env, r)
    ensures var p := Next(env, r, true);
            if p.Success? then InStep(env, p.value.runtime, rates, rotation + 1) && OnTime(rates, rotation)
            else if p.error == FromSpatial(Sp.InvalidRetention) then !OnTime(rates, rotation)
            else Possible(p.error)
  {
    hide Going, Ready, Next, After, NextIsLate, OnTime, Possible, Completion, Ro.FirstSample, Ro.NextScan;
    InStepMeans(env, r, rates, rotation);
    NextGoes(env, r);
    LateMeans(env, r, rates, rotation);
    SensorsStayInStep(env, r, true);
    if Next(env, r, true).Success? {
      BatchMovesOn(env, r, true);
      MovedOnSchedule(r.first, Completion(r), rotation);
      MovedIsReady(r.first, Completion(r));
      MovedIsReady(r.second, Completion(r));
    }
  }

  lemma MovedOnSchedule(s: Sensor, completion: real, rotation: nat)
    requires Ready(s) && s.pending.completedAt == completion && s.schedule.nextRotation == rotation
    ensures After(s, completion).Success? ==> After(s, completion).value.schedule.nextRotation == rotation + 1
  {
    hide Ro.NextScan, Ro.FirstSample;
    NextScanExists(s.rates, s.schedule);
  }

  ghost predicate AllOnTime(rates: Ro.Rates, from: nat, to: nat)
    requires rates.Valid()
  {
    forall k: nat | from <= k < to :: OnTime(rates, k)
  }

  lemma AllOnTimeUnfolds(rates: Ro.Rates, from: nat, to: nat)
    requires rates.Valid()
    ensures AllOnTime(rates, from, to) <==> from >= to || (OnTime(rates, from) && AllOnTime(rates, from + 1, to))
  {
    hide OnTime;
  }

  /** A run of sensors in step ends with a possible error, or in a late rotation; it never gets past one. */
  lemma {:induction false} RunInStep(env: Environment, r: Runtime, rates: Ro.Rates, rotation: nat, count: nat)
    requires InStep(env, r, rates, rotation)
    ensures Usable(env, r) && rates.Valid()
    ensures var end := Batches(env, r, count, true).end;
            if end.Success? then AllOnTime(rates, rotation, rotation + count)
            else
              || Possible(end.error)
              || (end.error == FromSpatial(Sp.InvalidRetention) && !AllOnTime(rates, rotation, rotation + count))
    decreases count
  {
    hide *;
    InStepMeans(env, r, rates, rotation);
    NextInStep(env, r, rates, rotation);
    BatchesUnfold(env, r, count, true);
    AllOnTimeUnfolds(rates, rotation, rotation + count);
    if count > 0 && Next(env, r, true).Success? {
      RunInStep(env, Next(env, r, true).value.runtime, rates, rotation + 1, count - 1);
    }
  }

  lemma BeginsInStep(env: Environment, first: Ro.Rates, second: Ro.Rates)
    requires env.settings.Valid() && first.Valid() && second.Valid() && SameRates(first, second)
    ensures var r := Begin(env, first, second, true);
            r.Success? ==> InStep(env, r.value, first, 1)
  {
    hide Begin, Ready, Ro.NextScan, Together, Sp.Stands;
    BeginIsPaired(env, first, second, true);
    BeginsAlike(env, first, second);
    if Begin(env, first, second, true).Success? {
      BeginReaches(env, first, second);
    }
  }

  lemma BeginsAlike(env: Environment, first: Ro.Rates, second: Ro.Rates)
    requires env.settings.Valid() && first.Valid() && second.Valid() && SameRates(first, second)
    ensures var r := Begin(env, first, second, true);
            r.Success? ==> r.value.first.schedule == r.value.second.schedule && r.value.first.schedule.nextRotation == 1
  {
    hide Runs.Start, Ro.NextScan, Ro.Rates.Valid, Ro.Aligned;
    StartsAligned(first);
    StartsAligned(second);
    NextScanExists(first, Ro.Schedule(0, 0));
    SameSchedules(first, second, Ro.Schedule(0, 0));
  }

  lemma BeginReaches(env: Environment, first: Ro.Rates, second: Ro.Rates)
    requires env.settings.Valid() && first.Valid() && second.Valid()
    ensures var r := Begin(env, first, second, true);
            r.Success? ==> Going(env, r.value)
  {
    hide Runs.Start, BeginSensor, Ready, Runs.UpToDate, Ro.Rates.Boundary;
    var r := Begin(env, first, second, true);
    if r.Success? {
      FirstScanIsReady(first);
      FirstScanIsReady(second);
      ReadyMeans(r.value.first);
      ReadyMeans(r.value.second);
      PendingTimes(r.value.first, 0);
      PendingTimes(r.value.second, 0);
      StartIsUpToDate(env.settings);
    }
  }

  /** With distortions on, sensors of the same rates run until one of the possible errors exactly when the rates leave no
      wide gap. If they do, no run is ever stopped because the spatial history cannot be cut. If they do not, that stops
      every run after fewer batches than the denominator says, unless a possible error comes first. */
  lemma RatesDecide(env: Environment, first: Ro.Rates, second: Ro.Rates, count: nat)
    requires env.settings.Valid() && first.Valid() && second.Valid() && SameRates(first, second)
    requires Begin(env, first, second, true).Success?
    ensures var r := Begin(env, first, second, true).value;
            && Usable(env, r)
            && var end := Batches(env, r, count, true).end;
               && (end.Failure? ==> Possible(end.error) || end.error == FromSpatial(Sp.InvalidRetention))
               && (GapsFit(first) ==> end != Failure(FromSpatial(Sp.InvalidRetention)))
               && (!GapsFit(first) && count >= first.samplesPerRotation.denominator - 1 ==> end.Failure?)
               && ((end.Failure? ==> !Possible(end.error)) && count >= first.samplesPerRotation.denominator - 1 ==>
                     (end.Success? <==> GapsFit(first)))
  {
    hide Begin, Usable, Batches, Possible, InStep, Ro.FirstSample, Ro.Rates.PointTime, Ro.Rates.Boundary;
    BeginsInStep(env, first, second);
    var r := Begin(env, first, second, true).value;
    RunInStep(env, r, first, 1, count);
    FirstSamplesWithin(first, Sp.TIME_TOLERANCE);
    RetentionErrorIsNotPossible();
    if !GapsFit(first) {
      var k := WidestGap(first);
      LatenessIsGap(first, k, Sp.TIME_TOLERANCE);
      GapIsWide(first, k);
      assert !OnTime(first, k) && 1 <= k < first.samplesPerRotation.denominator;
    }
  }

  lemma GapIsWide(rates: Ro.Rates, rotation: nat)
    requires rates.Valid() && !GapsFit(rates)
    ensures DecimalRatio.GreatestCommonDivisor(rates.samplesPerRotation.numerator, rates.samplesPerRotation.denominator)
            < rates.samplesPerRotation.denominator
  {
    hide Times;
    Ro.PositiveTimes(rates.sampleRate, rates.samplesPerRotation.denominator as real);
    Ro.PositiveTimes(Sp.TIME_TOLERANCE, Times(rates.sampleRate, rates.samplesPerRotation.denominator as real));
  }
}

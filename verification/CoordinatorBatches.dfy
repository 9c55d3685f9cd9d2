/** Batches of the two-sensor coordinator, with pruned and with full histories
    (services/simulation-server/src/runtime/generation.rs). */
module CoordinatorBatches {
  import opened Wrappers
  import opened Sums
  import Sc = Scenario
  import Runs = ScenarioRuns
  import Sn = Snapshots
  import Sp = Spatial
  import Ro = Rotation
  import opened Coverage
  import opened Coordinator
  import opened CoordinatorRuns

  // ---------------------------------------------------------------- measuring

  /** Every lookup from the retention time on succeeds, with the answer of the full history. */
  lemma {:induction false} LookupsTogether(env: Environment, sensor: nat, pruned: seq<Sn.Entry>, full: seq<Sn.Entry>,
                                           from: real, scan: Ro.Scan, n: nat)
    requires Sn.SameFrom(pruned, full, from) && full[0].startedAt == 0.0 <= from
    requires |scan.samples| == |scan.times| && n <= |scan.times|
    requires forall x | 0 <= x < |scan.times| :: from <= scan.times[x]
    ensures var r := Lookups(env, sensor, pruned, scan, n);
            && r.Success? && r == Lookups(env, sensor, full, scan, n)
            && forall x | 0 <= x < n :: r.value[x].elapsed == scan.times[x]
  {
    hide Sn.SnapshotAt;
    if n > 0 {
      LookupsTogether(env, sensor, pruned, full, from, scan, n - 1);
      Sn.FullHistoryAnswers(full, scan.times[n - 1]);
    }
  }

  /** A scan that completes now is measured without error, as the full histories would have it. */
  lemma MeasureTogether(env: Environment, sensor: nat, pruned: World, full: World, from: real, s: Sensor)
    requires Together(env, pruned, full, from) && Ready(s)
    requires from <= s.pending.times[0] && s.pending.completedAt <= pruned.scenario.elapsed
    ensures |s.pending.samples| == |s.pending.times| > 0
    ensures Measure(env, sensor, pruned, s.pending).Success?
    ensures Measure(env, sensor, pruned, s.pending) == Measure(env, sensor, full, s.pending)
  {
    hide Defined, Runs.UpToDate, Sn.SameFrom, Sp.Stands, Sp.AllResolved, Sp.Event.Valid;
    ReadyMeans(s);
    forall x | 0 <= x < |s.pending.times|
      ensures from <= s.pending.times[x] && (x > 0 ==> s.pending.times[x - 1] < s.pending.times[x])
    {
      PendingTimes(s, x);
    }
    LookupsTogether(env, sensor, pruned.entries, full.entries, from, s.pending, |s.pending.times|);
    if pruned.spatial.Some? {
      var samples := Lookups(env, sensor, pruned.entries, s.pending, |s.pending.times|).value;
      Sp.ResolveStands(pruned.spatial.value.resolver, full.spatial.value.resolver, samples, s.pending.completedAt,
                       env.minimum, env.maximum);
    }
  }

  lemma MeasuredTogether(env: Environment, index: nat, pruned: World, full: World, from: real, s: Sensor,
                         completion: real)
    requires Together(env, pruned, full, from) && Ready(s)
    requires from <= s.pending.times[0] && completion == pruned.scenario.elapsed
    ensures |s.pending.samples| == |s.pending.times| > 0
    ensures var r := MeasuredNow(env, index, pruned, s, completion);
            && r.Success? && r == MeasuredNow(env, index, full, s, completion)
            && if s.pending.completedAt == completion then
                 |r.value| == 1 && r.value[0].sensor == index && r.value[0].scanId == s.pending.scanId
               else r.value == []
  {
    hide Together, Ready, Lookups, Sp.ResolveAll;
    ReadyMeans(s);
    if s.pending.completedAt == completion {
      MeasureTogether(env, index, pruned, full, from, s);
    }
  }

  // ---------------------------------------------------------------- forgetting

  /** The spatial history cannot be cut at a time it has not reached. */
  predicate Late(w: World, time: real) {
    w.spatial.Some? && time > w.scenario.elapsed + Sp.TIME_TOLERANCE
  }

  /** No spatial event ends after the time that was reached and by another one; there is none unless that lies ahead. */
  predicate Quiet(w: World, time: real) {
    w.spatial.Some? ==> Sp.NoneEnds(w.spatial.value.resolver, w.scenario.elapsed, time)
  }

  /** Forgetting fails exactly when the time is late, and then for no other reason. Nothing that was forgotten is missed,
      exactly when no event ends between the time reached and that of forgetting. */
  lemma ForgottenTogether(env: Environment, pruned: World, full: World, from: real, time: real)
    requires Together(env, pruned, full, from) && from <= time
    ensures pruned.entries != []
    ensures var r := Forgotten(pruned, time);
            && (if Late(pruned, time) then r == Failure(FromSpatial(Sp.InvalidRetention)) else r.Success?)
            && (r.Success? ==> (Together(env, r.value, full, time) <==> Quiet(full, time)))
            && (r.Success? ==> r.value.scenario == pruned.scenario && (r.value.spatial.Some? <==> pruned.spatial.Some?))
  {
    hide Defined, Runs.UpToDate, Sp.Stands, Sp.Live, Sp.Sound;
    Sn.DiscardKeepsAnswers(pruned.entries, full.entries, from, time);
    DefinedHasEntries(env, pruned);
    ForgottenIsDefined(env, pruned, time);
    DefinedAgain(env, pruned, Sn.Trim(pruned.entries, time), pruned.spatial);
    if pruned.spatial.Some? && !Late(pruned, time) {
      var p, f := pruned.spatial.value.resolver, full.spatial.value.resolver;
      StandsMeans(p, f);
      Sp.DiscardStands(p, f, time);
      Sp.DiscardIsSound(p, time);
      DefinedAgain(env, pruned, Sn.Trim(pruned.entries, time),
          Some(pruned.spatial.value.(resolver := Sp.DiscardBefore(p, time).value)));
    }
  }

  lemma StandsMeans(pruned: Sp.Resolver, full: Sp.Resolver)
    requires Sp.Stands(pruned, full)
    ensures pruned.advancedTo == full.advancedTo
  {
  }

  lemma DefinedAgain(env: Environment, w: World, entries: seq<Sn.Entry>, spatial: Option<Timeline>)
    requires Defined(env, w) && entries != []
    ensures Defined(env, w.(entries := entries, spatial := spatial))
  {
  }

  // ---------------------------------------------------------------- one batch

  /** A runtime and its twin that never forgets. */
  ghost predicate Paired(env: Environment, pruned: Runtime, full: Runtime) {
    && Ready(pruned.first) && Ready(pruned.second) && pruned.first == full.first && pruned.second == full.second
    && pruned.world.scenario.elapsed < Completion(pruned)
    && Together(env, pruned.world, full.world, Earliest(pruned.first, pruned.second))
  }

  lemma PairedIsUsable(env: Environment, pruned: Runtime, full: Runtime)
    requires Paired(env, pruned, full)
    ensures Usable(env, pruned) && Usable(env, full)
  {
    TogetherIsDefined(env, pruned.world, full.world, Earliest(pruned.first, pruned.second));
  }

  /** One batch. The pruned runtime gives the batch of the full one; completions rise and no pending sample moves
      backwards. It can go on like the full one exactly when no event ends between the completion and the next pending
      sample. It stops only with the full one, at its own limit of retained events, or because that sample is late. */
  lemma NextTogether(env: Environment, pruned: Runtime, full: Runtime)
    requires Paired(env, pruned, full)
    ensures Usable(env, pruned) && Usable(env, full)
    ensures var p, f, now := Next(env, pruned, true), Next(env, full, false), Completion(pruned);
            if p.Success? then
              && f.Success? && p.value.batch == f.value.batch && p.value.batch.completedAt == now
              && var r := p.value.runtime;
                 && r.first == f.value.runtime.first && r.second == f.value.runtime.second
                 && After(pruned.first, now) == Success(r.first) && After(pruned.second, now) == Success(r.second)
                 && now < Completion(r) && Earliest(pruned.first, pruned.second) <= Earliest(r.first, r.second)
                 && r.world.scenario.elapsed == now && (r.world.spatial.Some? <==> pruned.world.spatial.Some?)
                 && !Late(r.world, Earliest(r.first, r.second))
                 && (Paired(env, r, f.value.runtime) <==> Quiet(f.value.runtime.world, Earliest(r.first, r.second)))
            else
              || p.error == RetainedEventLimit
              || (Possible(p.error) && f == Failure(p.error))
              || (p.error == FromSpatial(Sp.InvalidRetention) && f.Success?
                  && Late(f.value.runtime.world, Earliest(f.value.runtime.first, f.value.runtime.second)))
  {
    hide Together, Ready, AdvanceAll, After, MeasuredNow, Forgotten, Defined, Possible;
    PairedIsUsable(env, pruned, full);
    ReadyMeans(pruned.first);
    ReadyMeans(pruned.second);
    var from, now := Earliest(pruned.first, pruned.second), Completion(pruned);
    TogetherMeans(env, pruned.world, full.world, from);
    var limit := Runs.EventLimit(|pruned.world.scenario.heights|);
    if limit.Success? {
      AdvanceTogether(env, pruned.world, full.world, from, now, limit.value);
      var p, f := AdvanceAll(env, pruned.world, now, true, limit.value),
          AdvanceAll(env, full.world, now, false, limit.value);
      MovedIsReady(pruned.first, now);
      MovedIsReady(pruned.second, now);
      RotationErrorsArePossible();
      var first, second := After(pruned.first, now), After(pruned.second, now);
      if p.Success? && first.Success? && second.Success? {
        MeasuredTogether(env, 0, p.value.world, f.value.world, from, pruned.first, now);
        MeasuredTogether(env, 1, p.value.world, f.value.world, from, pruned.second, now);
        ReadyMeans(first.value);
        ReadyMeans(second.value);
        TogetherMeans(env, p.value.world, f.value.world, from);
        AdvanceKeepsSpatial(env, pruned.world, now, true, limit.value);
        ForgottenTogether(env, p.value.world, f.value.world, from, Earliest(first.value, second.value));
      }
    }
  }

  lemma RotationErrorsArePossible()
    ensures Possible(FromRotation(Ro.ScanIdExhausted)) && Possible(FromRotation(Ro.SampleIndexExhausted))
    ensures Possible(FromRotation(Ro.RotationTimeOutOfRange))
  {
  }

  lemma TogetherMeans(env: Environment, pruned: World, full: World, from: real)
    requires Together(env, pruned, full, from)
    ensures pruned.scenario == full.scenario && (pruned.spatial.Some? <==> full.spatial.Some?)
    ensures pruned.entries != [] && full.entries != []
    ensures Runs.EventLimit(|pruned.scenario.heights|).Success?
  {
    Runs.SurfaceHasNodes(env.settings);
    Runs.SoundPhaseEnd(env.settings, pruned.scenario);
  }

  lemma {:induction false} AdvanceKeepsSpatial(env: Environment, w: World, through: real, bounded: bool, budget: nat)
    requires Defined(env, w)
    ensures var r := AdvanceAll(env, w, through, bounded, budget);
            r.Success? ==> (r.value.world.spatial.Some? <==> w.spatial.Some?)
    decreases budget, if w.scenario.elapsed < through then 1 else 0
  {
    hide Defined, Turn;
    if w.scenario.elapsed < through && Turn(env, w, through, bounded, budget).Success? {
      TurnKeepsSpatial(env, w, through, bounded, budget);
      TurnReaches(env, w, through, bounded, budget);
      var turned := Turn(env, w, through, bounded, budget).value;
      AdvanceKeepsSpatial(env, turned.world, through, bounded, budget - |turned.events|);
    }
  }

  lemma TurnKeepsSpatial(env: Environment, w: World, through: real, bounded: bool, budget: nat)
    requires Defined(env, w)
    ensures var r := Turn(env, w, through, bounded, budget);
            r.Success? ==> (r.value.world.spatial.Some? <==> w.spatial.Some?)
  {
    hide SpatialTo, Runs.Advance, PushAll, Sc.Sound, Sc.NextEvent;
    var next := Sc.NextEvent(env.settings, w.scenario);
    SoundCollecting(env, w);
  }

  lemma SoundCollecting(env: Environment, w: World)
    requires Defined(env, w)
    ensures w.scenario.phase.Collecting? ==> w.scenario.collectionPlan.Some?
  {
    Runs.SoundPhaseEnd(env.settings, w.scenario);
  }

  // ---------------------------------------------------------------- a runtime on its own

  /** Both histories reach back to the earliest pending sample. */
  ghost predicate Reaching(w: World, earliest: real)
    requires w.entries != []
  {
    && w.entries[0].startedAt <= earliest && 0.0 <= earliest
    && (w.spatial.Some? ==> w.spatial.value.resolver.retainedFrom <= earliest)
  }

  /** A runtime between two batches, whatever its rates. */
  ghost predicate Going(env: Environment, r: Runtime) {
    && Ready(r.first) && Ready(r.second) && Steady(env, r.world)
    && r.world.scenario.elapsed < Completion(r) && Reaching(r.world, Earliest(r.first, r.second))
  }

  lemma GoingIsUsable(env: Environment, r: Runtime)
    requires Going(env, r)
    ensures Usable(env, r)
  {
  }

  lemma {:induction false} FoundFromFirst(entries: seq<Sn.Entry>, elapsed: real)
    requires Sn.Valid(entries) && entries[0].startedAt <= elapsed && elapsed >= 0.0
    ensures Sn.SnapshotAt(entries, elapsed).Success?
  {
    Sn.FoundFrom(entries, elapsed, |entries|);
  }

  lemma {:induction false} LookupsSucceed(env: Environment, sensor: nat, entries: seq<Sn.Entry>, scan: Ro.Scan, n: nat)
    requires |scan.samples| == |scan.times| && n <= |scan.times| && Sn.Valid(entries)
    requires forall x | 0 <= x < |scan.times| :: 0.0 <= scan.times[x] && entries[0].startedAt <= scan.times[x]
    ensures var r := Lookups(env, sensor, entries, scan, n);
            r.Success? && forall x | 0 <= x < n :: r.value[x].elapsed == scan.times[x]
    decreases n
  {
    hide Sn.SnapshotAt;
    if n > 0 {
      LookupsSucceed(env, sensor, entries, scan, n - 1);
      FoundFromFirst(entries, scan.times[n - 1]);
    }
  }

  /** A completed scan is always measured: its surfaces are found, and its distances are resolved. */
  lemma MeasuringSucceeds(env: Environment, index: nat, w: World, earliest: real, s: Sensor, completion: real)
    requires Steady(env, w) && Ready(s) && completion == w.scenario.elapsed
    requires Reaching(w, earliest) && earliest <= s.pending.times[0]
    ensures |s.pending.samples| == |s.pending.times| > 0
    ensures MeasuredNow(env, index, w, s, completion).Success?
  {
    hide Defined, Runs.UpToDate, Sp.AllResolved, Sp.Sound, Ready, Lookups, Sp.ResolveAll;
    ReadyMeans(s);
    if s.pending.completedAt == completion {
      forall x | 0 <= x < |s.pending.times| ensures earliest <= s.pending.times[x] {
        PendingTimes(s, x);
      }
      LookupsSucceed(env, index, w.entries, s.pending, |s.pending.times|);
      if w.spatial.Some? {
        var samples := Lookups(env, index, w.entries, s.pending, |s.pending.times|).value;
        Sp.ResolveSucceeds(w.spatial.value.resolver, samples, completion, env.minimum, env.maximum);
      }
    }
  }

  lemma {:induction false} TrimReaches(entries: seq<Sn.Entry>, time: real)
    requires Sn.Valid(entries) && entries[0].startedAt <= time
    ensures Sn.Trim(entries, time)[0].startedAt <= time
    decreases |entries|
  {
    if |entries| > 1 && entries[1].startedAt <= time {
      var rest := entries[1..];
      assert forall k | 0 < k < |rest| :: rest[k] == entries[k + 1] && rest[k - 1] == entries[k];
      assert rest[0] == entries[1];
      TrimReaches(rest, time);
    }
  }

  /** Forgetting at a later time keeps a steady world that reaches back to it, unless the time is late. */
  lemma ForgottenReaches(env: Environment, w: World, earliest: real, time: real)
    requires Steady(env, w) && Reaching(w, earliest) && earliest <= time
    ensures var r := Forgotten(w, time);
            if Late(w, time) then r == Failure(FromSpatial(Sp.InvalidRetention))
            else r.Success? && Steady(env, r.value) && Reaching(r.value, time) && r.value.scenario == w.scenario
                 && (r.value.spatial.Some? <==> w.spatial.Some?)
  {
    hide Defined, Runs.UpToDate, Sp.Live, Sp.Sound;
    DefinedHasEntries(env, w);
    Sn.TrimKeepsAnswers(w.entries, time, time);
    TrimReaches(w.entries, time);
    DefinedAgain(env, w, Sn.Trim(w.entries, time), w.spatial);
    if w.spatial.Some? && !Late(w, time) {
      var t := w.spatial.value;
      Sp.DiscardIsSound(t.resolver, time);
      DefinedAgain(env, w, Sn.Trim(w.entries, time),
                   Some(t.(resolver := Sp.DiscardBefore(t.resolver, time).value)));
    }
  }

  /** The earliest sample pending after the next batch would lie past its completion by more than the tolerance. This
      depends on rates and schedules alone. */
  ghost predicate NextIsLate(r: Runtime)
    requires Ready(r.first) && Ready(r.second)
  {
    var now := Completion(r);
    var first, second := After(r.first, now), After(r.second, now);
    && r.world.spatial.Some? && first.Success? && second.Success?
    && first.value.pending.times != [] && second.value.pending.times != []
    && Earliest(first.value, second.value) > now + Sp.TIME_TOLERANCE
  }

  /** One batch of any runtime. It keeps going, or is stopped by one of the possible errors, or its next sample is
      late. */
  lemma NextGoes(env: Environment, r: Runtime)
    requires Going(env, r)
    ensures Usable(env, r)
    ensures var p, now := Next(env, r, true), Completion(r);
            if p.Success? then
              && Going(env, p.value.runtime) && !NextIsLate(r)
              && After(r.first, now) == Success(p.value.runtime.first)
              && After(r.second, now) == Success(p.value.runtime.second)
              && p.value.runtime.world.scenario.elapsed == now
              && (p.value.runtime.world.spatial.Some? <==> r.world.spatial.Some?)
            else if p.error == FromSpatial(Sp.InvalidRetention) then NextIsLate(r)
            else Possible(p.error)
  {
    hide Steady, Ready, AdvanceAll, After, MeasuredNow, Forgotten, Defined, Possible;
    GoingIsUsable(env, r);
    ReadyMeans(r.first);
    ReadyMeans(r.second);
    var earliest, now := Earliest(r.first, r.second), Completion(r);
    LimitExists(env, r.world);
    var limit := Runs.EventLimit(|r.world.scenario.heights|).value;
    AdvanceAllStays(env, r.world, now, true, limit);
    MovedIsReady(r.first, now);
    MovedIsReady(r.second, now);
    RotationErrorsArePossible();
    RetentionErrorIsNotPossible();
    var p, first, second := AdvanceAll(env, r.world, now, true, limit), After(r.first, now), After(r.second, now);
    if p.Success? && first.Success? && second.Success? {
      var w := p.value.world;
      ReadyMeans(first.value);
      ReadyMeans(second.value);
      LimitExists(env, w);
      MeasuringSucceeds(env, 0, w, earliest, r.first, now);
      MeasuringSucceeds(env, 1, w, earliest, r.second, now);
      ForgottenReaches(env, w, earliest, Earliest(first.value, second.value));
    }
  }

  lemma LimitExists(env: Environment, w: World)
    requires Steady(env, w)
    ensures Runs.EventLimit(|w.scenario.heights|).Success? && w.entries != []
  {
    Runs.SurfaceHasNodes(env.settings);
    Runs.SoundPhaseEnd(env.settings, w.scenario);
  }

  // ---------------------------------------------------------------- when forgetting fails

  /** Unless one of the possible errors stops the batch first, it succeeds exactly when the next sample is not late. */
  lemma BatchFailsWhenLate(env: Environment, r: Runtime)
    requires Going(env, r)
    ensures Usable(env, r)
    ensures var p := Next(env, r, true);
            && (p == Failure(FromSpatial(Sp.InvalidRetention)) ==> NextIsLate(r))
            && ((p.Failure? ==> !Possible(p.error)) ==>
                  (p.Success? <==> !NextIsLate(r)) && (p == Failure(FromSpatial(Sp.InvalidRetention)) <==> NextIsLate(r)))
  {
    hide Next, Going, Usable, Ready, NextIsLate;
    NextGoes(env, r);
    RetentionErrorIsNotPossible();
  }

  lemma RetentionErrorIsNotPossible()
    ensures !Possible(FromSpatial(Sp.InvalidRetention))
  {
  }

  lemma FullBatch(env: Environment, pruned: Runtime, full: Runtime)
    requires Paired(env, pruned, full)
    ensures Usable(env, full)
    ensures var f := Next(env, full, false);
            f.Success? ==> f.value.runtime.world.scenario.elapsed == Completion(pruned)
                           && (f.value.runtime.world.spatial.Some? <==> pruned.world.spatial.Some?)
  {
    hide Together, Ready, AdvanceAll, After, MeasuredNow, Forgotten, Defined;
    PairedIsUsable(env, pruned, full);
    ReadyMeans(pruned.first);
    ReadyMeans(pruned.second);
    TogetherMeans(env, pruned.world, full.world, Earliest(pruned.first, pruned.second));
    var limit := Runs.EventLimit(|full.world.scenario.heights|);
    if limit.Success? {
      AdvanceKeepsSpatial(env, full.world, Completion(full), false, limit.value);
      AdvanceEnds(env, full.world, Completion(full), false, limit.value);
    }
  }

  lemma {:induction false} AdvanceEnds(env: Environment, w: World, through: real, bounded: bool, budget: nat)
    requires Defined(env, w) && w.scenario.elapsed <= through
    ensures var r := AdvanceAll(env, w, through, bounded, budget);
            r.Success? ==> r.value.world.scenario.elapsed == through
    decreases budget, if w.scenario.elapsed < through then 1 else 0
  {
    hide Defined, Turn;
    if w.scenario.elapsed < through && Turn(env, w, through, bounded, budget).Success? {
      TurnReaches(env, w, through, bounded, budget);
      var turned := Turn(env, w, through, bounded, budget).value;
      AdvanceEnds(env, turned.world, through, bounded, budget - |turned.events|);
    }
  }

  /** After a whole number of samples the next rotation's first sample is taken at the completion itself. */
  lemma WholeNumberIsOnTime(s: Sensor, completion: real)
    requires Ready(s) && WholeNumber(s.rates) && s.pending.completedAt == completion
    ensures After(s, completion).Success? ==>
              var next := After(s, completion).value; next.pending.times != [] && next.pending.times[0] == completion
  {
    hide Ro.NextScan, Ro.FirstSample, Ro.Rates.PointTime, Ro.Rates.Boundary, WholeNumber;
    MovedIsReady(s, completion);
    var next := After(s, completion);
    if next.Success? {
      WholeNumberHasNoGap(s.rates, s.schedule.nextRotation);
    }
  }

  /** Without spatial distortions any rates will do; with them both sensors take a whole number of samples per
      rotation. */
  ghost predicate Punctual(r: Runtime)
    requires Ready(r.first) && Ready(r.second)
  {
    r.world.spatial.None? || (WholeNumber(r.first.rates) && WholeNumber(r.second.rates))
  }

  /** A punctual runtime stays paired with its twin, stays punctual, and never fails to forget. */
  lemma PunctualStaysPaired(env: Environment, pruned: Runtime, full: Runtime)
    requires Paired(env, pruned, full) && Punctual(pruned)
    ensures Usable(env, pruned) && Usable(env, full)
    ensures var p, f := Next(env, pruned, true), Next(env, full, false);
            if p.Success? then
              && f.Success? && p.value.batch == f.value.batch && p.value.batch.completedAt == Completion(pruned)
              && Completion(pruned) < Completion(p.value.runtime)
              && Paired(env, p.value.runtime, f.value.runtime) && Punctual(p.value.runtime)
            else Possible(p.error) && (p.error == RetainedEventLimit || f == Failure(p.error))
  {
    hide Next, Together, Defined, Ready, After, WholeNumber, Possible;
    NextTogether(env, pruned, full);
    FullBatch(env, pruned, full);
    var now := Completion(pruned);
    ReadyMeans(pruned.first);
    ReadyMeans(pruned.second);
    MovedIsReady(pruned.first, now);
    MovedIsReady(pruned.second, now);
    assert Possible(RetainedEventLimit) by { LimitIsPossible(); }
    if pruned.world.spatial.Some? {
      if pruned.first.pending.completedAt == now {
        WholeNumberIsOnTime(pruned.first, now);
      } else {
        WholeNumberIsOnTime(pruned.second, now);
      }
      FullMovesOn(env, full);
    }
  }

  lemma LimitIsPossible()
    ensures Possible(RetainedEventLimit)
  {
  }

  lemma FullMovesOn(env: Environment, full: Runtime)
    requires Usable(env, full)
    ensures var f, now := Next(env, full, false), Completion(full);
            f.Success? ==> After(full.first, now) == Success(f.value.runtime.first)
                           && After(full.second, now) == Success(f.value.runtime.second)
  {
    hide Defined, Ready, AdvanceAll, After, MeasuredNow, Forgotten;
  }
}

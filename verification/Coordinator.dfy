/** The two-sensor coordinator: scans, surface history and spatial history advance together
    (services/simulation-server/src/runtime/generation.rs). */
module Coordinator {
  import opened Wrappers
  import opened Sums
  import Sc = Scenario
  import Runs = ScenarioRuns
  import Sn = Snapshots
  import Sp = Spatial
  import Ro = Rotation
  import V = VoidCoverage

  const MAX_RETAINED_SPATIAL_EVENTS: nat := 100_000

  datatype RuntimeError =
    | FromScenario(scenario: Sc.ScenarioError) | FromRotation(rotation: Ro.RotationError)
    | FromHistory(history: Sn.HistoryError) | FromSpatial(spatial: Sp.SpatialError)
    | FromCoverage(coverage: V.CoverageError) | IntervalRejected | DrawFailed | RetainedEventLimit | EventOutputLimit
    | Terminal

  /** Where a ray ends on a surface: the distance, the place if the surface itself was hit, and the static scene. */
  datatype Ray = Ray(distance: real, hit: Option<Sp.Place>, staticDistance: Option<real>)

  /** The events of an interval that are drawn without regard to the voids, and the state of the generators afterwards. */
  datatype Draw = Draw(events: seq<Sp.Event>, generators: nat)

  /** The spatial history together with the state of its random generators, which is known by a number. */
  datatype Timeline = Timeline(resolver: Sp.Resolver, generators: nat)

  datatype Drawn = Drawn(falling: seq<Sp.Event>, voids: seq<Sp.Event>, collection: seq<Sp.Event>, generators: nat)

  /** The configuration and everything that is computed elsewhere: ray casting, the cover of a void, and random placement.
      Falling and collection events may depend on the generators, the scenario and the end of the interval; an attempt to
      place a void also on the time and on the voids that are open then. Each may fail. */
  datatype Environment = Environment(
    settings: Sc.Settings, grid: nat, minimum: real, maximum: real,
    castRay: (nat, nat, Sn.Surface) -> Ray,
    covered: (Sn.Surface, Sp.Event) -> bool,
    drawFalling: (nat, Sc.State, real) -> Option<Draw>,
    drawCollection: (nat, Sc.State, real) -> Option<Draw>,
    voids: bool, voidTarget: real, voidArea: real -> real,
    voidAttempt: (nat, Sc.State, real, seq<Sp.Event>) -> Option<V.Attempt>)

  /** The scenario, the surface history, and the spatial timeline when distortions are on. */
  datatype World = World(scenario: Sc.State, entries: seq<Sn.Entry>, spatial: Option<Timeline>)

  datatype Sensor = Sensor(rates: Ro.Rates, schedule: Ro.Schedule, pending: Ro.Scan)

  datatype Runtime = Runtime(world: World, first: Sensor, second: Sensor)

  datatype Measured = Measured(sensor: nat, scanId: nat, completedAt: real, distances: seq<real>)

  datatype Batch = Batch(completedAt: real, scans: seq<Measured>, events: seq<Sc.Event>)

  datatype Turned = Turned(world: World, events: seq<Sc.Event>)

  datatype Stepped = Stepped(runtime: Runtime, batch: Batch)

  function Frozen(env: Environment, heights: seq<real>): Sn.Surface {
    Sn.Surface(env.grid, heights)
  }

  // ---------------------------------------------------------------- advancing scenario and histories

  predicate IntervalFits(plan: Sc.Plan, advancedTo: real, from: real, to: real) {
    var phaseEnd := plan.startedAt + plan.duration;
    && plan.startedAt >= 0.0 && phaseEnd > plan.startedAt
    && from >= 0.0 && to >= from && Abs(from - advancedTo) <= Sp.TIME_TOLERANCE
    && to <= phaseEnd + Sp.TIME_TOLERANCE && from >= plan.startedAt - Sp.TIME_TOLERANCE
  }

  /** Collection closes every open void; filling closes the covered ones. */
  function Closes(env: Environment, s: Sc.State): Sp.Event -> bool {
    e => s.phase.Collecting? || env.covered(Frozen(env, s.heights), e)
  }

  function VoidSource(env: Environment, s: Sc.State, phaseEnd: real): V.Source {
    V.Source((generators: nat, at: real, open: seq<Sp.Event>) => env.voidAttempt(generators, s, at, open),
             env.voidArea, env.voidTarget, phaseEnd)
  }

  /** The new events of an interval: falling material and voids while filling, occlusions while collecting. */
  function NewEvents(env: Environment, s: Sc.State, voids: seq<Sp.Event>, generators: nat, to: real)
    : Result<Drawn, RuntimeError>
    requires s.phase.Collecting? ==> s.collectionPlan.Some?
  {
    if s.phase.Collecting? then
      var collection := env.drawCollection(generators, s, to);
      if collection.None? then Failure(DrawFailed)
      else Success(Drawn([], [], collection.value.events, collection.value.generators))
    else
      var falling := env.drawFalling(generators, s, to);
      if falling.None? then Failure(DrawFailed)
      else if !env.voids then Success(Drawn(falling.value.events, [], [], falling.value.generators))
      else
        var source := VoidSource(env, s, Sc.ActivePlan(s).startedAt + Sc.ActivePlan(s).duration);
        var covered := V.Cover(source, voids, s.elapsed, to, [], falling.value.generators);
        if covered.Failure? then Failure(FromCoverage(covered.error))
        else Success(Drawn(falling.value.events, covered.value.voids, [], covered.value.generators))
  }

  /** The timeline up to the end of the next interval. Only the bounded runtime limits what it retains. */
  function SpatialTo(env: Environment, w: World, t: Timeline, to: real, bounded: bool): Result<Timeline, RuntimeError>
    requires w.scenario.phase.Collecting? ==> w.scenario.collectionPlan.Some?
  {
    var from := w.scenario.elapsed;
    if !IntervalFits(Sc.ActivePlan(w.scenario), t.resolver.advancedTo, from, to) then Failure(IntervalRejected)
    else
      var closed := Sp.CloseVoids(t.resolver, from, Closes(env, w.scenario));
      var drawn := NewEvents(env, w.scenario, closed.voids, t.generators, to);
      if drawn.Failure? then Failure(drawn.error)
      else
        var advanced := Sp.AdvanceWith(closed, to, drawn.value.falling, drawn.value.voids, drawn.value.collection);
        if advanced.Failure? then Failure(FromSpatial(advanced.error))
        else if bounded && Retained(advanced.value) > MAX_RETAINED_SPATIAL_EVENTS then Failure(RetainedEventLimit)
        else Success(Timeline(advanced.value, drawn.value.generators))
  }

  function Retained(r: Sp.Resolver): nat {
    |r.falling| + |r.voids| + |r.collection|
  }

  function MovedSpatial(env: Environment, w: World, to: real, bounded: bool): Result<Option<Timeline>, RuntimeError>
    requires w.scenario.phase.Collecting? ==> w.scenario.collectionPlan.Some?
  {
    if w.spatial.None? then Success(None)
    else
      var r := SpatialTo(env, w, w.spatial.value, to, bounded);
      if r.Failure? then Failure(r.error) else Success(Some(r.value))
  }

  function PushAll(env: Environment, entries: seq<Sn.Entry>, events: seq<Sc.Event>)
    : Result<seq<Sn.Entry>, Sn.HistoryError>
    requires entries != []
    decreases |events|
  {
    if events == [] then Success(entries)
    else
      var pushed := Sn.Push(entries, events[0].elapsed, Frozen(env, events[0].heights));
      if pushed.Failure? then pushed else PushAll(env, pushed.value, events[1..])
  }

  ghost predicate Defined(env: Environment, w: World) {
    env.settings.Valid() && Sc.Sound(env.settings, w.scenario) && w.entries != []
  }

  /** The scenario moves on, and the surface history takes its events. */
  function Passed(env: Environment, w: World, to: real, spatial: Option<Timeline>, budget: nat)
    : Result<Turned, RuntimeError>
    requires Defined(env, w)
  {
    var advance := Runs.Advance(env.settings, w.scenario, to);
    if advance.Failure? then Failure(FromScenario(advance.error))
    else if |advance.value.events| > budget then Failure(EventOutputLimit)
    else
      var pushed := PushAll(env, w.entries, advance.value.events);
      if pushed.Failure? then Failure(FromHistory(pushed.error))
      else Success(Turned(World(advance.value.state, pushed.value, spatial), advance.value.events))
  }

  /** One turn of the loop: up to the next surface event or the end of the batch. */
  function Turn(env: Environment, w: World, through: real, bounded: bool, budget: nat): Result<Turned, RuntimeError>
    requires Defined(env, w)
  {
    var next := Sc.NextEvent(env.settings, w.scenario);
    if next.Failure? then Failure(FromScenario(next.error))
    else
      var to := Min(next.value, through);
      var spatial := MovedSpatial(env, w, to, bounded);
      if spatial.Failure? then Failure(spatial.error) else Passed(env, w, to, spatial.value, budget)
  }

  /** An advance ends at its time, and it passes at least one event when the next one is due. */
  lemma AdvanceReaches(settings: Sc.Settings, s: Sc.State, to: real)
    requires settings.Valid() && Sc.Sound(settings, s)
    ensures var r := Runs.Advance(settings, s, to);
            r.Success? ==>
              && r.value.state.elapsed == to && s.elapsed <= to && Sc.NextEvent(settings, s).Success?
              && (r.value.events == [] <==> Sc.NextEvent(settings, s).value > to)
              && Runs.Run(settings, s, to, Runs.EventLimit(|s.heights|).value) == r
  {
    hide Sc.Sound, Runs.Step, Runs.Follow;
    var r := Runs.Advance(settings, s, to);
    if r.Success? {
      Runs.EventsFollow(settings, s, to, Runs.EventLimit(|s.heights|).value);
    }
  }

  lemma {:induction false} PushedIsNotEmpty(env: Environment, entries: seq<Sn.Entry>, events: seq<Sc.Event>)
    requires entries != [] && PushAll(env, entries, events).Success?
    ensures PushAll(env, entries, events).value != []
    decreases |events|
  {
    if events != [] {
      PushedIsNotEmpty(env, Sn.Push(entries, events[0].elapsed, Frozen(env, events[0].heights)).value, events[1..]);
    }
  }

  lemma TurnReaches(env: Environment, w: World, through: real, bounded: bool, budget: nat)
    requires Defined(env, w)
    ensures var r := Turn(env, w, through, bounded, budget);
            r.Success? ==>
              && Defined(env, r.value.world) && r.value.world.scenario.elapsed <= through
              && (r.value.world.scenario.elapsed < through ==> r.value.events != []) && |r.value.events| <= budget
  {
    hide Sc.Sound, Runs.Advance, PushAll, MovedSpatial, Sc.NextEvent;
    var next := Sc.NextEvent(env.settings, w.scenario);
    if Turn(env, w, through, bounded, budget).Success? {
      var to := Min(next.value, through);
      AdvanceReaches(env.settings, w.scenario, to);
      PushedIsNotEmpty(env, w.entries, Runs.Advance(env.settings, w.scenario, to).value.events);
    }
  }

  /** All turns up to the end of the batch; budget limits the events that may still come. */
  function AdvanceAll(env: Environment, w: World, through: real, bounded: bool, budget: nat)
    : (r: Result<Turned, RuntimeError>)
    requires Defined(env, w)
    ensures r.Success? ==> Defined(env, r.value.world)
    decreases budget, if w.scenario.elapsed < through then 1 else 0
  {
    hide Defined, Turn;
    if w.scenario.elapsed >= through then Success(Turned(w, []))
    else
      var turned := Turn(env, w, through, bounded, budget);
      if turned.Failure? then Failure(turned.error)
      else
        TurnReaches(env, w, through, bounded, budget);
        var rest := AdvanceAll(env, turned.value.world, through, bounded, budget - |turned.value.events|);
        if rest.Failure? then rest
        else Success(Turned(rest.value.world, turned.value.events + rest.value.events))
  }

  // ---------------------------------------------------------------- one batch

  function Completion(r: Runtime): real {
    Min(r.first.pending.completedAt, r.second.pending.completedAt)
  }

  /** The time of the earliest sample that is still to be measured. */
  function Earliest(first: Sensor, second: Sensor): real
    requires first.pending.times != [] && second.pending.times != []
  {
    Min(first.pending.times[0], second.pending.times[0])
  }

  /** The surfaces that the first n samples of a scan meet, one lookup each. */
  function Lookups(env: Environment, sensor: nat, entries: seq<Sn.Entry>, scan: Ro.Scan,
                   n: nat): (r: Result<seq<Sp.Sample>, Sn.HistoryError>)
    requires |scan.samples| == |scan.times| && n <= |scan.times|
    ensures r.Success? ==> |r.value| == n
    decreases n
  {
    if n == 0 then Success([])
    else
      var before := Lookups(env, sensor, entries, scan, n - 1);
      if before.Failure? then before
      else
        var surface := Sn.SnapshotAt(entries, scan.times[n - 1]);
        if surface.Failure? then Failure(surface.error)
        else
          var ray := env.castRay(sensor, scan.samples[n - 1], surface.value);
          Success(before.value + [Sp.Sample(scan.times[n - 1], ray.distance, ray.hit, ray.staticDistance)])
  }

  function Distances(samples: seq<Sp.Sample>): seq<real> {
    seq(|samples|, k requires 0 <= k < |samples| => samples[k].distance)
  }

  function Measure(env: Environment, sensor: nat, w: World, scan: Ro.Scan): Result<Measured, RuntimeError>
    requires |scan.samples| == |scan.times| > 0
  {
    var samples := Lookups(env, sensor, w.entries, scan, |scan.times|);
    if samples.Failure? then Failure(FromHistory(samples.error))
    else if w.spatial.None? then Success(Measured(sensor, scan.scanId, scan.completedAt, Distances(samples.value)))
    else
      var resolved := Sp.ResolveAll(w.spatial.value.resolver, samples.value, scan.completedAt, env.minimum, env.maximum);
      if resolved.Failure? then Failure(FromSpatial(resolved.error))
      else Success(Measured(sensor, scan.scanId, scan.completedAt, resolved.value))
  }

  ghost predicate Ready(s: Sensor) {
    var p, k := s.pending, s.schedule.nextRotation;
    && s.rates.Valid() && Ro.Aligned(s.rates, s.schedule) && k > 0
    && p.scanId == k && p.startedAt == s.rates.Boundary(k - 1) && p.completedAt == s.rates.Boundary(k)
    && |p.samples| == |p.times| == s.schedule.nextSample - Ro.FirstSample(s.rates, k - 1) && |p.times| > 0
    && forall x | 0 <= x < |p.times| ::
         p.samples[x] == Ro.FirstSample(s.rates, k - 1) + x
             && p.times[x] == s.rates.PointTime(Ro.FirstSample(s.rates, k - 1) + x)
  }

  /** The sensor with its next rotation pending. */
  function MovedOn(s: Sensor): Result<Sensor, RuntimeError>
    requires s.rates.Valid()
  {
    var next := Ro.NextScan(s.rates, s.schedule);
    if next.Failure? then Failure(FromRotation(next.error))
    else Success(s.(pending := next.value.0, schedule := next.value.1))
  }

  /** A sensor whose scan completes now moves on, the other one waits. */
  function After(s: Sensor, completion: real): Result<Sensor, RuntimeError>
    requires s.rates.Valid()
  {
    if s.pending.completedAt == completion then MovedOn(s) else Success(s)
  }

  /** The measured scan of a sensor, when it completes now. */
  function MeasuredNow(env: Environment, index: nat, w: World, s: Sensor, completion: real)
    : Result<seq<Measured>, RuntimeError>
    requires |s.pending.samples| == |s.pending.times| > 0
  {
    if s.pending.completedAt != completion then Success([])
    else
      var m := Measure(env, index, w, s.pending);
      if m.Failure? then Failure(m.error) else Success([m.value])
  }

  /** Both histories forget what lies before the earliest pending sample. */
  function Forgotten(w: World, time: real): Result<World, RuntimeError>
    requires w.entries != []
  {
    var entries := Sn.Discard(w.entries, time);
    if entries.Failure? then Failure(FromHistory(entries.error))
    else if w.spatial.None? then Success(w.(entries := entries.value))
    else
      var spatial := Sp.DiscardBefore(w.spatial.value.resolver, time);
      if spatial.Failure? then Failure(FromSpatial(spatial.error))
      else Success(w.(entries := entries.value, spatial := Some(w.spatial.value.(resolver := spatial.value))))
  }

  ghost predicate Usable(env: Environment, r: Runtime) {
    Defined(env, r.world) && Ready(r.first) && Ready(r.second)
  }

  /** The next batch of completed scans. The runtime is bounded: it forgets and it limits what it retains. The same
      steps unbounded keep the full history. */
  function Next(env: Environment, r: Runtime, bounded: bool): (s: Result<Stepped, RuntimeError>)
    requires Usable(env, r)
    ensures s.Success? ==> Usable(env, s.value.runtime)
  {
    hide Defined, Turn, Measure, MovedOn, Forgotten, AdvanceAll, Ready;
    ReadyMeans(r.first);
    ReadyMeans(r.second);
    var completion := Completion(r);
    var limit := Runs.EventLimit(|r.world.scenario.heights|);
    if limit.Failure? then Failure(FromScenario(limit.error))
    else
      var advanced := AdvanceAll(env, r.world, completion, bounded, limit.value);
      if advanced.Failure? then Failure(advanced.error)
      else
        var w := advanced.value.world;
        var first, second := After(r.first, completion), After(r.second, completion);
        if first.Failure? then Failure(first.error)
        else if second.Failure? then Failure(second.error)
        else
          var one, two := MeasuredNow(env, 0, w, r.first, completion), MeasuredNow(env, 1, w, r.second, completion);
          if one.Failure? then Failure(one.error)
          else if two.Failure? then Failure(two.error)
          else
            MovedIsReady(r.first, completion);
            MovedIsReady(r.second, completion);
            DefinedHasEntries(env, w);
            var kept := if bounded then Forgotten(w, Earliest(first.value, second.value)) else Success(w);
            ForgottenIsDefined(env, w, Earliest(first.value, second.value));
            if kept.Failure? then Failure(kept.error)
            else Success(Stepped(Runtime(kept.value, first.value, second.value),
                                 Batch(completion, one.value + two.value, advanced.value.events)))
  }

  lemma DefinedHasEntries(env: Environment, w: World)
    requires Defined(env, w)
    ensures w.entries != []
  {
  }

  lemma ForgottenIsDefined(env: Environment, w: World, time: real)
    requires Defined(env, w)
    ensures Forgotten(w, time).Success? ==> Defined(env, Forgotten(w, time).value)
  {
    hide Sp.DiscardBefore;
  }

  lemma ReadyMeans(s: Sensor)
    requires Ready(s)
    ensures s.rates.Valid() && |s.pending.samples| == |s.pending.times| > 0
  {
  }

  // ---------------------------------------------------------------- sensors

  /** A sensor that moves on has the following rotation pending: it completes later, and its samples are later. */
  lemma MovedIsReady(s: Sensor, completion: real)
    requires Ready(s)
    ensures var r := After(s, completion);
            if r.Success? then
              && Ready(r.value) && r.value.rates == s.rates
              && (s.pending.completedAt == completion ==>
                    r.value.pending.scanId == s.pending.scanId + 1
                    && r.value.pending.completedAt > completion)
              && (s.pending.completedAt != completion ==> r.value == s)
              && r.value.pending.times[0] >= s.pending.times[0]
            else r.error in {FromRotation(Ro.ScanIdExhausted), FromRotation(Ro.SampleIndexExhausted),
                             FromRotation(Ro.RotationTimeOutOfRange)}
  {
    hide Ro.NextScan, Ro.FirstSample, Ro.Rates.PointTime, Ro.Rates.Boundary;
    if s.pending.completedAt == completion {
      Ro.NextScanIsRotation(s.rates, s.schedule);
      ScanTimes(s.rates, s.schedule);
      Ro.BoundariesRise(s.rates, s.schedule.nextRotation);
      var k := s.schedule.nextRotation;
      LaterPoint(s.rates, Ro.FirstSample(s.rates, k - 1), s.schedule.nextSample);
    }
  }

  lemma ScanTimes(rates: Ro.Rates, s: Ro.Schedule)
    requires rates.Valid()
    ensures var r := Ro.NextScan(rates, s);
            r.Success? ==> r.value.0.startedAt == rates.Boundary(s.nextRotation)
                           && r.value.0.completedAt == rates.Boundary(s.nextRotation + 1)
  {
    hide Ro.EndSample, Ro.ScanError, Ro.Points, Ro.Rates.Boundary;
  }

  lemma LaterPoint(rates: Ro.Rates, low: nat, high: nat)
    requires rates.Valid() && low <= high
    ensures rates.PointTime(low) <= rates.PointTime(high)
  {
    if low < high {
      Ro.QuotientOrder(low, high, rates.sampleRate);
    }
  }

  /** The samples of a pending scan: none before 0 or before the first, all before the completion, at rising times. */
  lemma PendingTimes(s: Sensor, x: nat)
    requires Ready(s) && x < |s.pending.times|
    ensures 0.0 <= s.pending.times[0] <= s.pending.times[x] < s.pending.completedAt
    ensures x > 0 ==> s.pending.times[x - 1] < s.pending.times[x]
  {
    hide Ro.FirstSample, Ro.Rates.PointTime, Ro.Rates.Boundary;
    var k := s.schedule.nextRotation;
    var from := Ro.FirstSample(s.rates, k - 1);
    Ro.TimesFit(s.rates, k - 1, from + x);
    Ro.TimesFit(s.rates, k - 1, from);
    Ro.BoundariesRise(s.rates, k - 1);
    LaterPoint(s.rates, from, from + x);
    if x > 0 {
      Ro.LaterSample(s.rates, from + x - 1);
    }
  }
}

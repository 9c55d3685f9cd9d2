/** From scene states to published camera frames
    (services/visualizer/src/scrap_monitoring_visualizer/synthetic_camera/pipeline.py). */
module CameraPipeline {
  import opened Wrappers
  import opened Sums
  import opened CameraWorker

  datatype Target = Target(elapsed: real, hold: bool, id: int)

  datatype SceneSegment = SceneSegment(sequence: nat, leftElapsed: real, content: nat)

  /** What a state change tells the pipeline. */
  datatype View = View(runId: Option<string>, connected: bool, segment: Option<SceneSegment>)

  /** How a segment is cut into targets, what is drawn at a target, and the frame rate. */
  datatype Config = Config(schedule: SceneSegment -> seq<Target>, draw: (SceneSegment, Target) -> nat, fps: real)

  datatype Scheduled = Scheduled(segment: SceneSegment, targets: seq<Target>, startedAt: real)

  /** A published image with the frame it was paired with, if any. */
  datatype Published = Published(targetId: int, frame: Option<Frame>, jpeg: Jpeg)

  /** The pipeline's fields, its worker, and what it has published since the run began. */
  datatype Pipeline = Pipeline(worker: Worker, closed: bool, runId: Option<string>, started: bool,
                               lastSegment: Option<nat>, lastSubmitted: int, scheduled: Option<Scheduled>,
                                   nextIndex: nat,
                               frames: map<int, Frame>, store: Option<Jpeg>, published: seq<Published>)

  const NEW_PIPELINE := Pipeline(NEW_WORKER, false, None, false, None, -1, None, 0, map[], None, [])

  function ResetRun(p: Pipeline, runId: Option<string>): Pipeline {
    Pipeline(Invalidate(p.worker), p.closed, runId, false, None, -1, None, 0, map[], None, [])
  }

  /** A frame goes to the worker only when its target lies beyond every target submitted before. */
  function SubmitFrame(p: Pipeline, frame: Frame): Pipeline {
    if frame.targetId <= p.lastSubmitted then p
    else
      var (worker, replaced) := Submit(p.worker, frame);
      var kept := if replaced.Some? then p.frames - {replaced.value} else p.frames;
      p.(worker := worker, frames := kept[frame.targetId := frame], lastSubmitted := frame.targetId)
  }

  function Materialize(c: Config, segment: SceneSegment, target: Target): Frame {
    Frame(target.id, c.draw(segment, target))
  }

  /** The target's time within the segment has come. */
  predicate IsDue(s: Scheduled, wallElapsed: real, k: nat)
    requires k < |s.targets|
  {
    s.targets[k].elapsed - s.segment.leftElapsed <= wallElapsed + 0.000000000001
  }

  /** The first target from an index on that is not yet due. */
  function DueIndex(s: Scheduled, wallElapsed: real, index: nat): (due: nat)
    requires index <= |s.targets|
    ensures index <= due <= |s.targets|
    ensures forall k | index <= k < due :: IsDue(s, wallElapsed, k)
    ensures due < |s.targets| ==> !IsDue(s, wallElapsed, due)
    decreases |s.targets| - index
  {
    if index == |s.targets| || !IsDue(s, wallElapsed, index) then index else DueIndex(s, wallElapsed, index + 1)
  }

  /** Submits the latest target that is due, and skips the ones before it. */
  function SubmitDue(c: Config, p: Pipeline, now: real): Pipeline {
    if p.scheduled.None? then p
    else
      var s := p.scheduled.value;
      var due := if p.nextIndex <= |s.targets| then DueIndex(s, Max(0.0, now - s.startedAt), p.nextIndex)
          else p.nextIndex;
      var submitted := if due > p.nextIndex then
                         SubmitFrame(p, Materialize(c, s.segment, s.targets[due - 1])).(nextIndex := due)
                       else p;
      if submitted.nextIndex >= |s.targets| then submitted.(scheduled := None) else submitted
  }

  /** Before a new segment, the last target of the old one. */
  function SubmitSegmentEnd(c: Config, p: Pipeline): Pipeline {
    if p.scheduled.None? || p.nextIndex >= |p.scheduled.value.targets| then p
    else
      var s := p.scheduled.value;
      SubmitFrame(p, Materialize(c, s.segment, s.targets[|s.targets| - 1])).(nextIndex := |s.targets|,
          scheduled := None)
  }

  function Disconnected(p: Pipeline): Pipeline {
    p.(worker := Invalidate(p.worker), store := None, frames := map[], scheduled := None, nextIndex := 0)
  }

  /** The first frame of a run is the left end of its first segment. */
  function SubmitInitial(c: Config, p: Pipeline, segment: SceneSegment): Pipeline {
    if p.started then p
    else
      SubmitFrame(p, Materialize(c, segment, InitialTarget(c, segment)))
  }

  function InitialTarget(c: Config, segment: SceneSegment): Target {
    Target(segment.leftElapsed, false, Truncated(Times(segment.leftElapsed, c.fps) + 0.000000001))
  }

  /** Conversion to an integer towards zero. */
  function Truncated(x: real): int {
    if x >= 0.0 then x.Floor else -((-x).Floor)
  }

  function TakeSegment(c: Config, p: Pipeline, segment: SceneSegment, now: real, startedAt: real): Pipeline {
    var ended := SubmitSegmentEnd(c, SubmitDue(c, SubmitInitial(c, p, segment), now));
    var targets := c.schedule(segment);
    var scheduled :=
      if |targets| == 1 && targets[0].hold then
        SubmitFrame(ended, Materialize(c, segment, targets[0])).(scheduled := None, nextIndex := 0)
      else ended.(scheduled := Some(Scheduled(segment, targets, startedAt)), nextIndex := 0);
    scheduled.(started := true, lastSegment := Some(segment.sequence))
  }

  function StateChanged(c: Config, p: Pipeline, view: View, now: real, startedAt: real): Pipeline {
    if p.closed then p
    else
      var current := if view.runId != p.runId then ResetRun(p, view.runId) else p;
      if !view.connected then Disconnected(current)
      else if view.runId.None? || view.segment.None? then current
      else if Some(view.segment.value.sequence) == current.lastSegment then current
      else TakeSegment(c, current, view.segment.value, now, startedAt)
  }

  /** Takes the frame that belongs to an outcome, and publishes its image with it. */
  function PublishOutcome(p: Pipeline, outcome: Outcome): Pipeline {
    var frame := if outcome.targetId in p.frames then Some(p.frames[outcome.targetId]) else None;
    var q := p.(frames := p.frames - {outcome.targetId});
    if outcome.jpeg.None? then q.(store := None)
    else q.(store := outcome.jpeg, published := p.published + [Published(outcome.targetId, frame, outcome.jpeg.value)])
  }

  /** One poll; when the child has died it stops after publishing. */
  function PollOnce(c: Config, p: Pipeline, now: real, alive: bool): Pipeline {
    if p.closed then p
    else
      var (worker, outcome) := Poll(p.worker);
      var q := p.(worker := worker);
      var r := if outcome.Some? then PublishOutcome(q, outcome.value) else q;
      if alive then SubmitDue(c, r, now) else r
  }

  // ---------------------------------------------------------------- what every step keeps

  /** The target in flight, if it belongs to the current generation. */
  function FlightTarget(w: Worker): Option<int> {
    if w.requests != [] then Current(w, w.requests[0].generation, w.requests[0].frame.targetId)
    else if w.rendering.Some? then Current(w, w.rendering.value.generation, w.rendering.value.frame.targetId)
    else if w.outcomes != [] then Current(w, w.outcomes[0].generation, w.outcomes[0].targetId)
    else None
  }

  function Current(w: Worker, generation: nat, targetId: int): Option<int> {
    if generation == w.generation then Some(targetId) else None
  }

  function PendingTarget(w: Worker): Option<int> {
    if w.pending.Some? then Some(w.pending.value.frame.targetId) else None
  }

  function AsSet(target: Option<int>): set<int> {
    if target.Some? then {target.value} else {}
  }

  function LastPublished(p: Pipeline): int {
    if p.published == [] then -1 else p.published[|p.published| - 1].targetId
  }

  /** The remembered frames are exactly those in flight and pending in the current generation, in target order. */
  ghost predicate Remembered(p: Pipeline) {
    var flight, pending := FlightTarget(p.worker), PendingTarget(p.worker);
    && p.frames.Keys == AsSet(flight) + AsSet(pending)
    && (forall id | id in p.frames :: p.frames[id].targetId == id)
    && (flight.Some? ==> LastPublished(p) < flight.value <= p.lastSubmitted)
    && (pending.Some? ==> LastPublished(p) < pending.value <= p.lastSubmitted)
    && (flight.Some? && pending.Some? ==> flight.value < pending.value)
    && LastPublished(p) <= p.lastSubmitted
  }

  /** Whatever the worker holds for the current generation is the remembered frame of that target. */
  ghost predicate Matching(p: Pipeline) {
    var w := p.worker;
    && (w.pending.Some? ==> Remembers(p, w.pending.value.frame))
    && (w.requests != [] && w.requests[0].generation == w.generation ==> Remembers(p, w.requests[0].frame))
    && (w.rendering.Some? && w.rendering.value.generation == w.generation ==> Remembers(p, w.rendering.value.frame))
    && (w.outcomes != [] && w.outcomes[0].generation == w.generation ==>
          w.outcomes[0].targetId in p.frames
          && (w.outcomes[0].jpeg.Some? ==> w.outcomes[0].jpeg.value.frame == p.frames[w.outcomes[0].targetId]))
  }

  predicate Remembers(p: Pipeline, frame: Frame) {
    frame.targetId in p.frames && p.frames[frame.targetId] == frame
  }

  /** Published targets rise, and each image shows the frame that was submitted under its own target. */
  ghost predicate Paired(published: seq<Published>) {
    && (forall i, j | 0 <= i < j < |published| :: published[i].targetId < published[j].targetId)
    && (forall i | 0 <= i < |published| ::
          published[i].frame == Some(published[i].jpeg.frame)
              && published[i].jpeg.frame.targetId == published[i].targetId)
  }

  /** The invariant of an open pipeline. */
  ghost predicate Open(p: Pipeline) {
    && !p.closed && Sound(p.worker) && Remembered(p) && Matching(p) && Paired(p.published)
    && (p.scheduled.Some? ==> p.nextIndex <= |p.scheduled.value.targets|)
  }

  /** A closed pipeline publishes nothing more, so only its counts matter. */
  ghost predicate Invariant(p: Pipeline) {
    if p.closed then Sound(p.worker) && Paired(p.published) && |p.frames| <= 2 else Open(p)
  }

  lemma NewHolds()
    ensures Invariant(NEW_PIPELINE)
  {
  }

  /** At most two frames are remembered. */
  lemma AtMostTwoFrames(p: Pipeline)
    requires Open(p)
    ensures |p.frames| <= 2
  {
    var flight, pending := FlightTarget(p.worker), PendingTarget(p.worker);
    assert |AsSet(flight)| <= 1 && |AsSet(pending)| <= 1;
    assert |AsSet(flight) + AsSet(pending)| <= |AsSet(flight)| + |AsSet(pending)|;
    assert |p.frames| == |p.frames.Keys|;
  }

  /** With nothing in flight the frame is sent, and is the only one remembered. */
  lemma SubmitAtOnce(p: Pipeline, frame: Frame)
    requires Open(p) && !p.worker.inflight && frame.targetId > p.lastSubmitted
    ensures Open(SubmitFrame(p, frame))
  {
    NothingInFlightMeansRoom(p.worker);
    WorkerStaysSound(p.worker, frame, true);
    assert p.frames == map[];
    assert SubmitFrame(p, frame).frames == map[frame.targetId := frame];
  }

  /** Behind the one in flight the frame replaces what was pending. */
  lemma SubmitBehind(p: Pipeline, frame: Frame)
    requires Open(p) && p.worker.inflight && frame.targetId > p.lastSubmitted
    ensures Open(SubmitFrame(p, frame))
  {
    var q := SubmitFrame(p, frame);
    WorkerStaysSound(p.worker, frame, true);
    assert q.worker == p.worker.(pending := Some(Request(p.worker.generation, frame)), replaced := q.worker.replaced);
    assert FlightTarget(q.worker) == FlightTarget(p.worker);
    assert q.frames.Keys == AsSet(FlightTarget(p.worker)) + {frame.targetId};
    assert forall id | id in AsSet(FlightTarget(p.worker)) :: q.frames[id] == p.frames[id];
  }

  lemma SubmitKeeps(p: Pipeline, frame: Frame)
    requires Open(p)
    ensures Open(SubmitFrame(p, frame))
    ensures SubmitFrame(p, frame).scheduled == p.scheduled && SubmitFrame(p, frame).nextIndex == p.nextIndex
  {
    WorkerStaysSound(p.worker, frame, true);
    if frame.targetId > p.lastSubmitted {
      if p.worker.inflight {
        SubmitBehind(p, frame);
      } else {
        SubmitAtOnce(p, frame);
      }
    }
  }

  lemma SubmitDueKeeps(c: Config, p: Pipeline, now: real)
    requires Open(p)
    ensures Open(SubmitDue(c, p, now))
  {
    hide Sound, Remembered, Matching, Paired, SubmitFrame;
    if p.scheduled.Some? {
      var s := p.scheduled.value;
      var due := DueIndex(s, Max(0.0, now - s.startedAt), p.nextIndex);
      if due > p.nextIndex {
        SubmitKeeps(p, Materialize(c, s.segment, s.targets[due - 1]));
        OnlySchedule(SubmitFrame(p, Materialize(c, s.segment, s.targets[due - 1])), SubmitDue(c, p, now));
      } else {
        OnlySchedule(p, SubmitDue(c, p, now));
      }
    }
  }

  /** The schedule plays no part in the other invariants. */
  lemma OnlySchedule(p: Pipeline, q: Pipeline)
    requires Open(p)
    requires q == p.(scheduled := q.scheduled, nextIndex := q.nextIndex, started := q.started,
             lastSegment := q.lastSegment)
    requires q.scheduled.Some? ==> q.nextIndex <= |q.scheduled.value.targets|
    ensures Open(q)
  {
  }

  lemma SegmentEndKeeps(c: Config, p: Pipeline)
    requires Open(p)
    ensures Open(SubmitSegmentEnd(c, p))
  {
    hide Sound, Remembered, Matching, Paired, SubmitFrame;
    if p.scheduled.Some? && p.nextIndex < |p.scheduled.value.targets| {
      var s := p.scheduled.value;
      var frame := Materialize(c, s.segment, s.targets[|s.targets| - 1]);
      SubmitKeeps(p, frame);
      OnlySchedule(SubmitFrame(p, frame), SubmitSegmentEnd(c, p));
    }
  }

  lemma TakeSegmentKeeps(c: Config, p: Pipeline, segment: SceneSegment, now: real, startedAt: real)
    requires Open(p)
    ensures Open(TakeSegment(c, p, segment, now, startedAt))
  {
    hide Open, SubmitFrame, SubmitDue, SubmitSegmentEnd, Truncated;
    var initial := SubmitInitial(c, p, segment);
    if !p.started {
      SubmitKeeps(p, Materialize(c, segment, InitialTarget(c, segment)));
    }
    SubmitDueKeeps(c, initial, now);
    SegmentEndKeeps(c, SubmitDue(c, initial, now));
    var ended := SubmitSegmentEnd(c, SubmitDue(c, initial, now));
    var targets := c.schedule(segment);
    if |targets| == 1 && targets[0].hold {
      SubmitKeeps(ended, Materialize(c, segment, targets[0]));
      OnlySchedule(SubmitFrame(ended, Materialize(c, segment, targets[0])), TakeSegment(c, p, segment, now, startedAt));
    } else {
      OnlySchedule(ended, TakeSegment(c, p, segment, now, startedAt));
    }
  }

  /** Invalidation forgets every frame, whatever is still in flight. */
  lemma InvalidationKeeps(p: Pipeline, runId: Option<string>)
    requires Open(p)
    ensures Open(Disconnected(p)) && Open(ResetRun(p, runId))
  {
    WorkerStaysSound(p.worker, Frame(0, 0), true);
  }

  lemma StateChangedKeeps(c: Config, p: Pipeline, view: View, now: real, startedAt: real)
    requires Open(p)
    ensures Open(StateChanged(c, p, view, now, startedAt))
  {
    hide Open, TakeSegment, Disconnected, ResetRun;
    InvalidationKeeps(p, view.runId);
    var current := if view.runId != p.runId then ResetRun(p, view.runId) else p;
    InvalidationKeeps(current, view.runId);
    if view.segment.Some? {
      TakeSegmentKeeps(c, current, view.segment.value, now, startedAt);
    }
  }

  lemma PollKeeps(c: Config, p: Pipeline, now: real, alive: bool)
    requires Open(p)
    ensures Open(PollOnce(c, p, now, alive))
  {
    hide SubmitDue;
    if !p.closed {
      WorkerStaysSound(p.worker, Frame(0, 0), true);
      NothingInFlightMeansRoom(p.worker);
      var (worker, outcome) := Poll(p.worker);
      var q := p.(worker := worker);
      var r := if outcome.Some? then PublishOutcome(q, outcome.value) else q;
      PolledHolds(p);
      if alive {
        SubmitDueKeeps(c, r, now);
      }
    }
  }

  /** The image of the current generation goes out with the frame of its own target, after everything published. */
  lemma PublishedStaysPaired(p: Pipeline, worker: Worker, outcome: Outcome)
    requires Open(p) && p.worker.outcomes == [outcome] && outcome.generation == p.worker.generation
    ensures Paired(PublishOutcome(p.(worker := worker), outcome).published)
    ensures LastPublished(PublishOutcome(p.(worker := worker), outcome)) <= outcome.targetId
  {
    assert FlightTarget(p.worker) == Some(outcome.targetId);
    assert forall i | 0 <= i < |p.published| :: p.published[i].targetId <= LastPublished(p);
  }

  lemma PublishedIsForgotten(p: Pipeline, worker: Worker, outcome: Outcome)
    requires Open(p) && p.worker.outcomes == [outcome] && outcome.generation == p.worker.generation
    ensures var pending := PendingTarget(p.worker);
            var r := PublishOutcome(p.(worker := worker), outcome);
            && r.frames.Keys == AsSet(pending)
            && (forall id | id in r.frames :: id in p.frames && r.frames[id] == p.frames[id])
            && (pending.Some? ==> outcome.targetId < pending.value)
            && outcome.targetId <= p.lastSubmitted
  {
    hide Paired;
    assert FlightTarget(p.worker) == Some(outcome.targetId);
  }

  lemma NothingElseInFlight(p: Pipeline)
    requires Open(p) && |p.worker.outcomes| == 1
    ensures p.worker.requests == [] && p.worker.rendering.None? && p.worker.inflight
  {
    hide Remembered, Matching, Paired;
  }

  lemma OnlyPendingRemembered(p: Pipeline)
    requires Open(p) && FlightTarget(p.worker) == None
    ensures var pending := PendingTarget(p.worker);
            && p.frames.Keys == AsSet(pending) && LastPublished(p) <= p.lastSubmitted
            && (pending.Some? ==> LastPublished(p) < pending.value)
  {
    hide Matching, Paired, Sound;
  }

  /** What was pending has become the one in flight. */
  lemma SentOnceDrained(p: Pipeline, drained: Worker)
    requires Open(p) && |p.worker.outcomes| == 1 && drained == p.worker.(outcomes := [], inflight := false)
    ensures var worker := FlushPending(drained);
            && Sound(worker) && worker.generation == p.worker.generation
            && worker.pending.None? && worker.rendering.None? && worker.outcomes == []
            && worker.requests == (if p.worker.pending.Some? then [p.worker.pending.value] else [])
            && (p.worker.pending.Some? ==> p.worker.pending.value.generation == p.worker.generation)
  {
    hide Remembered, Matching, Paired;
  }

  /** With only the former pending frame remembered, and that one in flight, the invariant holds again. */
  lemma StaysRemembered(p: Pipeline, r: Pipeline)
    requires Open(p) && !r.closed && Sound(r.worker) && Paired(r.published)
    requires r.scheduled == p.scheduled && r.nextIndex == p.nextIndex && r.lastSubmitted == p.lastSubmitted
    requires r.worker.generation == p.worker.generation
    requires r.worker.pending.None? && r.worker.rendering.None? && r.worker.outcomes == []
    requires r.worker.requests == if p.worker.pending.Some? then [p.worker.pending.value] else []
    requires p.worker.pending.Some? ==> p.worker.pending.value.generation == p.worker.generation
    requires var pending := PendingTarget(p.worker);
             && r.frames.Keys == AsSet(pending) && LastPublished(r) <= r.lastSubmitted
             && (pending.Some? ==> LastPublished(r) < pending.value)
    requires forall id | id in r.frames :: id in p.frames && r.frames[id] == p.frames[id]
    ensures Open(r)
  {
    hide Paired, Sound;
    assert FlightTarget(r.worker) == PendingTarget(p.worker);
  }

  /** Once the outcome is drained, what was pending is in flight. */
  lemma DrainedHolds(p: Pipeline, drained: Worker)
    requires Open(p) && |p.worker.outcomes| == 1 && drained == p.worker.(outcomes := [], inflight := false)
    ensures var outcome := p.worker.outcomes[0];
            var q := p.(worker := FlushPending(drained));
            Open(if outcome.generation == p.worker.generation then PublishOutcome(q, outcome) else q)
  {
    hide Paired, Sound, Matching, Remembered;
    SentOnceDrained(p, drained);
    var outcome, worker := p.worker.outcomes[0], FlushPending(drained);
    if outcome.generation == p.worker.generation {
      PublishedStaysPaired(p, worker, outcome);
      PublishedIsForgotten(p, worker, outcome);
      StaysRemembered(p, PublishOutcome(p.(worker := worker), outcome));
    } else {
      assert FlightTarget(p.worker) == None by {
        NothingElseInFlight(p);
      }
      OnlyPendingRemembered(p);
      StaysRemembered(p, p.(worker := worker));
    }
  }

  lemma PolledHolds(p: Pipeline)
    requires Open(p)
    ensures var (worker, outcome) := Poll(p.worker);
            var q := p.(worker := worker);
            Open(if outcome.Some? then PublishOutcome(q, outcome.value) else q)
  {
    WorkerStaysSound(p.worker, Frame(0, 0), true);
    NothingInFlightMeansRoom(p.worker);
    var w := p.worker;
    var (worker, outcome) := Poll(w);
    if w.outcomes == [] {
      assert worker == FlushPending(w) == w;
    } else {
      var drained := w.(outcomes := [], inflight := false);
      assert w.requests == [] && w.rendering.None?;
      assert |w.outcomes| == 1;
      DrainedHolds(p, drained);
    }
  }

  /** The child's progress changes neither what is remembered nor what it stands for. */
  lemma ChildKeeps(p: Pipeline, rendered: bool)
    requires Open(p)
    ensures p.worker.requests != [] && p.worker.rendering.None? ==> Open(p.(worker := ChildTakes(p.worker)))
    ensures p.worker.rendering.Some? && p.worker.outcomes == [] ==>
              Open(p.(worker := ChildFinishes(p.worker, rendered)))
  {
    WorkerStaysSound(p.worker, Frame(0, 0), rendered);
  }

  // ---------------------------------------------------------------- every interleaving

  datatype Step =
    | Change(view: View, now: real, startedAt: real)
    | PollStep(now: real, alive: bool)
    | Takes
    | Finishes(rendered: bool)
    | CloseStep

  predicate Enabled(p: Pipeline, step: Step) {
    match step
    case Takes => p.worker.requests != [] && p.worker.rendering.None?
    case Finishes(_) => p.worker.rendering.Some? && p.worker.outcomes == []
    case _ => true
  }

  function Next(c: Config, p: Pipeline, step: Step): Pipeline
    requires Enabled(p, step)
  {
    match step
    case Change(view, now, startedAt) => StateChanged(c, p, view, now, startedAt)
    case PollStep(now, alive) => PollOnce(c, p, now, alive)
    case Takes => p.(worker := ChildTakes(p.worker))
    case Finishes(rendered) => p.(worker := ChildFinishes(p.worker, rendered))
    case CloseStep => p.(closed := true, scheduled := None, worker := p.worker.(pending := None))
  }

  ghost predicate CanRun(c: Config, p: Pipeline, steps: seq<Step>)
    decreases |steps|
  {
    steps == [] || (Enabled(p, steps[0]) && CanRun(c, Next(c, p, steps[0]), steps[1..]))
  }

  ghost function Run(c: Config, p: Pipeline, steps: seq<Step>): Pipeline
    requires CanRun(c, p, steps)
    decreases |steps|
  {
    if steps == [] then p else Run(c, Next(c, p, steps[0]), steps[1..])
  }

  lemma NextKeeps(c: Config, p: Pipeline, step: Step)
    requires Invariant(p) && Enabled(p, step)
    ensures Invariant(Next(c, p, step))
  {
    hide StateChanged, PollOnce, Remembered, Matching, Sound, Paired;
    if p.closed {
      ClosedKeeps(c, p, step);
      return;
    }
    match step
    case Change(view, now, startedAt) => StateChangedKeeps(c, p, view, now, startedAt);
    case PollStep(now, alive) => PollKeeps(c, p, now, alive);
    case Takes => ChildKeeps(p, true);
    case Finishes(rendered) => ChildKeeps(p, rendered);
    case CloseStep => ClosingKeeps(c, p);
  }

  lemma ClosingKeeps(c: Config, p: Pipeline)
    requires Open(p)
    ensures Invariant(Next(c, p, CloseStep))
  {
    AtMostTwoFrames(p);
  }

  lemma ClosedKeeps(c: Config, p: Pipeline, step: Step)
    requires Invariant(p) && p.closed && Enabled(p, step)
    ensures Invariant(Next(c, p, step))
  {
    if step.Finishes? {
      WorkerStaysSound(p.worker, Frame(0, 0), step.rendered);
    } else {
      WorkerStaysSound(p.worker, Frame(0, 0), true);
    }
  }

  lemma {:induction false} RunKeeps(c: Config, p: Pipeline, steps: seq<Step>)
    requires Invariant(p) && CanRun(c, p, steps)
    ensures Invariant(Run(c, p, steps))
    decreases |steps|
  {
    hide Invariant, Next, Enabled;
    if steps != [] {
      NextKeeps(c, p, steps[0]);
      RunKeeps(c, Next(c, p, steps[0]), steps[1..]);
    }
  }

  /** Over every interleaving at most one render is in flight and a request waits only behind it, at most two frames are
      remembered, published targets rise within a run, and every image is paired with the frame of its own target. */
  lemma EveryInterleaving(c: Config, steps: seq<Step>)
    requires CanRun(c, NEW_PIPELINE, steps)
    ensures var p := Run(c, NEW_PIPELINE, steps);
            && |p.worker.requests| + AsCount(p.worker.rendering) + |p.worker.outcomes| <= 1
            && (p.worker.pending.Some? ==> p.worker.inflight)
            && |p.frames| <= 2
            && Paired(p.published)
  {
    hide Remembered, Matching, Next, Paired;
    NewHolds();
    RunKeeps(c, NEW_PIPELINE, steps);
    var p := Run(c, NEW_PIPELINE, steps);
    if !p.closed {
      AtMostTwoFrames(p);
    }
  }

  /** Of the targets from the next one on that are due, up to a last one, only that last one is submitted, if it is new:
      its frame is drawn, remembered and handed to the worker; and the index moves past it. */
  lemma LatestDueIsSubmitted(c: Config, p: Pipeline, now: real, last: nat)
    requires p.scheduled.Some?
    requires var s := p.scheduled.value;
             && p.nextIndex <= last < |s.targets|
             && (forall k | p.nextIndex <= k <= last ::
                   s.targets[k].elapsed - s.segment.leftElapsed <= Max(0.0, now - s.startedAt) + 0.000000000001)
             && (last + 1 == |s.targets|
                 || s.targets[last + 1].elapsed - s.segment.leftElapsed
                    > Max(0.0, now - s.startedAt) + 0.000000000001)
    ensures var q, s := SubmitDue(c, p, now), p.scheduled.value;
            var target := s.targets[last];
            && q.nextIndex == last + 1
            && q.scheduled == (if last + 1 == |s.targets| then None else p.scheduled)
            && (if target.id > p.lastSubmitted then IsSubmitted(p, q, Frame(target.id, c.draw(s.segment, target)))
                else q.worker == p.worker && q.frames == p.frames && q.lastSubmitted == p.lastSubmitted)
            && SameRun(p, q)
  {
    hide IsDue, DueIndex;
    var s := p.scheduled.value;
    var wallElapsed := Max(0.0, now - s.startedAt);
    AllDue(s, wallElapsed, p.nextIndex, last);
    DueUpTo(s, wallElapsed, p.nextIndex, last + 1);
    if s.targets[last].id > p.lastSubmitted {
      SubmitFrameMeans(p, Frame(s.targets[last].id, c.draw(s.segment, s.targets[last])));
    }
  }

  lemma AllDue(s: Scheduled, wallElapsed: real, index: nat, last: nat)
    requires last < |s.targets|
    requires forall k | index <= k <= last ::
               s.targets[k].elapsed - s.segment.leftElapsed <= wallElapsed + 0.000000000001
    requires last + 1 == |s.targets|
             || s.targets[last + 1].elapsed - s.segment.leftElapsed > wallElapsed + 0.000000000001
    ensures forall k | index <= k <= last :: IsDue(s, wallElapsed, k)
    ensures last + 1 < |s.targets| ==> !IsDue(s, wallElapsed, last + 1)
  {
  }

  lemma {:induction false} DueUpTo(s: Scheduled, wallElapsed: real, index: nat, due: nat)
    requires index <= due <= |s.targets| && forall k | index <= k < due :: IsDue(s, wallElapsed, k)
    requires due < |s.targets| ==> !IsDue(s, wallElapsed, due)
    ensures DueIndex(s, wallElapsed, index) == due
    decreases due - index
  {
    hide IsDue;
    if index < due {
      DueUpTo(s, wallElapsed, index + 1, due);
    }
  }

  lemma SubmitFrameMeans(p: Pipeline, frame: Frame)
    requires frame.targetId > p.lastSubmitted
    ensures var q := SubmitFrame(p, frame);
            IsSubmitted(p, q, frame) && SameRun(p, q) && q.scheduled == p.scheduled && q.nextIndex == p.nextIndex
  {
  }

  /** A frame was handed to the worker, sent at once or pending, and is remembered; a frame that it replaced there is
      forgotten, and no other is touched. */
  ghost predicate IsSubmitted(p: Pipeline, q: Pipeline, frame: Frame) {
    && q.lastSubmitted == frame.targetId
    && q.frames == (if p.worker.pending.Some? then p.frames - {p.worker.pending.value.frame.targetId} else p.frames)
                   [frame.targetId := frame]
    && q.worker.generation == p.worker.generation && q.worker.rendering == p.worker.rendering
    && q.worker.outcomes == p.worker.outcomes
    && q.worker.replaced == p.worker.replaced + (if p.worker.pending.Some? then 1 else 0)
    && if p.worker.inflight || p.worker.requests != [] then
         && q.worker.pending == Some(Request(p.worker.generation, frame))
         && q.worker.requests == p.worker.requests && q.worker.inflight == p.worker.inflight
       else
         && q.worker.pending == None && q.worker.inflight
         && q.worker.requests == [Request(p.worker.generation, frame)]
  }

  /** Neither the run nor what was published has changed. */
  ghost predicate SameRun(p: Pipeline, q: Pipeline) {
    && q.closed == p.closed && q.runId == p.runId && q.started == p.started && q.lastSegment == p.lastSegment
    && q.store == p.store && q.published == p.published
  }

  /** While the next target is not due nothing is submitted. */
  lemma NothingDueNothingSubmitted(c: Config, p: Pipeline, now: real)
    requires p.scheduled.Some? && p.nextIndex < |p.scheduled.value.targets|
    requires var s := p.scheduled.value;
             s.targets[p.nextIndex].elapsed - s.segment.leftElapsed > Max(0.0, now - s.startedAt) + 0.000000000001
    ensures SubmitDue(c, p, now) == p
  {
    DueUpTo(p.scheduled.value, Max(0.0, now - p.scheduled.value.startedAt), p.nextIndex, p.nextIndex);
  }

  lemma SubmittingPublishesNothing(c: Config, p: Pipeline, now: real)
    ensures SubmitDue(c, p, now).published == p.published
  {
  }

  /** A poll publishes only what was submitted since the last invalidation. */
  lemma NothingStaleIsPublished(c: Config, p: Pipeline, now: real, alive: bool)
    requires Invariant(p)
    ensures var q := PollOnce(c, p, now, alive);
            q.published != p.published ==>
              && |p.worker.outcomes| == 1 && p.worker.outcomes[0].generation == p.worker.generation
              && q.published == p.published + [q.published[|p.published|]]
              && q.published[|p.published|].targetId == p.worker.outcomes[0].targetId
              && Some(q.published[|p.published|].jpeg) == p.worker.outcomes[0].jpeg
  {
    hide Remembered, Matching, Paired, SubmitDue;
    if !p.closed {
      WorkerStaysSound(p.worker, Frame(0, 0), true);
      var (worker, outcome) := Poll(p.worker);
      var q := p.(worker := worker);
      var r := if outcome.Some? then PublishOutcome(q, outcome.value) else q;
      SubmittingPublishesNothing(c, r, now);
    }
  }

  // ---------------------------------------------------------------- what a change of state and a poll do

  function SubmitMany(p: Pipeline, frames: seq<Frame>): Pipeline
    decreases |frames|
  {
    if frames == [] then p else SubmitMany(SubmitFrame(p, frames[0]), frames[1..])
  }

  lemma {:induction false} SubmitMore(p: Pipeline, a: seq<Frame>, b: seq<Frame>)
    ensures SubmitMany(p, a + b) == SubmitMany(SubmitMany(p, a), b)
    decreases |a|
  {
    hide SubmitFrame;
    if a == [] {
      assert a + b == b;
    } else {
      assert (a + b)[1..] == a[1..] + b;
      SubmitMore(SubmitFrame(p, a[0]), a[1..], b);
    }
  }

  lemma {:induction false} SubmitManyKeepsSchedule(p: Pipeline, frames: seq<Frame>)
    ensures var q := SubmitMany(p, frames);
            q.scheduled == p.scheduled && q.nextIndex == p.nextIndex && SameRun(p, q)
    decreases |frames|
  {
    if frames != [] {
      SubmitManyKeepsSchedule(SubmitFrame(p, frames[0]), frames[1..]);
    }
  }

  /** The schedule decides nothing about how a frame is submitted. */
  lemma {:induction false} SubmitWithAnySchedule(p: Pipeline, scheduled: Option<Scheduled>, nextIndex: nat,
                                                 frames: seq<Frame>)
    ensures SubmitMany(p.(scheduled := scheduled, nextIndex := nextIndex), frames)
         == SubmitMany(p, frames).(scheduled := scheduled, nextIndex := nextIndex)
    decreases |frames|
  {
    if frames != [] {
      SubmitWithAnySchedule(SubmitFrame(p, frames[0]), scheduled, nextIndex, frames[1..]);
    }
  }

  /** So many targets of a schedule are due, from an index on, and the next one is not. */
  ghost predicate DueBefore(s: Scheduled, now: real, index: nat, due: nat) {
    && index <= due <= |s.targets|
    && (forall k | index <= k < due ::
          s.targets[k].elapsed - s.segment.leftElapsed <= Max(0.0, now - s.startedAt) + 0.000000000001)
    && (due < |s.targets| ==>
          s.targets[due].elapsed - s.segment.leftElapsed > Max(0.0, now - s.startedAt) + 0.000000000001)
  }

  function FrameOf(c: Config, segment: SceneSegment, target: Target): (frame: Frame) {
    Frame(target.id, c.draw(segment, target))
  }

  /** The frames of an old schedule when a new segment comes: the latest target that is due, and its last target, unless
      the schedule is over. */
  ghost predicate AreLeftovers(c: Config, p: Pipeline, now: real, frames: seq<Frame>) {
    if p.scheduled == None then frames == []
    else
      var s := p.scheduled.value;
      exists due: nat ::
        && DueBefore(s, now, p.nextIndex, due)
        && frames == (if due > p.nextIndex then [FrameOf(c, s.segment, s.targets[due - 1])] else [])
                     + (if due < |s.targets| then [FrameOf(c, s.segment, s.targets[|s.targets| - 1])] else [])
  }

  /** The left end of the first segment of a run, numbered by its time at the frame rate, towards zero. */
  ghost predicate IsInitial(c: Config, segment: SceneSegment, frame: Frame) {
    var x := Times(segment.leftElapsed, c.fps) + 0.000000001;
    && (x >= 0.0 ==> frame.targetId as real <= x < frame.targetId as real + 1.0)
    && (x < 0.0 ==> frame.targetId as real - 1.0 < x <= frame.targetId as real)
    && frame.content == c.draw(segment, Target(segment.leftElapsed, false, frame.targetId))
  }

  lemma InitialIs(c: Config, segment: SceneSegment)
    ensures IsInitial(c, segment, Materialize(c, segment, InitialTarget(c, segment)))
  {
    hide Times;
  }

  lemma DueSubmitted(c: Config, p: Pipeline, now: real) returns (due: nat, frames: seq<Frame>)
    requires p.scheduled.Some? && p.nextIndex <= |p.scheduled.value.targets|
    ensures var s := p.scheduled.value;
            && DueBefore(s, now, p.nextIndex, due)
            && frames == (if due > p.nextIndex then [FrameOf(c, s.segment, s.targets[due - 1])] else [])
            && SubmitDue(c, p, now)
               == SubmitMany(p, frames).(nextIndex := due,
                                         scheduled := if due == |s.targets| then None else p.scheduled)
  {
    hide SubmitFrame, DueIndex, DueBefore;
    var s := p.scheduled.value;
    due := DueIndex(s, Max(0.0, now - s.startedAt), p.nextIndex);
    DueIsBefore(s, now, p.nextIndex);
    frames := if due > p.nextIndex then [FrameOf(c, s.segment, s.targets[due - 1])] else [];
    OneOrNone(p, frames);
    SubmitManyKeepsSchedule(p, frames);
  }

  lemma EndSubmitted(c: Config, q: Pipeline, s: Scheduled, due: nat) returns (frames: seq<Frame>)
    requires q.nextIndex == due <= |s.targets| && q.scheduled == if due == |s.targets| then None else Some(s)
    ensures frames == if due < |s.targets| then [FrameOf(c, s.segment, s.targets[|s.targets| - 1])] else []
    ensures SubmitSegmentEnd(c, q) == SubmitMany(q, frames).(nextIndex := |s.targets|, scheduled := None)
  {
    hide SubmitFrame;
    frames := if due < |s.targets| then [FrameOf(c, s.segment, s.targets[|s.targets| - 1])] else [];
    OneOrNone(q, frames);
    SubmitManyKeepsSchedule(q, frames);
  }

  lemma LeftoversSubmitted(c: Config, p: Pipeline, now: real) returns (frames: seq<Frame>)
    requires p.scheduled.Some? ==> p.nextIndex <= |p.scheduled.value.targets|
    ensures AreLeftovers(c, p, now, frames)
    ensures var q := SubmitSegmentEnd(c, SubmitDue(c, p, now));
            q == SubmitMany(p, frames).(scheduled := None, nextIndex := q.nextIndex)
  {
    hide SubmitFrame, DueIndex, DueBefore;
    frames := [];
    if p.scheduled.Some? {
      var s := p.scheduled.value;
      var due, first := DueSubmitted(c, p, now);
      var q := SubmitDue(c, p, now);
      var last := EndSubmitted(c, q, s, due);
      frames := first + last;
      SubmitMore(p, first, last);
      SubmitWithAnySchedule(SubmitMany(p, first), q.scheduled, q.nextIndex, last);
    }
  }

  lemma DueIsBefore(s: Scheduled, now: real, index: nat)
    requires index <= |s.targets|
    ensures DueBefore(s, now, index, DueIndex(s, Max(0.0, now - s.startedAt), index))
  {
    hide DueIndex;
    var wallElapsed := Max(0.0, now - s.startedAt);
    var due := DueIndex(s, wallElapsed, index);
    forall k | index <= k < due ensures s.targets[k].elapsed - s.segment.leftElapsed <= wallElapsed + 0.000000000001 {
      assert IsDue(s, wallElapsed, k);
    }
    assert due < |s.targets| ==> !IsDue(s, wallElapsed, due);
  }

  lemma OneOrNone(p: Pipeline, frames: seq<Frame>)
    requires |frames| <= 1
    ensures SubmitMany(p, frames) == if frames == [] then p else SubmitFrame(p, frames[0])
  {
    hide SubmitFrame;
    if frames != [] {
      assert frames[1..] == [];
    }
  }

  /** A new segment submits, in this order: the left end of the very first one, what is left of the old schedule, and the
      only target of a segment that holds. Otherwise its targets are scheduled from now on. */
  lemma SegmentIsTaken(c: Config, p: Pipeline, segment: SceneSegment, now: real, startedAt: real)
    returns (initial: seq<Frame>, leftovers: seq<Frame>, held: seq<Frame>)
    requires p.scheduled.Some? ==> p.nextIndex <= |p.scheduled.value.targets|
    ensures if p.started then initial == [] else |initial| == 1 && IsInitial(c, segment, initial[0])
    ensures AreLeftovers(c, p, now, leftovers)
    ensures var targets := c.schedule(segment);
            var holds := |targets| == 1 && targets[0].hold;
            && held == (if holds then [FrameOf(c, segment, targets[0])] else [])
            && TakeSegment(c, p, segment, now, startedAt)
               == SubmitMany(p, initial + leftovers + held).(
                    scheduled := if holds then None else Some(Scheduled(segment, targets, startedAt)),
                    nextIndex := 0, started := true, lastSegment := Some(segment.sequence))
  {
    hide SubmitFrame, SubmitDue, SubmitSegmentEnd, IsInitial, AreLeftovers, InitialTarget;
    var targets := c.schedule(segment);
    initial := if p.started then [] else [Materialize(c, segment, InitialTarget(c, segment))];
    InitialIs(c, segment);
    OneOrNone(p, initial);
    SubmitManyKeepsSchedule(p, initial);
    var begun := SubmitMany(p, initial);
    leftovers := LeftoversSubmitted(c, begun, now);
    SameLeftovers(c, begun, p, now, leftovers);
    var ended := SubmitSegmentEnd(c, SubmitDue(c, begun, now));
    held := if |targets| == 1 && targets[0].hold then [FrameOf(c, segment, targets[0])] else [];
    OneOrNone(ended, held);
    SubmitMore(p, initial, leftovers);
    SubmitMore(p, initial + leftovers, held);
    SubmitWithAnySchedule(SubmitMany(p, initial + leftovers), ended.scheduled, ended.nextIndex, held);
  }

  lemma SameLeftovers(c: Config, p: Pipeline, q: Pipeline, now: real, frames: seq<Frame>)
    requires AreLeftovers(c, p, now, frames) && p.scheduled == q.scheduled && p.nextIndex == q.nextIndex
    ensures AreLeftovers(c, q, now, frames)
  {
    hide DueBefore;
  }

  /** A closed pipeline ignores every change. A new run forgets the old one, and a lost connection whatever was about to
      be shown; a segment is taken only on a connection, and only once. */
  lemma ChangeMeans(c: Config, p: Pipeline, view: View, now: real, startedAt: real)
    ensures var q := StateChanged(c, p, view, now, startedAt);
            var r := if view.runId == p.runId then p
                     else Pipeline(Invalidate(p.worker), p.closed, view.runId, false, None, -1, None, 0, map[], None, []);
            if p.closed then q == p
            else if !view.connected then
              q == r.(worker := Invalidate(r.worker), store := None, frames := map[], scheduled := None, nextIndex := 0)
            else if view.runId == None || view.segment == None
                    || r.lastSegment == Some(view.segment.value.sequence) then q == r
            else q == TakeSegment(c, r, view.segment.value, now, startedAt)
  {
    hide TakeSegment, Invalidate;
  }

  /** A poll publishes an image together with the frame remembered for its target, and clears what is shown when there is
      none; that frame is forgotten. While the child lives, targets that have come due in the meantime are submitted. */
  lemma PollPublishes(c: Config, p: Pipeline, now: real, alive: bool)
    requires !p.closed
    ensures var (worker, outcome) := Poll(p.worker);
            var q := p.(worker := worker);
            var r := if outcome == None then q
                     else
                       var o := outcome.value;
                       var frame := if o.targetId in p.frames then Some(p.frames[o.targetId]) else None;
                       q.(frames := p.frames - {o.targetId}, store := o.jpeg,
                          published := if o.jpeg == None then p.published
                                       else p.published + [Published(o.targetId, frame, o.jpeg.value)]);
            PollOnce(c, p, now, alive) == if alive then SubmitDue(c, r, now) else r
  {
    hide SubmitDue, Poll;
  }
}

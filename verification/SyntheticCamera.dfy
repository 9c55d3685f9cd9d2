/** The camera pipeline as it runs, with its worker
    (services/visualizer/src/scrap_monitoring_visualizer/synthetic_camera/pipeline.py, SyntheticCameraPipeline). */
module SyntheticCamera {
  import opened Wrappers
  import opened Sums
  import W = CameraWorker
  import opened CameraPipeline

  class SyntheticCameraPipeline {
    const config: Config
    const worker: W.LatestSyntheticRenderWorker
    var closed: bool
    var runId: Option<string>
    var started: bool
    var lastSegment: Option<nat>
    var lastSubmitted: int
    var scheduled: Option<Scheduled>
    var nextIndex: nat
    var frames: map<int, W.Frame>
    var store: Option<W.Jpeg>
    ghost var published: seq<Published>

    ghost function Current(): Pipeline
      reads this, worker
    {
      Pipeline(worker.Current(), closed, runId, started, lastSegment, lastSubmitted, scheduled, nextIndex, frames,
               store, published)
    }

    ghost predicate Valid()
      reads this, worker
    {
      Open(Current())
    }

    constructor (config: Config)
      ensures fresh(worker) && this.config == config && Current() == NEW_PIPELINE && Valid()
    {
      this.config := config;
      worker := new W.LatestSyntheticRenderWorker();
      closed, runId, started, lastSegment, lastSubmitted := false, None, false, None, -1;
      scheduled, nextIndex, frames, store, published := None, 0, map[], None, [];
    }

    method Reset(runId: Option<string>)
      requires Valid()
      modifies this, worker
      ensures Valid() && Current() == ResetRun(old(Current()), runId)
    {
      hide Remembered, Matching, Paired, W.Sound;
      InvalidationKeeps(Current(), runId);
      OpenIsSound(Current());
      worker.InvalidateAll();
      store := None;
      this.runId := runId;
      started, lastSegment, lastSubmitted := false, None, -1;
      scheduled, nextIndex := None, 0;
      frames := map[];
      published := [];
    }

    method Submit(frame: W.Frame)
      requires Valid()
      modifies this, worker
      ensures Valid() && Current() == SubmitFrame(old(Current()), frame)
    {
      hide Open;
      SubmitKeeps(Current(), frame);
      OpenIsSound(Current());
      if frame.targetId <= lastSubmitted {
        return;
      }
      var replaced := worker.SubmitFrame(frame);
      if replaced.Some? {
        frames := frames - {replaced.value};
      }
      frames := frames[frame.targetId := frame];
      lastSubmitted := frame.targetId;
    }

    method SubmitWhatIsDue(now: real)
      requires Valid()
      modifies this, worker
      ensures Valid() && Current() == SubmitDue(config, old(Current()), now)
    {
      hide Remembered, Matching, Paired, W.Sound, SubmitFrame;
      SubmitDueKeeps(config, Current(), now);
      if scheduled.None? {
        return;
      }
      var s := scheduled.value;
      var wallElapsed := Max(0.0, now - s.startedAt);
      var due := nextIndex;
      while due < |s.targets|
        invariant nextIndex <= due <= |s.targets|
        invariant DueIndex(s, wallElapsed, due) == DueIndex(s, wallElapsed, nextIndex)
      {
        if s.targets[due].elapsed - s.segment.leftElapsed > wallElapsed + 0.000000000001 {
          break;
        }
        due := due + 1;
      }
      assert due == DueIndex(s, wallElapsed, nextIndex);
      if due > nextIndex {
        SubmitKeeps(Current(), Materialize(config, s.segment, s.targets[due - 1]));
        Submit(Materialize(config, s.segment, s.targets[due - 1]));
        nextIndex := due;
      }
      if nextIndex >= |s.targets| {
        scheduled := None;
      }
    }

    method SubmitEndOfSegment()
      requires Valid()
      modifies this, worker
      ensures Valid() && Current() == SubmitSegmentEnd(config, old(Current()))
    {
      hide Remembered, Matching, Paired, W.Sound, SubmitFrame;
      SegmentEndKeeps(config, Current());
      if scheduled.None? || nextIndex >= |scheduled.value.targets| {
        return;
      }
      var s := scheduled.value;
      Submit(Materialize(config, s.segment, s.targets[|s.targets| - 1]));
      nextIndex, scheduled := |s.targets|, None;
    }

    method Take(segment: SceneSegment, now: real, startedAt: real)
      requires Valid()
      modifies this, worker
      ensures Valid() && Current() == TakeSegment(config, old(Current()), segment, now, startedAt)
    {
      hide Open, SubmitFrame, SubmitDue, SubmitSegmentEnd, InitialTarget;
      TakeSegmentKeeps(config, Current(), segment, now, startedAt);
      if !started {
        Submit(Materialize(config, segment, InitialTarget(config, segment)));
      }
      SubmitWhatIsDue(now);
      SubmitEndOfSegment();
      var targets := config.schedule(segment);
      if |targets| == 1 && targets[0].hold {
        Submit(Materialize(config, segment, targets[0]));
        scheduled, nextIndex := None, 0;
      } else {
        scheduled, nextIndex := Some(Scheduled(segment, targets, startedAt)), 0;
      }
      started, lastSegment := true, Some(segment.sequence);
    }

    /** A new scene state: another run, a lost connection, or a new segment. */
    method OnStateChanged(view: View, now: real, startedAt: real)
      requires Valid()
      modifies this, worker
      ensures Valid() && Current() == StateChanged(config, old(Current()), view, now, startedAt)
    {
      hide Open, TakeSegment, ResetRun, W.Invalidate;
      OpenIsSound(Current());
      if view.runId != runId {
        Reset(view.runId);
      }
      OpenIsSound(Current());
      if !view.connected {
        InvalidationKeeps(Current(), runId);
        worker.InvalidateAll();
        store, frames, scheduled, nextIndex := None, map[], None, 0;
        return;
      }
      if view.runId.None? || view.segment.None? {
        return;
      }
      if Some(view.segment.value.sequence) == lastSegment {
        return;
      }
      Take(view.segment.value, now, startedAt);
    }

    /** Publishes what the worker reports, then submits what is due. */
    method PollWorker(now: real, alive: bool)
      requires Valid()
      modifies this, worker
      ensures Valid() && Current() == PollOnce(config, old(Current()), now, alive)
    {
      hide Remembered, Matching, Paired, W.Sound, SubmitDue, W.Poll;
      PolledHolds(Current());
      OpenIsSound(Current());
      var outcome := worker.PollOutcome();
      if outcome.Some? {
        var targetId := outcome.value.targetId;
        var frame := if targetId in frames then Some(frames[targetId]) else None;
        frames := frames - {targetId};
        store := outcome.value.jpeg;
        if outcome.value.jpeg.Some? {
          published := published + [Published(targetId, frame, outcome.value.jpeg.value)];
        }
      }
      if alive {
        SubmitWhatIsDue(now);
      }
    }
  }

  lemma OpenIsSound(p: Pipeline)
    requires Open(p)
    ensures W.Sound(p.worker) && !p.closed
  {
  }
}

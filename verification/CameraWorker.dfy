/** The latest-only render worker and its child process
    (services/visualizer/src/scrap_monitoring_visualizer/synthetic_camera/worker.py). */
module CameraWorker {
  import opened Wrappers

  /** A frame to render; content stands for everything that is drawn. */
  datatype Frame = Frame(targetId: int, content: nat)

  /** A rendered image, known by the frame it shows. */
  datatype Jpeg = Jpeg(frame: Frame)

  datatype Request = Request(generation: nat, frame: Frame)

  /** The result of one render; no image means that it failed. */
  datatype Outcome = Outcome(generation: nat, targetId: int, jpeg: Option<Jpeg>)

  /** The worker's own fields, the two one-slot queues, and what the child is rendering. */
  datatype Worker = Worker(generation: nat, inflight: bool, pending: Option<Request>, requests: seq<Request>,
                           rendering: Option<Request>, outcomes: seq<Outcome>, replaced: nat)

  const NEW_WORKER := Worker(0, false, None, [], None, [], 0)

  function FlushPending(w: Worker): Worker {
    if w.pending.None? || w.inflight || |w.requests| >= 1 then w
    else w.(requests := w.requests + [w.pending.value], inflight := true, pending := None)
  }

  lemma FlushKeepsGeneration(w: Worker)
    ensures FlushPending(w).generation == w.generation
  {
  }

  /** The worker afterwards, and the target of the request that the new one replaces. */
  function Submit(w: Worker, frame: Frame): (Worker, Option<int>) {
    var replacedTarget := if w.pending.Some? then Some(w.pending.value.frame.targetId) else None;
    (FlushPending(w.(pending := Some(Request(w.generation, frame)),
                     replaced := w.replaced + if w.pending.Some? then 1 else 0)),
     replacedTarget)
  }

  function Invalidate(w: Worker): Worker {
    w.(generation := w.generation + 1, pending := None)
  }

  /** Drains the outcomes, sends what is pending, and reports the last outcome unless it was invalidated. */
  function Poll(w: Worker): (Worker, Option<Outcome>) {
    var drained := if w.outcomes == [] then w else w.(outcomes := [], inflight := false);
    var reported := if w.outcomes == [] || w.outcomes[|w.outcomes| - 1].generation != w.generation then None
                    else Some(w.outcomes[|w.outcomes| - 1]);
    (FlushPending(drained), reported)
  }

  /** The child takes a request. */
  function ChildTakes(w: Worker): Worker
    requires w.requests != [] && w.rendering.None?
  {
    w.(requests := w.requests[1..], rendering := Some(w.requests[0]))
  }

  /** The child hands over an outcome; it waits while the outcome queue is full. */
  function ChildFinishes(w: Worker, rendered: bool): Worker
    requires w.rendering.Some? && w.outcomes == []
  {
    var request := w.rendering.value;
    w.(rendering := None,
       outcomes := [Outcome(request.generation, request.frame.targetId, if rendered then Some(Jpeg(request.frame))
           else None)])
  }

  // ---------------------------------------------------------------- at most one render in flight

  function AsCount(request: Option<Request>): nat {
    if request.Some? then 1 else 0
  }

  /** The flag says exactly whether one request is queued, being rendered or answered; a request waits only behind that
      one, and belongs to the current generation. */
  ghost predicate Sound(w: Worker) {
    && |w.requests| + AsCount(w.rendering) + |w.outcomes| == (if w.inflight then 1 else 0)
    && (w.pending.Some? ==> w.inflight && w.pending.value.generation == w.generation)
    && (forall i | 0 <= i < |w.requests| :: w.requests[i].generation <= w.generation)
    && (w.rendering.Some? ==> w.rendering.value.generation <= w.generation)
    && (forall i | 0 <= i < |w.outcomes| :: w.outcomes[i].generation <= w.generation)
  }

  /** A request that finds nothing in flight is sent at once: the queue is never full. */
  lemma NothingInFlightMeansRoom(w: Worker)
    requires |w.requests| + AsCount(w.rendering) + |w.outcomes| == (if w.inflight then 1 else 0)
    ensures !w.inflight ==> w.requests == [] && w.outcomes == [] && w.rendering.None?
    ensures w.pending.Some? ==> FlushPending(w).inflight
  {
  }

  lemma WorkerStaysSound(w: Worker, frame: Frame, rendered: bool)
    requires Sound(w)
    ensures Sound(Submit(w, frame).0) && Sound(Invalidate(w)) && Sound(Poll(w).0)
    ensures w.requests != [] && w.rendering.None? ==> Sound(ChildTakes(w))
    ensures w.rendering.Some? && w.outcomes == [] ==> Sound(ChildFinishes(w, rendered))
    ensures Poll(w).1.Some? ==> Poll(w).1.value.generation == w.generation && w.outcomes == [Poll(w).1.value]
  {
  }

  // ---------------------------------------------------------------- what each step does

  /** A request is sent when nothing is in flight; otherwise it waits, in place of the one that waited before it. */
  lemma SubmittedIsSentOrWaits(w: Worker, frame: Frame)
    requires Sound(w)
    ensures var (q, replaced) := Submit(w, frame);
            if w.inflight then
              && q == w.(pending := Some(Request(w.generation, frame)),
                         replaced := w.replaced + if w.pending == None then 0 else 1)
              && replaced == (if w.pending == None then None else Some(w.pending.value.frame.targetId))
            else q == w.(requests := [Request(w.generation, frame)], inflight := true) && replaced == None
  {
  }

  /** An outcome makes room for the request that waits, and is reported unless it is of an older generation. */
  lemma PollReportsCurrent(w: Worker)
    requires Sound(w)
    ensures var (q, reported) := Poll(w);
            if w.outcomes == [] then q == w && reported == None
            else
              && reported == (if w.outcomes[0].generation == w.generation then Some(w.outcomes[0]) else None)
              && q == w.(outcomes := [], inflight := w.pending != None, pending := None,
                         requests := if w.pending == None then [] else [w.pending.value])
  {
  }

  /** Invalidating forgets the request that waits and makes everything in flight stale. */
  lemma InvalidatedIsStale(w: Worker)
    requires Sound(w)
    ensures var q := Invalidate(w);
            && q.pending == None && q.inflight == w.inflight && q.requests == w.requests
            && q.rendering == w.rendering && q.outcomes == w.outcomes && q.replaced == w.replaced
            && (forall r | r in q.requests :: r.generation < q.generation)
            && (forall o | o in q.outcomes :: o.generation < q.generation)
            && (q.rendering.Some? ==> q.rendering.value.generation < q.generation)
  {
  }

  /** The child takes the one request there is, and answers it: with the image of its frame, or without one when rendering
      fails. */
  lemma ChildAnswersRequest(w: Worker, rendered: bool)
    requires Sound(w) && w.requests != []
    ensures w.rendering == None && w.outcomes == []
    ensures var request, taken := w.requests[0], ChildTakes(w);
            && taken == w.(requests := [], rendering := Some(request))
            && ChildFinishes(taken, rendered)
               == w.(requests := [],
                     outcomes := [Outcome(request.generation, request.frame.targetId,
                                          if rendered then Some(Jpeg(request.frame)) else None)])
  {
  }

  // ---------------------------------------------------------------- the worker as it runs

  class LatestSyntheticRenderWorker {
    var generation: nat
    var inflight: bool
    var pending: Option<Request>
    var requests: seq<Request>
    var rendering: Option<Request>
    var outcomes: seq<Outcome>
    var replaced: nat

    function Current(): Worker
      reads this
    {
      Worker(generation, inflight, pending, requests, rendering, outcomes, replaced)
    }

    constructor ()
      ensures Current() == NEW_WORKER && Sound(Current())
    {
      generation, inflight, pending, requests, rendering, outcomes, replaced := 0, false, None, [], None, [], 0;
    }

    method FlushPendingRequest()
      modifies this
      ensures Current() == FlushPending(old(Current()))
    {
      if pending.None? || inflight {
        return;
      }
      if |requests| >= 1 {
        return;
      }
      requests := requests + [pending.value];
      inflight, pending := true, None;
    }

    method SubmitFrame(frame: Frame) returns (replacedTarget: Option<int>)
      requires Sound(Current())
      modifies this
      ensures (Current(), replacedTarget) == Submit(old(Current()), frame) && Sound(Current())
    {
      WorkerStaysSound(Current(), frame, true);
      replacedTarget := None;
      if pending.Some? {
        replacedTarget := Some(pending.value.frame.targetId);
        replaced := replaced + 1;
      }
      pending := Some(Request(generation, frame));
      FlushPendingRequest();
    }

    method InvalidateAll()
      requires Sound(Current())
      modifies this
      ensures Current() == Invalidate(old(Current())) && Sound(Current())
    {
      generation := generation + 1;
      pending := None;
    }

    /** Empties the outcome queue, and keeps the last one. */
    method DrainOutcomes() returns (latest: Option<Outcome>)
      modifies this
      ensures var w := old(Current());
              if w.outcomes == [] then Current() == w && latest == None
              else
                && Current() == w.(outcomes := [], inflight := false)
                && latest == Some(w.outcomes[|w.outcomes| - 1])
    {
      ghost var was := outcomes;
      latest := None;
      while outcomes != []
        invariant |outcomes| <= |was| && outcomes == was[|was| - |outcomes|..]
        invariant outcomes == was ==> latest == None && inflight == old(inflight)
        invariant outcomes != was ==> was != [] && latest == Some(was[|was| - |outcomes| - 1]) && !inflight
        invariant generation == old(generation) && pending == old(pending) && requests == old(requests)
               && rendering == old(rendering) && replaced == old(replaced)
        decreases |outcomes|
      {
        latest := Some(outcomes[0]);
        outcomes := outcomes[1..];
        inflight := false;
      }
    }

    method PollOutcome() returns (reported: Option<Outcome>)
      requires Sound(Current())
      modifies this
      ensures (Current(), reported) == Poll(old(Current())) && Sound(Current())
    {
      hide Sound, FlushPending;
      WorkerStaysSound(Current(), Frame(0, 0), true);
      var latest := DrainOutcomes();
      FlushKeepsGeneration(Current());
      FlushPendingRequest();
      if latest.None? || latest.value.generation != generation {
        return None;
      }
      return latest;
    }
  }
}

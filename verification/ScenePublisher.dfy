/** The latest-only publisher of scene segments
    (services/simulation-server/src/scene_stream.rs, TcpScenePublisher and its connection task). */
module ScenePublisher {
  import opened Wrappers
  import opened SceneState

  const MAX_SCENE_SEQUENCE: nat := 9_007_199_254_740_991
  const U64_MAX: nat := 0xFFFF_FFFF_FFFF_FFFF

  datatype PublishError = InvalidRecord | SequenceExhausted

  /** Counters saturate at the largest 64-bit value. */
  function SaturatingAdd(a: nat, b: nat): nat {
    if a + b > U64_MAX then U64_MAX else a + b
  }

  function SaturatingSub(a: nat, b: nat): nat {
    if a < b then 0 else a - b
  }

  datatype Counters = Counters(accepted: nat, sent: nat, dropped: nat, connectionFailures: nat)

  /** The shared state, the counters, and the record that the connection task has taken and not yet settled. */
  datatype Publisher = Publisher(runId: string, closed: bool, latest: Option<Segment>, nextSequence: nat,
                                 previousKeyframe: Keyframe, counters: Counters, inFlight: Option<Segment>)

  /** The checks of two keyframes beside their order in time. */
  type KeyframeCheck = (Keyframe, Keyframe) -> bool

  function NewPublisher(runId: string, initial: Keyframe): Publisher {
    Publisher(runId, false, None, 1, initial, Counters(0, 0, 0, 0), None)
  }

  predicate ValidRecord(check: KeyframeCheck, sequence: nat, runId: string, left: Keyframe, right: Keyframe) {
    1 <= sequence <= MAX_SCENE_SEQUENCE && runId != "" && check(left, right) && left.elapsed < right.elapsed
  }

  /** The publisher afterwards, and the answer: whether the keyframe was accepted, or why it was refused. A keyframe
      that makes no valid record has still used up its sequence number. */
  function Publish(p: Publisher, check: KeyframeCheck, keyframe: Keyframe): (Publisher, Result<bool, PublishError>) {
    if p.closed then (p, Success(false))
    else if p.nextSequence > MAX_SCENE_SEQUENCE then (p, Failure(SequenceExhausted))
    else
      var numbered := p.(nextSequence := p.nextSequence + 1);
      if !ValidRecord(check, p.nextSequence, p.runId, p.previousKeyframe, keyframe)
          then (numbered, Failure(InvalidRecord))
      else
        var record := Segment(p.nextSequence, p.runId, p.previousKeyframe, keyframe);
        (numbered.(previousKeyframe := keyframe, latest := Some(record),
                   counters := p.counters.(
                     dropped := if p.latest.Some? then SaturatingAdd(p.counters.dropped, 1) else p.counters.dropped,
                     accepted := SaturatingAdd(p.counters.accepted, 1))),
         Success(true))
  }

  function TakeLatest(p: Publisher): Publisher
    requires p.latest.Some? && p.inFlight.None?
  {
    p.(latest := None, inFlight := p.latest)
  }

  function Sent(p: Publisher): Publisher
    requires p.inFlight.Some?
  {
    p.(inFlight := None, counters := p.counters.(sent := SaturatingAdd(p.counters.sent, 1)))
  }

  /** The record could not be encoded, or not be written. */
  function Lost(p: Publisher): Publisher
    requires p.inFlight.Some?
  {
    p.(inFlight := None, counters := p.counters.(dropped := SaturatingAdd(p.counters.dropped, 1)))
  }

  function ConnectionFailed(p: Publisher): Publisher {
    p.(counters := p.counters.(connectionFailures := SaturatingAdd(p.counters.connectionFailures, 1)))
  }

  function CloseShared(p: Publisher): Publisher {
    if p.closed then p
    else
      p.(closed := true, latest := None,
         counters := if p.latest.Some? then p.counters.(dropped := SaturatingAdd(p.counters.dropped, 1))
             else p.counters)
  }

  /** The task is stopped, whatever it had in flight; what is unaccounted for counts as dropped. */
  function Reconcile(p: Publisher): Publisher {
    var missing := SaturatingSub(p.counters.accepted, SaturatingAdd(p.counters.sent, p.counters.dropped));
    p.(inFlight := None, counters := p.counters.(dropped := SaturatingAdd(p.counters.dropped, missing)))
  }

  // ---------------------------------------------------------------- accounting

  function Held(record: Option<Segment>): nat {
    if record.Some? then 1 else 0
  }

  /** Every accepted record is sent, dropped, queued or in flight, and no counter can have saturated. */
  ghost predicate Balanced(p: Publisher) {
    && 1 <= p.nextSequence <= MAX_SCENE_SEQUENCE + 1
    && p.counters.accepted == p.counters.sent + p.counters.dropped + Held(p.latest) + Held(p.inFlight)
    && p.counters.accepted < p.nextSequence
    && (p.closed ==> p.latest.None?)
  }

  lemma PublisherStaysBalanced(p: Publisher, check: KeyframeCheck, keyframe: Keyframe)
    requires Balanced(p)
    ensures Balanced(Publish(p, check, keyframe).0)
    ensures p.latest.Some? && p.inFlight.None? ==> Balanced(TakeLatest(p))
    ensures p.inFlight.Some? ==> Balanced(Sent(p)) && Balanced(Lost(p))
    ensures Balanced(ConnectionFailed(p)) && Balanced(CloseShared(p))
    ensures p.closed ==> Balanced(Reconcile(p))
  {
  }

  /** After closing and reconciling, every accepted record was sent or dropped. */
  lemma ClosedIsReconciled(p: Publisher)
    requires Balanced(p)
    ensures var q := Reconcile(CloseShared(p));
            q.counters.accepted == q.counters.sent + q.counters.dropped && q.counters.sent == p.counters.sent
  {
  }

  // ---------------------------------------------------------------- what is published

  /** A closed publisher refuses quietly, and one without numbers left refuses with an error; neither changes anything.
      Otherwise a number is used up. A keyframe later than the one before makes the record that is queued next, from the
      one keyframe to the other; a record still queued is dropped for it. */
  lemma PublishedIsQueued(p: Publisher, check: KeyframeCheck, keyframe: Keyframe)
    requires Balanced(p)
    ensures var q, r := Publish(p, check, keyframe).0, Publish(p, check, keyframe).1;
            if p.closed then q == p && r == Success(false)
            else if p.nextSequence == 9_007_199_254_740_992 then q == p && r == Failure(SequenceExhausted)
            else if p.runId == "" || !check(p.previousKeyframe, keyframe)
                    || keyframe.elapsed <= p.previousKeyframe.elapsed then
              r == Failure(InvalidRecord) && q == p.(nextSequence := p.nextSequence + 1)
            else
              && r == Success(true) && q.nextSequence == p.nextSequence + 1
              && q.latest == Some(Segment(p.nextSequence, p.runId, p.previousKeyframe, keyframe))
              && q.previousKeyframe == keyframe && q.inFlight == p.inFlight && q.runId == p.runId && !q.closed
              && q.counters == p.counters.(accepted := p.counters.accepted + 1,
                                           dropped := p.counters.dropped + if p.latest == None then 0 else 1)
  {
  }

  /** What the connection task and the end do: one record goes from the queue into flight, and from there it counts as
      sent or as dropped. Closing drops what is queued, and reconciling what was in flight. */
  lemma RecordsAreSettled(p: Publisher)
    requires Balanced(p)
    ensures p.latest.Some? && p.inFlight.None? ==>
              TakeLatest(p) == p.(inFlight := p.latest, latest := None)
    ensures p.inFlight.Some? ==>
              && Sent(p) == p.(inFlight := None, counters := p.counters.(sent := p.counters.sent + 1))
              && Lost(p) == p.(inFlight := None, counters := p.counters.(dropped := p.counters.dropped + 1))
    ensures p.counters.connectionFailures < 0xFFFF_FFFF_FFFF_FFFF ==>
              ConnectionFailed(p)
              == p.(counters := p.counters.(connectionFailures := p.counters.connectionFailures + 1))
    ensures p.counters.connectionFailures == 0xFFFF_FFFF_FFFF_FFFF ==> ConnectionFailed(p) == p
    ensures var failures := ConnectionFailed(p).counters.connectionFailures;
            ConnectionFailed(p) == p.(counters := p.counters.(connectionFailures := failures))
    ensures CloseShared(p)
         == p.(closed := true, latest := None,
               counters := p.counters.(dropped := p.counters.dropped + if p.latest == None then 0 else 1))
    ensures p.closed ==>
              Reconcile(p)
              == p.(inFlight := None,
                    counters := p.counters.(dropped := p.counters.dropped + if p.inFlight == None then 0 else 1))
  {
  }

  // ---------------------------------------------------------------- whole histories

  datatype Action = PublishOne(keyframe: Keyframe) | TakeOne | SettleOne(written: bool) | FailConnection | CloseAll

  /** A publisher with every record it ever accepted and every one it sent. */
  datatype Trail = Trail(publisher: Publisher, accepted: seq<Segment>, sent: seq<Segment>)

  function Act(t: Trail, check: KeyframeCheck, action: Action): Trail {
    var p := t.publisher;
    match action
    case PublishOne(keyframe) =>
      var (q, r) := Publish(p, check, keyframe);
      if r == Success(true) && q.latest.Some? then Trail(q, t.accepted + [q.latest.value], t.sent)
      else t.(publisher := q)
    case TakeOne => if p.latest.Some? && p.inFlight.None? then t.(publisher := TakeLatest(p)) else t
    case SettleOne(written) =>
      if p.inFlight.None? then t
      else if written then Trail(Sent(p), t.accepted, t.sent + [p.inFlight.value])
      else t.(publisher := Lost(p))
    case FailConnection => t.(publisher := ConnectionFailed(p))
    case CloseAll => t.(publisher := Reconcile(CloseShared(p)))
  }

  function ActAll(t: Trail, check: KeyframeCheck, actions: seq<Action>): Trail
    decreases |actions|
  {
    if actions == [] then t else ActAll(Act(t, check, actions[0]), check, actions[1..])
  }

  /** Accepted records rise in number, each begins with the keyframe that the one before ended with, and the first with
      the initial one. */
  ghost predicate Chained(runId: string, initial: Keyframe, accepted: seq<Segment>) {
    forall k | 0 <= k < |accepted| :: Continues(runId, initial, accepted, k)
  }

  ghost predicate Continues(runId: string, initial: Keyframe, accepted: seq<Segment>, k: nat)
    requires k < |accepted|
  {
    && accepted[k].runId == runId && 1 <= accepted[k].sequence && accepted[k].left.elapsed < accepted[k].right.elapsed
    && accepted[k].left == (if k == 0 then initial else accepted[k - 1].right)
    && (k > 0 ==> accepted[k - 1].sequence < accepted[k].sequence)
  }

  /** Only accepted records are sent, in order. */
  ghost predicate SentInOrder(accepted: seq<Segment>, sent: seq<Segment>) {
    && (forall k | 0 <= k < |sent| :: sent[k] in accepted)
    && forall k | 0 < k < |sent| :: sent[k - 1].sequence < sent[k].sequence
  }

  /** What is queued is the latest record accepted; what is in flight is an earlier one, and later than all sent. */
  ghost predicate Kept(initial: Keyframe, t: Trail) {
    var p, n := t.publisher, |t.accepted|;
    && Balanced(p) && Chained(p.runId, initial, t.accepted) && SentInOrder(t.accepted, t.sent)
    && p.counters.accepted == n && p.counters.sent == |t.sent|
    && p.previousKeyframe == (if n == 0 then initial else t.accepted[n - 1].right)
    && (n > 0 ==> t.accepted[n - 1].sequence < p.nextSequence)
    && (p.latest.Some? ==> n > 0 && p.latest.value == t.accepted[n - 1])
    && (p.inFlight.Some? ==> p.inFlight.value in t.accepted)
    && (p.latest.Some? && p.inFlight.Some? ==> p.inFlight.value.sequence < p.latest.value.sequence)
    && (t.sent != [] ==>
          && (p.inFlight.Some? ==> t.sent[|t.sent| - 1].sequence < p.inFlight.value.sequence)
          && (p.latest.Some? ==> t.sent[|t.sent| - 1].sequence < p.latest.value.sequence))
  }

  lemma {:induction false} LatestIsLast(runId: string, initial: Keyframe, accepted: seq<Segment>, k: nat)
    requires Chained(runId, initial, accepted) && k < |accepted|
    ensures accepted[k].sequence <= accepted[|accepted| - 1].sequence
    decreases |accepted| - k
  {
    if k + 1 < |accepted| {
      assert Continues(runId, initial, accepted, k + 1);
      LatestIsLast(runId, initial, accepted, k + 1);
    }
  }

  lemma AcceptedBefore(runId: string, initial: Keyframe, accepted: seq<Segment>, s: Segment)
    requires Chained(runId, initial, accepted) && s in accepted
    ensures s.sequence <= accepted[|accepted| - 1].sequence
  {
    var k :| 0 <= k < |accepted| && accepted[k] == s;
    LatestIsLast(runId, initial, accepted, k);
  }

  lemma ActKeeps(initial: Keyframe, t: Trail, check: KeyframeCheck, action: Action)
    requires Kept(initial, t)
    ensures Kept(initial, Act(t, check, action))
  {
    hide Publish, TakeLatest, Sent, Lost, ConnectionFailed, CloseShared, Reconcile, Chained, SentInOrder;
    var p, a := t.publisher, Act(t, check, action);
    RecordsAreSettled(p);
    match action {
      case PublishOne(keyframe) => PublishKeeps(initial, t, check, keyframe);
      case TakeOne =>
        PublisherStaysBalanced(p, check, initial);
      case SettleOne(written) =>
        PublisherStaysBalanced(p, check, initial);
        if p.inFlight.Some? && written {
          OneMoreSent(t.accepted, t.sent, p.inFlight.value);
        }
      case FailConnection =>
        PublisherStaysBalanced(p, check, initial);
      case CloseAll =>
        PublisherStaysBalanced(p, check, initial);
        PublisherStaysBalanced(CloseShared(p), check, initial);
        RecordsAreSettled(CloseShared(p));
    }
  }

  lemma OneMoreSent(accepted: seq<Segment>, sent: seq<Segment>, s: Segment)
    requires SentInOrder(accepted, sent) && s in accepted
    requires sent != [] ==> sent[|sent| - 1].sequence < s.sequence
    ensures SentInOrder(accepted, sent + [s])
  {
  }

  lemma PublishKeeps(initial: Keyframe, t: Trail, check: KeyframeCheck, keyframe: Keyframe)
    requires Kept(initial, t)
    ensures Kept(initial, Act(t, check, PublishOne(keyframe)))
  {
    hide Publish, Chained, SentInOrder;
    var p := t.publisher;
    PublishedIsQueued(p, check, keyframe);
    PublisherStaysBalanced(p, check, keyframe);
    var q := Publish(p, check, keyframe).0;
    if Publish(p, check, keyframe).1 == Success(true) {
      var s := q.latest.value;
      OneMoreAccepted(p.runId, initial, t.accepted, s);
      MoreAccepted(t.accepted, t.sent, s);
      if p.inFlight.Some? {
        AcceptedBefore(p.runId, initial, t.accepted, p.inFlight.value);
      }
      if t.sent != [] {
        SentWasAccepted(t.accepted, t.sent);
        AcceptedBefore(p.runId, initial, t.accepted, t.sent[|t.sent| - 1]);
      }
    }
  }

  lemma SentWasAccepted(accepted: seq<Segment>, sent: seq<Segment>)
    requires SentInOrder(accepted, sent) && sent != []
    ensures sent[|sent| - 1] in accepted
  {
  }

  lemma OneMoreAccepted(runId: string, initial: Keyframe, accepted: seq<Segment>, s: Segment)
    requires Chained(runId, initial, accepted) && s.runId == runId && s.sequence >= 1
    requires s.left.elapsed < s.right.elapsed
    requires s.left == if accepted == [] then initial else accepted[|accepted| - 1].right
    requires accepted != [] ==> accepted[|accepted| - 1].sequence < s.sequence
    ensures Chained(runId, initial, accepted + [s])
  {
    forall k | 0 <= k <= |accepted| ensures Continues(runId, initial, accepted + [s], k) {
      assert k < |accepted| ==> Continues(runId, initial, accepted, k);
    }
  }

  lemma MoreAccepted(accepted: seq<Segment>, sent: seq<Segment>, s: Segment)
    requires SentInOrder(accepted, sent)
    ensures SentInOrder(accepted + [s], sent)
  {
  }

  /** Whatever is published, taken, settled, failed and closed, in whatever order: the accepted records form one chain of
      keyframes, the sent ones are among them in their order, every one is counted, and the queue holds the latest. */
  lemma {:induction false} EveryHistoryIsKept(initial: Keyframe, t: Trail, check: KeyframeCheck, actions: seq<Action>)
    requires Kept(initial, t)
    ensures Kept(initial, ActAll(t, check, actions))
    decreases |actions|
  {
    hide Kept, Act;
    if actions != [] {
      ActKeeps(initial, t, check, actions[0]);
      EveryHistoryIsKept(initial, Act(t, check, actions[0]), check, actions[1..]);
    }
  }

  lemma NewIsKept(runId: string, initial: Keyframe)
    ensures Kept(initial, Trail(NewPublisher(runId, initial), [], []))
    ensures var p := NewPublisher(runId, initial);
            && p.nextSequence == 1 && !p.closed && p.runId == runId && p.previousKeyframe == initial
            && p.counters == Counters(0, 0, 0, 0)
  {
  }

  // ---------------------------------------------------------------- the publisher as it runs

  class TcpScenePublisher {
    const runId: string
    const check: KeyframeCheck
    var closed: bool
    var latest: Option<Segment>
    var nextSequence: nat
    var previousKeyframe: Keyframe
    var accepted: nat
    var sent: nat
    var dropped: nat
    var connectionFailures: nat
    var inFlight: Option<Segment>

    function Current(): Publisher
      reads this
    {
      Publisher(runId, closed, latest, nextSequence, previousKeyframe,
                Counters(accepted, sent, dropped, connectionFailures), inFlight)
    }

    constructor (runId: string, check: KeyframeCheck, initial: Keyframe)
      ensures Current() == NewPublisher(runId, initial) && this.check == check && Balanced(Current())
    {
      this.runId, this.check := runId, check;
      closed, latest, nextSequence, previousKeyframe := false, None, 1, initial;
      accepted, sent, dropped, connectionFailures := 0, 0, 0, 0;
      inFlight := None;
    }

    method PublishKeyframe(keyframe: Keyframe) returns (r: Result<bool, PublishError>)
      requires Balanced(Current())
      modifies this
      ensures (Current(), r) == Publish(old(Current()), check, keyframe) && Balanced(Current())
      ensures r.Success? && r.value ==>
                latest == Some(Segment(old(nextSequence), runId, old(previousKeyframe), keyframe))
    {
      PublisherStaysBalanced(Current(), check, keyframe);
      if closed {
        return Success(false);
      }
      if nextSequence > MAX_SCENE_SEQUENCE {
        return Failure(SequenceExhausted);
      }
      var sequence := nextSequence;
      nextSequence := nextSequence + 1;
      if !ValidRecord(check, sequence, runId, previousKeyframe, keyframe) {
        return Failure(InvalidRecord);
      }
      var replaced := latest;
      latest := Some(Segment(sequence, runId, previousKeyframe, keyframe));
      previousKeyframe := keyframe;
      if replaced.Some? {
        dropped := SaturatingAdd(dropped, 1);
      }
      accepted := SaturatingAdd(accepted, 1);
      return Success(true);
    }

    /** Takes the queued record, if there still is one. */
    method Take() returns (taken: bool)
      requires Balanced(Current()) && inFlight.None?
      modifies this`latest, this`inFlight
      ensures Balanced(Current()) && taken == old(latest.Some?)
      ensures Current() == if taken then TakeLatest(old(Current())) else old(Current())
    {
      taken := latest.Some?;
      inFlight, latest := latest, None;
    }

    /** Settles the record in flight once it is written, or has failed to be encoded or written. */
    method Settle(written: bool)
      requires Balanced(Current()) && inFlight.Some?
      modifies this
      ensures Balanced(Current())
      ensures Current() == if written then Sent(old(Current())) else Lost(old(Current()))
    {
      if written {
        sent := SaturatingAdd(sent, 1);
      } else {
        dropped := SaturatingAdd(dropped, 1);
      }
      inFlight := None;
    }

    method Close()
      requires Balanced(Current())
      modifies this
      ensures Current() == Reconcile(CloseShared(old(Current()))) && Balanced(Current())
      ensures closed && accepted == sent + dropped && sent == old(sent) && accepted == old(accepted)
    {
      ClosedIsReconciled(Current());
      if !closed {
        closed := true;
        if latest.Some? {
          dropped := SaturatingAdd(dropped, 1);
        }
        latest := None;
      }
      inFlight := None;
      var accounted := SaturatingAdd(sent, dropped);
      dropped := SaturatingAdd(dropped, SaturatingSub(accepted, accounted));
    }
  }
}

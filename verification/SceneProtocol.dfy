/** Publisher, connections and receiver together: every interleaving within one run
    (services/simulation-server/src/scene_stream.rs, use_next_connection and close;
     services/visualizer/src/scrap_monitoring_visualizer/receiver/server.py, handle_client). */
module SceneProtocol {
  import opened Wrappers
  import opened SceneState
  import P = ScenePublisher
  import R = SceneReceiver

  /** A record on its way, with the number of the connection that carries it. */
  datatype Parcel = Parcel(connection: nat, record: R.Record)

  /** The producing side uses the last connection while connected, and may be attempting the next one. The receiving side
      has met the first ones in order; those in rejected were turned away, and while it is active it reads the one it
      serves. The log holds every parcel it has read. */
  datatype System = System(header: Header, check: P.KeyframeCheck, readable: R.Record -> bool,
                           publisher: P.Publisher, connections: nat, attempting: bool, connected: bool, stopped: bool,
                           transit: seq<Parcel>, met: nat, serving: nat, rejected: set<nat>, receiver: R.Receiver,
                           log: seq<Parcel>)

  datatype Step =
    | Publish(keyframe: Keyframe)
    | Attempt
    | ConnectFails
    | HeaderFails(arrives: bool)
    | Connect
    | Take
    | EncodeFails
    | Write
    | WriteFails(arrives: bool)
    | Leave
    | Close
    | Stop(connects: bool, arrives: bool)
    | Meet
    | Read(skipped: nat)
    | End(partial: bool)

  /** An attempt begins once something is queued; closing does not interrupt it. */
  predicate CanAttempt(s: System) {
    !s.stopped && !s.attempting && !s.connected && !s.publisher.closed && s.publisher.latest.Some?
  }

  /** A read takes the first parcel of the connection being served, and passes over parcels of other ones. */
  predicate CanRead(s: System, skipped: nat) {
    && s.receiver.active && skipped < |s.transit|
    && s.transit[skipped].connection == s.serving
    && R.Usable(s.transit[skipped].record)
    && forall i | 0 <= i < skipped :: s.transit[i].connection != s.serving
  }

  predicate Enabled(s: System, step: Step) {
    match step
    case Publish(_) => true
    case Attempt => CanAttempt(s)
    case ConnectFails | HeaderFails(_) | Connect => s.attempting
    case Take => s.connected && s.publisher.inFlight.None? && s.publisher.latest.Some?
    case EncodeFails | Write | WriteFails(_) => s.connected && s.publisher.inFlight.Some?
    case Leave => s.connected && s.publisher.closed && s.publisher.inFlight.None?
    case Close => true
    case Stop(_, _) => s.publisher.closed && !s.stopped
    case Meet => s.met < s.connections
    case Read(skipped) => CanRead(s, skipped)
    case End(_) => s.receiver.active
  }

  function HeaderParcel(s: System, connection: nat): Parcel {
    Parcel(connection, R.HeaderRecord(s.header))
  }

  function InFlightParcels(s: System, arrives: bool): seq<Parcel> {
    if arrives && s.connections > 0 && s.publisher.inFlight.Some? then
      [Parcel(s.connections - 1, R.SegmentRecord(s.publisher.inFlight.value))]
    else []
  }

  /** What an interrupted task leaves behind: its attempt may have opened a connection, and its header, or the record in
      flight, may have arrived. */
  function LeftBehind(s: System, connects: bool, arrives: bool): seq<Parcel> {
    if !s.attempting then InFlightParcels(s, arrives)
    else if connects && arrives then [HeaderParcel(s, s.connections)]
    else []
  }

  /** What a step of the producing side puts on its way. */
  function Added(s: System, step: Step): seq<Parcel> {
    match step
    case HeaderFails(arrives) => if arrives then [HeaderParcel(s, s.connections)] else []
    case Connect => [HeaderParcel(s, s.connections)]
    case Write => InFlightParcels(s, true)
    case WriteFails(arrives) => InFlightParcels(s, arrives)
    case Stop(connects, arrives) => LeftBehind(s, connects, arrives)
    case _ => []
  }

  /** A failed or interrupted write may still have arrived in full. A connection met while another is served is turned
      away and never read; the one being served goes on. */
  function Next(s: System, step: Step): System
    requires Enabled(s, step)
  {
    match step
    case Publish(keyframe) => s.(publisher := P.Publish(s.publisher, s.check, keyframe).0)
    case Attempt => s.(attempting := true)
    case ConnectFails => s.(attempting := false, publisher := P.ConnectionFailed(s.publisher))
    case HeaderFails(_) =>
      s.(attempting := false, publisher := P.ConnectionFailed(s.publisher), connections := s.connections + 1,
         transit := s.transit + Added(s, step))
    case Connect =>
      s.(attempting := false, connected := true, connections := s.connections + 1,
         transit := s.transit + Added(s, step))
    case Take => s.(publisher := P.TakeLatest(s.publisher))
    case EncodeFails => s.(publisher := P.Lost(s.publisher))
    case Write => s.(publisher := P.Sent(s.publisher), transit := s.transit + Added(s, step))
    case WriteFails(_) =>
      s.(publisher := P.ConnectionFailed(P.Lost(s.publisher)), connected := false,
         transit := s.transit + Added(s, step))
    case Leave => s.(connected := false)
    case Close => s.(publisher := P.CloseShared(s.publisher))
    case Stop(connects, _) =>
      s.(publisher := P.Reconcile(s.publisher), attempting := false, connected := false, stopped := true,
         connections := if s.attempting && connects then s.connections + 1 else s.connections,
         transit := s.transit + Added(s, step))
    case Meet =>
      if s.receiver.active then
        s.(met := s.met + 1, rejected := s.rejected + {s.met}, receiver := R.Connect(s.receiver))
      else s.(met := s.met + 1, serving := s.met, receiver := R.Connect(s.receiver))
    case Read(skipped) =>
      var record := s.transit[skipped].record;
      s.(transit := s.transit[skipped + 1..], receiver := R.Receive(s.receiver, record, s.readable(record)),
         log := s.log + [s.transit[skipped]])
    case End(partial) => s.(receiver := R.End(s.receiver, partial))
  }

  // ---------------------------------------------------------------- the trail of segments

  function SegmentOf(parcel: Parcel): seq<Segment> {
    if parcel.record.SegmentRecord? then [parcel.record.segment] else []
  }

  function SegmentsIn(transit: seq<Parcel>): seq<Segment>
    decreases |transit|
  {
    if transit == [] then [] else SegmentOf(transit[0]) + SegmentsIn(transit[1..])
  }

  function AsList(record: Option<Segment>): seq<Segment> {
    if record.Some? then [record.value] else []
  }

  /** The segments of this run that the receiver has accepted. */
  function Accepted(s: System): seq<Segment> {
    if s.receiver.history.state.header == Some(s.header) then s.receiver.history.accepted else []
  }

  /** Accepted, on their way, in flight and queued, oldest first. */
  function Trail(s: System): seq<Segment> {
    Accepted(s) + SegmentsIn(s.transit) + AsList(s.publisher.inFlight) + AsList(s.publisher.latest)
  }

  /** x comes before y: in number, in time, and without a break in the surface when no number lies between them. */
  predicate Before(x: Segment, y: Segment) {
    && x.sequence < y.sequence && x.right.elapsed < y.right.elapsed
    && (y.sequence == x.sequence + 1 ==> y.left == x.right)
  }

  ghost predicate Chain(trail: seq<Segment>) {
    forall i, j | 0 <= i < j < |trail| :: Before(trail[i], trail[j])
  }

  /** A segment of this run that was published before the next one to come. */
  predicate Earlier(p: P.Publisher, x: Segment) {
    && x.runId == p.runId
    && 0 < x.sequence < p.nextSequence && x.right.elapsed <= p.previousKeyframe.elapsed
    && (x.sequence + 1 == p.nextSequence ==> x.right == p.previousKeyframe)
  }

  ghost predicate AllEarlier(p: P.Publisher, trail: seq<Segment>) {
    forall i | 0 <= i < |trail| :: Earlier(p, trail[i])
  }

  ghost predicate Invariant(s: System) {
    && P.Balanced(s.publisher)
    && s.publisher.runId == s.header.runId
    && Chain(Trail(s)) && AllEarlier(s.publisher, Trail(s))
    && Accounted(s.receiver.history)
    && (s.receiver.headerRead ==>
          s.receiver.active && s.receiver.history.state.header == Some(s.header) && s.receiver.history.state.connected)
    && (s.receiver.history.state.header.Some? && s.receiver.history.state.header.value.runId == s.header.runId ==>
          s.receiver.history.state.header == Some(s.header))
    && (s.connected ==> s.connections > 0)
    && (s.publisher.inFlight.Some? ==> s.connected) && !(s.attempting && s.connected)
    && (s.stopped ==> s.publisher.closed && !s.connected && !s.attempting)
    && |s.header.x| > 0 && |s.header.y| > 0
    && (forall i | 0 <= i < |s.transit| && s.transit[i].record.HeaderRecord? :: s.transit[i].record.header == s.header)
  }

  /** A run starts with a fresh publisher; the receiver may remember earlier runs, but is idle. */
  ghost predicate Initial(s: System, keyframe: Keyframe) {
    && s.publisher == P.NewPublisher(s.header.runId, keyframe)
    && s.connections == 0 && !s.attempting && !s.connected && !s.stopped && s.transit == []
    && s.met == 0 && s.rejected == {} && s.log == []
    && !s.receiver.active && !s.receiver.headerRead
    && Accounted(s.receiver.history)
    && (s.receiver.history.state.header.Some? ==> s.receiver.history.state.header.value.runId != s.header.runId)
    && |s.header.x| > 0 && |s.header.y| > 0
  }

  lemma InitialHolds(s: System, keyframe: Keyframe)
    requires Initial(s, keyframe)
    ensures Invariant(s)
  {
    assert Trail(s) == [];
  }

  // ---------------------------------------------------------------- lists

  lemma ChainWithout(a: seq<Segment>, b: seq<Segment>, c: seq<Segment>, p: P.Publisher)
    requires Chain(a + b + c) && AllEarlier(p, a + b + c)
    ensures Chain(a + c) && AllEarlier(p, a + c)
  {
    hide Before, Earlier;
    var whole, part := a + b + c, a + c;
    forall i | 0 <= i < |part| ensures Earlier(p, part[i]) {
      assert part[i] == whole[if i < |a| then i else i + |b|];
    }
    forall i, j | 0 <= i < j < |part| ensures Before(part[i], part[j]) {
      assert part[i] == whole[if i < |a| then i else i + |b|] && part[j] == whole[if j < |a| then j else j + |b|];
    }
  }

  lemma {:induction false} SegmentsInBoth(a: seq<Parcel>, b: seq<Parcel>)
    ensures SegmentsIn(a + b) == SegmentsIn(a) + SegmentsIn(b)
    decreases |a|
  {
    hide SegmentOf;
    if a == [] {
      assert a + b == b;
    } else {
      SegmentsInBoth(a[1..], b);
      assert (a + b)[1..] == a[1..] + b;
    }
  }

  lemma SegmentsInOne(parcel: Parcel)
    ensures SegmentsIn([parcel]) == if parcel.record.SegmentRecord? then [parcel.record.segment] else []
  {
  }

  /** A new record comes after everything that was published before. */
  lemma ChainExtends(trail: seq<Segment>, p: P.Publisher, check: P.KeyframeCheck, keyframe: Keyframe)
    requires Chain(trail) && AllEarlier(p, trail) && P.Publish(p, check, keyframe).1 == Success(true)
    ensures var q := P.Publish(p, check, keyframe).0;
            Chain(trail + [q.latest.value]) && AllEarlier(q, trail + [q.latest.value])
  {
    var q := P.Publish(p, check, keyframe).0;
    var longer := trail + [q.latest.value];
    forall i | 0 <= i < |longer| ensures Earlier(q, longer[i]) {
      assert i < |trail| ==> Earlier(p, longer[i]);
    }
    forall i, j | 0 <= i < j < |longer| ensures Before(longer[i], longer[j]) {
      assert Earlier(p, trail[i]);
      assert j < |trail| ==> Before(trail[i], trail[j]);
    }
  }

  /** A refused keyframe uses up a number and leaves everything else alone. */
  lemma EarlierAfterRefusal(trail: seq<Segment>, p: P.Publisher, check: P.KeyframeCheck, keyframe: Keyframe)
    requires AllEarlier(p, trail) && P.Publish(p, check, keyframe).1 != Success(true)
    ensures AllEarlier(P.Publish(p, check, keyframe).0, trail)
    ensures P.Publish(p, check, keyframe).0.latest == p.latest && P.Publish(p, check, keyframe).0.inFlight == p.inFlight
  {
    var q := P.Publish(p, check, keyframe).0;
    forall i | 0 <= i < |trail| ensures Earlier(q, trail[i]) {
      assert Earlier(p, trail[i]);
    }
  }

  // ---------------------------------------------------------------- every step keeps the invariant

  /** The producing side only appends to what is on its way, or drops. */
  lemma PublishKeeps(s: System, keyframe: Keyframe)
    requires Invariant(s)
    ensures Invariant(Next(s, Publish(keyframe)))
  {
    hide Before, Earlier, Accounted, SegmentsIn;
    var t := Next(s, Publish(keyframe));
    P.PublisherStaysBalanced(s.publisher, s.check, keyframe);
    var rest := Accepted(s) + SegmentsIn(s.transit) + AsList(s.publisher.inFlight);
    if P.Publish(s.publisher, s.check, keyframe).1 == Success(true) {
      assert Trail(s) == rest + AsList(s.publisher.latest) + [];
      ChainWithout(rest, AsList(s.publisher.latest), [], s.publisher);
      assert rest + [] == rest;
      ChainExtends(rest, s.publisher, s.check, keyframe);
      assert Trail(t) == rest + [t.publisher.latest.value];
    } else {
      EarlierAfterRefusal(Trail(s), s.publisher, s.check, keyframe);
      assert Trail(t) == Trail(s);
    }
  }

  /** Trails stay in order when one part in the middle is left out. */
  lemma TrailWithout(s: System, t: System, a: seq<Segment>, b: seq<Segment>, c: seq<Segment>)
    requires Chain(Trail(s)) && AllEarlier(s.publisher, Trail(s))
    requires Trail(s) == a + b + c && Trail(t) == a + c
    requires t.publisher.runId == s.publisher.runId && t.publisher.nextSequence == s.publisher.nextSequence
          && t.publisher.previousKeyframe == s.publisher.previousKeyframe
    ensures Chain(Trail(t)) && AllEarlier(t.publisher, Trail(t))
  {
    ChainWithout(a, b, c, s.publisher);
  }

  lemma Regroup(a: seq<Segment>, t: seq<Segment>, moved: seq<Segment>, f: seq<Segment>, l: seq<Segment>,
                rest: seq<Segment>)
    requires f + l == rest
    ensures a + (t + moved) + f + l == a + t + moved + rest
    ensures a + t + f + l == a + t + rest
  {
    assert a + (t + moved) + f + l == a + t + moved + (f + l);
    assert a + t + f + l == a + t + (f + l);
  }

  lemma Regroup5(a: seq<Segment>, moved: seq<Segment>, first: seq<Segment>, gone: seq<Segment>, second: seq<Segment>)
    ensures a + (moved + first + gone + second) == (a + moved + first) + gone + second
    ensures a + moved + (first + second) == (a + moved + first) + second
  {
  }

  /** Of what is in flight or queued, a part may move on its way, and a part may be dropped. */
  lemma TrailAfter(s: System, t: System, moved: seq<Segment>, first: seq<Segment>, gone: seq<Segment>,
                   second: seq<Segment>)
    requires Chain(Trail(s)) && AllEarlier(s.publisher, Trail(s))
    requires AsList(s.publisher.inFlight) + AsList(s.publisher.latest) == moved + first + gone + second
    requires AsList(t.publisher.inFlight) + AsList(t.publisher.latest) == first + second
    requires SegmentsIn(t.transit) == SegmentsIn(s.transit) + moved && Accepted(t) == Accepted(s)
    requires t.publisher.runId == s.publisher.runId && t.publisher.nextSequence == s.publisher.nextSequence
          && t.publisher.previousKeyframe == s.publisher.previousKeyframe
    ensures Chain(Trail(t)) && AllEarlier(t.publisher, Trail(t))
  {
    hide Before, Earlier, SegmentsIn, Chain, AllEarlier, Accepted, AsList;
    Regroup(Accepted(s), SegmentsIn(s.transit), [], AsList(s.publisher.inFlight), AsList(s.publisher.latest),
        moved + first + gone + second);
    Regroup(Accepted(s), SegmentsIn(s.transit), moved, AsList(t.publisher.inFlight), AsList(t.publisher.latest),
        first + second);
    Regroup5(Accepted(s) + SegmentsIn(s.transit), moved, first, gone, second);
    TrailWithout(s, t, Accepted(s) + SegmentsIn(s.transit) + moved + first, gone, second);
  }

  /** What a producer step puts on its way: a header, the record in flight, or nothing. */
  lemma AddedSegments(s: System, step: Step)
    requires s.publisher.inFlight.Some? ==> s.connections > 0
    ensures SegmentsIn(Added(s, step)) == []
         || (SegmentsIn(Added(s, step)) == AsList(s.publisher.inFlight)
             && (step.Write? || step.WriteFails? || step.Stop?))
    ensures step.Write? ==> SegmentsIn(Added(s, step)) == AsList(s.publisher.inFlight)
    ensures forall i | 0 <= i < |Added(s, step)| && Added(s, step)[i].record.HeaderRecord? ::
              Added(s, step)[i].record.header == s.header
  {
    SegmentsInOne(HeaderParcel(s, s.connections));
    if s.publisher.inFlight.Some? {
      SegmentsInOne(Parcel(s.connections - 1, R.SegmentRecord(s.publisher.inFlight.value)));
    }
  }

  lemma ProducerAppends(s: System, step: Step)
    requires Enabled(s, step) && !step.Meet? && !step.Read? && !step.End?
    ensures Next(s, step).transit == s.transit + Added(s, step)
  {
    hide Added, P.Publish, P.ConnectionFailed, P.Lost, P.Sent, P.Reconcile, P.CloseShared, P.TakeLatest;
    NothingAdded(s, step);
    assert s.transit + [] == s.transit;
  }

  lemma NothingAdded(s: System, step: Step)
    ensures !step.HeaderFails? && !step.Connect? && !step.Write? && !step.WriteFails? && !step.Stop? ==>
              Added(s, step) == []
  {
  }

  lemma ProducerTrail(s: System, step: Step)
    requires Invariant(s) && Enabled(s, step)
    requires !step.Publish? && !step.Meet? && !step.Read? && !step.End?
    ensures Chain(Trail(Next(s, step))) && AllEarlier(Next(s, step).publisher, Trail(Next(s, step)))
    ensures forall i | 0 <= i < |Next(s, step).transit| && Next(s, step).transit[i].record.HeaderRecord? ::
              Next(s, step).transit[i].record.header == s.header
  {
    hide Before, Earlier, Accounted, SegmentsIn, Chain, AllEarlier, Trail, Added;
    var t := Next(s, step);
    ProducerAppends(s, step);
    SegmentsInBoth(s.transit, Added(s, step));
    AddedSegments(s, step);
    var moved, flight, latest := SegmentsIn(Added(s, step)), AsList(s.publisher.inFlight), AsList(s.publisher.latest);
    assert SegmentsIn(s.transit) + [] == SegmentsIn(s.transit);
    match step
    case Close => TrailAfter(s, t, [], flight, if s.publisher.closed then [] else latest, []);
    case EncodeFails => TrailAfter(s, t, [], [], flight, latest);
    case Write => TrailAfter(s, t, flight, [], [], latest);
    case WriteFails(_) => TrailAfter(s, t, moved, [], if moved == [] then flight else [], latest);
    case Stop(_, _) => TrailAfter(s, t, moved, [], if moved == [] then flight else [], latest);
    case _ => TrailAfter(s, t, [], flight + latest, [], []);
  }

  /** The producing side moves records on their way or drops them. */
  lemma ProducerKeeps(s: System, step: Step)
    requires Invariant(s) && Enabled(s, step)
    requires !step.Publish? && !step.Meet? && !step.Read? && !step.End?
    ensures Invariant(Next(s, step))
  {
    hide Accounted, Chain, AllEarlier, Trail, Added;
    ProducerTrail(s, step);
    P.PublisherStaysBalanced(s.publisher, s.check, s.publisher.previousKeyframe);
    if step.WriteFails? {
      P.PublisherStaysBalanced(P.Lost(s.publisher), s.check, s.publisher.previousKeyframe);
    }
  }

  lemma ReceiverKeeps(s: System, step: Step)
    requires Invariant(s) && Enabled(s, step) && (step.Meet? || step.End?)
    ensures Invariant(Next(s, step))
  {
    hide Before, Earlier, SegmentsIn, Chain, AllEarlier, KeyframeError, P.Balanced, Added, Accounted, Handle;
    if step.End? {
      HandleKeepsAccount(s.receiver.history, Disconnection);
      DisconnectedHistory(s.receiver.history);
    }
    assert Trail(Next(s, step)) == Trail(s);
  }

  lemma DisconnectedHistory(h: History)
    ensures var g := Handle(h, Disconnection); g.accepted == h.accepted && g.state.header == h.state.header
  {
  }

  lemma ReadKeeps(s: System, skipped: nat)
    requires Invariant(s) && Enabled(s, Read(skipped))
    ensures Invariant(Next(s, Read(skipped)))
  {
    hide Before, Earlier, Chain, AllEarlier, KeyframeError, P.Balanced, Accounted, R.Receive, Accepted, SegmentsIn,
         AsList;
    var t := Next(s, Read(skipped));
    ReceiveKeeps(s, s.transit[skipped].record);
    SameAccepted(t, s.(receiver := t.receiver));
    var one := SegmentsIn([s.transit[skipped]]);
    var dropped, tail := TrailAround(s, skipped);
    TrailAfterRead(s, t, tail);
    if Accepted(t) == Accepted(s) {
      TrailWithout(s, t, Accepted(s), dropped + one, tail);
    } else {
      SegmentsInOne(s.transit[skipped]);
      assert Accepted(t) == Accepted(s) + one;
      assert Accepted(s) + one + tail == Accepted(s) + (one + tail);
      TrailWithout(s, t, Accepted(s), dropped, one + tail);
    }
  }

  /** The trail around one parcel. */
  lemma TrailAround(s: System, k: nat) returns (dropped: seq<Segment>, tail: seq<Segment>)
    requires k < |s.transit|
    ensures var one := SegmentsIn([s.transit[k]]);
            Trail(s) == Accepted(s) + (dropped + one) + tail && Trail(s) == Accepted(s) + dropped + (one + tail)
    ensures tail == SegmentsIn(s.transit[k + 1..]) + AsList(s.publisher.inFlight) + AsList(s.publisher.latest)
  {
    hide SegmentsIn;
    var parcel, rest := s.transit[k], s.transit[k + 1..];
    dropped := SegmentsIn(s.transit[..k]);
    tail := SegmentsIn(rest) + AsList(s.publisher.inFlight) + AsList(s.publisher.latest);
    assert s.transit == s.transit[..k] + ([parcel] + rest);
    SegmentsInBoth(s.transit[..k], [parcel] + rest);
    SegmentsInBoth([parcel], rest);
  }

  lemma SameAccepted(a: System, b: System)
    requires a.header == b.header && a.receiver == b.receiver
    ensures Accepted(a) == Accepted(b)
  {
  }

  lemma TrailAfterRead(s: System, t: System, tail: seq<Segment>)
    requires tail == SegmentsIn(t.transit) + AsList(t.publisher.inFlight) + AsList(t.publisher.latest)
    ensures Trail(t) == Accepted(t) + tail
  {
    hide SegmentsIn, Accepted;
  }

  /** One record read: it is accepted as the next segment of the run, or the accepted segments stay the same. */
  lemma ReceiveKeeps(s: System, record: R.Record)
    requires Invariant(s) && s.receiver.active && R.Usable(record)
    requires record.HeaderRecord? ==> record.header == s.header
    ensures var r := R.Receive(s.receiver, record, s.readable(record));
            var t := s.(receiver := r);
            && (Accepted(t) == Accepted(s) || (record.SegmentRecord? && Accepted(t) == Accepted(s) + [record.segment]))
            && Accounted(r.history)
            && (r.headerRead ==> r.active && r.history.state.header == Some(s.header) && r.history.state.connected)
            && (r.history.state.header.Some? && r.history.state.header.value.runId == s.header.runId ==>
                  r.history.state.header == Some(s.header))
  {
    hide KeyframeError, Chain, AllEarlier, Accounted, GridCovers, P.Balanced;
    if record.HeaderRecord? {
      HandleKeepsAccount(s.receiver.history, HeaderInput(record.header));
    } else {
      HandleKeepsAccount(s.receiver.history, SegmentInput(record.segment));
    }
    HandleKeepsAccount(s.receiver.history, Disconnection);
    NoSegmentsWithoutHeader(s.receiver.history);
  }

  lemma NoSegmentsWithoutHeader(h: History)
    requires Accounted(h)
    ensures h.state.header.None? ==> h.accepted == []
  {
    hide KeyframeError;
  }

  lemma NextKeeps(s: System, step: Step)
    requires Invariant(s) && Enabled(s, step)
    ensures Invariant(Next(s, step))
  {
    hide Invariant, Next;
    match step
    case Publish(keyframe) => PublishKeeps(s, keyframe);
    case Read(skipped) => ReadKeeps(s, skipped);
    case Meet => ReceiverKeeps(s, step);
    case End(_) => ReceiverKeeps(s, step);
    case _ => ProducerKeeps(s, step);
  }

  // ---------------------------------------------------------------- runs

  ghost predicate CanRun(s: System, steps: seq<Step>)
    decreases |steps|
  {
    steps == [] || (Enabled(s, steps[0]) && CanRun(Next(s, steps[0]), steps[1..]))
  }

  ghost function Run(s: System, steps: seq<Step>): System
    requires CanRun(s, steps)
    decreases |steps|
  {
    if steps == [] then s else Run(Next(s, steps[0]), steps[1..])
  }

  lemma {:induction false} RunKeeps(s: System, steps: seq<Step>)
    requires Invariant(s) && CanRun(s, steps)
    ensures Invariant(Run(s, steps))
    decreases |steps|
  {
    hide Invariant, Next;
    if steps != [] {
      NextKeeps(s, steps[0]);
      RunKeeps(Next(s, steps[0]), steps[1..]);
    }
  }

  /** In every run the receiver accepts segments strictly increasing in number and time, consecutive numbers continue
      each other's surface, and the last number counts accepted and missing segments together; on the publisher every
      accepted record is sent, dropped, queued or in flight, and sent or dropped once it has stopped. */
  lemma EveryRunIsOrdered(s: System, keyframe: Keyframe, steps: seq<Step>)
    requires Initial(s, keyframe) && CanRun(s, steps)
    ensures var t := Run(s, steps);
            var counters := t.publisher.counters;
            && Chain(Accepted(t))
            && (t.receiver.history.state.header == Some(s.header) ==>
                  LastSequence(t.receiver.history.state)
                  == |Accepted(t)| + t.receiver.history.state.missingSequences)
            && counters.accepted == counters.sent + counters.dropped + P.Held(t.publisher.latest)
                + P.Held(t.publisher.inFlight)
            && (t.stopped ==> counters.accepted == counters.sent + counters.dropped)
  {
    hide Next, SegmentsIn, Before, Earlier, Enabled;
    InitialHolds(s, keyframe);
    RunKeeps(s, steps);
    SameHeader(s, steps);
    var t := Run(s, steps);
    assert Trail(t) == Accepted(t) + (SegmentsIn(t.transit) + AsList(t.publisher.inFlight)
           + AsList(t.publisher.latest)) + [];
    ChainWithout(Accepted(t), SegmentsIn(t.transit) + AsList(t.publisher.inFlight) + AsList(t.publisher.latest), [],
        t.publisher);
    assert Accepted(t) + [] == Accepted(t);
  }

  lemma {:induction false} SameHeader(s: System, steps: seq<Step>)
    requires CanRun(s, steps)
    ensures Run(s, steps).header == s.header
    decreases |steps|
  {
    hide R.Receive, P.Publish;
    if steps != [] {
      SameHeader(Next(s, steps[0]), steps[1..]);
    }
  }

  /** In every reachable state a segment that is read can be refused only for its keyframes: never as a duplicate, as
      old, as out of time order, for its run, or for want of a header or a connection. */
  lemma NothingIsOutOfOrder(s: System, keyframe: Keyframe, steps: seq<Step>, skipped: nat)
    requires Initial(s, keyframe) && CanRun(s, steps) && CanRead(Run(s, steps), skipped)
    requires Run(s, steps).receiver.headerRead && Run(s, steps).transit[skipped].record.SegmentRecord?
    ensures var t := Run(s, steps);
            var segment := t.transit[skipped].record.segment;
            var r := AcceptSegment(t.receiver.history.state, segment);
            r.Failure? ==> r.error == Inlet || r.error == SurfaceShape || r.error == SurfaceHeight
  {
    hide Next, Enabled, ShapeFits, HeightsFit;
    InitialHolds(s, keyframe);
    RunKeeps(s, steps);
    var t := Run(s, steps);
    var segment := t.transit[skipped].record.segment;
    AfterAccepted(t, skipped);
  }

  lemma EarlierMeans(p: P.Publisher, trail: seq<Segment>, i: nat)
    requires AllEarlier(p, trail) && i < |trail|
    ensures trail[i].runId == p.runId && trail[i].sequence > 0
  {
    assert Earlier(p, trail[i]);
  }

  lemma AfterAccepted(t: System, skipped: nat)
    requires Invariant(t) && skipped < |t.transit| && t.transit[skipped].record.SegmentRecord?
    ensures var segment := t.transit[skipped].record.segment;
            && segment.runId == t.header.runId && segment.sequence > 0
            && forall i | 0 <= i < |Accepted(t)| :: Before(Accepted(t)[i], segment)
  {
    hide Accounted, Before, P.Balanced, Earlier;
    var dropped, tail := TrailAround(t, skipped);
    SegmentsInOne(t.transit[skipped]);
    var at := |Accepted(t)| + |dropped|;
    assert Trail(t)[at] == t.transit[skipped].record.segment;
    EarlierMeans(t.publisher, Trail(t), at);
    forall i | 0 <= i < |Accepted(t)| ensures Before(Accepted(t)[i], t.transit[skipped].record.segment) {
      assert Trail(t)[i] == Accepted(t)[i];
    }
  }

  // ---------------------------------------------------------------- which connection is read

  /** A parcel that was read brought the segment. */
  predicate Carried(log: seq<Parcel>, x: Segment) {
    exists i :: 0 <= i < |log| && log[i].record == R.SegmentRecord(x)
  }

  /** Parcels are on their way in the order of their connections; the connection being served was not turned away, and
      neither was any that was ever read; and every accepted segment was read. */
  ghost predicate Routed(s: System) {
    && s.met <= s.connections
    && (forall i | 0 <= i < |s.transit| :: s.transit[i].connection < s.connections)
    && (forall i, j | 0 <= i < j < |s.transit| :: s.transit[i].connection <= s.transit[j].connection)
    && (s.receiver.active ==> s.serving < s.met && s.serving !in s.rejected)
    && (forall k | k in s.rejected :: k < s.met)
    && (forall i | 0 <= i < |s.log| :: s.log[i].connection < s.met && s.log[i].connection !in s.rejected)
    && (forall x | x in Accepted(s) :: Carried(s.log, x))
  }

  lemma ReadRoutes(s: System, skipped: nat)
    requires Invariant(s) && Routed(s) && Enabled(s, Read(skipped))
    ensures Routed(Next(s, Read(skipped)))
  {
    hide Before, Earlier, Chain, AllEarlier, KeyframeError, P.Balanced, Accounted, R.Receive, Accepted, SegmentsIn;
    var t, parcel := Next(s, Read(skipped)), s.transit[skipped];
    ReceiveKeeps(s, parcel.record);
    SameAccepted(t, s.(receiver := t.receiver));
    ActiveOnlyBefore(s.receiver, parcel.record, s.readable(parcel.record));
    forall x | x in Accepted(t) ensures Carried(t.log, x) {
      if x in Accepted(s) {
        var i :| 0 <= i < |s.log| && s.log[i].record == R.SegmentRecord(x);
        assert t.log[i] == s.log[i];
      } else {
        assert t.log[|s.log|].record == R.SegmentRecord(x);
      }
    }
  }

  lemma ActiveOnlyBefore(r: R.Receiver, record: R.Record, readable: bool)
    requires r.active && R.Usable(record)
    ensures var counts := R.Receive(r, record, readable).counts;
            counts.connectionsRejected == r.counts.connectionsRejected
  {
  }

  /** How many connections the receiver had turned away before the run. */
  function RejectedBefore(s: System): int {
    s.receiver.counts.connectionsRejected - |s.rejected|
  }

  lemma ReceiverRoutes(s: System, step: Step)
    requires Routed(s) && Enabled(s, step) && (step.Meet? || step.End?)
    ensures Routed(Next(s, step)) && RejectedBefore(Next(s, step)) == RejectedBefore(s)
  {
    hide Accepted, Carried;
    SameAcceptedSegments(s, step);
  }

  /** What the producing side puts on its way goes by its last connection, or by the next one, which it then opens. */
  lemma AddedInOrder(s: System, step: Step)
    requires Enabled(s, step) && !step.Meet? && !step.Read? && !step.End?
    requires s.publisher.inFlight.Some? ==> s.connections > 0
    ensures var t := Next(s, step);
            && s.connections <= t.connections && |Added(s, step)| <= 1
            && forall i | 0 <= i < |Added(s, step)| ::
                 s.connections - 1 <= Added(s, step)[i].connection == t.connections - 1
  {
    hide P.Publish, P.ConnectionFailed, P.Lost, P.Sent, P.Reconcile, P.CloseShared, P.TakeLatest;
  }

  /** The routing carries over to a state that differs in connections opened, and in parcels added in order. */
  lemma RoutedAfter(s: System, t: System, added: seq<Parcel>)
    requires Routed(s) && s.connections <= t.connections && t.transit == s.transit + added && |added| <= 1
    requires t.met == s.met && t.rejected == s.rejected && t.log == s.log && t.serving == s.serving
    requires t.receiver == s.receiver && t.header == s.header
    requires forall i | 0 <= i < |added| :: s.connections - 1 <= added[i].connection == t.connections - 1
    ensures Routed(t) && RejectedBefore(t) == RejectedBefore(s)
  {
    hide Carried, SegmentsIn;
    SameAccepted(t, s);
  }

  lemma ReceiverUntouched(s: System, step: Step)
    requires Enabled(s, step) && !step.Meet? && !step.Read? && !step.End?
    ensures var t := Next(s, step);
            && t.met == s.met && t.rejected == s.rejected && t.log == s.log && t.serving == s.serving
            && t.receiver == s.receiver && t.header == s.header
  {
    hide P.Publish, P.ConnectionFailed, P.Lost, P.Sent, P.Reconcile, P.CloseShared, P.TakeLatest, Added;
  }

  lemma SomethingConnected(s: System)
    requires Invariant(s)
    ensures s.publisher.inFlight.Some? ==> s.connections > 0
  {
    hide P.Balanced, Chain, AllEarlier, Accounted, Trail;
  }

  lemma ProducerRoutes(s: System, step: Step)
    requires Invariant(s) && Routed(s) && Enabled(s, step) && !step.Meet? && !step.Read? && !step.End?
    ensures Routed(Next(s, step)) && RejectedBefore(Next(s, step)) == RejectedBefore(s)
  {
    hide *;
    SomethingConnected(s);
    AddedInOrder(s, step);
    ProducerAppends(s, step);
    ReceiverUntouched(s, step);
    RoutedAfter(s, Next(s, step), Added(s, step));
  }

  /** Every step keeps the routing, and counts exactly the connections it turns away. */
  lemma RoutingKept(s: System, step: Step)
    requires Invariant(s) && Routed(s) && Enabled(s, step)
    ensures Routed(Next(s, step)) && RejectedBefore(Next(s, step)) == RejectedBefore(s)
  {
    hide Routed, Invariant, R.Receive;
    match step
    case Read(skipped) =>
      ReadRoutes(s, skipped);
      ActiveOnlyBefore(s.receiver, s.transit[skipped].record, s.readable(s.transit[skipped].record));
    case Meet => ReceiverRoutes(s, step);
    case End(_) => ReceiverRoutes(s, step);
    case _ => ProducerRoutes(s, step);
  }

  lemma SameAcceptedSegments(s: System, step: Step)
    requires Enabled(s, step) && !step.Read?
    ensures Accepted(Next(s, step)) == Accepted(s)
  {
  }

  lemma {:induction false} RunRoutes(s: System, steps: seq<Step>)
    requires Invariant(s) && Routed(s) && CanRun(s, steps)
    ensures var t := Run(s, steps);
            Invariant(t) && Routed(t) && RejectedBefore(t) == RejectedBefore(s)
    decreases |steps|
  {
    hide Invariant, Routed, Next, RejectedBefore;
    if steps != [] {
      NextKeeps(s, steps[0]);
      RoutingKept(s, steps[0]);
      RunRoutes(Next(s, steps[0]), steps[1..]);
    }
  }

  /** Over every run no record of a connection that was turned away is ever read: every accepted segment was carried by a
      connection that was served. The receiver's count of rejections is the number of connections turned away. */
  lemma RejectedConnectionsAreNeverRead(s: System, keyframe: Keyframe, steps: seq<Step>)
    requires Initial(s, keyframe) && CanRun(s, steps)
    ensures var t := Run(s, steps);
            && (forall i | 0 <= i < |t.log| :: t.log[i].connection < t.met && t.log[i].connection !in t.rejected)
            && (forall x | x in Accepted(t) ::
                  exists i ::
                    0 <= i < |t.log| && t.log[i].record == R.SegmentRecord(x) && t.log[i].connection !in t.rejected)
            && t.receiver.counts.connectionsRejected == s.receiver.counts.connectionsRejected + |t.rejected|
  {
    hide Next, Invariant, Enabled;
    InitialHolds(s, keyframe);
    RunRoutes(s, steps);
    var t := Run(s, steps);
    forall x | x in Accepted(t)
      ensures exists i :: 0 <= i < |t.log| && t.log[i].record == R.SegmentRecord(x) && t.log[i].connection !in t.rejected
    {
      assert Carried(t.log, x);
      var i :| 0 <= i < |t.log| && t.log[i].record == R.SegmentRecord(x);
      assert t.log[i].connection !in t.rejected;
    }
  }

  /** Turning a connection away is counted and leaves the reading of the one being served as it was; what a read passes
      over belongs to connections that will never be served again. */
  lemma ServedConnectionGoesOn(s: System, skipped: nat)
    requires Routed(s) && CanRead(s, skipped)
    ensures forall i | 0 <= i < skipped :: s.transit[i].connection < s.serving
    ensures Enabled(s, Meet) ==>
              var t := Next(s, Meet);
              && CanRead(t, skipped) && t.transit == s.transit && t.serving == s.serving
              && t.receiver.history == s.receiver.history && t.receiver.headerRead == s.receiver.headerRead
              && t.receiver.counts.connectionsRejected == s.receiver.counts.connectionsRejected + 1
              && s.met in t.rejected
              && forall k: nat | k < |s.transit| && s.transit[k].connection in t.rejected :: !CanRead(t, k)
  {
    hide Accepted;
    if Enabled(s, Meet) {
      var t := Next(s, Meet);
      forall k: nat | k < |s.transit| && s.transit[k].connection in t.rejected ensures !CanRead(t, k) {
        assert t.serving !in t.rejected;
      }
    }
  }

  // ---------------------------------------------------------------- what is published is delivered

  /** Steps one after the other, each enabled. */
  ghost predicate Leads(s: System, steps: seq<Step>, t: System)
    decreases |steps|
  {
    if steps == [] then s == t
    else Enabled(s, steps[0]) && Leads(Next(s, steps[0]), steps[1..], t)
  }

  lemma LeadsOn(s: System, step: Step, steps: seq<Step>, t: System)
    requires Enabled(s, step) && Leads(Next(s, step), steps, t)
    ensures Leads(s, [step] + steps, t)
  {
    hide Next, Enabled;
    assert ([step] + steps)[1..] == steps;
  }

  lemma ThreeSteps(s: System, a: Step, b: Step, c: Step)
    requires Enabled(s, a) && Enabled(Next(s, a), b) && Enabled(Next(Next(s, a), b), c)
    ensures Leads(s, [a, b, c], Next(Next(Next(s, a), b), c))
  {
    hide Next, Enabled;
    var t := Next(Next(Next(s, a), b), c);
    LeadsOn(Next(Next(s, a), b), c, [], t);
    LeadsOn(Next(s, a), b, [c], t);
    LeadsOn(s, a, [b, c], t);
    assert [a] + [b, c] == [a, b, c] && [b] + [c] == [b, c] && [c] + [] == [c];
  }

  /** The only parcel on its way, on the connection being served, is read next. */
  lemma OnlyParcelIsRead(s: System, parcel: Parcel)
    requires s.receiver.active && s.transit == [parcel] && parcel.connection == s.serving && R.Usable(parcel.record)
    ensures Enabled(s, Read(0))
    ensures Next(s, Read(0))
         == s.(transit := [], receiver := R.Receive(s.receiver, parcel.record, s.readable(parcel.record)),
               log := s.log + [parcel])
  {
    hide R.Receive;
    assert s.transit[1..] == [];
  }

  /** The side that sends can start: something is queued, no connection is open or tried, and the receiver has met them
      all and serves none. */
  predicate Quiet(s: System) {
    && !s.stopped && !s.attempting && !s.connected && !s.publisher.closed && s.publisher.latest.Some?
    && !s.receiver.active && s.met == s.connections && s.transit == []
  }

  lemma ConnectionIsOpened(s: System)
    requires Quiet(s)
    ensures Enabled(s, Attempt) && Enabled(Next(s, Attempt), Connect) && Enabled(Next(Next(s, Attempt), Connect), Meet)
    ensures Next(Next(Next(s, Attempt), Connect), Meet)
         == s.(connected := true, connections := s.connections + 1, met := s.connections + 1,
               serving := s.connections, transit := [Parcel(s.connections, R.HeaderRecord(s.header))],
               receiver := R.Connect(s.receiver))
  {
    hide P.Publish;
    var parcel := Parcel(s.connections, R.HeaderRecord(s.header));
    assert [] + [parcel] == [parcel];
  }

  /** A connection that is opened, met and read: its header is accepted, and it is the one being served. */
  lemma ConnectionIsServed(s: System) returns (t: System)
    requires Quiet(s) && R.Usable(R.HeaderRecord(s.header)) && s.readable(R.HeaderRecord(s.header))
    requires AcceptHeader(s.receiver.history.state, s.header).Success?
    ensures Leads(s, [Attempt, Connect, Meet, Read(0)], t)
    ensures t.connected && t.connections == s.connections + 1 == t.met && t.serving == s.connections
    ensures t.receiver.active && t.receiver.headerRead && t.transit == [] && t.publisher == s.publisher
    ensures t.receiver.history.state == AcceptHeader(s.receiver.history.state, s.header).value.state
    ensures t.receiver.counts
         == s.receiver.counts.(connectionsAccepted := s.receiver.counts.connectionsAccepted + 1,
                               recordsAccepted := s.receiver.counts.recordsAccepted + 1)
  {
    hide AcceptHeader, Next, Enabled, Leads, R.Receive, R.Connect;
    ConnectionIsOpened(s);
    var one := Next(s, Attempt);
    var three, parcel := Next(Next(one, Connect), Meet), Parcel(s.connections, R.HeaderRecord(s.header));
    R.ConnectionsTakeTurns(s.receiver, false);
    OnlyParcelIsRead(three, parcel);
    R.RecordIsHandled(three.receiver, parcel.record, true);
    t := Next(three, Read(0));
    ThreeSteps(one, Connect, Meet, Read(0));
    LeadsOn(s, Attempt, [Connect, Meet, Read(0)], t);
    assert [Attempt] + [Connect, Meet, Read(0)] == [Attempt, Connect, Meet, Read(0)];
  }

  /** The connection in use is the one being served, its header was read, and nothing is on its way. */
  predicate Serving(s: System) {
    && s.connected && s.connections > 0 && s.serving == s.connections - 1 && s.transit == []
    && s.receiver.active && s.receiver.headerRead && s.publisher.inFlight.None?
  }

  lemma RecordIsWritten(s: System)
    requires Serving(s) && P.Balanced(s.publisher) && s.publisher.latest.Some?
    ensures Enabled(s, Take) && Enabled(Next(s, Take), Write)
    ensures Next(Next(s, Take), Write)
         == s.(publisher := s.publisher.(latest := None,
                                         counters := s.publisher.counters.(sent := s.publisher.counters.sent + 1)),
               transit := [Parcel(s.connections - 1, R.SegmentRecord(s.publisher.latest.value))])
  {
    hide P.Publish, P.Balanced, P.TakeLatest, P.Sent;
    P.RecordsAreSettled(s.publisher);
    P.PublisherStaysBalanced(s.publisher, s.check, s.publisher.previousKeyframe);
    P.RecordsAreSettled(Next(s, Take).publisher);
    var parcel := Parcel(s.connections - 1, R.SegmentRecord(s.publisher.latest.value));
    assert [] + [parcel] == [parcel];
  }

  /** A queued record that the receiver's state accepts is taken, written and read: the receiver holds it, and both sides
      count it. */
  lemma QueuedRecordIsDelivered(s: System) returns (t: System)
    requires Serving(s) && P.Balanced(s.publisher) && s.publisher.latest.Some?
    requires s.readable(R.SegmentRecord(s.publisher.latest.value))
    requires AcceptSegment(s.receiver.history.state, s.publisher.latest.value).Success?
    ensures Leads(s, [Take, Write, Read(0)], t) && Serving(t)
    ensures t.receiver.history.state.segment == s.publisher.latest
    ensures t.receiver.history.accepted == s.receiver.history.accepted + [s.publisher.latest.value]
    ensures t.receiver.counts == s.receiver.counts.(recordsAccepted := s.receiver.counts.recordsAccepted + 1)
    ensures t.publisher
         == s.publisher.(latest := None,
                         counters := s.publisher.counters.(sent := s.publisher.counters.sent + 1))
  {
    hide AcceptSegment, Next, Enabled, Leads, R.Receive, P.Balanced;
    RecordIsWritten(s);
    var two, parcel := Next(Next(s, Take), Write),
                       Parcel(s.connections - 1, R.SegmentRecord(s.publisher.latest.value));
    OnlyParcelIsRead(two, parcel);
    R.RecordIsHandled(two.receiver, parcel.record, true);
    SegmentIsAccepted(s.receiver.history.state, s.publisher.latest.value);
    t := Next(two, Read(0));
    ThreeSteps(s, Take, Write, Read(0));
  }

  /** A record whose write fails may still arrive in full. Either way it counts as dropped, the failure is counted, and the
      connection is given up. */
  lemma FailedWriteMayArrive(s: System, arrives: bool)
    requires s.connected && s.connections > 0 && s.publisher.inFlight.Some? && P.Balanced(s.publisher)
    ensures var t, parcel := Next(s, WriteFails(arrives)),
                             Parcel(s.connections - 1, R.SegmentRecord(s.publisher.inFlight.value));
            && t.transit == (if arrives then s.transit + [parcel] else s.transit) && !t.connected
            && t.publisher.inFlight.None? && t.publisher.latest == s.publisher.latest
            && t.publisher.counters.dropped == s.publisher.counters.dropped + 1
            && t.publisher.counters.sent == s.publisher.counters.sent && t.receiver == s.receiver
  {
    hide P.Publish;
    P.RecordsAreSettled(s.publisher);
    P.PublisherStaysBalanced(s.publisher, s.check, s.publisher.previousKeyframe);
    P.RecordsAreSettled(P.Lost(s.publisher));
    assert s.transit + [] == s.transit;
  }

  /** An attempt that fails may have opened a connection with its header; and stopping the closed publisher interrupts
      whatever goes on: an attempt may have opened a connection, with or without its header, and a record in flight may
      arrive although it counts as dropped. */
  lemma InterruptedMayArrive(s: System, connects: bool, arrives: bool)
    requires P.Balanced(s.publisher) && !s.stopped
    ensures s.attempting ==>
              var t, header := Next(s, HeaderFails(arrives)), Parcel(s.connections, R.HeaderRecord(s.header));
              && t.transit == (if arrives then s.transit + [header] else s.transit)
              && t.connections == s.connections + 1 && !t.attempting && t.receiver == s.receiver
              && Next(s, ConnectFails) == s.(attempting := false, publisher := t.publisher)
    ensures s.publisher.closed ==>
              var t, header := Next(s, Stop(connects, arrives)), Parcel(s.connections, R.HeaderRecord(s.header));
              && t.stopped && !t.attempting && !t.connected && t.receiver == s.receiver
              && t.publisher.inFlight == None && t.publisher.counters.sent == s.publisher.counters.sent
              && t.connections == s.connections + (if s.attempting && connects then 1 else 0)
              && if s.attempting then
                   t.transit == if connects && arrives then s.transit + [header] else s.transit
                 else if arrives && s.connections > 0 && s.publisher.inFlight.Some? then
                   t.transit == s.transit
                                + [Parcel(s.connections - 1, R.SegmentRecord(s.publisher.inFlight.value))]
                 else t.transit == s.transit
  {
    hide P.Publish, P.ConnectionFailed;
    P.RecordsAreSettled(s.publisher);
    assert s.transit + [] == s.transit;
  }
}

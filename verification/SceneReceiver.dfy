/** The single-producer scene receiver and its connections
    (services/visualizer/src/scrap_monitoring_visualizer/receiver/server.py). */
module SceneReceiver {
  import opened Wrappers
  import opened SceneState

  datatype Record = HeaderRecord(header: Header) | SegmentRecord(segment: Segment)

  datatype Counts = Counts(connectionsAccepted: nat, connectionsRejected: nat, recordsAccepted: nat,
                           recordsRejected: nat, partialLinesDiscarded: nat)

  /** The receiver with the segments accepted in the current run; headerRead belongs to the active connection. */
  datatype Receiver = Receiver(history: History, active: bool, headerRead: bool, counts: Counts)

  predicate Usable(record: Record) {
    record.HeaderRecord? ==> |record.header.x| > 0 && |record.header.y| > 0
  }

  /** A connection is taken only when no other is active. */
  function Connect(r: Receiver): Receiver {
    if r.active then r.(counts := r.counts.(connectionsRejected := r.counts.connectionsRejected + 1))
    else r.(active := true, headerRead := false,
         counts := r.counts.(connectionsAccepted := r.counts.connectionsAccepted + 1))
  }

  /** The end of the active connection, for whatever reason. */
  function End(r: Receiver, partial: bool): Receiver
    requires r.active
  {
    Receiver(if r.headerRead then Handle(r.history, Disconnection) else r.history, false, false,
             if partial then r.counts.(partialLinesDiscarded := r.counts.partialLinesDiscarded + 1) else r.counts)
  }

  /** The first record of a connection must be an acceptable header, or the connection ends. */
  function ReadHeader(r: Receiver, record: Record, readable: bool): Receiver
    requires r.active && !r.headerRead && Usable(record)
  {
    if readable && record.HeaderRecord? && AcceptHeader(r.history.state, record.header).Success? then
      Receiver(Handle(r.history, HeaderInput(record.header)), true, true,
               r.counts.(recordsAccepted := r.counts.recordsAccepted + 1))
    else End(r, false)
  }

  /** A later record is accepted as a segment or counted as rejected; the connection goes on. */
  function ProcessSegment(r: Receiver, record: Record, readable: bool): Receiver
    requires r.active && r.headerRead && Usable(record)
  {
    if readable && record.SegmentRecord? && AcceptSegment(r.history.state, record.segment).Success? then
      r.(history := Handle(r.history, SegmentInput(record.segment)),
         counts := r.counts.(recordsAccepted := r.counts.recordsAccepted + 1))
    else r.(counts := r.counts.(recordsRejected := r.counts.recordsRejected + 1))
  }

  function Receive(r: Receiver, record: Record, readable: bool): Receiver
    requires r.active && Usable(record)
  {
    if r.headerRead then ProcessSegment(r, record, readable) else ReadHeader(r, record, readable)
  }

  // ---------------------------------------------------------------- what becomes of a record

  /** The first record of a connection opens the run with a header that the state accepts; anything else ends the
      connection and changes nothing. After that every record is either accepted as the next segment, or only counted as
      rejected. */
  lemma RecordIsHandled(r: Receiver, record: Record, readable: bool)
    requires r.active && Usable(record)
    ensures var q, state := Receive(r, record, readable), r.history.state;
            if !r.headerRead then
              if readable && record.HeaderRecord? && AcceptHeader(state, record.header).Success? then
                var t := AcceptHeader(state, record.header).value;
                q == Receiver(History(t.state, if t.event.NewRun? then [] else r.history.accepted), true, true,
                              r.counts.(recordsAccepted := r.counts.recordsAccepted + 1))
              else q == r.(active := false)
            else if readable && record.SegmentRecord? && AcceptSegment(state, record.segment).Success? then
              q == r.(history := History(AcceptSegment(state, record.segment).value.state,
                                         r.history.accepted + [record.segment]),
                      counts := r.counts.(recordsAccepted := r.counts.recordsAccepted + 1))
            else q == r.(counts := r.counts.(recordsRejected := r.counts.recordsRejected + 1))
  {
    hide AcceptHeader, AcceptSegment;
  }

  /** One connection at a time: a second one is counted and turned away. The end of the one that is served marks the run
      as disconnected once its header was read, and frees the receiver. */
  lemma ConnectionsTakeTurns(r: Receiver, partial: bool)
    ensures Connect(r)
         == if r.active then r.(counts := r.counts.(connectionsRejected := r.counts.connectionsRejected + 1))
            else r.(active := true, headerRead := false,
                    counts := r.counts.(connectionsAccepted := r.counts.connectionsAccepted + 1))
    ensures r.active ==>
              var q := End(r, partial);
              && !q.active && !q.headerRead && q.history.accepted == r.history.accepted
              && q.history.state == (if r.headerRead then r.history.state.(connected := false) else r.history.state)
              && q.counts == r.counts.(partialLinesDiscarded :=
                                         r.counts.partialLinesDiscarded + if partial then 1 else 0)
  {
  }

  // ---------------------------------------------------------------- the receiver as it runs

  class SceneReceiver {
    var state: ExecutionState
    var active: bool
    var headerRead: bool
    var counts: Counts
    ghost var accepted: seq<Segment>

    ghost function Current(): Receiver
      reads this
    {
      Receiver(History(state, accepted), active, headerRead, counts)
    }

    constructor ()
      ensures Current() == Receiver(History(INITIAL_STATE, []), false, false, Counts(0, 0, 0, 0, 0))
      ensures Accounted(Current().history)
    {
      state, active, headerRead := INITIAL_STATE, false, false;
      counts := Counts(0, 0, 0, 0, 0);
      accepted := [];
    }

    method Accept() returns (taken: bool)
      modifies this
      ensures Current() == Connect(old(Current())) && taken == !old(active)
    {
      if active {
        counts := counts.(connectionsRejected := counts.connectionsRejected + 1);
        return false;
      }
      active, headerRead := true, false;
      counts := counts.(connectionsAccepted := counts.connectionsAccepted + 1);
      return true;
    }

    method EndConnection(partial: bool)
      requires active
      modifies this
      ensures Current() == End(old(Current()), partial)
    {
      if partial {
        counts := counts.(partialLinesDiscarded := counts.partialLinesDiscarded + 1);
      }
      if headerRead {
        state := Disconnect(state).state;
      }
      active, headerRead := false, false;
    }

    /** The records of one read in order, up to the end of the connection. */
    method ReceiveAll(records: seq<Record>, readable: seq<bool>) returns (taken: nat)
      requires active && |records| == |readable| && forall i | 0 <= i < |records| :: Usable(records[i])
      modifies this
      ensures taken <= |records| && (active ==> taken == |records|)
      ensures Current() == ReceiveRecords(old(Current()), records, readable, taken)
    {
      taken := 0;
      while taken < |records| && active
        invariant taken <= |records|
        invariant ReceiveRecords(old(Current()), records, readable, taken) == Current()
        decreases |records| - taken
      {
        ReceiveOne(records[taken], readable[taken]);
        taken := taken + 1;
      }
    }

    method ReceiveOne(record: Record, readable: bool)
      requires active && Usable(record)
      modifies this
      ensures Current() == Receive(old(Current()), record, readable)
    {
      if !headerRead {
        if !readable || !record.HeaderRecord? {
          EndConnection(false);
          return;
        }
        var transition := AcceptHeader(state, record.header);
        if transition.Failure? {
          EndConnection(false);
          return;
        }
        state, headerRead := transition.value.state, true;
        accepted := if transition.value.event.NewRun? then [] else accepted;
      } else {
        if !readable || !record.SegmentRecord? {
          counts := counts.(recordsRejected := counts.recordsRejected + 1);
          return;
        }
        var transition := AcceptSegment(state, record.segment);
        if transition.Failure? {
          counts := counts.(recordsRejected := counts.recordsRejected + 1);
          return;
        }
        state := transition.value.state;
        accepted := accepted + [record.segment];
      }
      counts := counts.(recordsAccepted := counts.recordsAccepted + 1);
    }
  }

  /** The first n records, as long as the connection lasts. */
  function ReceiveRecords(r: Receiver, records: seq<Record>, readable: seq<bool>, n: nat): Receiver
    requires n <= |records| == |readable| && forall i | 0 <= i < |records| :: Usable(records[i])
    decreases n
  {
    if n == 0 then r
    else
      var earlier := ReceiveRecords(r, records, readable, n - 1);
      if earlier.active then Receive(earlier, records[n - 1], readable[n - 1]) else earlier
  }

  /** Records one after the other from the front, until there are none or the connection has ended. */
  function ReceiveInOrder(r: Receiver, records: seq<Record>, readable: seq<bool>): Receiver
    requires |records| == |readable| && forall i | 0 <= i < |records| :: Usable(records[i])
    decreases |records|
  {
    if records == [] || !r.active then r
    else ReceiveInOrder(Receive(r, records[0], readable[0]), records[1..], readable[1..])
  }

  lemma {:induction false} OneMoreInOrder(r: Receiver, records: seq<Record>, readable: seq<bool>, record: Record,
                                          more: bool)
    requires |records| == |readable| && Usable(record) && forall i | 0 <= i < |records| :: Usable(records[i])
    ensures var earlier := ReceiveInOrder(r, records, readable);
            ReceiveInOrder(r, records + [record], readable + [more])
            == if earlier.active then Receive(earlier, record, more) else earlier
    decreases |records|
  {
    hide Receive;
    if records == [] {
      assert [record][1..] == [] && [more][1..] == [];
      assert records + [record] == [record] && readable + [more] == [more];
    } else if r.active {
      OneMoreInOrder(Receive(r, records[0], readable[0]), records[1..], readable[1..], record, more);
      assert (records + [record])[1..] == records[1..] + [record];
      assert (readable + [more])[1..] == readable[1..] + [more];
    }
  }

  /** A read handles its records in their order, and none after the connection has ended. */
  lemma {:induction false} RecordsInOrder(r: Receiver, records: seq<Record>, readable: seq<bool>, n: nat)
    requires n <= |records| == |readable| && forall i | 0 <= i < |records| :: Usable(records[i])
    ensures ReceiveRecords(r, records, readable, n) == ReceiveInOrder(r, records[..n], readable[..n])
    decreases n
  {
    hide Receive, ReceiveInOrder;
    if n == 0 {
      NoRecords(r, records[..0], readable[..0]);
    } else {
      RecordsInOrder(r, records, readable, n - 1);
      OneMoreInOrder(r, records[..n - 1], readable[..n - 1], records[n - 1], readable[n - 1]);
      assert records[..n] == records[..n - 1] + [records[n - 1]];
      assert readable[..n] == readable[..n - 1] + [readable[n - 1]];
    }
  }

  lemma NoRecords(r: Receiver, records: seq<Record>, readable: seq<bool>)
    requires records == [] && readable == []
    ensures ReceiveInOrder(r, records, readable) == r
  {
  }
}

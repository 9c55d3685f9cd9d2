/** Run, connection and segment state of the scene receiver
    (services/visualizer/src/scrap_monitoring_visualizer/state/machine.py). */
module SceneState {
  import opened Wrappers

  datatype StateError = RunIdentity | HeaderRequired | Connection | RunId | DuplicateSequence | OldSequence
                      | SimulationTime | Inlet | SurfaceExtent | SurfaceShape | SurfaceHeight

  /** The static part of a run; identity stands for everything that the state only compares. */
  datatype Header = Header(runId: string, identity: nat, boundary: seq<(real, real)>, floor: real, top: real,
                           inlets: nat, x: seq<real>, y: seq<real>)

  datatype Keyframe = Keyframe(elapsed: real, filling: bool, inlet: Option<nat>, heights: seq<seq<real>>)

  datatype Segment = Segment(sequence: nat, runId: string, left: Keyframe, right: Keyframe)

  datatype ExecutionState = ExecutionState(header: Option<Header>, segment: Option<Segment>, connected: bool,
                                           connectionIndex: nat, missingSequences: nat)

  datatype Event = NewRun | Reconnected | NewSegment | Disconnected

  datatype Transition = Transition(state: ExecutionState, event: Event, sequenceGap: nat)

  const INITIAL_STATE := ExecutionState(None, None, false, 0, 0)

  /** The surface grid covers the boundary. */
  predicate GridCovers(header: Header)
    requires |header.x| > 0 && |header.y| > 0
  {
    forall p | p in header.boundary ::
      header.x[0] <= p.0 <= header.x[|header.x| - 1] && header.y[0] <= p.1 <= header.y[|header.y| - 1]
  }

  function AcceptHeader(state: ExecutionState, header: Header): Result<Transition, StateError>
    requires |header.x| > 0 && |header.y| > 0
  {
    if !GridCovers(header) then Failure(SurfaceExtent)
    else if state.header.Some? && state.header.value.runId == header.runId then
      if state.header.value != header then Failure(RunIdentity)
      else Success(Transition(state.(connected := true, connectionIndex := state.connectionIndex + 1), Reconnected, 0))
    else Success(Transition(ExecutionState(Some(header), None, true, state.connectionIndex + 1, 0), NewRun, 0))
  }

  predicate ShapeFits(header: Header, heights: seq<seq<real>>) {
    |heights| == |header.y| && forall row | row in heights :: |row| == |header.x|
  }

  predicate HeightsFit(header: Header, heights: seq<seq<real>>) {
    forall row | row in heights :: forall height | height in row :: header.floor <= height <= header.top
  }

  /** The error of a keyframe that does not belong to the static scene. */
  function KeyframeError(header: Header, keyframe: Keyframe): Option<StateError> {
    if keyframe.filling && (keyframe.inlet.None? || keyframe.inlet.value >= header.inlets) then Some(Inlet)
    else if !keyframe.filling && keyframe.inlet.Some? then Some(Inlet)
    else if !ShapeFits(header, keyframe.heights) then Some(SurfaceShape)
    else if !HeightsFit(header, keyframe.heights) then Some(SurfaceHeight)
    else None
  }

  /** The sequence number of the segment held, or 0. */
  function LastSequence(state: ExecutionState): nat {
    if state.segment.Some? then state.segment.value.sequence else 0
  }

  function AcceptSegment(state: ExecutionState, segment: Segment): Result<Transition, StateError> {
    if state.header.None? then Failure(HeaderRequired)
    else if !state.connected then Failure(Connection)
    else if segment.runId != state.header.value.runId then Failure(RunId)
    else if segment.sequence <= LastSequence(state) then
      Failure(if segment.sequence == LastSequence(state) then DuplicateSequence else OldSequence)
    else if state.segment.Some? && segment.right.elapsed <= state.segment.value.right.elapsed
         then Failure(SimulationTime)
    else
      var left, right := KeyframeError(state.header.value, segment.left),
          KeyframeError(state.header.value, segment.right);
      if left.Some? then Failure(left.value)
      else if right.Some? then Failure(right.value)
      else
        var gap := segment.sequence - LastSequence(state) - 1;
        Success(Transition(state.(segment := Some(segment), missingSequences := state.missingSequences + gap),
            NewSegment, gap))
  }

  function Disconnect(state: ExecutionState): Transition {
    Transition(state.(connected := false), Disconnected, 0)
  }

  // ---------------------------------------------------------------- what is accepted

  /** A keyframe of the scene: it names one of the inlets exactly while filling, and it gives a height within the limits
      for every node of the grid. */
  ghost predicate Belongs(header: Header, k: Keyframe) {
    && (k.inlet.Some? <==> k.filling) && (k.inlet.Some? ==> k.inlet.value < header.inlets)
    && |k.heights| == |header.y|
    && (forall i | 0 <= i < |k.heights| :: |k.heights[i]| == |header.x|)
    && forall i, j | 0 <= i < |k.heights| && 0 <= j < |k.heights[i]| ::
         header.floor <= k.heights[i][j] <= header.top
  }

  lemma NoErrorMeansBelongs(header: Header, k: Keyframe)
    ensures KeyframeError(header, k) == None <==> Belongs(header, k)
    ensures KeyframeError(header, k) in {None, Some(Inlet), Some(SurfaceShape), Some(SurfaceHeight)}
  {
    assert ShapeFits(header, k.heights) <==>
             |k.heights| == |header.y| && forall i | 0 <= i < |k.heights| :: |k.heights[i]| == |header.x|;
    HeightsWithin(header, k.heights);
  }

  lemma HeightsWithin(header: Header, heights: seq<seq<real>>)
    ensures HeightsFit(header, heights) <==>
              forall i, j | 0 <= i < |heights| && 0 <= j < |heights[i]| :: header.floor <= heights[i][j] <= header.top
  {
    if HeightsFit(header, heights) {
      forall i, j | 0 <= i < |heights| && 0 <= j < |heights[i]| ensures header.floor <= heights[i][j] <= header.top {
        assert heights[i] in heights && heights[i][j] in heights[i];
      }
    } else {
      var row :| row in heights && !forall height | height in row :: header.floor <= height <= header.top;
      var height :| height in row && !(header.floor <= height <= header.top);
      var i :| 0 <= i < |heights| && heights[i] == row;
      var j :| 0 <= j < |row| && row[j] == height;
      assert heights[i][j] == height;
    }
  }

  /** A segment is accepted on a connection, after its run's header, when both its number and its end are later than those
      of the segment held, and both its keyframes belong to the scene. The numbers left out count as missing. */
  lemma SegmentIsAccepted(state: ExecutionState, s: Segment)
    ensures var r, last := AcceptSegment(state, s), if state.segment == None then 0 else state.segment.value.sequence;
            && (r.Success? <==>
                  && state.header.Some? && state.connected && s.runId == state.header.value.runId && s.sequence > last
                  && (state.segment.Some? ==> s.right.elapsed > state.segment.value.right.elapsed)
                  && Belongs(state.header.value, s.left) && Belongs(state.header.value, s.right))
            && (r.Success? ==>
                  r.value == Transition(state.(segment := Some(s),
                                               missingSequences := state.missingSequences + (s.sequence - last - 1)),
                                        NewSegment, s.sequence - last - 1))
            && (r.Failure? ==>
                  && (r.error == HeaderRequired <==> state.header == None)
                  && (r.error == DuplicateSequence ==> s.sequence == last)
                  && (r.error == OldSequence ==> s.sequence < last)
                  && (r.error in {Inlet, SurfaceShape, SurfaceHeight} ==>
                        state.header.Some? && !(Belongs(state.header.value, s.left)
                                                && Belongs(state.header.value, s.right))))
  {
    hide KeyframeError, Belongs;
    if state.header.Some? {
      NoErrorMeansBelongs(state.header.value, s.left);
      NoErrorMeansBelongs(state.header.value, s.right);
    }
  }

  /** A header is accepted when its grid covers its boundary and, if its run is known, when it is the same header again:
      then the connection is resumed with everything held. Any other run starts afresh. */
  lemma HeaderIsAccepted(state: ExecutionState, header: Header)
    requires |header.x| > 0 && |header.y| > 0
    ensures var r, known := AcceptHeader(state, header),
                            state.header.Some? && state.header.value.runId == header.runId;
            && (r.Success? <==>
                  && (forall k | 0 <= k < |header.boundary| ::
                        var (x, y) := header.boundary[k];
                        && header.x[0] <= x && x <= header.x[|header.x| - 1]
                        && header.y[0] <= y && y <= header.y[|header.y| - 1])
                  && (known ==> state.header == Some(header)))
            && (r.Success? ==>
                  && r.value.sequenceGap == 0
                  && if known then
                       r.value.event.Reconnected?
                       && r.value.state == state.(connected := true, connectionIndex := state.connectionIndex + 1)
                     else
                       && r.value.event.NewRun? && r.value.state.header == Some(header)
                       && r.value.state.segment == None && r.value.state.missingSequences == 0
                       && r.value.state.connected && r.value.state.connectionIndex == state.connectionIndex + 1)
  {
    forall k | 0 <= k < |header.boundary| ensures header.boundary[k] in header.boundary {
    }
    assert GridCovers(header) <==>
             forall k | 0 <= k < |header.boundary| ::
               var (x, y) := header.boundary[k];
               && header.x[0] <= x && x <= header.x[|header.x| - 1]
               && header.y[0] <= y && y <= header.y[|header.y| - 1];
  }

  // ---------------------------------------------------------------- over any inputs

  datatype Input = HeaderInput(header: Header) | SegmentInput(segment: Segment) | Disconnection

  /** The state, and the segments accepted since the run began; a rejected input changes nothing. */
  datatype History = History(state: ExecutionState, accepted: seq<Segment>)

  predicate WellFormed(input: Input) {
    input.HeaderInput? ==> |input.header.x| > 0 && |input.header.y| > 0
  }

  function Handle(h: History, input: Input): History
    requires WellFormed(input)
  {
    match input
    case HeaderInput(header) =>
      var r := AcceptHeader(h.state, header);
      if r.Failure? then h
      else History(r.value.state, if r.value.event.NewRun? then [] else h.accepted)
    case SegmentInput(segment) =>
      var r := AcceptSegment(h.state, segment);
      if r.Failure? then h else History(r.value.state, h.accepted + [segment])
    case Disconnection => h.(state := Disconnect(h.state).state)
  }

  function HandleAll(h: History, inputs: seq<Input>): History
    requires forall i | 0 <= i < |inputs| :: WellFormed(inputs[i])
    decreases |inputs|
  {
    if inputs == [] then h else HandleAll(Handle(h, inputs[0]), inputs[1..])
  }

  /** Within a run the accepted segments increase in sequence number and time, belong to the run and fit its scene; the
      last of them is the one held; and its sequence number counts the accepted and the missing ones together. */
  ghost predicate Accounted(h: History) {
    && (h.accepted != [] ==> h.state.header.Some?)
    && h.state.segment == (if h.accepted == [] then None else Some(h.accepted[|h.accepted| - 1]))
    && LastSequence(h.state) == |h.accepted| + h.state.missingSequences
    && (forall i, j | 0 <= i < j < |h.accepted| ::
          h.accepted[i].sequence < h.accepted[j].sequence && h.accepted[i].right.elapsed < h.accepted[j].right.elapsed)
    && (forall i | 0 <= i < |h.accepted| ::
          && h.accepted[i].runId == h.state.header.value.runId
          && KeyframeError(h.state.header.value, h.accepted[i].left) == None
          && KeyframeError(h.state.header.value, h.accepted[i].right) == None)
  }

  lemma HandleKeepsAccount(h: History, input: Input)
    requires Accounted(h) && WellFormed(input)
    ensures Accounted(Handle(h, input))
  {
    hide KeyframeError, GridCovers;
    if input.SegmentInput? && AcceptSegment(h.state, input.segment).Success? {
      var last := |h.accepted| - 1;
      assert h.accepted != [] ==> h.state.segment == Some(h.accepted[last]);
      SegmentFits(h.state, input.segment);
    }
  }

  lemma SegmentFits(state: ExecutionState, segment: Segment)
    requires AcceptSegment(state, segment).Success?
    ensures KeyframeError(state.header.value, segment.left) == None
    ensures KeyframeError(state.header.value, segment.right) == None
  {
    hide KeyframeError;
  }

  /** Whatever headers, segments and disconnections arrive, the account of the run holds. */
  lemma {:induction false} EveryHistoryIsAccounted(h: History, inputs: seq<Input>)
    requires Accounted(h) && forall i | 0 <= i < |inputs| :: WellFormed(inputs[i])
    ensures Accounted(HandleAll(h, inputs))
    decreases |inputs|
  {
    hide Accounted, Handle;
    if inputs != [] {
      HandleKeepsAccount(h, inputs[0]);
      EveryHistoryIsAccounted(Handle(h, inputs[0]), inputs[1..]);
    }
  }
}

/** Keeping enough of a rising surface covered by voids
    (services/simulation-server/src/measurement/spatial.rs, maintain_void_coverage and fill_void_coverage). */
module VoidCoverage {
  import opened Wrappers
  import opened Sums
  import opened Spatial

  const MAX_VOID_EVENT_ATTEMPTS: nat := 8

  datatype CoverageError = SamplingFailed | TooManyVoids | AreaStuck | CursorStuck

  datatype Shape = Shape(center: Place, duration: real, radius: real, amount: real)

  /** What one attempt gives, if it finds a place, and the state it leaves the generator in. */
  datatype Attempt = Attempt(shape: Option<Shape>, generators: nat)

  /** Where voids come from during one phase: attempts may depend on the generator, the time and the voids that are open
      then, and may fail; a void counts with the area of its radius. */
  datatype Source = Source(attempt: (nat, real, seq<Event>) -> Option<Attempt>, area: real -> real, target: real,
                           phaseEnd: real)

  datatype Covered = Covered(voids: seq<Event>, generators: nat)

  /** The void closes by itself after its duration, at the latest at the end of the phase. */
  function VoidOf(shape: Shape, at: real, phaseEnd: real): Option<Event> {
    var expires := Min(phaseEnd, at + shape.duration);
    if expires <= at then None
    else Some(Event(at, expires, expires, shape.center, shape.center, shape.radius, shape.amount))
  }

  // ---------------------------------------------------------------- the voids that are open

  function OpenTo(events: seq<Event>, at: real, n: nat): seq<Event>
    requires n <= |events|
    decreases n
  {
    if n == 0 then []
    else if events[n - 1].Active(at) then OpenTo(events, at, n - 1) + [events[n - 1]]
    else OpenTo(events, at, n - 1)
  }

  function Open(events: seq<Event>, at: real): seq<Event> {
    OpenTo(events, at, |events|)
  }

  function AreaOf(source: Source, events: seq<Event>, n: nat): real
    requires n <= |events|
    decreases n
  {
    if n == 0 then 0.0 else AreaOf(source, events, n - 1) + source.area(events[n - 1].radius)
  }

  /** The earliest end among events; None stands for never. */
  function NextExpiry(events: seq<Event>, n: nat): (expiry: Option<real>)
    requires n <= |events|
    ensures expiry.Some? ==> exists k :: 0 <= k < n && events[k].endsAt == expiry.value
    ensures forall k | 0 <= k < n :: expiry.Some? && expiry.value <= events[k].endsAt
    decreases n
  {
    if n == 0 then None
    else
      var before := NextExpiry(events, n - 1);
      if before.None? then Some(events[n - 1].endsAt) else Some(Min(before.value, events[n - 1].endsAt))
  }

  // ---------------------------------------------------------------- drawing voids at one time

  /** Attempts until the open area reaches the target, or too many attempts have found no place. */
  function Fill(source: Source, at: real, open: seq<Event>, area: real, output: seq<Event>, failed: nat, generators: nat)
    : Result<Covered, CoverageError>
    decreases MAX_EVENTS_PER_ADVANCE - |output|, MAX_VOID_EVENT_ATTEMPTS - failed
  {
    if area >= source.target || failed >= MAX_VOID_EVENT_ATTEMPTS then Success(Covered(output, generators))
    else
      var attempt := source.attempt(generators, at, open);
      if attempt.None? then Failure(SamplingFailed)
      else
        var void := if attempt.value.shape.Some? then VoidOf(attempt.value.shape.value, at, source.phaseEnd) else None;
        if void.None? then Fill(source, at, open, area, output, failed + 1, attempt.value.generators)
        else if !void.value.Valid() then Failure(SamplingFailed)
        else if |output| >= MAX_EVENTS_PER_ADVANCE then Failure(TooManyVoids)
        else if source.area(void.value.radius) <= 0.0 then Failure(AreaStuck)
        else Fill(source, at, open + [void.value], area + source.area(void.value.radius), output + [void.value], failed,
                  attempt.value.generators)
  }

  /** New voids follow those before; each is valid and starts at the given time. */
  lemma {:induction false} FillMeans(source: Source, at: real, open: seq<Event>, area: real, output: seq<Event>,
                                     failed: nat, generators: nat)
    ensures var r := Fill(source, at, open, area, output, failed, generators);
            if r.Success? then
              && |output| <= |r.value.voids| && r.value.voids[..|output|] == output
              && forall k | |output| <= k < |r.value.voids| ::
                   r.value.voids[k].Valid() && r.value.voids[k].startedAt == at
            else r.error != CursorStuck
    decreases MAX_EVENTS_PER_ADVANCE - |output|, MAX_VOID_EVENT_ATTEMPTS - failed
  {
    hide Event.Valid;
    if area < source.target && failed < MAX_VOID_EVENT_ATTEMPTS {
      var attempt := source.attempt(generators, at, open);
      if attempt.Some? {
        var void := if attempt.value.shape.Some? then VoidOf(attempt.value.shape.value, at, source.phaseEnd) else None;
        if void.None? {
          FillMeans(source, at, open, area, output, failed + 1, attempt.value.generators);
        } else if void.value.Valid() && |output| < MAX_EVENTS_PER_ADVANCE && source.area(void.value.radius) > 0.0 {
          var longer := output + [void.value];
          FillMeans(source, at, open + [void.value], area + source.area(void.value.radius), longer, failed,
                    attempt.value.generators);
          var r := Fill(source, at, open + [void.value], area + source.area(void.value.radius), longer, failed,
                        attempt.value.generators);
          if r.Success? {
            assert r.value.voids[..|output|] == r.value.voids[..|longer|][..|output|];
            assert r.value.voids[..|longer|][|output|] == void.value;
          }
        }
      }
    }
  }

  // ---------------------------------------------------------------- a whole interval

  function FillAt(source: Source, voids: seq<Event>, cursor: real, output: seq<Event>, generators: nat)
    : Result<Covered, CoverageError>
  {
    var open := Open(voids + output, cursor);
    Fill(source, cursor, open, AreaOf(source, open, |open|), output, 0, generators)
  }

  lemma {:induction false} OpenMembers(events: seq<Event>, at: real, n: nat)
    requires n <= |events|
    ensures forall x | x in OpenTo(events, at, n) :: x in events && x.Active(at)
    decreases n
  {
    if n > 0 {
      OpenMembers(events, at, n - 1);
    }
  }

  /** The cursor moves to the end of an open void, so fewer voids are still to end. */
  lemma CursorMoves(events: seq<Event>, cursor: real)
    ensures var open := Open(events, cursor);
            var expiry := NextExpiry(open, |open|);
            expiry.Some? ==> expiry.value > cursor && |Live(events, expiry.value)| < |Live(events, cursor)|
  {
    hide LiveTo, OpenTo;
    var open := Open(events, cursor);
    var expiry := NextExpiry(open, |open|);
    if expiry.Some? {
      OpenMembers(events, cursor, |events|);
      var k :| 0 <= k < |open| && open[k].endsAt == expiry.value;
      assert open[k] in events && open[k].Active(cursor);
      var i :| 0 <= i < |events| && events[i] == open[k];
      LiveShrinks(events, cursor, expiry.value, |events|);
    }
  }

  lemma FilledGrows(source: Source, voids: seq<Event>, cursor: real, output: seq<Event>, generators: nat)
    ensures var r := FillAt(source, voids, cursor, output, generators);
            r.Success? ==>
              && |output| <= |r.value.voids|
              && (|output| == |r.value.voids| ==> r.value.voids == output)
              && (|r.value.voids| > |output| ==> |output| < MAX_EVENTS_PER_ADVANCE)
  {
    hide OpenTo, AreaOf;
    var open := Open(voids + output, cursor);
    FillMeans(source, cursor, open, AreaOf(source, open, |open|), output, 0, generators);
    FillLimit(source, cursor, open, AreaOf(source, open, |open|), output, 0, generators);
  }

  lemma {:induction false} FillLimit(source: Source, at: real, open: seq<Event>, area: real, output: seq<Event>,
                                     failed: nat, generators: nat)
    ensures var r := Fill(source, at, open, area, output, failed, generators);
            r.Success? && |r.value.voids| > |output| ==> |output| < MAX_EVENTS_PER_ADVANCE
    decreases MAX_VOID_EVENT_ATTEMPTS - failed
  {
    hide Event.Valid;
    if area < source.target && failed < MAX_VOID_EVENT_ATTEMPTS {
      var attempt := source.attempt(generators, at, open);
      if attempt.Some? {
        var void := if attempt.value.shape.Some? then VoidOf(attempt.value.shape.value, at, source.phaseEnd) else None;
        if void.None? {
          FillLimit(source, at, open, area, output, failed + 1, attempt.value.generators);
        }
      }
    }
  }

  /** Fills at the cursor, then moves it to the next end of an open void, until that lies beyond the interval. */
  function Cover(source: Source, voids: seq<Event>, cursor: real, through: real, output: seq<Event>, generators: nat)
    : Result<Covered, CoverageError>
    decreases MAX_EVENTS_PER_ADVANCE - |output|, |Live(voids + output, cursor)|
  {
    hide Fill, LiveTo;
    var filled := FillAt(source, voids, cursor, output, generators);
    if filled.Failure? then filled
    else
      var all := filled.value.voids;
      var open := Open(voids + all, cursor);
      var expiry := NextExpiry(open, |open|);
      FilledGrows(source, voids, cursor, output, generators);
      CursorMoves(voids + all, cursor);
      if expiry.None? || expiry.value >= through then filled
      else if expiry.value <= cursor then Failure(CursorStuck)
      else Cover(source, voids, expiry.value, through, all, filled.value.generators)
  }

  /** Every new void is valid and starts inside the interval, before its end; and the cursor always advances. */
  lemma {:induction false} CoverMeans(source: Source, voids: seq<Event>, from: real, cursor: real, through: real,
                                      output: seq<Event>, generators: nat)
    requires from <= cursor < through
    requires forall k | 0 <= k < |output| :: output[k].Valid() && from <= output[k].startedAt < through
    ensures var r := Cover(source, voids, cursor, through, output, generators);
            if r.Success? then
              forall k | 0 <= k < |r.value.voids| ::
                r.value.voids[k].Valid() && from <= r.value.voids[k].startedAt < through
            else r.error != CursorStuck
    decreases MAX_EVENTS_PER_ADVANCE - |output|, |Live(voids + output, cursor)|
  {
    hide Fill, LiveTo, Event.Valid, OpenTo, AreaOf;
    var openBefore := Open(voids + output, cursor);
    FillMeans(source, cursor, openBefore, AreaOf(source, openBefore, |openBefore|), output, 0, generators);
    FilledGrows(source, voids, cursor, output, generators);
    var filled := FillAt(source, voids, cursor, output, generators);
    if filled.Success? {
      var all := filled.value.voids;
      forall k | 0 <= k < |all| ensures all[k].Valid() && from <= all[k].startedAt < through {
        if k < |output| {
          assert all[k] == all[..|output|][k];
        }
      }
      var open := Open(voids + all, cursor);
      var expiry := NextExpiry(open, |open|);
      CursorMoves(voids + all, cursor);
      if expiry.Some? && expiry.value < through {
        CoverMeans(source, voids, from, expiry.value, through, all, filled.value.generators);
      }
    }
  }

  // ---------------------------------------------------------------- only live voids are seen

  lemma {:induction false} OpenOfBoth(a: seq<Event>, b: seq<Event>, at: real, n: nat)
    requires n <= |b|
    ensures OpenTo(a + b, at, |a| + n) == Open(a, at) + OpenTo(b, at, n)
    decreases n
  {
    hide Event.Active;
    if n == 0 {
      OpenOfPrefix(a, b, at, |a|);
    } else {
      OpenOfBoth(a, b, at, n - 1);
    }
  }

  lemma {:induction false} OpenOfPrefix(events: seq<Event>, more: seq<Event>, at: real, n: nat)
    requires n <= |events|
    ensures OpenTo(events + more, at, n) == OpenTo(events, at, n)
    decreases n
  {
    hide Event.Active;
    if n > 0 {
      OpenOfPrefix(events, more, at, n - 1);
    }
  }

  lemma OpenOfOne(e: Event, at: real)
    ensures Open([e], at) == if e.Active(at) then [e] else []
  {
    hide Event.Active;
    assert OpenTo([e], at, 0) == [];
  }

  /** The filter for open voids passes over everything that has ended. */
  lemma {:induction false} OpenSeesLive(events: seq<Event>, time: real, at: real, n: nat)
    requires n <= |events| && time <= at
    ensures Open(LiveTo(events, time, n), at) == OpenTo(events, at, n)
    decreases n
  {
    if n > 0 {
      OpenSeesLive(events, time, at, n - 1);
      if events[n - 1].endsAt > time {
        OpenOfBoth(LiveTo(events, time, n - 1), [events[n - 1]], at, 1);
        OpenOfOne(events[n - 1], at);
      }
    }
  }

  lemma SameOpen(a: seq<Event>, b: seq<Event>, more: seq<Event>, time: real, at: real)
    requires Live(a, time) == Live(b, time) && time <= at
    ensures Open(a + more, at) == Open(b + more, at)
  {
    hide OpenTo, LiveTo;
    OpenSeesLive(a, time, at, |a|);
    OpenSeesLive(b, time, at, |b|);
    OpenOfBoth(a, more, at, |more|);
    OpenOfBoth(b, more, at, |more|);
  }

  /** Two histories with the same live voids are given the same new ones, the same generator and the same errors. */
  lemma {:induction false} CoverTogether(source: Source, a: seq<Event>, b: seq<Event>, time: real, cursor: real,
                                         through: real, output: seq<Event>, generators: nat)
    requires Live(a, time) == Live(b, time) && time <= cursor
    ensures Cover(source, a, cursor, through, output, generators)
         == Cover(source, b, cursor, through, output, generators)
    decreases MAX_EVENTS_PER_ADVANCE - |output|, |Live(a + output, cursor)|
  {
    hide Fill, LiveTo, OpenTo, AreaOf;
    SameOpen(a, b, output, time, cursor);
    FilledGrows(source, a, cursor, output, generators);
    var filled := FillAt(source, a, cursor, output, generators);
    if filled.Success? {
      var all := filled.value.voids;
      SameOpen(a, b, all, time, cursor);
      CursorMoves(a + all, cursor);
      CursorMoves(b + all, cursor);
      var open := Open(a + all, cursor);
      var expiry := NextExpiry(open, |open|);
      if expiry.Some? && expiry.value < through {
        CoverTogether(source, a, b, time, expiry.value, through, all, filled.value.generators);
      }
    }
  }

  // ---------------------------------------------------------------- what is drawn

  /** The voids running at a time, in their order. */
  ghost predicate AreOpen(events: seq<Event>, at: real, open: seq<Event>)
    decreases |events|
  {
    if events == [] then open == []
    else
      var e := events[0];
      if e.startedAt <= at < e.endsAt then open != [] && open[0] == e && AreOpen(events[1..], at, open[1..])
      else AreOpen(events[1..], at, open)
  }

  lemma {:induction false} OpenAreOpen(events: seq<Event>, at: real)
    ensures AreOpen(events, at, Open(events, at))
    decreases |events|
  {
    hide Event.Active, OpenTo;
    if events == [] {
      NoneOpen(at);
    } else {
      var e, rest := events[0], events[1..];
      OpenAreOpen(rest, at);
      assert events == [e] + rest;
      OpenOfBoth([e], rest, at, |rest|);
      OpenOfOne(e, at);
      ActiveMeans(e, at);
      var open := Open(rest, at);
      assert ([e] + open)[1..] == open && [] + open == open;
    }
  }

  lemma NoneOpen(at: real)
    ensures Open([], at) == []
  {
  }

  lemma ActiveMeans(e: Event, at: real)
    ensures e.Active(at) <==> e.startedAt <= at < e.endsAt
  {
  }

  /** An attempt found a place, for a void that would live at all before the phase ends. */
  predicate Places(attempt: Attempt, at: real, phaseEnd: real) {
    attempt.shape.Some? && attempt.shape.value.duration + at > at && phaseEnd > at
  }

  /** The void of an attempt stays where it is, from now until its duration or the phase is over. */
  predicate IsVoidOf(e: Event, shape: Shape, at: real, phaseEnd: real) {
    && e.startedAt == at && e.endsAt == e.expiresAt == Min(phaseEnd, at + shape.duration)
    && e.origin == e.target == shape.center && e.radius == shape.radius && e.amount == shape.amount
  }

  /** Attempts go on until the open voids reach the target, or eight have found no place; each sees the voids placed so
      far and continues the generators where the one before left them. */
  ghost predicate IsFilling(source: Source, at: real, open: seq<Event>, area: real, failed: nat, generators: nat,
                            attempts: seq<Attempt>, placed: seq<Event>, after: nat)
    decreases |attempts|
  {
    if area >= source.target || failed >= 8 then attempts == [] && placed == [] && after == generators
    else
      && attempts != [] && source.attempt(generators, at, open) == Some(attempts[0])
      && if Places(attempts[0], at, source.phaseEnd) then
           && placed != [] && IsVoidOf(placed[0], attempts[0].shape.value, at, source.phaseEnd)
           && placed[0].Valid() && source.area(placed[0].radius) > 0.0
           && IsFilling(source, at, open + [placed[0]], area + source.area(placed[0].radius), failed,
                        attempts[0].generators, attempts[1..], placed[1..], after)
         else
           IsFilling(source, at, open, area, failed + 1, attempts[0].generators, attempts[1..], placed, after)
  }

  lemma VoidMeans(attempt: Attempt, at: real, phaseEnd: real)
    ensures var void := if attempt.shape.Some? then VoidOf(attempt.shape.value, at, phaseEnd) else None;
            && (void.Some? <==> Places(attempt, at, phaseEnd))
            && (void.Some? ==> IsVoidOf(void.value, attempt.shape.value, at, phaseEnd))
  {
  }

  lemma {:induction false} FillIsFilling(source: Source, at: real, open: seq<Event>, area: real, output: seq<Event>,
                                         failed: nat, generators: nat)
    returns (attempts: seq<Attempt>, placed: seq<Event>)
    requires Fill(source, at, open, area, output, failed, generators).Success?
    ensures var r := Fill(source, at, open, area, output, failed, generators).value;
            && r.voids == output + placed
            && IsFilling(source, at, open, area, failed, generators, attempts, placed, r.generators)
    decreases MAX_EVENTS_PER_ADVANCE - |output|, MAX_VOID_EVENT_ATTEMPTS - failed
  {
    hide Event.Valid, VoidOf, Places, IsVoidOf;
    attempts, placed := [], [];
    if area < source.target && failed < MAX_VOID_EVENT_ATTEMPTS {
      var attempt := source.attempt(generators, at, open).value;
      var void := if attempt.shape.Some? then VoidOf(attempt.shape.value, at, source.phaseEnd) else None;
      VoidMeans(attempt, at, source.phaseEnd);
      if void.None? {
        var later;
        later, placed := FillIsFilling(source, at, open, area, output, failed + 1, attempt.generators);
        attempts := [attempt] + later;
        assert attempts[1..] == later;
      } else {
        var longer := output + [void.value];
        var later, rest := FillIsFilling(source, at, open + [void.value], area + source.area(void.value.radius), longer,
                                         failed, attempt.generators);
        attempts, placed := [attempt] + later, [void.value] + rest;
        assert attempts[1..] == later && placed[1..] == rest;
        assert output + placed == longer + rest;
      }
    }
  }

  /** The areas of the open voids together. */
  function TotalArea(source: Source, open: seq<Event>): real
    decreases |open|
  {
    if open == [] then 0.0 else source.area(open[0].radius) + TotalArea(source, open[1..])
  }

  lemma {:induction false} AreaFromFront(source: Source, e: Event, events: seq<Event>, n: nat)
    requires n <= |events|
    ensures AreaOf(source, [e] + events, n + 1) == source.area(e.radius) + AreaOf(source, events, n)
    decreases n
  {
    if n > 0 {
      AreaFromFront(source, e, events, n - 1);
    }
  }

  lemma {:induction false} AreaIsTotal(source: Source, events: seq<Event>)
    ensures AreaOf(source, events, |events|) == TotalArea(source, events)
    decreases |events|
  {
    if events != [] {
      AreaIsTotal(source, events[1..]);
      AreaFromFront(source, events[0], events[1..], |events| - 1);
      assert [events[0]] + events[1..] == events;
    }
  }

  /** One filling at a cursor: what is open then, what is placed, and where the generators end. */
  datatype Round = Round(cursor: real, open: seq<Event>, attempts: seq<Attempt>, placed: seq<Event>, generators: nat)

  /** Rounds of filling: each at the earliest end of a void still open after the round before, as long as that lies before
      the end of the interval. */
  ghost predicate AreRounds(source: Source, voids: seq<Event>, cursor: real, through: real, generators: nat,
                            rounds: seq<Round>, placed: seq<Event>, after: nat)
    decreases |rounds|
  {
    && rounds != []
    && var r := rounds[0];
       var next := r.open + r.placed;
       && r.cursor == cursor && AreOpen(voids, cursor, r.open)
       && IsFilling(source, cursor, r.open, TotalArea(source, r.open), 0, generators, r.attempts, r.placed, r.generators)
       && r.placed <= placed
       && if |rounds| == 1 then
            && r.placed == placed && after == r.generators
            && forall k | 0 <= k < |next| :: next[k].endsAt >= through
          else
            && rounds[1].cursor < through
            && (forall k | 0 <= k < |next| :: rounds[1].cursor <= next[k].endsAt)
            && (exists k :: 0 <= k < |next| && rounds[1].cursor == next[k].endsAt)
            && AreRounds(source, voids + r.placed, rounds[1].cursor, through, r.generators, rounds[1..],
                         placed[|r.placed|..], after)
  }

  lemma {:induction false} FillingRuns(source: Source, at: real, open: seq<Event>, area: real, failed: nat,
                                       generators: nat, attempts: seq<Attempt>, placed: seq<Event>, after: nat)
    requires IsFilling(source, at, open, area, failed, generators, attempts, placed, after)
    ensures forall k | 0 <= k < |placed| :: placed[k].Active(at)
    decreases |attempts|
  {
    hide Places;
    if area < source.target && failed < 8 {
      if Places(attempts[0], at, source.phaseEnd) {
        FillingRuns(source, at, open + [placed[0]], area + source.area(placed[0].radius), failed,
                    attempts[0].generators, attempts[1..], placed[1..], after);
        assert forall k | 0 < k < |placed| :: placed[k] == placed[1..][k - 1];
      } else {
        FillingRuns(source, at, open, area, failed + 1, attempts[0].generators, attempts[1..], placed, after);
      }
    }
  }

  lemma {:induction false} AllOpen(events: seq<Event>, at: real, n: nat)
    requires n <= |events| && forall k | 0 <= k < |events| :: events[k].Active(at)
    ensures OpenTo(events, at, n) == events[..n]
    decreases n
  {
    hide Event.Active;
    if n > 0 {
      AllOpen(events, at, n - 1);
      assert events[..n] == events[..n - 1] + [events[n - 1]];
    }
  }

  lemma OpenAfterFilling(voids: seq<Event>, placed: seq<Event>, at: real)
    requires forall k | 0 <= k < |placed| :: placed[k].Active(at)
    ensures Open(voids + placed, at) == Open(voids, at) + placed
  {
    hide OpenTo, Event.Active;
    OpenOfBoth(voids, placed, at, |placed|);
    AllOpen(placed, at, |placed|);
    assert placed[..|placed|] == placed;
  }

  lemma OneRound(source: Source, voids: seq<Event>, cursor: real, output: seq<Event>, generators: nat)
    returns (round: Round)
    requires FillAt(source, voids, cursor, output, generators).Success?
    ensures var filled, all := FillAt(source, voids, cursor, output, generators).value, voids + output;
            && round.cursor == cursor && round.generators == filled.generators && filled.voids == output + round.placed
            && AreOpen(all, cursor, round.open)
            && IsFilling(source, cursor, round.open, TotalArea(source, round.open), 0, generators, round.attempts,
                         round.placed, round.generators)
            && Open(voids + filled.voids, cursor) == round.open + round.placed
  {
    hide OpenTo, AreaOf, Fill, IsFilling, AreOpen;
    var open := Open(voids + output, cursor);
    OpenAreOpen(voids + output, cursor);
    AreaIsTotal(source, open);
    var attempts, placed := FillIsFilling(source, cursor, open, AreaOf(source, open, |open|), output, 0, generators);
    var filled := FillAt(source, voids, cursor, output, generators).value;
    FillingRuns(source, cursor, open, AreaOf(source, open, |open|), 0, generators, attempts, placed, filled.generators);
    OpenAfterFilling(voids + output, placed, cursor);
    assert voids + filled.voids == voids + output + placed;
    round := Round(cursor, open, attempts, placed, filled.generators);
  }

  lemma LastRound(source: Source, voids: seq<Event>, through: real, generators: nat, r: Round)
    requires AreOpen(voids, r.cursor, r.open)
    requires IsFilling(source, r.cursor, r.open, TotalArea(source, r.open), 0, generators, r.attempts, r.placed,
                       r.generators)
    requires forall e | e in r.open + r.placed :: e.endsAt >= through
    ensures AreRounds(source, voids, r.cursor, through, generators, [r], r.placed, r.generators)
  {
    hide IsFilling, AreOpen, TotalArea;
    var next := r.open + r.placed;
    assert forall k | 0 <= k < |next| :: next[k] in next;
  }

  lemma OneMoreRound(source: Source, voids: seq<Event>, through: real, generators: nat, r: Round, later: seq<Round>,
                     placed: seq<Event>, after: nat)
    requires AreOpen(voids, r.cursor, r.open)
    requires IsFilling(source, r.cursor, r.open, TotalArea(source, r.open), 0, generators, r.attempts, r.placed,
                       r.generators)
    requires later != [] && later[0].cursor < through
    requires var next := r.open + r.placed;
             && (forall k | 0 <= k < |next| :: later[0].cursor <= next[k].endsAt)
             && (exists k :: 0 <= k < |next| && later[0].cursor == next[k].endsAt)
    requires AreRounds(source, voids + r.placed, later[0].cursor, through, r.generators, later, placed, after)
    ensures AreRounds(source, voids, r.cursor, through, generators, [r] + later, r.placed + placed, after)
  {
    hide IsFilling, AreOpen, TotalArea;
    assert ([r] + later)[1..] == later && (r.placed + placed)[|r.placed|..] == placed;
  }

  /** New voids come in rounds: filling at the start of the interval, and again whenever an open void ends in it. */
  lemma {:induction false} CoverGoesInRounds(source: Source, voids: seq<Event>, cursor: real, through: real,
                                             output: seq<Event>, generators: nat)
    returns (rounds: seq<Round>, placed: seq<Event>)
    requires Cover(source, voids, cursor, through, output, generators).Success?
    ensures var r := Cover(source, voids, cursor, through, output, generators).value;
            && r.voids == output + placed
            && AreRounds(source, voids + output, cursor, through, generators, rounds, placed, r.generators)
    ensures rounds != [] && rounds[0].cursor == cursor
    decreases MAX_EVENTS_PER_ADVANCE - |output|, |Live(voids + output, cursor)|
  {
    hide FillAt, LiveTo, OpenTo, IsFilling, AreOpen, TotalArea, AreRounds;
    var round := OneRound(source, voids, cursor, output, generators);
    var filled := FillAt(source, voids, cursor, output, generators).value;
    var all := filled.voids;
    var open := Open(voids + all, cursor);
    var expiry := NextExpiry(open, |open|);
    FilledGrows(source, voids, cursor, output, generators);
    CursorMoves(voids + all, cursor);
    rounds, placed := [round], round.placed;
    if expiry.Some? && expiry.value < through {
      var later, rest := CoverGoesInRounds(source, voids, expiry.value, through, all, filled.generators);
      assert voids + all == voids + output + round.placed;
      OneMoreRound(source, voids + output, through, generators, round, later, rest,
                   Cover(source, voids, expiry.value, through, all, filled.generators).value.generators);
      rounds, placed := [round] + later, round.placed + rest;
      assert output + placed == all + rest;
    } else {
      LastRound(source, voids + output, through, generators, round);
    }
  }

  // ---------------------------------------------------------------- the loops as they run

  method CollectOpen(events: seq<Event>, at: real) returns (open: seq<Event>)
    ensures open == Open(events, at)
  {
    hide Event.Active;
    open := [];
    for k := 0 to |events|
      invariant open == OpenTo(events, at, k)
    {
      if events[k].Active(at) {
        open := open + [events[k]];
      }
    }
  }

  method FillVoidCoverage(source: Source, voids: seq<Event>, at: real, before: seq<Event>, generators: nat)
    returns (r: Result<Covered, CoverageError>)
    ensures r == FillAt(source, voids, at, before, generators)
  {
    hide OpenTo, Event.Valid;
    ghost var goal := FillAt(source, voids, at, before, generators);
    var open := CollectOpen(voids + before, at);
    var area := 0.0;
    for k := 0 to |open|
      invariant area == AreaOf(source, open, k)
    {
      area := area + source.area(open[k].radius);
    }
    var output, failed, state := before, 0, generators;
    while area < source.target && failed < MAX_VOID_EVENT_ATTEMPTS
      invariant Fill(source, at, open, area, output, failed, state) == goal
      decreases MAX_EVENTS_PER_ADVANCE - |output|, MAX_VOID_EVENT_ATTEMPTS - failed
    {
      var attempt := source.attempt(state, at, open);
      if attempt.None? {
        return Failure(SamplingFailed);
      }
      state := attempt.value.generators;
      var void := if attempt.value.shape.Some? then VoidOf(attempt.value.shape.value, at, source.phaseEnd) else None;
      if void.None? {
        failed := failed + 1;
      } else {
        if !void.value.Valid() {
          return Failure(SamplingFailed);
        }
        if |output| >= MAX_EVENTS_PER_ADVANCE {
          return Failure(TooManyVoids);
        }
        if source.area(void.value.radius) <= 0.0 {
          return Failure(AreaStuck);
        }
        area := area + source.area(void.value.radius);
        open, output := open + [void.value], output + [void.value];
      }
    }
    return Success(Covered(output, state));
  }

  method MaintainVoidCoverage(source: Source, voids: seq<Event>, from: real, through: real, generators: nat)
    returns (r: Result<Covered, CoverageError>)
    ensures r == Cover(source, voids, from, through, [], generators)
  {
    hide Fill, FillAt, OpenTo, LiveTo;
    var cursor, output, state := from, [], generators;
    while true
      invariant Cover(source, voids, cursor, through, output, state)
             == Cover(source, voids, from, through, [], generators)
      decreases MAX_EVENTS_PER_ADVANCE - |output|, |Live(voids + output, cursor)|
    {
      FilledGrows(source, voids, cursor, output, state);
      var filled := FillVoidCoverage(source, voids, cursor, output, state);
      if filled.Failure? {
        return filled;
      }
      var open := CollectOpen(voids + filled.value.voids, cursor);
      var expiry := NextExpiry(open, |open|);
      CursorMoves(voids + filled.value.voids, cursor);
      if expiry.None? || expiry.value >= through {
        return filled;
      }
      if expiry.value <= cursor {
        return Failure(CursorStuck);
      }
      cursor, output, state := expiry.value, filled.value.voids, filled.value.generators;
    }
  }
}

/** Spatial distortion events and the distances they give
    (services/simulation-server/src/measurement/spatial.rs, SpatialDistortionResolver and the resolve functions). */
module Spatial {
  import opened Wrappers
  import opened Sums

  const TIME_TOLERANCE: real := 0.000000000001
  const MAX_EVENTS_PER_ADVANCE: nat := 100_000

  datatype SpatialError = InvalidEvent | OutsideInterval | TimeBackwards | TooManyEvents | NotCovered | NoLongerCovered
                        | InvalidRetention

  datatype Place = Place(x: real, y: real)

  /** A disc that is there from its start up to its end. Falling material and voids stay in one place; collection
      material moves evenly. A void closes no later than it expires. */
  datatype Event = Event(startedAt: real, endsAt: real, expiresAt: real, origin: Place, target: Place, radius: real,
                         amount: real) {
    predicate Valid() {
      0.0 <= startedAt < endsAt <= expiresAt && radius > 0.0 && amount > 0.0
    }

    predicate Active(elapsed: real) {
      startedAt <= elapsed < endsAt
    }

    function CenterAt(elapsed: real): Place
      requires Active(elapsed)
    {
      var progress := (elapsed - startedAt) / (endsAt - startedAt);
      Place(origin.x + Times(progress, target.x - origin.x), origin.y + Times(progress, target.y - origin.y))
    }

    predicate Covers(hit: Place, elapsed: real)
      requires Active(elapsed)
    {
      var center := CenterAt(elapsed);
      Times(hit.x - center.x, hit.x - center.x) + Times(hit.y - center.y, hit.y - center.y) <= Times(radius, radius)
    }
  }

  /** A measured point: when, how far, where it hit the surface (if it did), and how far the static scene is there. */
  datatype Sample = Sample(elapsed: real, distance: real, hit: Option<Place>, staticDistance: Option<real>)

  /** The event acts on the sample. */
  predicate Acts(e: Event, s: Sample) {
    s.hit.Some? && e.Active(s.elapsed) && e.Covers(s.hit.value, s.elapsed)
  }

  /** The event brings the sample nearer, but not below the minimum. */
  predicate Shortens(e: Event, s: Sample, minimum: real) {
    Acts(e, s) && s.distance - e.amount >= minimum
  }

  /** The event takes the sample further, but not beyond the maximum or the static scene. */
  predicate Lengthens(e: Event, s: Sample, maximum: real) {
    && Acts(e, s) && s.distance + e.amount <= maximum
    && (s.staticDistance.Some? ==> s.distance + e.amount <= s.staticDistance.value)
  }

  // ---------------------------------------------------------------- resolving one sample

  /** The nearest of the sample and what the first n events bring it to. */
  function Foreground(s: Sample, events: seq<Event>, minimum: real, n: nat): real
    requires n <= |events|
  {
    if n == 0 then s.distance
    else
      var nearest := Foreground(s, events, minimum, n - 1);
      if Shortens(events[n - 1], s, minimum) then Min(nearest, s.distance - events[n - 1].amount) else nearest
  }

  datatype Choice = Choice(value: real, selected: bool)

  function Background(s: Sample, events: seq<Event>, maximum: real, n: nat): Choice
    requires n <= |events|
  {
    if n == 0 then Choice(s.distance, false)
    else
      var choice, candidate := Background(s, events, maximum, n - 1), s.distance + events[n - 1].amount;
      if !Lengthens(events[n - 1], s, maximum) then choice
      else if !choice.selected || candidate < choice.value then Choice(candidate, true)
      else Choice(choice.value, true)
  }

  /** All three kinds together: what stands in front counts only when it is nearer than the surface itself. */
  function Resolved(s: Sample, r: Resolver, minimum: real, maximum: real): real {
    var background := Background(s, r.voids, maximum, |r.voids|).value;
    var foreground := Min(Foreground(s, r.falling, minimum, |r.falling|),
        Foreground(s, r.collection, minimum, |r.collection|));
    if foreground < s.distance then Min(background, foreground) else background
  }

  /** The foreground is the least of the sample's own distance and all shortened ones. */
  lemma {:induction false} ForegroundIsNearest(s: Sample, events: seq<Event>, minimum: real, n: nat)
    requires n <= |events|
    ensures var nearest := Foreground(s, events, minimum, n);
            && nearest <= s.distance
            && (nearest == s.distance
                || exists k | 0 <= k < n :: Shortens(events[k], s, minimum) && nearest == s.distance - events[k].amount)
            && forall k | 0 <= k < n :: Shortens(events[k], s, minimum) ==> nearest <= s.distance - events[k].amount
  {
    hide Shortens;
    if n > 0 {
      ForegroundIsNearest(s, events, minimum, n - 1);
    }
  }

  /** The background is the least of all lengthened distances, or the sample's own when there are none. */
  lemma {:induction false} BackgroundIsNearest(s: Sample, events: seq<Event>, maximum: real, n: nat)
    requires n <= |events|
    ensures var choice := Background(s, events, maximum, n);
            && (choice.selected <==> exists k | 0 <= k < n :: Lengthens(events[k], s, maximum))
            && (!choice.selected ==> choice.value == s.distance)
            && (choice.selected ==>
                  exists k | 0 <= k < n :: Lengthens(events[k], s, maximum)
                      && choice.value == s.distance + events[k].amount)
            && forall k | 0 <= k < n :: Lengthens(events[k], s, maximum)
                ==> choice.value <= s.distance + events[k].amount
  {
    hide Lengthens;
    if n > 0 {
      BackgroundIsNearest(s, events, maximum, n - 1);
    }
  }

  // ---------------------------------------------------------------- only live events matter

  /** The events among the first n that end after a time. */
  function LiveTo(events: seq<Event>, time: real, n: nat): seq<Event>
    requires n <= |events|
  {
    if n == 0 then []
    else
      var before := LiveTo(events, time, n - 1);
      if events[n - 1].endsAt > time then before + [events[n - 1]] else before
  }

  function Live(events: seq<Event>, time: real): seq<Event> {
    LiveTo(events, time, |events|)
  }

  lemma {:induction false} LiveOfPrefix(events: seq<Event>, more: seq<Event>, time: real, n: nat)
    requires n <= |events|
    ensures LiveTo(events + more, time, n) == LiveTo(events, time, n)
  {
    if n > 0 {
      LiveOfPrefix(events, more, time, n - 1);
    }
  }

  lemma {:induction false} LiveOfBoth(a: seq<Event>, b: seq<Event>, time: real, n: nat)
    requires n <= |b|
    ensures LiveTo(a + b, time, |a| + n) == Live(a, time) + LiveTo(b, time, n)
  {
    if n == 0 {
      LiveOfPrefix(a, b, time, |a|);
    } else {
      LiveOfBoth(a, b, time, n - 1);
    }
  }

  lemma LiveOfOne(e: Event, time: real)
    ensures Live([e], time) == if e.endsAt > time then [e] else []
  {
    assert LiveTo([e], time, 0) == [];
  }

  lemma {:induction false} LiveForeground(s: Sample, events: seq<Event>, minimum: real, time: real, n: nat)
    requires n <= |events| && time <= s.elapsed
    ensures var live := LiveTo(events, time, n);
            Foreground(s, events, minimum, n) == Foreground(s, live, minimum, |live|)
  {
    hide Event.Covers;
    if n > 0 {
      LiveForeground(s, events, minimum, time, n - 1);
      var before := LiveTo(events, time, n - 1);
      if events[n - 1].endsAt > time {
        ForegroundOfPrefix(s, before, [events[n - 1]], minimum, |before|);
      }
    }
  }

  lemma {:induction false} ForegroundOfPrefix(s: Sample, events: seq<Event>, more: seq<Event>, minimum: real, n: nat)
    requires n <= |events|
    ensures Foreground(s, events + more, minimum, n) == Foreground(s, events, minimum, n)
  {
    hide Shortens;
    if n > 0 {
      ForegroundOfPrefix(s, events, more, minimum, n - 1);
    }
  }

  lemma {:induction false} LiveBackground(s: Sample, events: seq<Event>, maximum: real, time: real, n: nat)
    requires n <= |events| && time <= s.elapsed
    ensures var live := LiveTo(events, time, n);
            Background(s, events, maximum, n) == Background(s, live, maximum, |live|)
  {
    hide Event.Covers;
    if n > 0 {
      LiveBackground(s, events, maximum, time, n - 1);
      var before := LiveTo(events, time, n - 1);
      if events[n - 1].endsAt > time {
        BackgroundOfPrefix(s, before, [events[n - 1]], maximum, |before|);
      }
    }
  }

  lemma {:induction false} BackgroundOfPrefix(s: Sample, events: seq<Event>, more: seq<Event>, maximum: real, n: nat)
    requires n <= |events|
    ensures Background(s, events + more, maximum, n) == Background(s, events, maximum, n)
  {
    hide Lengthens;
    if n > 0 {
      BackgroundOfPrefix(s, events, more, maximum, n - 1);
    }
  }

  /** Whatever ends by a time has no part in samples from that time on. */
  lemma SameResolution(s: Sample, r: Resolver, q: Resolver, minimum: real, maximum: real, time: real)
    requires time <= s.elapsed && SameLive(r, q, time)
    ensures Resolved(s, r, minimum, maximum) == Resolved(s, q, minimum, maximum)
  {
    hide Foreground, Background, LiveTo;
    LiveForeground(s, r.falling, minimum, time, |r.falling|);
    LiveForeground(s, q.falling, minimum, time, |q.falling|);
    LiveForeground(s, r.collection, minimum, time, |r.collection|);
    LiveForeground(s, q.collection, minimum, time, |q.collection|);
    LiveBackground(s, r.voids, maximum, time, |r.voids|);
    LiveBackground(s, q.voids, maximum, time, |q.voids|);
  }

  // ---------------------------------------------------------------- sorted by start

  /** After all events that start no later. */
  function Insert(e: Event, events: seq<Event>): seq<Event>
    decreases |events|
  {
    if events == [] then [e]
    else if events[|events| - 1].startedAt <= e.startedAt then events + [e]
    else Insert(e, events[..|events| - 1]) + [events[|events| - 1]]
  }

  /** The stable sort by start time. */
  function Sorted(events: seq<Event>): seq<Event>
    decreases |events|
  {
    if events == [] then [] else Insert(events[|events| - 1], Sorted(events[..|events| - 1]))
  }

  ghost predicate InOrder(events: seq<Event>) {
    forall j, k | 0 <= j < k < |events| :: events[j].startedAt <= events[k].startedAt
  }

  lemma {:induction false} InsertKeepsOrder(e: Event, events: seq<Event>)
    requires InOrder(events)
    ensures InOrder(Insert(e, events))
    ensures forall x | x in Insert(e, events) :: x == e || x in events
    decreases |events|
  {
    if events != [] && events[|events| - 1].startedAt > e.startedAt {
      InsertKeepsOrder(e, events[..|events| - 1]);
      var inserted := Insert(e, events[..|events| - 1]);
      forall k | 0 <= k < |inserted| ensures inserted[k].startedAt <= events[|events| - 1].startedAt {
        assert inserted[k] in inserted;
      }
    }
  }

  lemma {:induction false} SortedIsInOrder(events: seq<Event>)
    ensures InOrder(Sorted(events))
    decreases |events|
  {
    hide Insert;
    if events != [] {
      SortedIsInOrder(events[..|events| - 1]);
      InsertKeepsOrder(events[|events| - 1], Sorted(events[..|events| - 1]));
    }
  }

  lemma {:induction false} InsertKeepsAll(e: Event, events: seq<Event>)
    ensures multiset(Insert(e, events)) == multiset(events) + multiset{e}
    decreases |events|
  {
    if events != [] && events[|events| - 1].startedAt > e.startedAt {
      InsertKeepsAll(e, events[..|events| - 1]);
      assert events == events[..|events| - 1] + [events[|events| - 1]];
    }
  }

  /** Sorting loses no event and invents none. */
  lemma {:induction false} SortedKeepsAll(events: seq<Event>)
    ensures multiset(Sorted(events)) == multiset(events)
    decreases |events|
  {
    hide Insert;
    if events != [] {
      SortedKeepsAll(events[..|events| - 1]);
      InsertKeepsAll(events[|events| - 1], Sorted(events[..|events| - 1]));
      assert events == events[..|events| - 1] + [events[|events| - 1]];
    }
  }

  lemma LiveAppend(events: seq<Event>, e: Event, time: real)
    ensures Live(events + [e], time) == if e.endsAt > time then Live(events, time) + [e] else Live(events, time)
  {
    LiveOfBoth(events, [e], time, 1);
    LiveOfOne(e, time);
    assert Live(events, time) + [] == Live(events, time);
  }

  lemma {:induction false} LiveMembers(events: seq<Event>, time: real, n: nat)
    requires n <= |events|
    ensures forall x | x in LiveTo(events, time, n) :: x in events[..n] && x.endsAt > time
  {
    if n > 0 {
      LiveMembers(events, time, n - 1);
      assert events[..n] == events[..n - 1] + [events[n - 1]];
    }
  }

  /** Dropping ended events and inserting commute. */
  lemma {:induction false} LiveOfInsert(e: Event, events: seq<Event>, time: real)
    requires InOrder(events)
    ensures Live(Insert(e, events), time) == if e.endsAt > time then Insert(e, Live(events, time))
            else Live(events, time)
    decreases |events|
  {
    hide LiveTo;
    if events == [] {
      LiveOfOne(e, time);
      LiveOfNone(time);
    } else {
      var front, last := events[..|events| - 1], events[|events| - 1];
      assert events == front + [last];
      LiveAppend(front, last, time);
      if last.startedAt <= e.startedAt {
        LiveAppend(events, e, time);
        InsertAtEnd(e, Live(events, time), events, time);
      } else {
        LiveOfInsert(e, front, time);
        LiveAppend(Insert(e, front), last, time);
        if e.endsAt > time && last.endsAt > time {
          InsertBefore(e, Live(front, time), last);
        }
      }
    }
  }

  lemma LiveOfNone(time: real)
    ensures Live([], time) == []
  {
  }

  lemma InsertAtEnd(e: Event, live: seq<Event>, events: seq<Event>, time: real)
    requires InOrder(events) && events != [] && events[|events| - 1].startedAt <= e.startedAt
             && live == Live(events, time)
    ensures Insert(e, live) == live + [e]
  {
    LiveMembers(events, time, |events|);
    if live != [] {
      assert live[|live| - 1] in live;
      assert events[..|events|] == events;
      var k :| 0 <= k < |events| && events[k] == live[|live| - 1];
    } else {
      assert live + [e] == [e];
    }
  }

  lemma InsertBefore(e: Event, front: seq<Event>, last: Event)
    requires last.startedAt > e.startedAt
    ensures Insert(e, front + [last]) == Insert(e, front) + [last]
  {
    assert (front + [last])[..|front|] == front;
  }

  /** Dropping ended events and sorting commute. */
  lemma {:induction false} LiveOfSorted(events: seq<Event>, time: real)
    ensures Live(Sorted(events), time) == Sorted(Live(events, time))
    decreases |events|
  {
    hide LiveTo, Insert;
    if events == [] {
      LiveOfNone(time);
    } else {
      var front, last := events[..|events| - 1], events[|events| - 1];
      assert events == front + [last];
      LiveOfSorted(front, time);
      SortedIsInOrder(front);
      LiveOfInsert(last, Sorted(front), time);
      LiveAppend(front, last, time);
      if last.endsAt > time {
        SortedAppend(Live(front, time), last);
      }
    }
  }

  lemma SortedAppend(events: seq<Event>, e: Event)
    ensures Sorted(events + [e]) == Insert(e, Sorted(events))
  {
    hide Insert;
    assert (events + [e])[..|events|] == events;
  }

  lemma SameLiveAfterMerge(a: seq<Event>, b: seq<Event>, more: seq<Event>, time: real)
    requires Live(a, time) == Live(b, time)
    ensures Live(Merged(a, more), time) == Live(Merged(b, more), time)
  {
    hide LiveTo, Sorted;
    if more != [] {
      LiveOfSorted(a + more, time);
      LiveOfSorted(b + more, time);
      LiveOfBoth(a, more, time, |more|);
      LiveOfBoth(b, more, time, |more|);
    }
  }

  // ---------------------------------------------------------------- the resolver

  datatype Resolver = Resolver(falling: seq<Event>, voids: seq<Event>, collection: seq<Event>, advancedTo: real,
                               retainedFrom: real)

  const NEW_RESOLVER := Resolver([], [], [], 0.0, 0.0)

  /** New events join the old ones in start order. */
  function Merged(events: seq<Event>, more: seq<Event>): seq<Event> {
    if more == [] then events else Sorted(events + more)
  }

  ghost predicate SameLive(r: Resolver, q: Resolver, time: real) {
    && Live(r.falling, time) == Live(q.falling, time)
    && Live(r.voids, time) == Live(q.voids, time)
    && Live(r.collection, time) == Live(q.collection, time)
  }

  /** Why the first new event that may not join is refused, if any is; voids may start at the very end of the interval.
      So many new events joined before these. */
  function Rejected(events: seq<Event>, from: real, to: real, closed: bool, before: nat, n: nat): Option<SpatialError>
    requires n <= |events|
  {
    if n == 0 then None
    else
      var earlier := Rejected(events, from, to, closed, before, n - 1);
      if earlier.Some? then earlier
      else if !events[n - 1].Valid() then Some(InvalidEvent)
      else if !InInterval(events[n - 1], from, to, closed) then Some(OutsideInterval)
      else if before + n > MAX_EVENTS_PER_ADVANCE then Some(TooManyEvents)
      else None
  }

  predicate InInterval(e: Event, from: real, to: real, closed: bool) {
    e.startedAt + TIME_TOLERANCE >= from && if closed then e.startedAt <= to else e.startedAt < to
  }

  function AdvanceWith(r: Resolver, to: real, falling: seq<Event>, voids: seq<Event>, collection: seq<Event>)
    : Result<Resolver, SpatialError>
  {
    var rejectedFalling := Rejected(falling, r.advancedTo, to, false, 0, |falling|);
    var rejectedVoids := Rejected(voids, r.advancedTo, to, true, |falling|, |voids|);
    var rejectedCollection := Rejected(collection, r.advancedTo, to, false, |falling| + |voids|, |collection|);
    if to < r.advancedTo then Failure(TimeBackwards)
    else if rejectedFalling.Some? then Failure(rejectedFalling.value)
    else if rejectedVoids.Some? then Failure(rejectedVoids.value)
    else if rejectedCollection.Some? then Failure(rejectedCollection.value)
    else Success(Resolver(Merged(r.falling, falling), Merged(r.voids, voids), Merged(r.collection, collection), to,
         r.retainedFrom))
  }

  /** An open void that a test picks out closes at a time. */
  function Closed(e: Event, at: real, closes: Event -> bool): Event {
    if e.Active(at) && closes(e) then e.(endsAt := at) else e
  }

  function ClosedTo(events: seq<Event>, at: real, closes: Event -> bool, n: nat): (r: seq<Event>)
    requires n <= |events|
    ensures |r| == n
    decreases n
  {
    if n == 0 then [] else ClosedTo(events, at, closes, n - 1) + [Closed(events[n - 1], at, closes)]
  }

  function CloseVoids(r: Resolver, at: real, closes: Event -> bool): Resolver {
    r.(voids := ClosedTo(r.voids, at, closes, |r.voids|))
  }

  predicate AllValid(events: seq<Event>) {
    forall k | 0 <= k < |events| :: events[k].Valid()
  }

  /** Coverage is checked first; then every retained event is validated again, voids first. */
  function ResolveAll(r: Resolver, samples: seq<Sample>, completedAt: real, minimum: real, maximum: real)
    : Result<seq<real>, SpatialError>
    requires samples != []
  {
    if completedAt > r.advancedTo + TIME_TOLERANCE then Failure(NotCovered)
    else if samples[0].elapsed < r.retainedFrom then Failure(NoLongerCovered)
    else if !AllValid(r.voids) || !AllValid(r.falling) || !AllValid(r.collection) then Failure(InvalidEvent)
    else Success(AllResolved(r, samples, minimum, maximum))
  }

  function AllResolved(r: Resolver, samples: seq<Sample>, minimum: real, maximum: real): (resolved: seq<real>)
    ensures |resolved| == |samples|
    ensures forall k | 0 <= k < |samples| :: resolved[k] == Resolved(samples[k], r, minimum, maximum)
  {
    seq(|samples|, k requires 0 <= k < |samples| => Resolved(samples[k], r, minimum, maximum))
  }

  function DiscardBefore(r: Resolver, time: real): Result<Resolver, SpatialError> {
    if time < r.retainedFrom || time > r.advancedTo + TIME_TOLERANCE then Failure(InvalidRetention)
    else Success(Resolver(Live(r.falling, time), Live(r.voids, time), Live(r.collection, time), r.advancedTo, time))
  }

  // ---------------------------------------------------------------- what a resolved distance is

  /** After this share of its life the point that is hit lies in an event's disc, whose centre moves evenly from the
      origin to the target. */
  predicate MeetsAfter(e: Event, hit: Place, share: real) {
    var dx := hit.x - e.origin.x - Times(share, e.target.x - e.origin.x);
    var dy := hit.y - e.origin.y - Times(share, e.target.y - e.origin.y);
    Times(dx, dx) + Times(dy, dy) <= Times(e.radius, e.radius)
  }

  /** An event that is running meets the point that is hit. */
  ghost predicate Meets(e: Event, s: Sample) {
    && s.hit.Some? && e.startedAt <= s.elapsed < e.endsAt
    && exists share: real ::
         Times(share, e.endsAt - e.startedAt) == s.elapsed - e.startedAt && MeetsAfter(e, s.hit.value, share)
  }

  /** Material in front of the surface: nearer by its amount, unless that is below the minimum. */
  ghost predicate InFront(e: Event, s: Sample, minimum: real) {
    Meets(e, s) && s.distance - e.amount >= minimum
  }

  /** A hole in the surface: further by its amount, unless that is beyond the maximum or the static scene. */
  ghost predicate Behind(e: Event, s: Sample, maximum: real) {
    && Meets(e, s) && s.distance + e.amount <= maximum
    && (s.staticDistance == None || s.distance + e.amount <= s.staticDistance.value)
  }

  /** Material in front decides, and the nearest of it; without any the nearest hole; without either the distance
      stays. */
  ghost predicate IsDistorted(s: Sample, r: Resolver, minimum: real, maximum: real, distance: real) {
    var front := r.falling + r.collection;
    if exists k :: 0 <= k < |front| && InFront(front[k], s, minimum) then
      && (forall k | 0 <= k < |front| && InFront(front[k], s, minimum) :: distance <= s.distance - front[k].amount)
      && (exists k :: 0 <= k < |front| && InFront(front[k], s, minimum) && distance == s.distance - front[k].amount)
    else if exists k :: 0 <= k < |r.voids| && Behind(r.voids[k], s, maximum) then
      && (forall k | 0 <= k < |r.voids| && Behind(r.voids[k], s, maximum) ::
            distance <= s.distance + r.voids[k].amount)
      && (exists k :: 0 <= k < |r.voids| && Behind(r.voids[k], s, maximum)
            && distance == s.distance + r.voids[k].amount)
    else distance == s.distance
  }

  lemma OneShare(a: real, b: real, share: real)
    requires b > 0.0
    ensures Times(share, b) == a <==> share == a / b
  {
    QuotientTimes(a, b);
    if Times(share, b) == a {
      assert (share - a / b) * b == 0.0;
    }
  }

  lemma ActsMeans(e: Event, s: Sample)
    ensures Acts(e, s) <==> Meets(e, s)
  {
    hide Times;
    if s.hit.Some? && e.startedAt <= s.elapsed < e.endsAt {
      var a, b := s.elapsed - e.startedAt, e.endsAt - e.startedAt;
      OneShare(a, b, a / b);
      CoversAfter(e, s.hit.value, s.elapsed);
      if share: real :| Times(share, b) == a && MeetsAfter(e, s.hit.value, share) {
        OneShare(a, b, share);
      }
    }
  }

  lemma CoversAfter(e: Event, hit: Place, elapsed: real)
    requires e.Active(elapsed)
    ensures e.Covers(hit, elapsed) <==> MeetsAfter(e, hit, (elapsed - e.startedAt) / (e.endsAt - e.startedAt))
  {
    hide Times;
    var center, share := e.CenterAt(elapsed), (elapsed - e.startedAt) / (e.endsAt - e.startedAt);
    assert hit.x - center.x == hit.x - e.origin.x - Times(share, e.target.x - e.origin.x);
    assert hit.y - center.y == hit.y - e.origin.y - Times(share, e.target.y - e.origin.y);
  }

  lemma FrontOfBoth(s: Sample, r: Resolver, minimum: real, distance: real)
    requires distance == Min(Foreground(s, r.falling, minimum, |r.falling|),
                             Foreground(s, r.collection, minimum, |r.collection|))
    requires AllValid(r.falling) && AllValid(r.collection)
    ensures var front := r.falling + r.collection;
            && (forall k | 0 <= k < |front| && InFront(front[k], s, minimum) :: distance <= s.distance - front[k].amount)
            && (distance < s.distance <==> exists k :: 0 <= k < |front| && InFront(front[k], s, minimum))
            && (distance < s.distance ==>
                  exists k :: 0 <= k < |front| && InFront(front[k], s, minimum)
                              && distance == s.distance - front[k].amount)
            && distance <= s.distance
  {
    hide Foreground, Meets, Acts;
    var front, m, n := r.falling + r.collection, |r.falling|, |r.collection|;
    ForegroundIsNearest(s, r.falling, minimum, m);
    ForegroundIsNearest(s, r.collection, minimum, n);
    forall k | 0 <= k < |front| ensures InFront(front[k], s, minimum) <==> Shortens(front[k], s, minimum) {
      ActsMeans(front[k], s);
    }
    forall k | 0 <= k < |front| ensures front[k].amount > 0.0 {
      assert front[k].Valid();
    }
    assert forall k | 0 <= k < m :: front[k] == r.falling[k];
    assert forall k | 0 <= k < n :: front[m + k] == r.collection[k];
  }

  lemma ResolvedIsDistorted(s: Sample, r: Resolver, minimum: real, maximum: real)
    requires AllValid(r.falling) && AllValid(r.voids) && AllValid(r.collection)
    ensures IsDistorted(s, r, minimum, maximum, Resolved(s, r, minimum, maximum))
  {
    hide Foreground, Background, Meets, Acts, Event.Valid;
    var nearest := Min(Foreground(s, r.falling, minimum, |r.falling|),
                       Foreground(s, r.collection, minimum, |r.collection|));
    FrontOfBoth(s, r, minimum, nearest);
    BackgroundIsNearest(s, r.voids, maximum, |r.voids|);
    forall k | 0 <= k < |r.voids|
      ensures Behind(r.voids[k], s, maximum) <==> Lengthens(r.voids[k], s, maximum)
      ensures r.voids[k].amount > 0.0
    {
      ActsMeans(r.voids[k], s);
      AmountIsPositive(r.voids[k]);
    }
  }

  lemma AmountIsPositive(e: Event)
    requires e.Valid()
    ensures e.amount > 0.0
  {
  }

  lemma ResolveCounts(r: Resolver, samples: seq<Sample>, completedAt: real, minimum: real, maximum: real)
    requires samples != [] && ResolveAll(r, samples, completedAt, minimum, maximum).Success?
    ensures |ResolveAll(r, samples, completedAt, minimum, maximum).value| == |samples|
  {
  }

  /** Every distance of a resolved scan is the one that material and holes leave of the sample's own. */
  lemma ResolvedDistances(r: Resolver, samples: seq<Sample>, completedAt: real, minimum: real, maximum: real, k: nat)
    requires k < |samples| && ResolveAll(r, samples, completedAt, minimum, maximum).Success?
    ensures var distances := ResolveAll(r, samples, completedAt, minimum, maximum).value;
            |distances| == |samples| && IsDistorted(samples[k], r, minimum, maximum, distances[k])
  {
    hide Resolved, IsDistorted, Event.Valid;
    ResolvedIsDistorted(samples[k], r, minimum, maximum);
  }

  // ---------------------------------------------------------------- retained events stay valid

  /** Every retained event is valid, and every void started before the time reached, so closing one leaves it a life. */
  ghost predicate Sound(r: Resolver) {
    && AllValid(r.falling) && AllValid(r.voids) && AllValid(r.collection)
    && forall k | 0 <= k < |r.voids| :: r.voids[k].startedAt < r.advancedTo
  }

  lemma {:induction false} AdmittedMeans(events: seq<Event>, from: real, to: real, closed: bool, before: nat, n: nat)
    requires n <= |events|
    ensures var r := Rejected(events, from, to, closed, before, n);
            && (r == None ==> forall k | 0 <= k < n :: events[k].Valid() && InInterval(events[k], from, to, closed))
            && (r.Some? ==> r.value == InvalidEvent || r.value == OutsideInterval || r.value == TooManyEvents)
  {
    hide Event.Valid, InInterval;
    if n > 0 {
      AdmittedMeans(events, from, to, closed, before, n - 1);
    }
  }

  lemma MergedMembers(events: seq<Event>, more: seq<Event>, x: Event)
    requires x in Merged(events, more)
    ensures x in events || x in more
  {
    hide Sorted;
    if more != [] {
      SortedKeepsAll(events + more);
      assert x in multiset(Sorted(events + more));
      assert x in multiset(events + more);
    }
  }

  lemma MergedIsValid(events: seq<Event>, more: seq<Event>)
    requires AllValid(events) && AllValid(more)
    ensures AllValid(Merged(events, more))
  {
    hide Merged, Event.Valid;
    var merged := Merged(events, more);
    forall k | 0 <= k < |merged| ensures merged[k].Valid() {
      MergedMembers(events, more, merged[k]);
    }
  }

  /** Accepted events join a sound resolver when no new void starts at the very end. */
  lemma AdvanceIsSound(r: Resolver, to: real, falling: seq<Event>, voids: seq<Event>, collection: seq<Event>)
    requires Sound(r) && forall k | 0 <= k < |voids| :: voids[k].startedAt < to
    ensures var a := AdvanceWith(r, to, falling, voids, collection);
            if a.Success? then Sound(a.value) && a.value.advancedTo == to && a.value.retainedFrom == r.retainedFrom
            else a.error == TimeBackwards || a.error == InvalidEvent || a.error == OutsideInterval
                 || a.error == TooManyEvents
    ensures r.advancedTo <= to ==> AdvanceWith(r, to, falling, voids, collection) != Failure(TimeBackwards)
  {
    hide Merged, Event.Valid, Rejected;
    AdmittedMeans(falling, r.advancedTo, to, false, 0, |falling|);
    AdmittedMeans(voids, r.advancedTo, to, true, |falling|, |voids|);
    AdmittedMeans(collection, r.advancedTo, to, false, |falling| + |voids|, |collection|);
    if AdvanceWith(r, to, falling, voids, collection).Success? {
      MergedIsValid(r.falling, falling);
      MergedIsValid(r.voids, voids);
      MergedIsValid(r.collection, collection);
      var merged := Merged(r.voids, voids);
      forall k | 0 <= k < |merged| ensures merged[k].startedAt < to {
        MergedMembers(r.voids, voids, merged[k]);
      }
    }
  }

  lemma {:induction false} ClosedMembers(events: seq<Event>, at: real, closes: Event -> bool, n: nat)
    requires n <= |events|
    ensures forall k | 0 <= k < n :: ClosedTo(events, at, closes, n)[k] == Closed(events[k], at, closes)
    decreases n
  {
    hide Closed;
    if n > 0 {
      ClosedMembers(events, at, closes, n - 1);
    }
  }

  /** Voids closed at the time reached stay valid, because they started before it. */
  lemma CloseIsSound(r: Resolver, closes: Event -> bool)
    requires Sound(r)
    ensures Sound(CloseVoids(r, r.advancedTo, closes))
  {
    hide ClosedTo;
    ClosedMembers(r.voids, r.advancedTo, closes, |r.voids|);
  }

  lemma LiveIsValid(events: seq<Event>, time: real)
    requires AllValid(events)
    ensures AllValid(Live(events, time))
  {
    hide LiveTo, Event.Valid;
    LiveMembers(events, time, |events|);
    var live := Live(events, time);
    forall k | 0 <= k < |live| ensures live[k].Valid() {
      assert live[k] in live;
    }
  }

  lemma DiscardIsSound(r: Resolver, time: real)
    requires Sound(r)
    ensures DiscardBefore(r, time).Success? ==> Sound(DiscardBefore(r, time).value)
  {
    hide LiveTo, Event.Valid;
    LiveIsValid(r.falling, time);
    LiveIsValid(r.voids, time);
    LiveIsValid(r.collection, time);
    LiveMembers(r.voids, time, |r.voids|);
    var live := Live(r.voids, time);
    forall k | 0 <= k < |live| ensures live[k].startedAt < r.advancedTo {
      assert live[k] in live;
    }
  }

  /** A covered scan is resolved by a sound resolver: the validation of its events cannot fail. */
  lemma ResolveSucceeds(r: Resolver, samples: seq<Sample>, completedAt: real, minimum: real, maximum: real)
    requires Sound(r) && samples != [] && completedAt <= r.advancedTo && r.retainedFrom <= samples[0].elapsed
    ensures ResolveAll(r, samples, completedAt, minimum, maximum) == Success(AllResolved(r, samples, minimum, maximum))
  {
    hide Event.Valid, AllResolved;
  }

  /** Why voids must start before the end of their interval: one that starts at the very end is let in, but closing it
      there leaves it without a life, and resolving fails on it. */
  lemma VoidAtTheEndIsSpoilt(r: Resolver, k: nat, at: real, closes: Event -> bool, samples: seq<Sample>,
                             minimum: real, maximum: real)
    requires k < |r.voids| && r.voids[k].Valid() && r.voids[k].startedAt == at && closes(r.voids[k]) && samples != []
    ensures InInterval(r.voids[k], at, at, true)
    ensures ResolveAll(CloseVoids(r, at, closes), samples, at, minimum, maximum).Failure?
  {
    hide ClosedTo, AllResolved;
    ClosedMembers(r.voids, at, closes, |r.voids|);
    assert !CloseVoids(r, at, closes).voids[k].Valid();
  }

  // ---------------------------------------------------------------- what each operation does to the retained events

  /** A new event may join an interval: it is valid and starts inside, up to the tolerance before it; only a void may
      start at the very end. */
  predicate MayJoin(e: Event, from: real, to: real, closed: bool) {
    && 0.0 <= e.startedAt < e.endsAt <= e.expiresAt && e.radius > 0.0 && e.amount > 0.0
    && e.startedAt >= from - 0.000000000001 && e.startedAt <= to && (closed || e.startedAt != to)
  }

  ghost predicate AllMayJoin(events: seq<Event>, from: real, to: real, closed: bool) {
    forall k | 0 <= k < |events| :: MayJoin(events[k], from, to, closed)
  }

  lemma {:induction false} RejectedMeans(events: seq<Event>, from: real, to: real, closed: bool, before: nat, n: nat)
    requires n <= |events|
    ensures Rejected(events, from, to, closed, before, n) == None
       <==> (forall k | 0 <= k < n :: MayJoin(events[k], from, to, closed))
            && (n == 0 || before + n <= MAX_EVENTS_PER_ADVANCE)
    decreases n
  {
    if n > 0 {
      RejectedMeans(events, from, to, closed, before, n - 1);
    }
  }

  lemma MergedJoins(events: seq<Event>, more: seq<Event>)
    ensures multiset(Merged(events, more)) == multiset(events) + multiset(more)
    ensures InOrder(events) ==> InOrder(Merged(events, more))
  {
    hide Sorted;
    if more != [] {
      SortedKeepsAll(events + more);
      SortedIsInOrder(events + more);
    }
  }

  /** An advance succeeds exactly when time does not run backwards, every new event may join, and there are not too many
      of them. The new events join the old ones in order of their starts, and nothing else changes. */
  lemma AdvanceJoins(r: Resolver, to: real, falling: seq<Event>, voids: seq<Event>, collection: seq<Event>)
    ensures var a := AdvanceWith(r, to, falling, voids, collection);
            && (a.Success? <==>
                  && to >= r.advancedTo && AllMayJoin(falling, r.advancedTo, to, false)
                  && AllMayJoin(voids, r.advancedTo, to, true) && AllMayJoin(collection, r.advancedTo, to, false)
                  && |falling| + |voids| + |collection| <= 100_000)
            && (a.Success? ==>
                  && multiset(a.value.falling) == multiset(r.falling) + multiset(falling)
                  && multiset(a.value.voids) == multiset(r.voids) + multiset(voids)
                  && multiset(a.value.collection) == multiset(r.collection) + multiset(collection)
                  && (InOrder(r.falling) ==> InOrder(a.value.falling)) && (InOrder(r.voids) ==> InOrder(a.value.voids))
                  && (InOrder(r.collection) ==> InOrder(a.value.collection))
                  && a.value.advancedTo == to && a.value.retainedFrom == r.retainedFrom)
  {
    hide Merged, Rejected, MayJoin, InOrder;
    RejectedMeans(falling, r.advancedTo, to, false, 0, |falling|);
    RejectedMeans(voids, r.advancedTo, to, true, |falling|, |voids|);
    RejectedMeans(collection, r.advancedTo, to, false, |falling| + |voids|, |collection|);
    MergedJoins(r.falling, falling);
    MergedJoins(r.voids, voids);
    MergedJoins(r.collection, collection);
  }

  /** Only running voids that the test picks out are cut short; every other event stays as it is. */
  lemma CloseCutsShort(r: Resolver, at: real, closes: Event -> bool)
    ensures var c := CloseVoids(r, at, closes);
            && c == r.(voids := c.voids) && |c.voids| == |r.voids|
            && forall k | 0 <= k < |r.voids| ::
                 var e := r.voids[k];
                 c.voids[k] == if e.startedAt <= at < e.endsAt && closes(e) then e.(endsAt := at) else e
  {
    hide ClosedTo;
    ClosedMembers(r.voids, at, closes, |r.voids|);
  }

  /** As often as before, if it ends later; else not at all. */
  ghost predicate OnlyLater(before: seq<Event>, after: seq<Event>, time: real) {
    forall e: Event :: multiset(after)[e] == if e.endsAt > time then multiset(before)[e] else 0
  }

  lemma OnlyLaterOfOneMore(before: seq<Event>, after: seq<Event>, x: Event, time: real)
    requires OnlyLater(before, after, time)
    ensures OnlyLater(before + [x], if x.endsAt > time then after + [x] else after, time)
  {
    forall e: Event
      ensures multiset(before + [x])[e] == multiset(before)[e] + if e == x then 1 else 0
      ensures multiset(after + [x])[e] == multiset(after)[e] + if e == x then 1 else 0
    {
    }
  }

  lemma {:induction false} LiveIsOnlyLater(events: seq<Event>, time: real, n: nat)
    requires n <= |events|
    ensures OnlyLater(events[..n], LiveTo(events, time, n), time)
    decreases n
  {
    hide OnlyLater, LiveTo;
    if n == 0 {
      NoneIsOnlyLater(events, time);
    } else {
      LiveIsOnlyLater(events, time, n - 1);
      LiveUnfolds(events, time, n);
      OnlyLaterOfOneMore(events[..n - 1], LiveTo(events, time, n - 1), events[n - 1], time);
      assert events[..n] == events[..n - 1] + [events[n - 1]];
    }
  }

  lemma NoneIsOnlyLater(events: seq<Event>, time: real)
    ensures OnlyLater(events[..0], LiveTo(events, time, 0), time)
  {
  }

  lemma {:induction false} LiveIsInOrder(events: seq<Event>, time: real, n: nat)
    requires n <= |events| && InOrder(events)
    ensures InOrder(LiveTo(events, time, n))
    decreases n
  {
    if n > 0 {
      LiveIsInOrder(events, time, n - 1);
      LiveMembers(events, time, n - 1);
      var live := LiveTo(events, time, n - 1);
      forall k | 0 <= k < |live| ensures live[k].startedAt <= events[n - 1].startedAt {
        assert live[k] in events[..n - 1];
      }
    }
  }

  /** Discarding succeeds exactly between the last retention time and the time reached, up to the tolerance. What ends by
      then is gone, what ends later stays, in order. */
  lemma DiscardDropsEnded(r: Resolver, time: real)
    ensures var d := DiscardBefore(r, time);
            && (d.Success? <==> r.retainedFrom <= time <= r.advancedTo + 0.000000000001)
            && (d.Success? ==>
                  && OnlyLater(r.falling, d.value.falling, time) && OnlyLater(r.voids, d.value.voids, time)
                  && OnlyLater(r.collection, d.value.collection, time)
                  && (InOrder(r.falling) ==> InOrder(d.value.falling)) && (InOrder(r.voids) ==> InOrder(d.value.voids))
                  && (InOrder(r.collection) ==> InOrder(d.value.collection))
                  && d.value.advancedTo == r.advancedTo && d.value.retainedFrom == time)
  {
    hide LiveTo, OnlyLater, InOrder;
    assert r.falling[..|r.falling|] == r.falling && r.voids[..|r.voids|] == r.voids
           && r.collection[..|r.collection|] == r.collection;
    LiveIsOnlyLater(r.falling, time, |r.falling|);
    LiveIsOnlyLater(r.voids, time, |r.voids|);
    LiveIsOnlyLater(r.collection, time, |r.collection|);
    LiveListInOrder(r.falling, time);
    LiveListInOrder(r.voids, time);
    LiveListInOrder(r.collection, time);
  }

  lemma LiveListInOrder(events: seq<Event>, time: real)
    ensures InOrder(events) ==> InOrder(Live(events, time))
  {
    hide InOrder;
    if InOrder(events) {
      LiveIsInOrder(events, time, |events|);
    }
  }

  /** A scan can be resolved exactly when it lies between the retention time and the time reached, and every retained
      event is valid. */
  lemma ResolvesWhen(r: Resolver, samples: seq<Sample>, completedAt: real, minimum: real, maximum: real)
    requires samples != []
    ensures ResolveAll(r, samples, completedAt, minimum, maximum).Success?
       <==> && completedAt <= r.advancedTo + 0.000000000001 && r.retainedFrom <= samples[0].elapsed
            && forall e | e in r.voids + r.falling + r.collection ::
                 0.0 <= e.startedAt < e.endsAt <= e.expiresAt && e.radius > 0.0 && e.amount > 0.0
  {
    hide AllResolved;
    var all := r.voids + r.falling + r.collection;
    assert forall e | e in r.voids :: e in all;
    assert forall e | e in r.falling :: e in all;
    assert forall e | e in r.collection :: e in all;
    assert AllValid(r.voids) <==> forall e | e in r.voids :: e.Valid();
    assert AllValid(r.falling) <==> forall e | e in r.falling :: e.Valid();
    assert AllValid(r.collection) <==> forall e | e in r.collection :: e.Valid();
  }

  // ---------------------------------------------------------------- the pruned resolver answers like the full one

  /** From here on a resolver is asked about its events: for samples after the retention time, and for open voids at the
      time reached. */
  function Since(r: Resolver): real {
    Min(r.retainedFrom, r.advancedTo)
  }

  /** A pruned resolver and a full one that was never pruned: the same events are live wherever one may ask. */
  ghost predicate Stands(pruned: Resolver, full: Resolver) {
    && pruned.advancedTo == full.advancedTo
    && full.retainedFrom == 0.0 <= pruned.retainedFrom
    && SameLive(pruned, full, Since(pruned))
  }

  lemma {:induction false} LiveAgain(events: seq<Event>, low: real, high: real, n: nat)
    requires n <= |events| && low <= high
    ensures Live(LiveTo(events, low, n), high) == LiveTo(events, high, n)
  {
    if n == 0 {
      LiveOfNone(high);
    } else {
      LiveAgain(events, low, high, n - 1);
      LiveAppend(LiveTo(events, low, n - 1), events[n - 1], high);
    }
  }

  lemma SameLiveLater(r: Resolver, q: Resolver, low: real, high: real)
    requires SameLive(r, q, low) && low <= high
    ensures SameLive(r, q, high)
  {
    hide LiveTo;
    LiveAgain(r.falling, low, high, |r.falling|);
    LiveAgain(q.falling, low, high, |q.falling|);
    LiveAgain(r.voids, low, high, |r.voids|);
    LiveAgain(q.voids, low, high, |q.voids|);
    LiveAgain(r.collection, low, high, |r.collection|);
    LiveAgain(q.collection, low, high, |q.collection|);
  }

  /** No event ends after the one time and up to the other. */
  predicate NothingEnds(events: seq<Event>, low: real, high: real) {
    forall k | 0 <= k < |events| :: !(low < events[k].endsAt <= high)
  }

  predicate NoneEnds(r: Resolver, low: real, high: real) {
    NothingEnds(r.falling, low, high) && NothingEnds(r.voids, low, high) && NothingEnds(r.collection, low, high)
  }

  lemma {:induction false} LiveShrinks(events: seq<Event>, low: real, high: real, n: nat)
    requires n <= |events| && low <= high
    ensures |LiveTo(events, high, n)| <= |LiveTo(events, low, n)|
    ensures if exists k :: 0 <= k < n && low < events[k].endsAt <= high then
              |LiveTo(events, high, n)| < |LiveTo(events, low, n)|
            else LiveTo(events, high, n) == LiveTo(events, low, n)
    decreases n
  {
    if n > 0 {
      LiveShrinks(events, low, high, n - 1);
    }
  }

  /** The same events are live at two times exactly when nothing ends in between. */
  lemma SameLiveWhenNoneEnds(r: Resolver, low: real, high: real)
    requires low <= high
    ensures NoneEnds(r, low, high)
            <==> && Live(r.falling, low) == Live(r.falling, high) && Live(r.voids, low) == Live(r.voids, high)
                 && Live(r.collection, low) == Live(r.collection, high)
  {
    hide LiveTo;
    LiveShrinks(r.falling, low, high, |r.falling|);
    LiveShrinks(r.voids, low, high, |r.voids|);
    LiveShrinks(r.collection, low, high, |r.collection|);
  }

  /** What is live after the later of two times is not touched by forgetting at the earlier, nor the other way round. */
  lemma {:induction false} LiveBefore(events: seq<Event>, low: real, high: real, n: nat)
    requires n <= |events| && low <= high
    ensures Live(LiveTo(events, high, n), low) == LiveTo(events, high, n)
    decreases n
  {
    if n == 0 {
      LiveOfNone(low);
    } else {
      LiveBefore(events, low, high, n - 1);
      LiveAppend(LiveTo(events, high, n - 1), events[n - 1], low);
    }
  }

  lemma DiscardedLive(r: Resolver, time: real, low: real)
    requires DiscardBefore(r, time).Success? && low <= time
    ensures var d := DiscardBefore(r, time).value;
            && Live(d.falling, low) == Live(r.falling, time) && Live(d.voids, low) == Live(r.voids, time)
            && Live(d.collection, low) == Live(r.collection, time)
  {
    hide LiveTo;
    LiveBefore(r.falling, low, time, |r.falling|);
    LiveBefore(r.voids, low, time, |r.voids|);
    LiveBefore(r.collection, low, time, |r.collection|);
  }

  /** Forgetting goes unnoticed exactly when no event ends after the time reached and by the time of forgetting: there is
      no such event unless that time lies ahead, within the tolerance. */
  lemma DiscardStands(pruned: Resolver, full: Resolver, time: real)
    requires Stands(pruned, full) && DiscardBefore(pruned, time).Success?
    ensures Stands(DiscardBefore(pruned, time).value, full) <==> NoneEnds(pruned, pruned.advancedTo, time)
    ensures NoneEnds(pruned, pruned.advancedTo, time) <==> NoneEnds(full, pruned.advancedTo, time)
  {
    hide LiveTo, NothingEnds;
    var low := Min(time, pruned.advancedTo);
    SameLiveLater(pruned, full, Since(pruned), low);
    SameLiveLater(pruned, full, Since(pruned), time);
    SameLiveWhenNoneEnds(pruned, low, time);
    SameLiveWhenNoneEnds(full, low, time);
    DiscardedLive(pruned, time, low);
    if time <= pruned.advancedTo {
      NoneInBetween(pruned, pruned.advancedTo, time);
      NoneInBetween(full, pruned.advancedTo, time);
    }
  }

  lemma NoneInBetween(r: Resolver, low: real, high: real)
    requires high <= low
    ensures NoneEnds(r, low, high)
  {
  }

  lemma AdvanceStands(pruned: Resolver, full: Resolver, to: real, falling: seq<Event>, voids: seq<Event>,
                      collection: seq<Event>)
    requires Stands(pruned, full)
    ensures var p, f := AdvanceWith(pruned, to, falling, voids, collection),
            AdvanceWith(full, to, falling, voids, collection);
            if p.Success? then f.Success? && Stands(p.value, f.value) else f == Failure(p.error)
  {
    hide LiveTo, Merged, Rejected;
    var p, f := AdvanceWith(pruned, to, falling, voids, collection), AdvanceWith(full, to, falling, voids, collection);
    SameLiveAfterMerge(pruned.falling, full.falling, falling, Since(pruned));
    SameLiveAfterMerge(pruned.voids, full.voids, voids, Since(pruned));
    SameLiveAfterMerge(pruned.collection, full.collection, collection, Since(pruned));
    if p.Success? {
      SameLiveLater(p.value, f.value, Since(pruned), Since(p.value));
    }
  }

  lemma LiveUnfolds(events: seq<Event>, time: real, n: nat)
    requires 0 < n <= |events|
    ensures LiveTo(events, time, n)
         == var before := LiveTo(events, time, n - 1);
            if events[n - 1].endsAt > time then before + [events[n - 1]] else before
  {
  }

  lemma ClosedUnfolds(events: seq<Event>, at: real, closes: Event -> bool, n: nat)
    requires 0 < n <= |events|
    ensures ClosedTo(events, at, closes, n) == ClosedTo(events, at, closes, n - 1) + [Closed(events[n - 1], at, closes)]
  {
  }

  lemma ClosedOfOneMore(before: seq<Event>, e: Event, at: real, closes: Event -> bool)
    ensures ClosedTo(before + [e], at, closes, |before| + 1)
         == ClosedTo(before, at, closes, |before|) + [Closed(e, at, closes)]
  {
    hide Closed;
    ClosedOfPrefix(before, [e], at, closes, |before|);
  }

  /** Closing keeps ended events ended, and treats live ones alike. */
  lemma {:induction false} ClosedIsLive(events: seq<Event>, at: real, closes: Event -> bool, time: real, n: nat)
    requires n <= |events| && time <= at
    ensures var live := LiveTo(events, time, n);
            Live(ClosedTo(events, at, closes, n), time) == Live(ClosedTo(live, at, closes, |live|), time)
    decreases n
  {
    hide LiveTo, Live, ClosedTo, Closed;
    if n == 0 {
      NothingToClose(events, at, closes, time);
    } else {
      ClosedIsLive(events, at, closes, time, n - 1);
      var before, e := LiveTo(events, time, n - 1), events[n - 1];
      LiveUnfolds(events, time, n);
      ClosedUnfolds(events, at, closes, n);
      LiveAppend(ClosedTo(events, at, closes, n - 1), Closed(e, at, closes), time);
      if e.endsAt > time {
        ClosedOfOneMore(before, e, at, closes);
        LiveAppend(ClosedTo(before, at, closes, |before|), Closed(e, at, closes), time);
      } else {
        EndedStaysEnded(e, at, closes, time);
      }
    }
  }

  lemma NothingToClose(events: seq<Event>, at: real, closes: Event -> bool, time: real)
    ensures LiveTo(events, time, 0) == [] && ClosedTo(events, at, closes, 0) == ClosedTo([], at, closes, 0) == []
  {
  }

  lemma EndedStaysEnded(e: Event, at: real, closes: Event -> bool, time: real)
    requires e.endsAt <= time <= at
    ensures Closed(e, at, closes) == e
  {
  }

  lemma {:induction false} ClosedOfPrefix(events: seq<Event>, more: seq<Event>, at: real, closes: Event -> bool, n: nat)
    requires n <= |events|
    ensures ClosedTo(events + more, at, closes, n) == ClosedTo(events, at, closes, n)
  {
    hide Closed;
    if n > 0 {
      ClosedOfPrefix(events, more, at, closes, n - 1);
    }
  }

  lemma CloseStands(pruned: Resolver, full: Resolver, at: real, closes: Event -> bool)
    requires Stands(pruned, full) && Since(pruned) <= at
    ensures Stands(CloseVoids(pruned, at, closes), CloseVoids(full, at, closes))
  {
    hide LiveTo, ClosedTo;
    ClosedIsLive(pruned.voids, at, closes, Since(pruned), |pruned.voids|);
    ClosedIsLive(full.voids, at, closes, Since(pruned), |full.voids|);
  }

  ghost predicate TimesRise(samples: seq<Sample>) {
    forall k | 0 < k < |samples| :: samples[k - 1].elapsed < samples[k].elapsed
  }

  lemma {:induction false} LaterSamples(samples: seq<Sample>, k: nat)
    requires TimesRise(samples) && k < |samples|
    ensures samples[0].elapsed <= samples[k].elapsed
  {
    if k > 0 {
      LaterSamples(samples, k - 1);
    }
  }

  /** A scan that the pruned resolver still covers is resolved as the full one would resolve it. */
  lemma ResolveStands(pruned: Resolver, full: Resolver, samples: seq<Sample>, completedAt: real, minimum: real,
                      maximum: real)
    requires Stands(pruned, full) && Sound(pruned) && Sound(full)
    requires samples != [] && TimesRise(samples) && pruned.retainedFrom <= samples[0].elapsed
    ensures ResolveAll(pruned, samples, completedAt, minimum, maximum)
            == ResolveAll(full, samples, completedAt, minimum, maximum)
  {
    hide Resolved, LiveTo, Event.Valid;
    SameLiveLater(pruned, full, Since(pruned), pruned.retainedFrom);
    forall k | 0 <= k < |samples|
      ensures Resolved(samples[k], pruned, minimum, maximum) == Resolved(samples[k], full, minimum, maximum)
    {
      LaterSamples(samples, k);
      SameResolution(samples[k], pruned, full, minimum, maximum, pruned.retainedFrom);
    }
    assert AllResolved(pruned, samples, minimum, maximum) == AllResolved(full, samples, minimum, maximum);
  }

  // ---------------------------------------------------------------- the resolver as it runs

  class SpatialDistortionResolver {
    var falling: seq<Event>
    var voids: seq<Event>
    var collection: seq<Event>
    var advancedTo: real
    var retainedFrom: real

    function Current(): Resolver
      reads this
    {
      Resolver(falling, voids, collection, advancedTo, retainedFrom)
    }

    constructor ()
      ensures Current() == NEW_RESOLVER
    {
      falling, voids, collection, advancedTo, retainedFrom := [], [], [], 0.0, 0.0;
    }

    method FirstRejected(events: seq<Event>, to: real, closed: bool, before: nat) returns (r: Option<SpatialError>)
      ensures r == Rejected(events, advancedTo, to, closed, before, |events|)
    {
      hide Event.Valid, InInterval;
      r := None;
      for k := 0 to |events|
        invariant r == Rejected(events, advancedTo, to, closed, before, k)
      {
        if r.None? {
          if !events[k].Valid() {
            r := Some(InvalidEvent);
          } else if !InInterval(events[k], advancedTo, to, closed) {
            r := Some(OutsideInterval);
          } else if before + k >= MAX_EVENTS_PER_ADVANCE {
            r := Some(TooManyEvents);
          }
        }
      }
    }

    /** All new events join, or nothing changes. */
    method Advance(to: real, newFalling: seq<Event>, newVoids: seq<Event>, newCollection: seq<Event>)
      returns (r: Result<(), SpatialError>)
      modifies this
      ensures var spec := AdvanceWith(old(Current()), to, newFalling, newVoids, newCollection);
              if spec.Success? then r.Success? && Current() == spec.value
              else r == Failure(spec.error) && Current() == old(Current())
    {
      hide Rejected, Merged;
      if to < advancedTo {
        return Failure(TimeBackwards);
      }
      var rejected := FirstRejected(newFalling, to, false, 0);
      if rejected.Some? {
        return Failure(rejected.value);
      }
      rejected := FirstRejected(newVoids, to, true, |newFalling|);
      if rejected.Some? {
        return Failure(rejected.value);
      }
      rejected := FirstRejected(newCollection, to, false, |newFalling| + |newVoids|);
      if rejected.Some? {
        return Failure(rejected.value);
      }
      falling := Merged(falling, newFalling);
      voids := Merged(voids, newVoids);
      collection := Merged(collection, newCollection);
      advancedTo := to;
      return Success(());
    }

    /** Every event is validated before any sample is looked at. */
    method Validate(events: seq<Event>) returns (valid: bool)
      ensures valid == AllValid(events)
    {
      hide Event.Valid;
      for k := 0 to |events|
        invariant forall j | 0 <= j < k :: events[j].Valid()
      {
        if !events[k].Valid() {
          return false;
        }
      }
      return true;
    }

    method ResolveForeground(samples: seq<Sample>, events: seq<Event>, minimum: real)
      returns (r: Result<seq<real>, SpatialError>)
      ensures !AllValid(events) ==> r == Failure(InvalidEvent)
      ensures AllValid(events) ==>
                && r.Success? && |r.value| == |samples|
                && forall k | 0 <= k < |samples| :: r.value[k] == Foreground(samples[k], events, minimum, |events|)
    {
      hide Event.Covers, Event.Valid;
      var valid := Validate(events);
      if !valid {
        return Failure(InvalidEvent);
      }
      var resolved := seq(|samples|, k requires 0 <= k < |samples| => samples[k].distance);
      for index := 0 to |samples|
        invariant |resolved| == |samples|
        invariant forall k | 0 <= k < index :: resolved[k] == Foreground(samples[k], events, minimum, |events|)
        invariant forall k | index <= k < |samples| :: resolved[k] == samples[k].distance
      {
        var s := samples[index];
        if s.hit.None? {
          NoHit(s, events, minimum, |events|);
        } else {
          for n := 0 to |events|
            invariant |resolved| == |samples| && resolved[index] == Foreground(s, events, minimum, n)
            invariant forall k | 0 <= k < index :: resolved[k] == Foreground(samples[k], events, minimum, |events|)
            invariant forall k | index < k < |samples| :: resolved[k] == samples[k].distance
          {
            var candidate := s.distance - events[n].amount;
            if events[n].Active(s.elapsed) && events[n].Covers(s.hit.value, s.elapsed) && candidate >= minimum {
              resolved := resolved[index := Min(resolved[index], candidate)];
            }
          }
        }
      }
      return Success(resolved);
    }

    method ResolveBackground(samples: seq<Sample>, events: seq<Event>, maximum: real)
      returns (r: Result<seq<real>, SpatialError>)
      ensures !AllValid(events) ==> r == Failure(InvalidEvent)
      ensures AllValid(events) ==>
                && r.Success? && |r.value| == |samples|
                && forall k | 0 <= k < |samples| :: r.value[k] == Background(samples[k], events, maximum, |events|).value
    {
      hide Event.Covers, Event.Valid;
      var valid := Validate(events);
      if !valid {
        return Failure(InvalidEvent);
      }
      var resolved := seq(|samples|, k requires 0 <= k < |samples| => samples[k].distance);
      for index := 0 to |samples|
        invariant |resolved| == |samples|
        invariant forall k | 0 <= k < index :: resolved[k] == Background(samples[k], events, maximum, |events|).value
        invariant forall k | index <= k < |samples| :: resolved[k] == samples[k].distance
      {
        var s := samples[index];
        var selected := false;
        for n := 0 to |events|
          invariant |resolved| == |samples| && Choice(resolved[index], selected) == Background(s, events, maximum, n)
          invariant forall k | 0 <= k < index :: resolved[k] == Background(samples[k], events, maximum, |events|).value
          invariant forall k | index < k < |samples| :: resolved[k] == samples[k].distance
        {
          if Lengthens(events[n], s, maximum) {
            var candidate := s.distance + events[n].amount;
            if !selected || candidate < resolved[index] {
              resolved := resolved[index := candidate];
            }
            selected := true;
          }
        }
      }
      return Success(resolved);
    }

    method ResolveDistances(samples: seq<Sample>, completedAt: real, minimum: real, maximum: real)
      returns (r: Result<seq<real>, SpatialError>)
      requires samples != []
      ensures r == ResolveAll(Current(), samples, completedAt, minimum, maximum)
    {
      hide Foreground, Background, Event.Valid;
      if completedAt > advancedTo + TIME_TOLERANCE {
        return Failure(NotCovered);
      }
      if samples[0].elapsed < retainedFrom {
        return Failure(NoLongerCovered);
      }
      var resolved :- ResolveBackground(samples, voids, maximum);
      var fallingDistances :- ResolveForeground(samples, falling, minimum);
      var collectionDistances :- ResolveForeground(samples, collection, minimum);
      ghost var background := resolved;
      for k := 0 to |samples|
        invariant |resolved| == |samples|
        invariant forall j | 0 <= j < k :: resolved[j] == Resolved(samples[j], Current(), minimum, maximum)
        invariant forall j | k <= j < |samples| :: resolved[j] == background[j]
      {
        var foreground := Min(fallingDistances[k], collectionDistances[k]);
        if foreground < samples[k].distance {
          resolved := resolved[k := Min(resolved[k], foreground)];
        }
      }
      assert resolved == AllResolved(Current(), samples, minimum, maximum);
      return Success(resolved);
    }

    method Discard(time: real) returns (r: Result<(), SpatialError>)
      modifies this
      ensures var spec := DiscardBefore(old(Current()), time);
              if spec.Success? then r.Success? && Current() == spec.value
              else r == Failure(spec.error) && Current() == old(Current())
    {
      if time < retainedFrom || time > advancedTo + TIME_TOLERANCE {
        return Failure(InvalidRetention);
      }
      falling, voids, collection := Live(falling, time), Live(voids, time), Live(collection, time);
      retainedFrom := time;
      return Success(());
    }
  }

  lemma {:induction false} NoHit(s: Sample, events: seq<Event>, minimum: real, n: nat)
    requires n <= |events| && s.hit.None?
    ensures Foreground(s, events, minimum, n) == s.distance
  {
    if n > 0 {
      NoHit(s, events, minimum, n - 1);
    }
  }
}

/** Drawing a random balanced profile (services/simulation-server/src/rate_profile.rs, create_smooth_rate_profile). */
module RateProfileCreation {
  import opened Wrappers
  import opened Sums
  import opened Randomness
  import opened RateProfile

  /** What a profile is drawn for: its duration, its factor limits and the range of change durations. */
  datatype Request = Request(duration: real, lower: real, upper: real, minimum: real, maximum: real) {
    function Rejection(): Option<RateProfileError> {
      if duration <= 0.0 then Some(InvalidDuration)
      else if lower <= 0.0 || lower > 1.0 || upper < 1.0 then Some(InvalidFactorRange)
      else if minimum <= 0.0 || maximum < minimum then Some(InvalidChangeRange)
      else None
    }

    /** The factor can move in both directions. */
    predicate Variable() {
      Rejection() == None && lower < 1.0 < upper
    }

    /** There is room for one more pair of changes. */
    predicate Fits(cursor: real) {
      0.0 <= cursor && duration - cursor >= 2.0 * minimum
    }
  }

  /** The profile drawn, and where the stream stands afterwards. */
  datatype Drawn = Drawn(profile: Profile, position: nat)

  datatype Pair = Pair(first: Segment, second: Segment)

  function FirstDuration(words: Stream, position: nat, request: Request, cursor: real): (first: real)
    requires request.Variable() && request.Fits(cursor)
    ensures request.minimum <= first <= request.duration - cursor - request.minimum
  {
    Uniform(words(position), request.minimum, Min(request.maximum, request.duration - cursor - request.minimum))
  }

  function SecondDuration(words: Stream, position: nat, request: Request, cursor: real): (second: real)
    requires request.Variable() && request.Fits(cursor)
    ensures request.minimum <= second <= request.duration - cursor - FirstDuration(words, position, request, cursor)
  {
    Uniform(words(position + 1), request.minimum,
            Min(request.maximum, request.duration - cursor - FirstDuration(words, position, request, cursor)))
  }

  /** The largest integral that neither limit forbids. */
  function MaximumBalance(request: Request, positiveDuration: real, negativeDuration: real): (balance: real)
    requires request.Variable() && positiveDuration > 0.0 && negativeDuration > 0.0
    ensures balance >= 0.0
  {
    Monotone(0.0, request.upper - 1.0, positiveDuration);
    Monotone(0.0, 1.0 - request.lower, negativeDuration);
    TimesZero(positiveDuration);
    TimesZero(negativeDuration);
    Min(Times(request.upper - 1.0, positiveDuration), Times(1.0 - request.lower, negativeDuration))
  }

  /** One rise and one fall with the same integral, in an order given by one bit; four words of the stream. */
  function DrawPair(words: Stream, position: nat, request: Request, cursor: real): (pair: Pair)
    requires request.Variable() && request.Fits(cursor)
    ensures pair.first.duration >= request.minimum && pair.second.duration >= request.minimum
  {
    var first, second := FirstDuration(words, position, request, cursor),
        SecondDuration(words, position, request, cursor);
    var positiveFirst := Boolean(words(position + 2));
    var (positive, negative) := if positiveFirst then (first, second) else (second, first);
    var balance := Uniform(words(position + 3), 0.0, MaximumBalance(request, positive, negative));
    var (firstDeviation, secondDeviation) :=
      if positiveFirst then (balance / positive, -balance / negative) else (-balance / negative, balance / positive);
    Pair(Segment(cursor, first, firstDeviation), Segment(cursor + first, second, secondDeviation))
  }

  /** Pairs from the cursor on, as long as there is room. */
  function Build(words: Stream, position: nat, request: Request, segments: seq<Segment>, cursor: real)
    : Result<Built, RateProfileError>
    requires request.Variable() && cursor >= 0.0
    decreases Rounds(request, cursor)
  {
    if request.duration - cursor < 2.0 * request.minimum then Success(Built(segments, position))
    else if |segments| + 2 > MAX_RATE_SEGMENTS then Failure(SegmentLimit)
    else
      var pair := DrawPair(words, position, request, cursor);
      var next := cursor + (pair.first.duration + pair.second.duration);
      RoundsShrink(request, cursor, next);
      Build(words, position + 4, request, segments + [pair.first, pair.second], next)
  }

  datatype Built = Built(segments: seq<Segment>, position: nat)

  /** A bound on the rounds to come: each advances by at least twice the minimum change. */
  ghost function Rounds(request: Request, cursor: real): int
    requires request.Variable()
  {
    ((request.duration - cursor) / (2.0 * request.minimum)).Floor
  }

  lemma RoundsShrink(request: Request, cursor: real, next: real)
    requires request.Variable() && request.Fits(cursor) && next >= cursor + 2.0 * request.minimum
    ensures 0 <= Rounds(request, cursor) && Rounds(request, next) < Rounds(request, cursor)
  {
    var width := 2.0 * request.minimum;
    var now, later := (request.duration - cursor) / width, (request.duration - next) / width;
    StepsInQuotient(request.duration - cursor, request.duration - next, width);
  }

  function CreateProfile(words: Stream, position: nat, request: Request): Result<Drawn, RateProfileError> {
    if request.Rejection().Some? then Failure(request.Rejection().value)
    else if !request.Variable() then
      var profile := NewProfile(request.duration, []);
      if profile.Success? then Success(Drawn(profile.value, position)) else Failure(profile.error)
    else
      var built := Build(words, position, request, [], 0.0);
      if built.Failure? then Failure(built.error)
      else
        var profile := NewProfile(request.duration, built.value.segments);
        if profile.Success? then Success(Drawn(profile.value, built.value.position)) else Failure(profile.error)
  }

  // ---------------------------------------------------------------- every pair is balanced

  /** One pair continues from the cursor, cancels out, and keeps within the factor limits and the duration. */
  ghost predicate GoodPair(pair: Pair, request: Request, cursor: real) {
    && pair.first.Valid() && pair.second.Valid()
    && pair.first.start == cursor && pair.second.start == pair.first.End() && pair.second.End() <= request.duration
    && pair.first.duration >= request.minimum && pair.second.duration >= request.minimum
    && request.lower - 1.0 <= pair.first.deviation <= request.upper - 1.0
    && request.lower - 1.0 <= pair.second.deviation <= request.upper - 1.0
    && pair.first.Integral() + pair.second.Integral() == 0.0
  }

  /** The rise and the fall that share one integral stay within their limits. */
  lemma BalancedDeviations(balance: real, positive: real, negative: real, request: Request)
    requires request.Variable() && positive > 0.0 && negative > 0.0
    requires 0.0 <= balance <= MaximumBalance(request, positive, negative)
    ensures 0.0 <= balance / positive <= request.upper - 1.0
    ensures request.lower - 1.0 <= -balance / negative <= 0.0
    ensures Times(balance / positive, positive) == balance
    ensures Times(-balance / negative, negative) == -balance
  {
    hide Uniform;
    Share(balance, positive, request.upper - 1.0);
    Share(balance, negative, 1.0 - request.lower);
    QuotientTimes(balance, positive);
    QuotientTimes(-balance, negative);
    assert -balance / negative == -(balance / negative);
  }

  lemma Share(balance: real, duration: real, limit: real)
    requires duration > 0.0 && 0.0 <= balance <= Times(limit, duration)
    ensures 0.0 <= balance / duration <= limit
  {
    Quotient(balance, duration);
    QuotientTimes(balance, duration);
    OrderFromTimes(balance / duration, limit, duration);
  }

  lemma PairsAreGood(words: Stream, position: nat, request: Request, cursor: real)
    requires request.Variable() && request.Fits(cursor)
    ensures GoodPair(DrawPair(words, position, request, cursor), request, cursor)
  {
    hide Uniform, Times, MaximumBalance, FirstDuration, SecondDuration;
    var first, second := FirstDuration(words, position, request, cursor),
        SecondDuration(words, position, request, cursor);
    var positiveFirst := Boolean(words(position + 2));
    var positive, negative := if positiveFirst then first else second, if positiveFirst then second else first;
    var balance := Uniform(words(position + 3), 0.0, MaximumBalance(request, positive, negative));
    BalancedDeviations(balance, positive, negative, request);
  }

  // ---------------------------------------------------------------- every profile is balanced

  /** The segments so far fill the time from 0 to the cursor, each at least the minimum long, and cancel out. */
  ghost predicate Filled(segments: seq<Segment>, request: Request, cursor: real) {
    && AllValid(segments) && Disjoint(segments) && Within(segments, request.lower, request.upper)
    && Total(segments, |segments|) == 0.0
    && (forall k | 0 <= k < |segments| :: segments[k].End() <= cursor)
    && 0.0 <= cursor <= request.duration
    && (segments != [] ==> segments[|segments| - 1].End() == cursor)
    && Times(|segments| as real, request.minimum) <= cursor
  }

  lemma {:induction false} TotalOfPrefix(segments: seq<Segment>, more: seq<Segment>, n: nat)
    requires n <= |segments|
    ensures Total(segments + more, n) == Total(segments, n)
  {
    hide Times;
    if n > 0 {
      TotalOfPrefix(segments, more, n - 1);
    }
  }

  lemma AppendKeepsFilled(segments: seq<Segment>, request: Request, cursor: real, pair: Pair)
    requires request.Variable() && Filled(segments, request, cursor) && GoodPair(pair, request, cursor)
    ensures Filled(segments + [pair.first, pair.second], request, pair.second.End())
    ensures pair.second.End() == cursor + (pair.first.duration + pair.second.duration)
  {
    hide Times;
    var more := segments + [pair.first, pair.second];
    TotalOfPrefix(segments, [pair.first, pair.second], |segments|);
    assert more[..|segments|] == segments;
    assert Total(more, |more|) == Total(more, |segments|) + pair.first.Integral() + pair.second.Integral();
    CountTimes(|segments|, request.minimum);
  }

  lemma CountTimes(n: nat, minimum: real)
    ensures Times((n + 2) as real, minimum) == Times(n as real, minimum) + 2.0 * minimum
  {
  }

  /** The loop keeps the segments balanced, and gives up only when the duration holds more than the limit's worth of
      minimum changes. */
  lemma {:induction false} BuildFills(words: Stream, position: nat, request: Request, segments: seq<Segment>,
                                      cursor: real)
    requires request.Variable() && Filled(segments, request, cursor) && |segments| <= MAX_RATE_SEGMENTS
    ensures var r := Build(words, position, request, segments, cursor);
            if r.Success? then
              && |r.value.segments| <= MAX_RATE_SEGMENTS
              && exists end :: Filled(r.value.segments, request, end) && request.duration - end < 2.0 * request.minimum
            else r.error == SegmentLimit && Times((MAX_RATE_SEGMENTS + 1) as real, request.minimum) <= request.duration
    decreases Rounds(request, cursor)
  {
    hide DrawPair, Filled, GoodPair, Times, Rounds;
    FilledCursor(segments, request, cursor);
    if request.duration - cursor < 2.0 * request.minimum {
      assert Filled(segments, request, cursor);
    } else if |segments| + 2 > MAX_RATE_SEGMENTS {
      LimitNeedsTime(|segments|, request.minimum, cursor, request.duration);
    } else {
      var pair := DrawPair(words, position, request, cursor);
      PairsAreGood(words, position, request, cursor);
      GoodPairAdvances(pair, request, cursor);
      AppendKeepsFilled(segments, request, cursor, pair);
      RoundsShrink(request, cursor, pair.second.End());
      BuildFills(words, position + 4, request, segments + [pair.first, pair.second], pair.second.End());
    }
  }

  lemma GoodPairAdvances(pair: Pair, request: Request, cursor: real)
    requires GoodPair(pair, request, cursor)
    ensures pair.second.End() >= cursor + 2.0 * request.minimum
  {
  }

  lemma FilledCursor(segments: seq<Segment>, request: Request, cursor: real)
    requires Filled(segments, request, cursor)
    ensures 0.0 <= cursor && Times(|segments| as real, request.minimum) <= cursor
  {
  }

  lemma LimitNeedsTime(n: nat, minimum: real, cursor: real, duration: real)
    requires n + 2 > MAX_RATE_SEGMENTS && minimum > 0.0
    requires Times(n as real, minimum) <= cursor && duration - cursor >= 2.0 * minimum
    ensures Times((MAX_RATE_SEGMENTS + 1) as real, minimum) <= duration
  {
    CountTimes(n, minimum);
    Monotone((MAX_RATE_SEGMENTS + 1) as real, (n + 2) as real, minimum);
  }

  /** Filled segments are accepted as a profile, and the profile is balanced. */
  lemma FilledIsAccepted(request: Request, segments: seq<Segment>, cursor: real)
    requires request.Rejection() == None && |segments| <= MAX_RATE_SEGMENTS
    requires Filled(segments, request, cursor)
    ensures var r := NewProfile(request.duration, segments);
            r.Success? && Balanced(r.value, request.lower, request.upper) && r.value.duration == request.duration
  {
    hide Times, Total;
    ToleranceIsPositive(request.duration);
    NothingMisplaced(request.duration, segments, |segments|);
  }

  lemma ToleranceIsPositive(duration: real)
    ensures ToleranceFor(duration) > 0.0
  {
  }

  lemma {:induction false} NothingMisplaced(duration: real, segments: seq<Segment>, n: nat)
    requires AllValid(segments) && Disjoint(segments) && n <= |segments|
    requires forall k | 0 <= k < |segments| :: segments[k].End() <= duration
    ensures FirstMisplaced(duration, segments, n) == None
  {
    hide ToleranceFor;
    ToleranceIsPositive(duration);
    if n > 0 {
      NothingMisplaced(duration, segments, n - 1);
      assert segments[n - 1].Valid();
      if n > 1 {
        assert segments[n - 2].Valid();
      }
    }
  }

  /** Every accepted request gives a balanced profile of its duration; the only other outcome is the segment limit, and
      that needs a duration of more than 100000 minimum changes. */
  lemma CreatedProfileIsBalanced(words: Stream, position: nat, request: Request)
    ensures var r := CreateProfile(words, position, request);
            && (request.Rejection().Some? ==> r == Failure(request.Rejection().value))
            && (request.Rejection() == None ==>
                  if r.Success? then
                    && r.value.profile.duration == request.duration
                    && Balanced(r.value.profile, request.lower, request.upper)
                  else
                    && r.error == SegmentLimit
                    && Times((MAX_RATE_SEGMENTS + 1) as real, request.minimum) <= request.duration)
  {
    hide Times, Build, Filled, Balanced, NewProfile;
    if request.Rejection() == None {
      NothingFilled(request);
      if !request.Variable() {
        FilledIsAccepted(request, [], 0.0);
      } else {
        BuildFills(words, position, request, [], 0.0);
        var r := Build(words, position, request, [], 0.0);
        if r.Success? {
          var end :| Filled(r.value.segments, request, end) && request.duration - end < 2.0 * request.minimum;
          FilledIsAccepted(request, r.value.segments, end);
        }
      }
    }
  }

  lemma NothingFilled(request: Request)
    requires request.Rejection() == None
    ensures Filled([], request, 0.0)
  {
    TimesZero(request.minimum);
  }

  // ---------------------------------------------------------------- what is drawn

  /** A pair as four words give it: two durations, which change comes first, and the integral that both share. */
  ghost predicate IsPair(words: Stream, position: nat, request: Request, cursor: real, first: Segment, second: Segment)
  {
    var left := request.duration - cursor;
    && first.start == cursor && second.start == cursor + first.duration
    && IsDraw(words(position), request.minimum, Min(request.maximum, left - request.minimum), first.duration)
    && IsDraw(words(position + 1), request.minimum, Min(request.maximum, left - first.duration), second.duration)
    && var risesFirst := words(position + 2) as int >= 0x8000_0000_0000_0000;
       var rise, fall := if risesFirst then first else second, if risesFirst then second else first;
       && IsDraw(words(position + 3), 0.0,
                 Min(Times(request.upper - 1.0, rise.duration), Times(1.0 - request.lower, fall.duration)),
                 Times(rise.deviation, rise.duration))
       && Times(fall.deviation, fall.duration) == -Times(rise.deviation, rise.duration)
  }

  /** Pair after pair, four words each, until less than two minimum changes are left. */
  ghost predicate ArePairs(words: Stream, position: nat, request: Request, cursor: real, segments: seq<Segment>)
    decreases |segments|
  {
    if |segments| < 2 then segments == [] && request.duration - cursor < 2.0 * request.minimum
    else
      && request.duration - cursor >= 2.0 * request.minimum
      && IsPair(words, position, request, cursor, segments[0], segments[1])
      && ArePairs(words, position + 4, request, cursor + segments[0].duration + segments[1].duration, segments[2..])
  }

  lemma DrawPairMeans(words: Stream, position: nat, request: Request, cursor: real)
    requires request.Variable() && request.Fits(cursor)
    ensures var pair := DrawPair(words, position, request, cursor);
            IsPair(words, position, request, cursor, pair.first, pair.second)
  {
    hide Uniform, Times, MaximumBalance, IsDraw;
    var first, second := FirstDuration(words, position, request, cursor),
        SecondDuration(words, position, request, cursor);
    var positiveFirst := Boolean(words(position + 2));
    var positive, negative := if positiveFirst then first else second, if positiveFirst then second else first;
    var most := MaximumBalance(request, positive, negative);
    assert most == Min(Times(request.upper - 1.0, positive), Times(1.0 - request.lower, negative)) by {
      MostBalance(request, positive, negative);
    }
    UniformIsDraw(words(position), request.minimum,
                  Min(request.maximum, request.duration - cursor - request.minimum));
    UniformIsDraw(words(position + 1), request.minimum, Min(request.maximum, request.duration - cursor - first));
    UniformIsDraw(words(position + 3), 0.0, most);
    BalancedDeviations(Uniform(words(position + 3), 0.0, most), positive, negative, request);
    TopBit(words(position + 2));
  }

  lemma MostBalance(request: Request, positive: real, negative: real)
    requires request.Variable() && positive > 0.0 && negative > 0.0
    ensures MaximumBalance(request, positive, negative)
         == Min(Times(request.upper - 1.0, positive), Times(1.0 - request.lower, negative))
  {
    hide Times;
  }

  lemma TopBit(w: Word)
    ensures Boolean(w) <==> w as int >= 0x8000_0000_0000_0000
  {
  }

  lemma {:induction false} BuildMeans(words: Stream, position: nat, request: Request, segments: seq<Segment>,
                                      cursor: real)
    returns (more: seq<Segment>)
    requires request.Variable() && cursor >= 0.0 && Build(words, position, request, segments, cursor).Success?
    ensures var built := Build(words, position, request, segments, cursor).value;
            && built.segments == segments + more && built.position == position + 2 * |more|
            && ArePairs(words, position, request, cursor, more)
    decreases Rounds(request, cursor)
  {
    hide DrawPair, Rounds, Build, IsPair;
    BuildUnfolds(words, position, request, segments, cursor);
    more := [];
    if request.duration - cursor >= 2.0 * request.minimum {
      var pair := DrawPair(words, position, request, cursor);
      var next := cursor + (pair.first.duration + pair.second.duration);
      DrawPairMeans(words, position, request, cursor);
      RoundsShrink(request, cursor, next);
      var rest := BuildMeans(words, position + 4, request, segments + [pair.first, pair.second], next);
      more := [pair.first, pair.second] + rest;
      assert more[2..] == rest && segments + more == segments + [pair.first, pair.second] + rest;
      assert next == cursor + more[0].duration + more[1].duration;
    }
  }

  /** A profile whose factor can move in both directions consists of pairs drawn one after the other; any other is
      constant and uses no word. */
  lemma CreatedProfileIsDrawn(words: Stream, position: nat, request: Request)
    requires CreateProfile(words, position, request).Success?
    ensures var drawn := CreateProfile(words, position, request).value;
            && drawn.position == position + 2 * |drawn.profile.segments|
            && if request.lower < 1.0 < request.upper then
                 ArePairs(words, position, request, 0.0, drawn.profile.segments)
               else drawn.profile.segments == []
  {
    hide Build, ArePairs, Times, Total, FirstMisplaced;
    if request.Variable() {
      var more := BuildMeans(words, position, request, [], 0.0);
      assert [] + more == more;
    }
  }

  // ---------------------------------------------------------------- the drawing as it runs

  method Create(rng: RandomSource, request: Request) returns (r: Result<Profile, RateProfileError>)
    modifies rng
    ensures var drawn := CreateProfile(rng.words, old(rng.position), request);
            && (drawn.Success? ==> r == Success(drawn.value.profile) && rng.position == drawn.value.position)
            && (drawn.Failure? ==> r == Failure(drawn.error))
  {
    hide DrawPair, Build, Times, GoodPair, MaximumBalance, NewProfile, Rounds;
    if request.duration <= 0.0 {
      return Failure(InvalidDuration);
    }
    if request.lower <= 0.0 || request.lower > 1.0 || request.upper < 1.0 {
      return Failure(InvalidFactorRange);
    }
    if request.minimum <= 0.0 || request.maximum < request.minimum {
      return Failure(InvalidChangeRange);
    }
    if request.upper - 1.0 == 0.0 || 1.0 - request.lower == 0.0 {
      r := New(request.duration, []);
      return;
    }
    ghost var start := rng.position;
    ghost var goal := Build(rng.words, start, request, [], 0.0);
    var cursor, segments := 0.0, [];
    while request.duration - cursor >= 2.0 * request.minimum
      invariant cursor >= 0.0
      invariant Build(rng.words, rng.position, request, segments, cursor) == goal
      decreases Rounds(request, cursor)
    {
      BuildUnfolds(rng.words, rng.position, request, segments, cursor);
      if |segments| + 2 > MAX_RATE_SEGMENTS {
        return Failure(SegmentLimit);
      }
      PairsAreGood(rng.words, rng.position, request, cursor);
      var pair := DrawNext(rng, request, cursor);
      GoodPairAdvances(pair, request, cursor);
      GoodPairEnds(pair, request, cursor);
      segments := segments + [pair.first, pair.second];
      RoundsShrink(request, cursor, cursor + (pair.first.duration + pair.second.duration));
      cursor := cursor + (pair.first.duration + pair.second.duration);
    }
    BuildUnfolds(rng.words, rng.position, request, segments, cursor);
    r := New(request.duration, segments);
  }

  lemma GoodPairEnds(pair: Pair, request: Request, cursor: real)
    requires GoodPair(pair, request, cursor)
    ensures pair.second.End() == cursor + (pair.first.duration + pair.second.duration)
  {
  }

  lemma BuildUnfolds(words: Stream, position: nat, request: Request, segments: seq<Segment>, cursor: real)
    requires request.Variable() && cursor >= 0.0
    ensures Build(words, position, request, segments, cursor)
         == if request.duration - cursor < 2.0 * request.minimum then Success(Built(segments, position))
            else if |segments| + 2 > MAX_RATE_SEGMENTS then Failure(SegmentLimit)
            else
              var pair := DrawPair(words, position, request, cursor);
              Build(words, position + 4, request, segments + [pair.first, pair.second],
                    cursor + (pair.first.duration + pair.second.duration))
  {
    hide DrawPair;
  }

  /** No bound is out of order and no segment is refused, so neither error can occur. */
  method DrawNext(rng: RandomSource, request: Request, cursor: real) returns (pair: Pair)
    requires request.Variable() && request.Fits(cursor)
    modifies rng
    ensures pair == DrawPair(rng.words, old(rng.position), request, cursor) && rng.position == old(rng.position) + 4
  {
    hide Uniform, Times;
    ghost var start := rng.position;
    PairsAreGood(rng.words, start, request, cursor);
    var remaining := request.duration - cursor;
    var firstDrawn := rng.NextUniform(request.minimum, Min(request.maximum, remaining - request.minimum));
    var first := firstDrawn.value;
    assert first == FirstDuration(rng.words, start, request, cursor);
    var secondDrawn := rng.NextUniform(request.minimum, Min(request.maximum, remaining - first));
    var second := secondDrawn.value;
    assert second == SecondDuration(rng.words, start, request, cursor);
    var positiveFirst := rng.NextBoolean();
    var positive, negative := if positiveFirst then first else second, if positiveFirst then second else first;
    var balanceDrawn := rng.NextUniform(0.0, MaximumBalance(request, positive, negative));
    var balance := balanceDrawn.value;
    var firstDeviation := if positiveFirst then balance / positive else -balance / negative;
    var secondDeviation := if positiveFirst then -balance / negative else balance / positive;
    var firstSegment := NewSegment(cursor, first, firstDeviation).value;
    var secondSegment := NewSegment(cursor + first, second, secondDeviation).value;
    return Pair(firstSegment, secondSegment);
  }
}

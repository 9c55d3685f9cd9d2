/** Smooth rate profiles whose deviations cancel out (services/simulation-server/src/rate_profile.rs). */
module RateProfile {
  import opened Wrappers
  import opened Sums
  import opened Randomness

  const PROFILE_TOLERANCE: real := 0.000000000001
  const MAX_RATE_SEGMENTS: nat := 100_000

  datatype RateProfileError =
    | InvalidSegmentStart | InvalidSegmentDuration | InvalidDeviation | InvalidDuration
    | OverlappingSegments | UnorderedSegments | SegmentOutsideProfile | NonZeroIntegral
    | InvalidElapsed | ReversedInterval | InvalidFactorRange | InvalidChangeRange | SegmentLimit
    | Random(error: RandomError)

  /** The squared-sine bump over a unit interval, and its integral from 0. */
  datatype Kernel = Kernel(shape: real -> real, integral: real -> real) {
    ghost predicate Valid() {
      && (forall x: real | 0.0 <= x <= 1.0 :: 0.0 <= shape(x) <= 1.0)
      && integral(0.0) == 0.0 && integral(1.0) == 0.5
      && forall a: real, b: real | 0.0 <= a <= b <= 1.0 :: 0.0 <= integral(b) - integral(a) <= b - a
    }
  }

  datatype Segment = Segment(start: real, duration: real, deviation: real) {
    predicate Valid() {
      start >= 0.0 && duration > 0.0 && deviation > -1.0
    }

    function End(): real {
      start + duration
    }

    /** How much of the segment has passed, between 0 and 1. */
    function Progress(t: real): real
      requires duration > 0.0
    {
      Clamp((t - start) / duration, 0.0, 1.0)
    }

    /** The integral of the whole deviation. */
    function Integral(): real {
      Times(deviation, duration) / 2.0
    }

    function FactorAt(kernel: Kernel, t: real): real
      requires duration > 0.0
    {
      if t <= start || t >= End() then 1.0
      else 1.0 + Times(deviation, kernel.shape((t - start) / duration))
    }

    function DeviationTo(kernel: Kernel, t: real): real
      requires duration > 0.0
    {
      Times(Times(deviation, duration), kernel.integral(Progress(t)))
    }

    /** The time spent inside the segment up to t. */
    ghost function Reached(t: real): real {
      Min(t, End()) - Min(t, start)
    }
  }

  function NewSegment(start: real, duration: real, deviation: real): Result<Segment, RateProfileError> {
    if start < 0.0 then Failure(InvalidSegmentStart)
    else if duration <= 0.0 then Failure(InvalidSegmentDuration)
    else if deviation <= -1.0 then Failure(InvalidDeviation)
    else Success(Segment(start, duration, deviation))
  }

  ghost predicate AllValid(segments: seq<Segment>) {
    forall k | 0 <= k < |segments| :: segments[k].Valid()
  }

  /** The summed deviation integrals of the first n segments. */
  function Total(segments: seq<Segment>, n: nat): real
    requires n <= |segments|
  {
    if n == 0 then 0.0 else Total(segments, n - 1) + segments[n - 1].Integral()
  }

  function ToleranceFor(duration: real): real {
    Times(Max(duration, 1.0), PROFILE_TOLERANCE)
  }

  function StartBefore(segments: seq<Segment>, n: nat): real
    requires n <= |segments|
  {
    if n == 0 then 0.0 else segments[n - 1].start
  }

  function EndBefore(segments: seq<Segment>, n: nat): real
    requires n <= |segments|
  {
    if n == 0 then 0.0 else segments[n - 1].End()
  }

  /** The check of segment n against its predecessor, or None when it fits. */
  function Misplaced(duration: real, segments: seq<Segment>, n: nat): Option<RateProfileError>
    requires n < |segments|
  {
    if segments[n].start < StartBefore(segments, n) || segments[n].End() < EndBefore(segments, n) then
      Some(UnorderedSegments)
    else if segments[n].start < EndBefore(segments, n) - ToleranceFor(duration) then Some(OverlappingSegments)
    else if segments[n].End() > duration + ToleranceFor(duration) then Some(SegmentOutsideProfile)
    else None
  }

  /** The error of the first segment that does not fit. */
  function FirstMisplaced(duration: real, segments: seq<Segment>, n: nat): Option<RateProfileError>
    requires n <= |segments|
  {
    if n == 0 then None
    else
      var earlier := FirstMisplaced(duration, segments, n - 1);
      if earlier.Some? then earlier else Misplaced(duration, segments, n - 1)
  }

  /** The running totals, from 0 over no segment to the total over all. */
  function Prefixes(segments: seq<Segment>): (prefix: seq<real>)
    ensures |prefix| == |segments| + 1
    ensures forall k | 0 <= k < |prefix| :: prefix[k] == Total(segments, k)
  {
    seq(|segments| + 1, k requires 0 <= k <= |segments| => Total(segments, k))
  }

  function NewProfile(duration: real, segments: seq<Segment>): (r: Result<Profile, RateProfileError>)
    ensures r.Success? ==> r.value == Profile(duration, segments, Prefixes(segments)) && duration > 0.0
  {
    if duration <= 0.0 then Failure(InvalidDuration)
    else if |segments| > MAX_RATE_SEGMENTS then Failure(SegmentLimit)
    else
      var misplaced := FirstMisplaced(duration, segments, |segments|);
      if misplaced.Some? then Failure(misplaced.value)
      else if Abs(Total(segments, |segments|)) > ToleranceFor(duration) then Failure(NonZeroIntegral)
      else Success(Profile(duration, segments, Prefixes(segments)))
  }

  /** The leading segments that have ended by t. */
  function Completed(segments: seq<Segment>, t: real, n: nat): (c: nat)
    requires n <= |segments|
    ensures c <= n
  {
    if n == 0 then 0
    else
      var c := Completed(segments, t, n - 1);
      if c == n - 1 && segments[n - 1].End() <= t then n else c
  }

  /** The leading segments that have started by t. */
  function Started(segments: seq<Segment>, t: real, n: nat): (c: nat)
    requires n <= |segments|
    ensures c <= n
  {
    if n == 0 then 0
    else
      var c := Started(segments, t, n - 1);
      if c == n - 1 && segments[n - 1].start <= t then n else c
  }

  datatype Profile = Profile(duration: real, segments: seq<Segment>, prefix: seq<real>) {
    ghost predicate Valid() {
      duration > 0.0 && AllValid(segments) && prefix == Prefixes(segments)
    }

    function IntegratedTo(kernel: Kernel, t: real): real
      requires Valid()
    {
      if t == duration then duration
      else
        var completed := Completed(segments, t, |segments|);
        var deviation := prefix[completed]
          + if completed < |segments| && t > segments[completed].start then segments[completed].DeviationTo(kernel, t)
            else 0.0;
        t + deviation
    }

    function FactorAt(kernel: Kernel, t: real): Result<real, RateProfileError>
      requires Valid()
    {
      if t < 0.0 || t > duration then Failure(InvalidElapsed)
      else if t == duration || segments == [] then Success(1.0)
      else
        var after := Started(segments, t, |segments|);
        Success(if after == 0 then 1.0 else segments[after - 1].FactorAt(kernel, t))
    }

    function IntegratedBetween(kernel: Kernel, start: real, end: real): Result<real, RateProfileError>
      requires Valid()
    {
      if start < 0.0 || start > duration || end < 0.0 || end > duration then Failure(InvalidElapsed)
      else if end < start then Failure(ReversedInterval)
      else if start == end then Success(0.0)
      else Success(IntegratedTo(kernel, end) - IntegratedTo(kernel, start))
    }
  }

  /** The profile constructor with its running cursors. */
  method New(duration: real, segments: seq<Segment>) returns (r: Result<Profile, RateProfileError>)
    ensures r == NewProfile(duration, segments)
  {
    hide ToleranceFor, Times;
    if duration <= 0.0 {
      return Failure(InvalidDuration);
    }
    if |segments| > MAX_RATE_SEGMENTS {
      return Failure(SegmentLimit);
    }
    var tolerance := ToleranceFor(duration);
    var previousStart, previousEnd, integral := 0.0, 0.0, 0.0;
    var prefix := [0.0];
    for n := 0 to |segments|
      invariant previousStart == StartBefore(segments, n) && previousEnd == EndBefore(segments, n)
      invariant integral == Total(segments, n)
      invariant |prefix| == n + 1 && forall k | 0 <= k <= n :: prefix[k] == Total(segments, k)
      invariant FirstMisplaced(duration, segments, n) == None
    {
      var segment := segments[n];
      if segment.start < previousStart || segment.End() < previousEnd {
        FirstMisplacedStays(duration, segments, n, |segments|);
        return Failure(UnorderedSegments);
      }
      if segment.start < previousEnd - tolerance {
        FirstMisplacedStays(duration, segments, n, |segments|);
        return Failure(OverlappingSegments);
      }
      if segment.End() > duration + tolerance {
        FirstMisplacedStays(duration, segments, n, |segments|);
        return Failure(SegmentOutsideProfile);
      }
      previousStart := segment.start;
      previousEnd := segment.End();
      integral := integral + Times(segment.deviation, segment.duration) / 2.0;
      prefix := prefix + [integral];
    }
    if Abs(integral) > tolerance {
      return Failure(NonZeroIntegral);
    }
    assert prefix == Prefixes(segments);
    return Success(Profile(duration, segments, prefix));
  }

  lemma {:induction false} FirstMisplacedStays(duration: real, segments: seq<Segment>, k: nat, n: nat)
    requires k < n <= |segments|
    requires FirstMisplaced(duration, segments, k) == None && Misplaced(duration, segments, k).Some?
    ensures FirstMisplaced(duration, segments, n) == Misplaced(duration, segments, k)
  {
    if k < n - 1 {
      FirstMisplacedStays(duration, segments, k, n - 1);
    }
  }

  // ---------------------------------------------------------------- the integral is exact

  /** Each segment starts no earlier than the previous one ends. */
  ghost predicate Disjoint(segments: seq<Segment>) {
    forall k | 0 < k < |segments| :: segments[k - 1].End() <= segments[k].start
  }

  /** The clamped deviation integrals of the first n segments, added up directly. */
  ghost function DeviationSum(kernel: Kernel, segments: seq<Segment>, t: real, n: nat): real
    requires AllValid(segments) && n <= |segments|
  {
    if n == 0 then 0.0 else DeviationSum(kernel, segments, t, n - 1) + segments[n - 1].DeviationTo(kernel, t)
  }

  lemma TimesOneFirst(a: real)
    ensures Times(1.0, a) == a
  {
  }

  lemma ProgressAtEnds(s: Segment, t: real)
    requires s.Valid()
    ensures 0.0 <= s.Progress(t) <= 1.0
    ensures t <= s.start ==> s.Progress(t) == 0.0
    ensures t >= s.End() ==> s.Progress(t) == 1.0
    ensures Times(s.Progress(t), s.duration) == s.Reached(t)
  {
    QuotientTimes(t - s.start, s.duration);
    QuotientRange(t - s.start, s.duration);
    TimesZero(s.duration);
    TimesOneFirst(s.duration);
  }

  lemma DeviationAtEnds(kernel: Kernel, s: Segment, t: real)
    requires kernel.Valid() && s.Valid()
    ensures t <= s.start ==> s.DeviationTo(kernel, t) == 0.0
    ensures t >= s.End() ==> s.DeviationTo(kernel, t) == s.Integral()
  {
    ProgressAtEnds(s, t);
    TimesZero(Times(s.deviation, s.duration));
  }

  lemma {:induction false} LaterStart(segments: seq<Segment>, k: nat, n: nat)
    requires AllValid(segments) && Disjoint(segments) && k < n < |segments|
    ensures segments[k].End() <= segments[n].start
  {
    if k < n - 1 {
      LaterStart(segments, k, n - 1);
      assert segments[n - 1].Valid();
    }
  }

  lemma {:induction false} CompletedMeans(segments: seq<Segment>, t: real, n: nat)
    requires AllValid(segments) && Disjoint(segments) && n <= |segments|
    ensures var c := Completed(segments, t, n);
            && (forall k | 0 <= k < c :: segments[k].End() <= t)
            && (c < n ==> t < segments[c].End())
  {
    if n > 0 {
      CompletedMeans(segments, t, n - 1);
    }
  }

  lemma {:induction false} SplitSum(kernel: Kernel, segments: seq<Segment>, t: real, n: nat, c: nat)
    requires kernel.Valid() && AllValid(segments) && Disjoint(segments) && n <= |segments| && c <= |segments|
    requires forall k | 0 <= k < c :: segments[k].End() <= t
    requires c < |segments| ==> t < segments[c].End()
    ensures DeviationSum(kernel, segments, t, n)
         == if n <= c then Total(segments, n) else Total(segments, c) + segments[c].DeviationTo(kernel, t)
  {
    hide Times;
    if n > 0 {
      SplitSum(kernel, segments, t, n - 1, c);
      assert segments[n - 1].Valid();
      DeviationAtEnds(kernel, segments[n - 1], t);
      if n - 1 > c {
        LaterStart(segments, c, n - 1);
      }
    }
  }

  /** Prefix sums and one partly passed segment give the directly added integral. At the very end the source answers
      with the duration itself, which differs from the sum by the total deviation. */
  lemma IntegralIsExact(p: Profile, kernel: Kernel, t: real)
    requires p.Valid() && kernel.Valid() && Disjoint(p.segments)
    ensures t != p.duration ==> p.IntegratedTo(kernel, t) == t + DeviationSum(kernel, p.segments, t, |p.segments|)
    ensures t == p.duration && (forall k | 0 <= k < |p.segments| :: p.segments[k].End() <= p.duration) ==>
              p.IntegratedTo(kernel, t) + Total(p.segments, |p.segments|)
              == t + DeviationSum(kernel, p.segments, t, |p.segments|)
  {
    hide Times, Segment.DeviationTo, DeviationSum, Total;
    var n := |p.segments|;
    var c := Completed(p.segments, t, n);
    CompletedMeans(p.segments, t, n);
    SplitSum(kernel, p.segments, t, n, c);
    if c < n {
      assert p.segments[c].Valid();
      DeviationAtEnds(kernel, p.segments[c], t);
    }
  }

  // ---------------------------------------------------------------- bounds on the integral

  ghost predicate Within(segments: seq<Segment>, lower: real, upper: real) {
    forall k | 0 <= k < |segments| :: lower - 1.0 <= segments[k].deviation <= upper - 1.0
  }

  /** The time that [a, b] spends inside the first n segments. */
  ghost function TimeInside(segments: seq<Segment>, a: real, b: real, n: nat): real
    requires n <= |segments|
  {
    if n == 0 then 0.0 else TimeInside(segments, a, b, n - 1) + segments[n - 1].Reached(b) - segments[n - 1].Reached(a)
  }

  lemma {:induction false} InsideIsPart(segments: seq<Segment>, a: real, b: real, n: nat, bound: real)
    requires AllValid(segments) && Disjoint(segments) && n <= |segments| && a <= b
    requires n > 0 ==> segments[n - 1].End() <= bound
    ensures 0.0 <= TimeInside(segments, a, b, n) <= Min(b, bound) - Min(a, bound)
  {
    if n > 0 {
      InsideIsPart(segments, a, b, n - 1, segments[n - 1].start);
      assert segments[n - 1].Valid();
    }
  }

  lemma SegmentBounds(kernel: Kernel, s: Segment, a: real, b: real, lower: real, upper: real)
    requires kernel.Valid() && s.Valid() && a <= b
    requires lower <= 1.0 <= upper && lower - 1.0 <= s.deviation <= upper - 1.0
    ensures var change, time := s.DeviationTo(kernel, b) - s.DeviationTo(kernel, a), s.Reached(b) - s.Reached(a);
            time >= 0.0 && Times(lower - 1.0, time) <= change <= Times(upper - 1.0, time)
  {
    hide Times;
    ProgressAtEnds(s, a);
    ProgressAtEnds(s, b);
    var x, y := s.Progress(a), s.Progress(b);
    ProgressMonotone(s, a, b);
    BumpChange(s.deviation, s.duration, kernel.integral(y), kernel.integral(x), x, y, lower - 1.0, upper - 1.0);
  }

  lemma ProgressMonotone(s: Segment, a: real, b: real)
    requires s.Valid() && a <= b
    ensures s.Progress(a) <= s.Progress(b) && s.Reached(a) <= s.Reached(b)
  {
    assert (b - s.start) / s.duration - (a - s.start) / s.duration == (b - a) / s.duration;
    Quotient(b - a, s.duration);
  }

  lemma BumpChange(deviation: real, duration: real, gy: real, gx: real, x: real, y: real, low: real, high: real)
    requires duration > 0.0 && 0.0 <= gy - gx <= y - x && low <= 0.0 <= high && low <= deviation <= high
    ensures var time, change := Times(y, duration) - Times(x, duration),
                                Times(Times(deviation, duration), gy) - Times(Times(deviation, duration), gx);
            Times(low, time) <= change <= Times(high, time)
  {
    var g, time := gy - gx, Times(y - x, duration);
    TimesDifference(y, x, duration);
    TimesSum(Times(deviation, duration), gy, gx);
    Regroup(deviation, duration, g);
    var inside := Times(g, duration);
    Monotone(0.0, g, duration);
    Monotone(g, y - x, duration);
    TimesZero(duration);
    Monotone(low, deviation, inside);
    Monotone(deviation, high, inside);
    TimesOrder(high, inside, time);
    TimesOrder(-low, inside, time);
    NegativeFirst(low, inside);
    NegativeFirst(low, time);
  }

  lemma TimesDifference(y: real, x: real, duration: real)
    ensures Times(y, duration) - Times(x, duration) == Times(y - x, duration)
  {
  }

  lemma Regroup(deviation: real, duration: real, g: real)
    ensures Times(Times(deviation, duration), g) == Times(deviation, Times(g, duration))
  {
  }

  lemma NegativeFirst(a: real, b: real)
    ensures Times(-a, b) == -Times(a, b)
  {
  }

  lemma {:induction false} DeviationBounds(kernel: Kernel, segments: seq<Segment>, a: real, b: real, lower: real,
                                           upper: real, n: nat)
    requires kernel.Valid() && AllValid(segments) && Within(segments, lower, upper) && n <= |segments|
    requires a <= b && lower <= 1.0 <= upper
    ensures var change := DeviationSum(kernel, segments, b, n) - DeviationSum(kernel, segments, a, n);
            Times(lower - 1.0, TimeInside(segments, a, b, n)) <= change
            <= Times(upper - 1.0, TimeInside(segments, a, b, n))
  {
    hide Times, Segment.DeviationTo, Segment.Reached;
    if n == 0 {
      TimesZero(lower - 1.0);
      TimesZero(upper - 1.0);
    } else {
      DeviationBounds(kernel, segments, a, b, lower, upper, n - 1);
      var s := segments[n - 1];
      assert s.Valid();
      SegmentBounds(kernel, s, a, b, lower, upper);
      TimesSum(lower - 1.0, TimeInside(segments, a, b, n - 1), s.Reached(b) - s.Reached(a));
      TimesSum(upper - 1.0, TimeInside(segments, a, b, n - 1), s.Reached(b) - s.Reached(a));
    }
  }

  /** Segments whose deviations cancel, lie within the limits and follow each other inside the profile. */
  ghost predicate Balanced(p: Profile, lower: real, upper: real) {
    && p.Valid() && Disjoint(p.segments) && Within(p.segments, lower, upper) && 0.0 < lower <= 1.0 <= upper
    && Total(p.segments, |p.segments|) == 0.0
    && forall k | 0 <= k < |p.segments| :: p.segments[k].End() <= p.duration
  }

  /** A balanced profile integrates from 0 to its duration, and over any interval its mean factor stays within the
      limits; so the integral increases strictly. */
  lemma IntegralIsBounded(p: Profile, kernel: Kernel, lower: real, upper: real, a: real, b: real)
    requires kernel.Valid() && Balanced(p, lower, upper) && 0.0 <= a <= b <= p.duration
    ensures p.IntegratedTo(kernel, 0.0) == 0.0
    ensures p.IntegratedTo(kernel, p.duration) == p.duration
    ensures var change := p.IntegratedTo(kernel, b) - p.IntegratedTo(kernel, a);
            Times(lower, b - a) <= change <= Times(upper, b - a)
    ensures a < b ==> p.IntegratedTo(kernel, a) < p.IntegratedTo(kernel, b)
  {
    hide Times, DeviationSum, Profile.IntegratedTo, Total, Segment.End;
    var n := |p.segments|;
    IntegralIsExact(p, kernel, 0.0);
    IntegralIsExact(p, kernel, a);
    IntegralIsExact(p, kernel, b);
    NothingAtStart(p, kernel, n);
    DeviationBounds(kernel, p.segments, a, b, lower, upper, n);
    TimeInsideProfile(p, a, b);
    MeanBounds(lower, upper, TimeInside(p.segments, a, b, n), b - a);
    assert p.IntegratedTo(kernel, p.duration) == p.duration by {
      EndsAtDuration(p, kernel);
    }
  }

  lemma EndsAtDuration(p: Profile, kernel: Kernel)
    requires p.Valid()
    ensures p.IntegratedTo(kernel, p.duration) == p.duration
  {
  }

  lemma TimeInsideProfile(p: Profile, a: real, b: real)
    requires p.Valid() && Disjoint(p.segments) && a <= b
    requires forall k | 0 <= k < |p.segments| :: p.segments[k].End() <= p.duration
    requires b <= p.duration
    ensures 0.0 <= TimeInside(p.segments, a, b, |p.segments|) <= b - a
  {
    InsideIsPart(p.segments, a, b, |p.segments|, p.duration);
  }

  lemma {:induction false} NothingAtStart(p: Profile, kernel: Kernel, n: nat)
    requires p.Valid() && kernel.Valid() && n <= |p.segments|
    ensures DeviationSum(kernel, p.segments, 0.0, n) == 0.0
  {
    hide Segment.DeviationTo;
    if n > 0 {
      NothingAtStart(p, kernel, n - 1);
      assert p.segments[n - 1].Valid();
      DeviationAtEnds(kernel, p.segments[n - 1], 0.0);
    }
  }

  lemma MeanBounds(lower: real, upper: real, inside: real, time: real)
    requires 0.0 < lower <= 1.0 <= upper && 0.0 <= inside <= time
    ensures Times(lower, time) <= time + Times(lower - 1.0, inside)
    ensures time + Times(upper - 1.0, inside) <= Times(upper, time)
    ensures time > 0.0 ==> Times(lower, time) > 0.0
  {
    TimesOrder(upper - 1.0, inside, time);
    TimesOrder(1.0 - lower, inside, time);
  }

  /** The deviations of the first n segments at one time, added up directly. */
  ghost function FactorSum(kernel: Kernel, segments: seq<Segment>, t: real, n: nat): real
    requires AllValid(segments) && n <= |segments|
  {
    if n == 0 then 0.0 else FactorSum(kernel, segments, t, n - 1) + segments[n - 1].FactorAt(kernel, t) - 1.0
  }

  lemma {:induction false} StartedMeans(segments: seq<Segment>, t: real, n: nat)
    requires AllValid(segments) && Disjoint(segments) && n <= |segments|
    ensures var c := Started(segments, t, n);
            && (forall k | 0 <= k < c :: segments[k].start <= t)
            && (c < n ==> t < segments[c].start)
  {
    if n > 0 {
      StartedMeans(segments, t, n - 1);
    }
  }

  lemma {:induction false} OnlyTheLastStartedActs(kernel: Kernel, segments: seq<Segment>, t: real, n: nat, c: nat)
    requires AllValid(segments) && Disjoint(segments) && n <= |segments| && c <= |segments|
    requires forall k | 0 <= k < c :: segments[k].start <= t
    requires c < |segments| ==> t < segments[c].start
    ensures FactorSum(kernel, segments, t, n)
            == if n < c || c == 0 then 0.0 else segments[c - 1].FactorAt(kernel, t) - 1.0
  {
    hide Times;
    if n > 0 {
      OnlyTheLastStartedActs(kernel, segments, t, n - 1, c);
      assert segments[n - 1].Valid();
      if n < c {
        LaterStart(segments, n - 1, c - 1);
      } else if n > c + 1 {
        LaterStart(segments, c, n - 1);
        assert segments[c].Valid();
      }
    }
  }

  /** The segment found by search is the only one that acts: the factor is 1 plus all deviations at that time. */
  lemma FactorIsExact(p: Profile, kernel: Kernel, t: real)
    requires p.Valid() && Disjoint(p.segments) && 0.0 <= t <= p.duration
    requires forall k | 0 <= k < |p.segments| :: p.segments[k].End() <= p.duration
    ensures p.FactorAt(kernel, t) == Success(1.0 + FactorSum(kernel, p.segments, t, |p.segments|))
  {
    hide Times, Segment.FactorAt;
    var n := |p.segments|;
    var c := Started(p.segments, t, n);
    StartedMeans(p.segments, t, n);
    OnlyTheLastStartedActs(kernel, p.segments, t, n, c);
    if t == p.duration && c > 0 {
      EndedSegment(kernel, p.segments[c - 1], t);
    }
  }

  lemma EndedSegment(kernel: Kernel, s: Segment, t: real)
    requires s.Valid() && t >= s.End()
    ensures s.FactorAt(kernel, t) == 1.0
  {
  }

  /** The factor at every time inside a balanced profile lies within the limits. */
  lemma FactorIsBounded(p: Profile, kernel: Kernel, lower: real, upper: real, t: real)
    requires kernel.Valid() && Balanced(p, lower, upper) && 0.0 <= t <= p.duration
    ensures p.FactorAt(kernel, t).Success? && lower <= p.FactorAt(kernel, t).value <= upper
  {
    if t != p.duration && p.segments != [] {
      var after := Started(p.segments, t, |p.segments|);
      if after > 0 {
        var s := p.segments[after - 1];
        assert s.Valid();
        if s.start < t < s.End() {
          QuotientRange(t - s.start, s.duration);
          FactorOfShape(s.deviation, kernel.shape((t - s.start) / s.duration), lower, upper);
        }
      }
    }
  }

  lemma FactorOfShape(deviation: real, shape: real, lower: real, upper: real)
    requires 0.0 <= shape <= 1.0 && lower <= 1.0 <= upper && lower - 1.0 <= deviation <= upper - 1.0
    ensures lower <= 1.0 + Times(deviation, shape) <= upper
  {
    Monotone(lower - 1.0, deviation, shape);
    Monotone(deviation, upper - 1.0, shape);
    TimesOrder(upper - 1.0, shape, 1.0);
    TimesOrder(1.0 - lower, shape, 1.0);
  }

  // ---------------------------------------------------------------- the binary searches

  /** Neither starts nor ends ever step back. */
  ghost predicate Ordered(segments: seq<Segment>) {
    forall k | 0 < k < |segments| ::
      segments[k - 1].start <= segments[k].start && segments[k - 1].End() <= segments[k].End()
  }

  lemma {:induction false} AcceptedIsOrdered(duration: real, segments: seq<Segment>, n: nat)
    requires n <= |segments| && FirstMisplaced(duration, segments, n) == None
    ensures Ordered(segments[..n])
    decreases n
  {
    hide ToleranceFor;
    if n > 0 {
      AcceptedIsOrdered(duration, segments, n - 1);
      assert forall k | 0 <= k < n - 1 :: segments[..n][k] == segments[..n - 1][k];
    }
  }

  function Edge(s: Segment, ends: bool): real {
    if ends then s.End() else s.start
  }

  lemma {:induction false} EdgesRise(segments: seq<Segment>, ends: bool, j: nat, k: nat)
    requires Ordered(segments) && j <= k < |segments|
    ensures Edge(segments[j], ends) <= Edge(segments[k], ends)
    decreases k
  {
    if j < k {
      EdgesRise(segments, ends, j, k - 1);
    }
  }

  /** Only one count divides the segments into those that have reached a time and one that has not. */
  lemma {:induction false} LeadingCount(segments: seq<Segment>, ends: bool, t: real, c: nat, n: nat)
    requires c <= n <= |segments| && (forall k | 0 <= k < c :: Edge(segments[k], ends) <= t)
    requires c < n ==> t < Edge(segments[c], ends)
    ensures c == if ends then Completed(segments, t, n) else Started(segments, t, n)
    decreases n
  {
    if n > 0 {
      LeadingCount(segments, ends, t, if c < n then c else c - 1, n - 1);
    }
  }

  /** Halving finds how many segments have started, or ended, because the constructor let in only ordered ones. */
  method PartitionPoint(segments: seq<Segment>, ends: bool, t: real) returns (c: nat)
    requires Ordered(segments)
    ensures c == if ends then Completed(segments, t, |segments|) else Started(segments, t, |segments|)
  {
    hide Edge, Ordered;
    var high := |segments|;
    c := 0;
    while c < high
      invariant c <= high <= |segments|
      invariant forall k | 0 <= k < c :: Edge(segments[k], ends) <= t
      invariant high < |segments| ==> t < Edge(segments[high], ends)
    {
      var middle := c + (high - c) / 2;
      if Edge(segments[middle], ends) <= t {
        forall k | 0 <= k <= middle ensures Edge(segments[k], ends) <= t {
          EdgesRise(segments, ends, k, middle);
        }
        c := middle + 1;
      } else {
        high := middle;
      }
    }
    LeadingCount(segments, ends, t, c, |segments|);
  }

  method IntegrateTo(p: Profile, kernel: Kernel, t: real) returns (r: real)
    requires p.Valid() && Ordered(p.segments)
    ensures r == p.IntegratedTo(kernel, t)
  {
    hide Times, Completed, Started, Segment.DeviationTo;
    if t == p.duration {
      return p.duration;
    }
    var completed := PartitionPoint(p.segments, true, t);
    var deviation := p.prefix[completed];
    if completed < |p.segments| && t > p.segments[completed].start {
      deviation := deviation + p.segments[completed].DeviationTo(kernel, t);
    }
    r := t + deviation;
  }

  method FactorOf(p: Profile, kernel: Kernel, t: real) returns (r: Result<real, RateProfileError>)
    requires p.Valid() && Ordered(p.segments)
    ensures r == p.FactorAt(kernel, t)
  {
    hide Times, Completed, Started, Segment.FactorAt;
    if t < 0.0 || t > p.duration {
      return Failure(InvalidElapsed);
    }
    if t == p.duration || p.segments == [] {
      return Success(1.0);
    }
    var after := PartitionPoint(p.segments, false, t);
    return Success(if after == 0 then 1.0 else p.segments[after - 1].FactorAt(kernel, t));
  }

  /** Every profile that the constructor accepts can be searched. */
  lemma NewIsOrdered(duration: real, segments: seq<Segment>)
    ensures NewProfile(duration, segments).Success? ==> Ordered(segments)
  {
    hide ToleranceFor, Total, Ordered, FirstMisplaced;
    if NewProfile(duration, segments).Success? {
      AcceptedIsOrdered(duration, segments, |segments|);
      assert segments[..|segments|] == segments;
    }
  }

  // ---------------------------------------------------------------- which profiles, and what a segment does

  /** A segment follows the one before: it starts and ends no earlier, overlaps it by no more than the tolerance, and ends
      within the duration up to the tolerance. */
  predicate Follows(duration: real, segments: seq<Segment>, k: nat)
    requires k < |segments|
  {
    var tolerance := Times(Max(duration, 1.0), 0.000000000001);
    var start, end := if k == 0 then 0.0 else segments[k - 1].start,
                      if k == 0 then 0.0 else segments[k - 1].start + segments[k - 1].duration;
    var s := segments[k];
    && start <= s.start && end <= s.start + s.duration && s.start >= end - tolerance
    && s.start + s.duration <= duration + tolerance
  }

  function HalvedSum(segments: seq<Segment>, n: nat): real
    requires n <= |segments|
    decreases n
  {
    if n == 0 then 0.0
    else HalvedSum(segments, n - 1) + Times(segments[n - 1].deviation, segments[n - 1].duration) / 2.0
  }

  lemma {:induction false} TotalIsHalvedSum(segments: seq<Segment>, n: nat)
    requires n <= |segments|
    ensures Total(segments, n) == HalvedSum(segments, n)
    decreases n
  {
    hide Times;
    if n > 0 {
      TotalIsHalvedSum(segments, n - 1);
    }
  }

  lemma FittingFollows(duration: real, segments: seq<Segment>, k: nat)
    requires k < |segments|
    ensures Misplaced(duration, segments, k) == None <==> Follows(duration, segments, k)
  {
    hide Times;
  }

  lemma {:induction false} NoneMisplaced(duration: real, segments: seq<Segment>, n: nat)
    requires n <= |segments|
    ensures FirstMisplaced(duration, segments, n) == None <==> forall k | 0 <= k < n :: Follows(duration, segments, k)
    decreases n
  {
    hide Misplaced, Follows;
    if n > 0 {
      NoneMisplaced(duration, segments, n - 1);
      FittingFollows(duration, segments, n - 1);
    }
  }

  /** A profile is accepted exactly when it has a positive duration, no more than 100000 segments that follow each other
      within it, and deviations that cancel out up to the tolerance. */
  lemma AcceptedProfiles(duration: real, segments: seq<Segment>)
    ensures NewProfile(duration, segments).Success?
       <==> && duration > 0.0 && |segments| <= 100_000
            && (forall k | 0 <= k < |segments| :: Follows(duration, segments, k))
            && var tolerance := Times(Max(duration, 1.0), 0.000000000001);
               -tolerance <= HalvedSum(segments, |segments|) <= tolerance
  {
    hide Times, Follows, FirstMisplaced, Total, HalvedSum;
    NoneMisplaced(duration, segments, |segments|);
    TotalIsHalvedSum(segments, |segments|);
  }

  /** Inside a segment, after this share of it, the factor deviates by the bump there; at its ends and outside it does
      not. */
  lemma SegmentFactor(kernel: Kernel, s: Segment, t: real, share: real)
    requires s.Valid() && Times(share, s.duration) == t - s.start
    ensures s.FactorAt(kernel, t)
         == if s.start < t < s.start + s.duration then 1.0 + Times(s.deviation, kernel.shape(share)) else 1.0
  {
    OneShare(t - s.start, s.duration, share);
  }

  /** What a segment has added by a time: nothing before it, half of its deviation times its duration after it, and in
      between the integral of the bump up to the share that has passed. */
  lemma SegmentIntegral(kernel: Kernel, s: Segment, t: real, share: real)
    requires kernel.Valid() && s.Valid() && Times(share, s.duration) == t - s.start
    ensures s.DeviationTo(kernel, t)
         == if t <= s.start then 0.0
            else if t >= s.start + s.duration then Times(s.deviation, s.duration) / 2.0
            else Times(Times(s.deviation, s.duration), kernel.integral(share))
  {
    OneShare(t - s.start, s.duration, share);
    DeviationAtEnds(kernel, s, t);
    ShareInside(t - s.start, s.duration);
  }

  lemma OneShare(a: real, b: real, share: real)
    requires b > 0.0 && Times(share, b) == a
    ensures share == a / b
  {
    assert (share - a / b) * b == 0.0;
  }

  lemma ShareInside(a: real, b: real)
    requires b > 0.0
    ensures 0.0 < a < b ==> 0.0 < a / b < 1.0
  {
    QuotientTimes(a, b);
    if 0.0 < a < b {
      Quotient(a, b);
      if a / b >= 1.0 {
        Monotone(1.0, a / b, b);
      }
      if a / b <= 0.0 {
        Monotone(a / b, 0.0, b);
      }
    }
  }
}

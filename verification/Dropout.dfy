/** Sensor outages that do not depend on how point times are batched
    (services/simulation-server/src/measurement/generation.rs, SensorDropoutScheduler). */
module Dropout {
  import opened Wrappers
  import opened Sums
  import opened Randomness

  const MAX_DROPOUT_EVENTS_PER_BATCH: nat := 100_000

  datatype DropoutError = Invalid | Exhausted

  /** The ranges of gaps and durations, and the random words. */
  datatype Settings = Settings(gapLow: real, gapHigh: real, durationLow: real, durationHigh: real, words: Stream) {
    predicate Valid() {
      0.0 < gapLow <= gapHigh && 0.0 < durationLow <= durationHigh
    }

    function Duration(position: nat): real
      requires Valid()
    {
      Uniform(words(position), durationLow, durationHigh)
    }

    function Gap(position: nat): real
      requires Valid()
    {
      Uniform(words(position), gapLow, gapHigh)
    }
  }

  /** The outage at hand; its end is drawn only once it is needed. */
  datatype State = State(position: nat, start: real, end: Option<real>, last: Option<real>)

  /** An outage whose end was drawn ends after it starts. */
  predicate Sound(s: State) {
    s.end.Some? ==> s.start < s.end.value
  }

  function Started(settings: Settings): State
    requires settings.Valid()
  {
    State(1, settings.Gap(0), None, None)
  }

  /** The same state with the end of its outage drawn. */
  function WithEnd(settings: Settings, s: State): State
    requires settings.Valid()
  {
    if s.end.Some? then s else s.(position := s.position + 1, end := Some(s.start + settings.Duration(s.position)))
  }

  /** The next outage, a gap after the end of this one. */
  function Following(settings: Settings, s: State): State
    requires settings.Valid() && s.end.Some?
  {
    State(s.position + 1, s.end.value + settings.Gap(s.position), None, s.last)
  }

  ghost function Remaining(settings: Settings, s: State, time: real): int
    requires settings.Valid()
  {
    ((time - s.start) / settings.gapLow).Floor
  }

  lemma OutagesAdvance(settings: Settings, s: State, time: real)
    requires settings.Valid() && Sound(s)
    ensures var ended := WithEnd(settings, s);
            && ended.start < ended.end.value && Sound(ended)
            && Following(settings, ended).start >= ended.end.value + settings.gapLow
            && (ended.end.value <= time ==>
                  Remaining(settings, Following(settings, ended), time) < Remaining(settings, s, time)
                  || Following(settings, ended).start > time)
    ensures s.start <= time ==> 0 <= Remaining(settings, s, time)
  {
    hide Uniform;
    QuotientRange(time - s.start, settings.gapLow);
    var next := Following(settings, WithEnd(settings, s));
    if next.start <= time {
      StepsInQuotient(time - s.start, time - next.start, settings.gapLow);
    }
  }

  /** Whether a time lies in some outage from this state on. */
  function Active(settings: Settings, s: State, time: real): bool
    requires settings.Valid() && Sound(s)
    decreases if s.start > time then -1 else Remaining(settings, s, time)
  {
    OutagesAdvance(settings, s, time);
    if time < s.start then false
    else
      var ended := WithEnd(settings, s);
      if time < ended.end.value then true else Active(settings, Following(settings, ended), time)
  }

  /** The state once all outages that end by a time are passed. */
  function Passed(settings: Settings, s: State, time: real): (r: State)
    requires settings.Valid() && Sound(s)
    ensures Sound(r) && r.last == s.last
    decreases if s.start > time then -1 else Remaining(settings, s, time)
  {
    OutagesAdvance(settings, s, time);
    if s.start > time then s
    else
      var ended := WithEnd(settings, s);
      if ended.end.value > time then ended else Passed(settings, Following(settings, ended), time)
  }

  /** How many outages start by a time. */
  function Count(settings: Settings, s: State, time: real): nat
    requires settings.Valid() && Sound(s)
    decreases if s.start > time then -1 else Remaining(settings, s, time)
  {
    OutagesAdvance(settings, s, time);
    if s.start > time then 0
    else
      var ended := WithEnd(settings, s);
      if ended.end.value > time then 1 else 1 + Count(settings, Following(settings, ended), time)
  }

  /** Times that a batch may have: not empty, not negative, rising, and after the last one seen. */
  predicate Acceptable(s: State, times: seq<real>) {
    && times != []
    && (forall k | 0 <= k < |times| :: times[k] >= 0.0)
    && (forall k | 0 < k < |times| :: times[k - 1] < times[k])
    && (s.last.Some? ==> s.last.value < times[0])
  }

  function Mask(settings: Settings, s: State, times: seq<real>): (mask: seq<bool>)
    requires settings.Valid() && Sound(s)
    ensures |mask| == |times| && forall k | 0 <= k < |times| :: mask[k] == Active(settings, s, times[k])
  {
    seq(|times|, k requires 0 <= k < |times| => Active(settings, s, times[k]))
  }

  /** One call: the mask and the state afterwards, or an error. */
  function ActiveMask(settings: Settings, s: State, times: seq<real>): Result<(seq<bool>, State), DropoutError>
    requires settings.Valid() && Sound(s)
  {
    if !Acceptable(s, times) then Failure(Invalid)
    else
      var through := times[|times| - 1];
      if Count(settings, s, through) > MAX_DROPOUT_EVENTS_PER_BATCH then Failure(Exhausted)
      else Success((Mask(settings, s, times), Passed(settings, s, through).(last := Some(through))))
  }

  // ---------------------------------------------------------------- what an outage is

  /** The k-th outage of the stream, with its end. */
  ghost function Outage(settings: Settings, s: State, k: nat): State
    requires settings.Valid()
  {
    if k == 0 then WithEnd(settings, s) else WithEnd(settings, Following(settings, Outage(settings, s, k - 1)))
  }

  ghost predicate InOutage(settings: Settings, s: State, k: nat, time: real)
    requires settings.Valid()
  {
    Outage(settings, s, k).start <= time < Outage(settings, s, k).end.value
  }

  lemma {:induction false} OutageShift(settings: Settings, s: State, k: nat)
    requires settings.Valid()
    ensures Outage(settings, s, k + 1) == Outage(settings, Following(settings, WithEnd(settings, s)), k)
  {
    if k > 0 {
      OutageShift(settings, s, k - 1);
    }
  }

  lemma {:induction false} OutagesStartLater(settings: Settings, s: State, k: nat)
    requires settings.Valid() && Sound(s)
    ensures Outage(settings, s, k).start >= s.start && Sound(Outage(settings, s, k))
  {
    hide Uniform;
    OutagesAdvance(settings, s, 0.0);
    if k > 0 {
      OutagesStartLater(settings, s, k - 1);
      OutagesAdvance(settings, Outage(settings, s, k - 1), 0.0);
      OutagesAdvance(settings, Following(settings, Outage(settings, s, k - 1)), 0.0);
    }
  }

  /** A time is active exactly when it lies in one of the half-open outages that the stream defines. */
  lemma {:induction false} ActiveMeans(settings: Settings, s: State, time: real)
    requires settings.Valid() && Sound(s)
    ensures Active(settings, s, time) <==> exists k: nat :: InOutage(settings, s, k, time)
    decreases if s.start > time then -1 else Remaining(settings, s, time)
  {
    hide Uniform, Remaining;
    OutagesAdvance(settings, s, time);
    if time < s.start {
      forall k: nat ensures !InOutage(settings, s, k, time) {
        OutagesStartLater(settings, s, k);
      }
    } else {
      var ended := WithEnd(settings, s);
      if time < ended.end.value {
        assert InOutage(settings, s, 0, time);
      } else {
        var next := Following(settings, ended);
        ActiveMeans(settings, next, time);
        forall k: nat ensures InOutage(settings, s, k + 1, time) == InOutage(settings, next, k, time) {
          OutageShift(settings, s, k);
        }
        assert !InOutage(settings, s, 0, time);
        assert forall k: nat :: InOutage(settings, s, k, time) ==> k > 0 && InOutage(settings, next, k - 1, time);
      }
    }
  }

  // ---------------------------------------------------------------- what is drawn, and what is answered

  /** From the beginning of the stream: the first outage starts after one gap, each lasts for one duration, and the next
      one starts another gap after its end; two words of the stream for each. */
  lemma {:induction false} OutagesAreDrawn(settings: Settings, k: nat)
    requires settings.Valid()
    ensures var first, one, next := Outage(settings, Started(settings), 0), Outage(settings, Started(settings), k),
                                    Outage(settings, Started(settings), k + 1);
            && IsDraw(settings.words(0), settings.gapLow, settings.gapHigh, first.start)
            && one.end.Some? && one.position == 2 * k + 2
            && IsDraw(settings.words(2 * k + 1), settings.durationLow, settings.durationHigh, one.end.value - one.start)
            && IsDraw(settings.words(2 * k + 2), settings.gapLow, settings.gapHigh, next.start - one.end.value)
    decreases k
  {
    hide Uniform, IsDraw;
    UniformIsDraw(settings.words(0), settings.gapLow, settings.gapHigh);
    UniformIsDraw(settings.words(2 * k + 1), settings.durationLow, settings.durationHigh);
    UniformIsDraw(settings.words(2 * k + 2), settings.gapLow, settings.gapHigh);
    if k > 0 {
      OutagesAreDrawn(settings, k - 1);
    }
  }

  /** So many outages start by a time. */
  lemma {:induction false} CountMeans(settings: Settings, s: State, time: real, k: nat)
    requires settings.Valid() && Sound(s)
    ensures k < Count(settings, s, time) <==> Outage(settings, s, k).start <= time
    decreases if s.start > time then -1 else Remaining(settings, s, time)
  {
    hide Uniform, Remaining;
    OutagesAdvance(settings, s, time);
    OutagesStartLater(settings, s, k);
    if s.start <= time {
      var next := Following(settings, WithEnd(settings, s));
      if k > 0 {
        OutageShift(settings, s, k - 1);
        OutagesStartLater(settings, next, k - 1);
        if WithEnd(settings, s).end.value <= time {
          CountMeans(settings, next, time, k - 1);
        }
      }
    }
  }

  /** A batch of times that are not negative, rise, and continue those before is answered time by time: whether it lies in
      an outage, from its start up to but not including its end. It is refused when it is not such a batch, or when more
      than 100000 outages start by its last time. */
  lemma MaskAnswers(settings: Settings, s: State, times: seq<real>)
    requires settings.Valid() && Sound(s)
    ensures var r := ActiveMask(settings, s, times);
            var fits := times != [] && times[0] >= 0.0 && (s.last.Some? ==> s.last.value < times[0])
                        && forall k | 0 < k < |times| :: times[k - 1] < times[k];
            && (r == Failure(Invalid) <==> !fits)
            && (fits ==> (r == Failure(Exhausted) <==> Outage(settings, s, 100_000).start <= times[|times| - 1]))
            && (r.Success? ==>
                  && |r.value.0| == |times| && r.value.1.last == Some(times[|times| - 1])
                  && forall i | 0 <= i < |times| ::
                       r.value.0[i] <==> exists k: nat :: InOutage(settings, s, k, times[i]))
  {
    hide Active, Passed, Count, InOutage;
    if times != [] && forall k | 0 < k < |times| :: times[k - 1] < times[k] {
      forall k | 0 <= k < |times| ensures times[0] <= times[k] {
        TimesRise(times, 0, k);
      }
      CountMeans(settings, s, times[|times| - 1], 100_000);
      forall i | 0 <= i < |times|
        ensures Active(settings, s, times[i]) <==> exists k: nat :: InOutage(settings, s, k, times[i])
      {
        ActiveMeans(settings, s, times[i]);
      }
    }
  }

  // ---------------------------------------------------------------- batches do not matter

  lemma {:induction false} PassedKeepsTheRest(settings: Settings, s: State, a: real, b: real)
    requires settings.Valid() && Sound(s) && a <= b
    ensures Active(settings, Passed(settings, s, a), b) == Active(settings, s, b)
    ensures Passed(settings, Passed(settings, s, a), b) == Passed(settings, s, b)
    ensures Count(settings, s, a) <= Count(settings, s, b)
    ensures Count(settings, Passed(settings, s, a), b) <= Count(settings, s, b)
    decreases if s.start > a then -1 else Remaining(settings, s, a)
  {
    hide Uniform, Remaining;
    OutagesAdvance(settings, s, a);
    if s.start <= a {
      var ended := WithEnd(settings, s);
      if ended.end.value <= a {
        PassedKeepsTheRest(settings, Following(settings, ended), a, b);
      }
    }
  }

  lemma {:induction false} LastPlaysNoPart(settings: Settings, s: State, last: Option<real>, time: real)
    requires settings.Valid() && Sound(s)
    ensures Active(settings, s.(last := last), time) == Active(settings, s, time)
    ensures Passed(settings, s.(last := last), time) == Passed(settings, s, time).(last := last)
    ensures Count(settings, s.(last := last), time) == Count(settings, s, time)
    decreases if s.start > time then -1 else Remaining(settings, s, time)
  {
    hide Uniform, Remaining;
    OutagesAdvance(settings, s, time);
    if s.start <= time {
      var ended := WithEnd(settings, s);
      if ended.end.value <= time {
        LastPlaysNoPart(settings, Following(settings, ended), last, time);
      }
    }
  }

  lemma {:induction false} TimesRise(times: seq<real>, j: nat, k: nat)
    requires j <= k < |times| && forall i | 0 < i < |times| :: times[i - 1] < times[i]
    ensures times[j] <= times[k]
  {
    if j < k {
      TimesRise(times, j, k - 1);
    }
  }

  /** The second of two batches is answered as it would be from the start. */
  lemma SecondBatch(settings: Settings, s: State, a: real, b: real)
    requires settings.Valid() && Sound(s) && a <= b
    ensures var mid := Passed(settings, s, a).(last := Some(a));
            && Active(settings, mid, b) == Active(settings, s, b)
            && Passed(settings, mid, b).(last := Some(b)) == Passed(settings, s, b).(last := Some(b))
            && Count(settings, mid, b) <= Count(settings, s, b)
  {
    hide Active, Passed, Count;
    PassedKeepsTheRest(settings, s, a, b);
    LastPlaysNoPart(settings, Passed(settings, s, a), Some(a), b);
  }

  /** One call for two batches gives the two masks in a row and the same final state, unless the whole passes the
      per-batch limit; and if the whole is answered, so are its parts. */
  lemma BatchesDoNotMatter(settings: Settings, s: State, first: seq<real>, second: seq<real>)
    requires settings.Valid() && Sound(s) && first != [] && second != []
    ensures var whole, a := ActiveMask(settings, s, first + second), ActiveMask(settings, s, first);
            if whole.Success? then
              && a.Success?
              && var b := ActiveMask(settings, a.value.1, second);
                 b.Success? && whole.value == (a.value.0 + b.value.0, b.value.1)
            else
              a.Success? && ActiveMask(settings, a.value.1, second).Success? ==>
                whole == Failure(Exhausted)
                && Count(settings, s, second[|second| - 1]) > MAX_DROPOUT_EVENTS_PER_BATCH
  {
    hide Active, Passed, Count, Sound, Acceptable;
    var times := first + second;
    SplitAcceptable(settings, s, first, second);
    if Acceptable(s, times) {
      MasksJoin(settings, s, first, second);
    } else {
      SoundAfter(settings, s, first[|first| - 1]);
    }
  }

  /** The answers to batches one after the other, up to the first error. */
  function Answers(settings: Settings, s: State, batches: seq<seq<real>>): Result<(seq<bool>, State), DropoutError>
    requires settings.Valid() && Sound(s)
    decreases |batches|
  {
    if batches == [] then Success(([], s))
    else
      var first := ActiveMask(settings, s, batches[0]);
      if first.Failure? then first
      else
        MaskIsSound(settings, s, batches[0]);
        var rest := Answers(settings, first.value.1, batches[1..]);
        if rest.Failure? then rest else Success((first.value.0 + rest.value.0, rest.value.1))
  }

  function Joined(batches: seq<seq<real>>): seq<real>
    decreases |batches|
  {
    if batches == [] then [] else batches[0] + Joined(batches[1..])
  }

  lemma MaskIsSound(settings: Settings, s: State, times: seq<real>)
    requires settings.Valid() && Sound(s)
    ensures ActiveMask(settings, s, times).Success? ==> Sound(ActiveMask(settings, s, times).value.1)
  {
    hide Active, Passed, Count, Mask;
    if Acceptable(s, times) {
      SoundAfter(settings, s, times[|times| - 1]);
    }
  }

  /** However times are cut into batches, the masks in a row and the final state are those of one call for all of them,
      unless that one call passes the per-batch limit; and if the one call is answered, so is every batch. */
  lemma {:induction false} CutsDoNotMatter(settings: Settings, s: State, batches: seq<seq<real>>)
    requires settings.Valid() && Sound(s) && batches != [] && forall k | 0 <= k < |batches| :: batches[k] != []
    ensures var whole, cut := ActiveMask(settings, s, Joined(batches)), Answers(settings, s, batches);
            if whole.Success? then cut == whole else cut.Success? ==> whole == Failure(Exhausted)
    decreases |batches|
  {
    hide ActiveMask, Sound, Acceptable;
    var first, rest := batches[0], batches[1..];
    var a := ActiveMask(settings, s, first);
    MaskIsSound(settings, s, first);
    if rest == [] {
      assert first + [] == first && Joined(rest) == [];
      if a.Success? {
        assert a.value.0 + [] == a.value.0;
      }
    } else {
      JoinedIsNotEmpty(rest);
      BatchesDoNotMatter(settings, s, first, Joined(rest));
      if a.Success? {
        CutsDoNotMatter(settings, a.value.1, rest);
        LimitOfRest(settings, s, first, Joined(rest));
        var b, whole := ActiveMask(settings, a.value.1, Joined(rest)), ActiveMask(settings, s, first + Joined(rest));
        assert Joined(batches) == first + Joined(rest);
        if whole.Failure? && b.Failure? && Answers(settings, s, batches).Success? {
          assert b == Failure(Exhausted) && whole.error == Exhausted;
        }
      }
    }
  }

  lemma JoinedIsNotEmpty(batches: seq<seq<real>>)
    requires batches != [] && batches[0] != []
    ensures Joined(batches) != []
  {
  }

  lemma LimitOfRest(settings: Settings, s: State, first: seq<real>, second: seq<real>)
    requires settings.Valid() && Sound(s) && first != [] && second != []
    ensures var whole, a := ActiveMask(settings, s, first + second), ActiveMask(settings, s, first);
            a.Success? ==>
              Sound(a.value.1)
              && (ActiveMask(settings, a.value.1, second) == Failure(Exhausted) ==> whole != Failure(Invalid))
  {
    hide Active, Passed, Count, Sound, Acceptable, Mask;
    SplitAcceptable(settings, s, first, second);
    SoundAfter(settings, s, first[|first| - 1]);
  }

  lemma AcceptableRises(s: State, times: seq<real>, j: nat, k: nat)
    requires Acceptable(s, times) && j <= k < |times|
    ensures times[j] <= times[k]
  {
    TimesRise(times, j, k);
  }

  lemma MaskOfBoth(settings: Settings, s: State, first: seq<real>, second: seq<real>)
    requires settings.Valid() && Sound(s) && first != [] && second != [] && Acceptable(s, first + second)
    ensures var mid := Passed(settings, s, first[|first| - 1]).(last := Some(first[|first| - 1]));
            Sound(mid) && Mask(settings, s, first + second) == Mask(settings, s, first) + Mask(settings, mid, second)
  {
    hide Active, Passed, Count, Sound, Acceptable;
    var times, m := first + second, |first| - 1;
    var mid := Passed(settings, s, first[m]).(last := Some(first[m]));
    SoundAfter(settings, s, first[m]);
    forall k | 0 <= k < |second| ensures Active(settings, mid, second[k]) == Active(settings, s, second[k]) {
      AcceptableRises(s, times, m, |first| + k);
      assert times[m] == first[m] && times[|first| + k] == second[k];
      SecondBatch(settings, s, first[m], second[k]);
    }
    assert Mask(settings, s, times) == Mask(settings, s, first) + Mask(settings, mid, second);
  }

  /** The masks of two acceptable batches make up the mask of both, and the states and counts agree. */
  lemma MasksJoin(settings: Settings, s: State, first: seq<real>, second: seq<real>)
    requires settings.Valid() && Sound(s) && first != [] && second != [] && Acceptable(s, first + second)
    ensures var a, b := first[|first| - 1], second[|second| - 1];
            var mid := Passed(settings, s, a).(last := Some(a));
            && (first + second)[|first + second| - 1] == b && Sound(mid)
            && Mask(settings, s, first + second) == Mask(settings, s, first) + Mask(settings, mid, second)
            && Passed(settings, mid, b).(last := Some(b)) == Passed(settings, s, b).(last := Some(b))
            && Count(settings, s, a) <= Count(settings, s, b) && Count(settings, mid, b) <= Count(settings, s, b)
  {
    hide Active, Passed, Count, Sound, Mask, Acceptable;
    var times := first + second;
    var m, n := |first| - 1, |times| - 1;
    assert times[m] == first[m] && times[n] == second[|second| - 1];
    AcceptableRises(s, times, m, n);
    SoundAfter(settings, s, first[m]);
    SecondBatch(settings, s, first[m], times[n]);
    PassedKeepsTheRest(settings, s, first[m], times[n]);
    MaskOfBoth(settings, s, first, second);
  }

  lemma SoundAfter(settings: Settings, s: State, time: real)
    requires settings.Valid() && Sound(s)
    ensures Sound(Passed(settings, s, time).(last := Some(time)))
  {
    hide Passed;
  }

  lemma SplitAcceptable(settings: Settings, s: State, first: seq<real>, second: seq<real>)
    requires settings.Valid() && Sound(s) && first != [] && second != []
    ensures var m := |first| - 1;
            Acceptable(s, first + second)
            <==> Acceptable(s, first) && Acceptable(Passed(settings, s, first[m]).(last := Some(first[m])), second)
  {
    hide Active, Passed;
    var times := first + second;
    assert forall k | 0 <= k < |first| :: times[k] == first[k];
    assert forall k | 0 <= k < |second| :: times[|first| + k] == second[k];
    if Acceptable(s, times) {
      assert times[|first| - 1] < times[|first|];
      forall k | 0 < k < |second| ensures second[k - 1] < second[k] {
        assert times[|first| + k - 1] < times[|first| + k];
      }
      forall k | 0 <= k < |second| ensures second[k] >= 0.0 {
        assert times[|first| + k] >= 0.0;
      }
    }
  }

  // ---------------------------------------------------------------- the scheduler as it runs

  class SensorDropoutScheduler {
    const settings: Settings
    var position: nat
    var start: real
    var end: Option<real>
    var last: Option<real>

    function Current(): State
      reads this
    {
      State(position, start, end, last)
    }

    ghost predicate Valid()
      reads this
    {
      settings.Valid() && Sound(Current())
    }

    constructor (settings: Settings)
      requires settings.Valid()
      ensures Valid() && this.settings == settings && Current() == Started(settings)
    {
      this.settings := settings;
      position, start, end, last := 1, settings.Gap(0), None, None;
    }

    /** Either the whole batch is answered, or nothing changes. */
    method ActiveMaskOf(times: seq<real>) returns (r: Result<seq<bool>, DropoutError>)
      requires Valid()
      modifies this
      ensures Valid()
      ensures var spec := ActiveMask(settings, old(Current()), times);
              if spec.Success? then r == Success(spec.value.0) && Current() == spec.value.1
              else r == Failure(spec.error) && Current() == old(Current())
    {
      hide Uniform, Active, Passed, Count;
      if !Acceptable(Current(), times) {
        return Failure(Invalid);
      }
      var mask, candidate, exhausted := Generate(times);
      if exhausted {
        return Failure(Exhausted);
      }
      position, start, end := candidate.position, candidate.start, candidate.end;
      last := Some(times[|times| - 1]);
      return Success(mask);
    }

    /** The event loop on a copy of the state. */
    method Generate(times: seq<real>) returns (mask: seq<bool>, s: State, exhausted: bool)
      requires Valid() && Acceptable(Current(), times)
      ensures exhausted <==> Count(settings, Current(), times[|times| - 1]) > MAX_DROPOUT_EVENTS_PER_BATCH
      ensures !exhausted ==>
                mask == Mask(settings, Current(), times) && s == Passed(settings, Current(), times[|times| - 1])
    {
      hide Uniform, Remaining, Active, Passed, Count;
      var through, generated := times[|times| - 1], 0;
      s := Current();
      mask := seq(|times|, k => false);
      exhausted := false;
      forall k | 0 <= k < |times| ensures times[k] <= through {
        TimesRise(times, k, |times| - 1);
      }
      var done := false;
      while !done && s.start <= through
        invariant Sound(s) && |mask| == |times| && generated <= MAX_DROPOUT_EVENTS_PER_BATCH
        invariant Passed(settings, Current(), through) == (if done then s else Passed(settings, s, through))
        invariant Count(settings, Current(), through) == generated + (if done then 0 else Count(settings, s, through))
        invariant forall k | 0 <= k < |times| ::
                    Active(settings, Current(), times[k]) == (mask[k] || (!done && Active(settings, s, times[k])))
        decreases if done then -2 else if s.start > through then -1 else Remaining(settings, s, through)
      {
        Unfold(settings, s, through);
        OutagesAdvance(settings, s, through);
        generated := generated + 1;
        if generated > MAX_DROPOUT_EVENTS_PER_BATCH {
          exhausted := true;
          return;
        }
        var ended := WithEnd(settings, s);
        forall k | 0 <= k < |times|
          ensures Active(settings, s, times[k])
               == (ended.start <= times[k] < ended.end.value
                   || (ended.end.value <= through && Active(settings, Following(settings, ended), times[k])))
        {
          Unfold(settings, s, times[k]);
          NotYetActive(settings, Following(settings, ended), times[k]);
        }
        mask := Marked(mask, times, ended);
        s := ended;
        if s.end.value > through {
          done := true;
        } else {
          s := Following(settings, s);
        }
      }
      if !done {
        Unfold(settings, s, through);
        forall k | 0 <= k < |times| ensures !Active(settings, s, times[k]) {
          NotYetActive(settings, s, times[k]);
        }
      }
      assert mask == Mask(settings, Current(), times);
    }
  }

  function Marked(mask: seq<bool>, times: seq<real>, outage: State): (r: seq<bool>)
    requires |mask| == |times| && outage.end.Some?
    ensures |r| == |mask|
    ensures forall k | 0 <= k < |r| :: r[k] == (mask[k] || outage.start <= times[k] < outage.end.value)
  {
    seq(|mask|, k requires 0 <= k < |mask| => mask[k] || outage.start <= times[k] < outage.end.value)
  }

  lemma NotYetActive(settings: Settings, s: State, time: real)
    requires settings.Valid() && Sound(s)
    ensures time < s.start ==> !Active(settings, s, time)
  {
  }

  lemma Unfold(settings: Settings, s: State, time: real)
    requires settings.Valid() && Sound(s)
    ensures var ended := WithEnd(settings, s);
            && ended.end.Some? && Sound(Following(settings, ended))
            && Active(settings, s, time)
               == (time >= s.start && (time < ended.end.value || Active(settings, Following(settings, ended), time)))
            && Passed(settings, s, time)
               == (if s.start > time then s
                   else if ended.end.value > time then ended else Passed(settings, Following(settings, ended), time))
            && Count(settings, s, time)
               == (if s.start > time then 0
                   else if ended.end.value > time then 1 else 1 + Count(settings, Following(settings, ended), time))
  {
    hide Uniform, Remaining;
    OutagesAdvance(settings, s, time);
  }
}

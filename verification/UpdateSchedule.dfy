/** When the schedule of surface updates can hold up a scenario
    (services/simulation-server/src/scenario/simulator.rs, next_update_time; decimal_ratio.rs, multiple_to_f64). */
module UpdateSchedule {
  import opened Wrappers
  import B = Binary64
  import D = DecimalRatio
  import T = DoubleTimes
  import opened RateProfileCreation
  import opened Randomness
  import opened Scenario
  import opened ScenarioVolume
  import opened ScenarioRuns

  const HELD_UP := ScenarioError.State("scenario update schedule cannot advance finitely")

  // ---------------------------------------------------------------- any schedule

  /** There is no update with this index, or it is no later than the one before. */
  predicate HeldUp(settings: Settings, index: nat) {
    var update := settings.updateTime(index);
    || update.None?
    || (index > 0 && settings.updateTime(index - 1).Some? && update.value <= settings.updateTime(index - 1).value)
  }

  /** The surface is as old as the last update or newer, and older than the next one if that comes later. */
  predicate OnSchedule(settings: Settings, s: State) {
    && s.nextUpdateIndex > 0
    && var last, next := settings.updateTime(s.nextUpdateIndex - 1), settings.updateTime(s.nextUpdateIndex);
       && last.Some? && last.value <= s.updatedAt
       && (next.Some? && last.value < next.value ==> s.updatedAt < next.value)
  }

  /** On schedule the next update is missing exactly when its index is held up. */
  lemma HeldUpMeans(settings: Settings, s: State)
    requires OnSchedule(settings, s)
    ensures UpdateTime(settings, s).Failure? <==> HeldUp(settings, s.nextUpdateIndex)
    ensures UpdateTime(settings, s).Failure? ==> UpdateTime(settings, s).error == HELD_UP
  {
  }

  lemma StepTimes(settings: Settings, s: State)
    requires settings.Valid() && Sound(settings, s)
    ensures var r, update := Step(settings, s), UpdateTime(settings, s);
            var end := ActivePlan(s).startedAt + ActivePlan(s).duration;
            r.Success? ==>
              && update.Success? && (r.value.event.updateDue <==> update.value <= end)
              && r.value.state.updatedAt == (if update.value <= end then update.value else end)
  {
    hide Sound, Updated, Continued, TakeSnapshot;
    StepMeans(settings, s);
  }

  lemma StepKeepsSchedule(settings: Settings, s: State)
    requires settings.Valid() && Sound(settings, s) && OnSchedule(settings, s)
    ensures var r := Step(settings, s);
            r.Success? ==>
              && OnSchedule(settings, r.value.state)
              && s.nextUpdateIndex <= r.value.state.nextUpdateIndex <= s.nextUpdateIndex + 1
  {
    hide Sound, Step;
    StepMeans(settings, s);
    StepTimes(settings, s);
  }

  /** Held up at one of the indices from the next one on, so many at most. */
  ghost predicate HeldUpWithin(settings: Settings, next: nat, more: nat) {
    exists k: nat | next <= k <= next + more :: HeldUp(settings, k)
  }

  lemma HeldUpLater(settings: Settings, next: nat, more: nat, first: nat, all: nat)
    requires HeldUpWithin(settings, next, more) && first <= next && next + more <= first + all
    ensures HeldUpWithin(settings, first, all)
  {
    hide HeldUp;
  }

  lemma HeldUpNow(settings: Settings, next: nat, more: nat)
    requires HeldUp(settings, next)
    ensures HeldUpWithin(settings, next, more)
  {
    hide HeldUp;
  }

  /** A run stays on schedule. Only an index without a later update can hold it up, one that it reaches with its
      budget. */
  lemma {:induction false} RunKeepsSchedule(settings: Settings, s: State, elapsed: real, budget: nat)
    requires settings.Valid() && Sound(settings, s) && OnPlan(settings, s) && OnSchedule(settings, s)
    ensures var r := Run(settings, s, elapsed, budget);
            if r.Success? then
              && OnSchedule(settings, r.value.state)
              && s.nextUpdateIndex <= r.value.state.nextUpdateIndex <= s.nextUpdateIndex + budget
            else IsLimit(r.error) || (r.error == HELD_UP && HeldUpWithin(settings, s.nextUpdateIndex, budget))
    decreases budget
  {
    hide Sound, Step, OnPlan, Run, HeldUp, HeldUpWithin;
    RunUnfolds(settings, s, elapsed, budget);
    NextEventMeans(settings, s);
    HeldUpMeans(settings, s);
    StepKeepsPlan(settings, s);
    StepKeepsSchedule(settings, s);
    if UpdateTime(settings, s).Failure? {
      HeldUpNow(settings, s.nextUpdateIndex, budget);
    } else if NextEvent(settings, s).value <= elapsed && budget > 0 && Step(settings, s).Success? {
      var t := Step(settings, s).value.state;
      RunKeepsSchedule(settings, t, elapsed, budget - 1);
      if HeldUpWithin(settings, t.nextUpdateIndex, budget - 1) {
        HeldUpLater(settings, t.nextUpdateIndex, budget - 1, s.nextUpdateIndex, budget);
      }
    }
  }

  lemma AdvanceKeepsSchedule(settings: Settings, s: State, elapsed: real)
    requires settings.Valid() && Sound(settings, s) && OnPlan(settings, s) && OnSchedule(settings, s)
    ensures var r := Advance(settings, s, elapsed);
            if r.Success? then
              && Sound(settings, r.value.state) && OnPlan(settings, r.value.state)
              && OnSchedule(settings, r.value.state)
              && s.nextUpdateIndex <= r.value.state.nextUpdateIndex <= s.nextUpdateIndex + MAX_EVENTS_PER_ADVANCE
            else
              || IsLimit(r.error) || r.error.Invalid?
              || (r.error == HELD_UP && HeldUpWithin(settings, s.nextUpdateIndex, MAX_EVENTS_PER_ADVANCE))
  {
    hide Sound, OnPlan, Run, OnSchedule, HeldUpWithin;
    SoundPhaseEnd(settings, s);
    SurfaceHasNodes(settings);
    var limit := EventLimit(|s.heights|).value;
    RunKeepsPlan(settings, s, elapsed, limit);
    RunKeepsSchedule(settings, s, elapsed, limit);
    if HeldUpWithin(settings, s.nextUpdateIndex, limit) {
      HeldUpLater(settings, s.nextUpdateIndex, limit, s.nextUpdateIndex, MAX_EVENTS_PER_ADVANCE);
    }
  }

  /** The most updates that so many advances can make. */
  function MostUpdates(advances: nat): nat {
    advances * MAX_EVENTS_PER_ADVANCE
  }

  /** Whatever times a simulation is advanced to, it stays on schedule; only an index without a later update can hold it
      up, one that so many advances can reach. */
  lemma {:induction false} EveryRunKeepsSchedule(settings: Settings, s: State, times: seq<real>)
    requires settings.Valid() && Sound(settings, s) && OnPlan(settings, s) && OnSchedule(settings, s)
    ensures var r := AdvanceAll(settings, s, times);
            if r.Success? then
              OnSchedule(settings, r.value) && r.value.nextUpdateIndex <= s.nextUpdateIndex + MostUpdates(|times|)
            else
              || IsLimit(r.error) || r.error.Invalid?
              || (r.error == HELD_UP && HeldUpWithin(settings, s.nextUpdateIndex, MostUpdates(|times|)))
    decreases |times|
  {
    hide Sound, OnPlan, Advance, OnSchedule, HeldUpWithin;
    if times != [] {
      AdvanceKeepsSchedule(settings, s, times[0]);
      var r := Advance(settings, s, times[0]);
      if r.Success? {
        var t := r.value.state;
        EveryRunKeepsSchedule(settings, t, times[1..]);
        if HeldUpWithin(settings, t.nextUpdateIndex, MostUpdates(|times| - 1)) {
          HeldUpLater(settings, t.nextUpdateIndex, MostUpdates(|times| - 1), s.nextUpdateIndex, MostUpdates(|times|));
        }
      } else if HeldUpWithin(settings, s.nextUpdateIndex, MAX_EVENTS_PER_ADVANCE) {
        HeldUpLater(settings, s.nextUpdateIndex, MAX_EVENTS_PER_ADVANCE, s.nextUpdateIndex, MostUpdates(|times|));
      }
    }
  }

  // ---------------------------------------------------------------- the decimal schedule

  /** The value of a double in seconds. */
  function Seconds(bits: nat): real {
    B.ScaledValue(bits) as real / B.Shl(1, 1074) as real
  }

  /** The update with an index comes at that multiple of the decimal interval, rounded once. */
  ghost predicate Decimal(settings: Settings, interval: D.PositiveRatio) {
    && interval.Sized() && T.Distinguishable(interval.numerator, interval.denominator)
    && forall k: nat ::
         var time := interval.MultipleToF64(k);
         settings.updateTime(k) == if time.None? then None else Some(Seconds(time.value))
  }

  lemma SecondsRise(a: nat, b: nat)
    requires a < b
    ensures Seconds(a) < Seconds(b)
  {
    hide B.Shl, B.ScaledValue;
    B.ScaledValueStrictlyMonotone(a, b);
    SmallerQuotient(B.ScaledValue(a) as real, B.ScaledValue(b) as real, B.Shl(1, 1074) as real);
  }

  lemma SmallerQuotient(a: real, b: real, c: real)
    requires a < b && c > 0.0
    ensures a / c < b / c
  {
  }

  /** In a decimal schedule each of the first 2^52 updates that has a time comes after the one before. */
  lemma DecimalIsNotHeldUp(settings: Settings, interval: D.PositiveRatio, index: nat)
    requires Decimal(settings, interval) && 0 < index <= B.HIDDEN_BIT && interval.MultipleToF64(index).Some?
    ensures !HeldUp(settings, index)
  {
    hide B.Shl, B.ScaledValue, D.PositiveRatio.MultipleToF64, T.Distinguishable, Seconds;
    T.IntervalsRise(interval, index - 1);
    SecondsRise(interval.MultipleToF64(index - 1).value, interval.MultipleToF64(index).value);
    assert settings.updateTime(index - 1) == Some(Seconds(interval.MultipleToF64(index - 1).value));
    assert settings.updateTime(index) == Some(Seconds(interval.MultipleToF64(index).value));
  }

  /** As long as the latest of the indices has a time, none of them is held up. */
  lemma DecimalIsNeverHeldUp(settings: Settings, interval: D.PositiveRatio, next: nat, more: nat)
    requires Decimal(settings, interval) && 0 < next && next + more <= B.HIDDEN_BIT
    requires interval.MultipleToF64(next + more).Some?
    ensures !HeldUpWithin(settings, next, more)
  {
    hide B.Shl, B.ScaledValue, D.PositiveRatio.MultipleToF64, T.Distinguishable, HeldUp, Seconds;
    T.HiddenBitFits();
    forall k: nat | next <= k <= next + more ensures !HeldUp(settings, k) {
      D.MultiplesMonotone(interval, k, next + more);
      DecimalIsNotHeldUp(settings, interval, k);
    }
  }

  lemma StartsOnSchedule(settings: Settings, interval: D.PositiveRatio)
    requires settings.Valid() && Decimal(settings, interval)
    ensures var r := Start(settings); r.Success? ==> OnSchedule(settings, r.value) && r.value.nextUpdateIndex == 1
  {
    hide WithFillPlan, T.Distinguishable, B.Shl, B.ScaledValue;
    ZeroSeconds();
    StartIndex(settings);
    StartTimes(settings);
    assert interval.MultipleToF64(0) == Some(0);
    assert settings.updateTime(0) == Some(Seconds(0));
  }

  lemma ZeroSeconds()
    ensures Seconds(0) == 0.0
  {
    hide B.Shl;
    B.SubnormalValue(0);
  }

  lemma StartIndex(settings: Settings)
    requires settings.Valid()
    ensures Start(settings).Success? ==> Start(settings).value.nextUpdateIndex == 1
  {
    hide CreateProfile, Uniform;
  }

  /** From the start, advanced to any times: with a decimal update interval longer than the smallest double, the schedule
      never holds a simulation up, as long as the updates that so many advances can make stay below 2^52 and the time of
      the last of them below the largest double. */
  lemma UpdatesAreNeverHeldUp(settings: Settings, interval: D.PositiveRatio, times: seq<real>)
    requires settings.Valid() && Decimal(settings, interval) && Start(settings).Success?
    requires MostUpdates(|times|) < B.HIDDEN_BIT && interval.MultipleToF64(1 + MostUpdates(|times|)).Some?
    ensures Sound(settings, Start(settings).value)
    ensures var r := AdvanceAll(settings, Start(settings).value, times);
            if r.Success? then Sound(settings, r.value) && OnPlan(settings, r.value) && OnSchedule(settings, r.value)
            else IsLimit(r.error) || r.error.Invalid?
  {
    hide Sound, OnPlan, OnSchedule, AdvanceAll, Start, HeldUpWithin, Decimal, D.PositiveRatio.MultipleToF64, MostUpdates;
    StartIsOnPlan(settings);
    StartsOnSchedule(settings, interval);
    EveryRunFollowsPlan(settings, Start(settings).value, times);
    EveryRunKeepsSchedule(settings, Start(settings).value, times);
    DecimalIsNeverHeldUp(settings, interval, 1, MostUpdates(|times|));
  }
}

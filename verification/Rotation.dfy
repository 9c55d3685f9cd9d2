/** Cutting a sample stream into rotations (services/simulation-server/src/measurement/rotation.rs). */
module Rotation {
  import opened Wrappers
  import S = Sums
  import opened Binary64
  import opened DecimalRatio

  const MAX_I64: nat := 0x7fff_ffff_ffff_ffff
  const MAX_SCAN_POINTS_PER_FRAME: nat := 32_768
  const TIME_TOLERANCE: real := 0.000000000001

  datatype RotationError =
    | InvalidSampleRate | InvalidRotationRate | SampleRateBelowRotationRate | ScanPointLimitExceeded
    | InvalidInitialAngle | InvalidRotationInterval | EmptyScan | InvalidScheduledAngle | NonMonotonicPointTime
    | PointBeforeRotation | PointAtOrAfterCompletion | ScanIdExhausted | SampleIndexExhausted
    | NoMeasurementPoints | RotationTimeOutOfRange

  datatype Scan = Scan(scanId: nat, startedAt: real, completedAt: real, samples: seq<nat>, times: seq<real>,
                       angles: seq<real>)

  /** Rates, their exact ratio, the first angle, and how an angle in [0, 360) is quantised. */
  datatype Rates = Rates(sampleRate: real, rotationRate: real, samplesPerRotation: PositiveRatio,
                         rotationRateFraction: PositiveRatio, initialAngle: real, quantize: real -> real)
  {
    /** The ratios are those of the rates, and quantising keeps angles within a turn. */
    ghost predicate Exact() {
      && samplesPerRotation.Valid() && rotationRateFraction.Valid()
      && S.Times(sampleRate, samplesPerRotation.denominator as real)
         == S.Times(rotationRate, samplesPerRotation.numerator as real)
      && (forall angle: real | 0.0 <= angle < 360.0 :: 0.0 <= quantize(angle) < 360.0)
    }

    /** The ratios are exact, and there is at least one sample and at most a frame full per rotation. */
    ghost predicate Valid() {
      var n, d := samplesPerRotation.numerator, samplesPerRotation.denominator;
      && Exact() && sampleRate > 0.0 && rotationRate > 0.0
      && d <= n && Ceiling(n, d) <= MAX_SCAN_POINTS_PER_FRAME
    }

    function PointTime(sample: nat): real
      requires sampleRate > 0.0
    {
      sample as real / sampleRate
    }

    function Boundary(rotation: nat): real
      requires rotationRate > 0.0
    {
      rotation as real / rotationRate
    }

    /** The quantised angle of a sample, turned on from the first angle. */
    function Angle(sample: nat, rotation: nat): real
      requires sampleRate > 0.0
    {
      var progress := S.Times(PointTime(sample), rotationRate) - rotation as real;
      quantize(Turned(initialAngle + 360.0 * progress))
    }
  }

  /** The remainder modulo a full turn, never negative. */
  function Turned(angle: real): (r: real)
    ensures 0.0 <= r < 360.0
  {
    angle - 360.0 * (angle / 360.0).Floor as real
  }

  /** The first sample that is not before the given rotation. */
  function FirstSample(rates: Rates, rotation: nat): nat
    requires rates.samplesPerRotation.Valid()
  {
    Ceiling(Times(rates.samplesPerRotation.numerator, rotation), rates.samplesPerRotation.denominator)
  }

  /** The samples from one index up to another, with their times and angles. */
  function Points(rates: Rates, rotation: nat, from: nat, to: nat): (p: (seq<nat>, seq<real>, seq<real>))
    requires rates.sampleRate > 0.0 && from <= to
    ensures |p.0| == |p.1| == |p.2| == to - from
    ensures forall x | 0 <= x < to - from ::
              p.0[x] == from + x && p.1[x] == rates.PointTime(from + x) && p.2[x] == rates.Angle(from + x, rotation)
  {
    (seq(to - from, x requires 0 <= x < to - from => from + x),
     seq(to - from, x requires 0 <= x < to - from => rates.PointTime(from + x)),
     seq(to - from, x requires 0 <= x < to - from => rates.Angle(from + x, rotation)))
  }

  /** The checks of a finished scan. */
  function ScanError(scan: Scan): Option<RotationError>
    requires |scan.times| == |scan.angles|
  {
    if scan.startedAt < 0.0 || scan.completedAt <= scan.startedAt then Some(InvalidRotationInterval)
    else if scan.times == [] then Some(EmptyScan)
    else if exists x | 0 <= x < |scan.angles| :: scan.angles[x] < 0.0 || scan.angles[x] >= 360.0 then
      Some(InvalidScheduledAngle)
    else if exists x | 0 <= x < |scan.times| - 1 :: scan.times[x + 1] <= scan.times[x] then Some(NonMonotonicPointTime)
    else if scan.times[0] < scan.startedAt - S.Times(S.Max(scan.completedAt, 1.0), TIME_TOLERANCE)
         then Some(PointBeforeRotation)
    else if scan.times[|scan.times| - 1] >= scan.completedAt then Some(PointAtOrAfterCompletion)
    else None
  }

  /** The sample after the last one of a rotation, when it fits 64 bits. */
  function EndSample(rates: Rates, scanId: nat): Option<nat>
    requires rates.samplesPerRotation.Valid()
  {
    rates.samplesPerRotation.CeilMultiple(scanId)
  }

  datatype Schedule = Schedule(nextRotation: nat, nextSample: nat)

  function NextScan(rates: Rates, s: Schedule): Result<(Scan, Schedule), RotationError>
    requires rates.Valid()
  {
    var scanId := s.nextRotation + 1;
    var end := EndSample(rates, scanId);
    if scanId > MAX_I64 then Failure(ScanIdExhausted)
    else if end.None? || end.value > MAX_I64 then Failure(SampleIndexExhausted)
    else if end.value <= s.nextSample then Failure(NoMeasurementPoints)
    else if rates.rotationRateFraction.ReciprocalMultipleToF64(s.nextRotation).None?
         || rates.rotationRateFraction.ReciprocalMultipleToF64(scanId).None? then Failure(RotationTimeOutOfRange)
    else
      var (samples, times, angles) := Points(rates, s.nextRotation, s.nextSample, end.value);
      var scan := Scan(scanId, rates.Boundary(s.nextRotation), rates.Boundary(scanId), samples, times, angles);
      var error := ScanError(scan);
      if error.Some? then Failure(error.value) else Success((scan, Schedule(scanId, end.value)))
  }

  // ---------------------------------------------------------------- where rotations begin

  /** The schedule stands at the first sample of its next rotation. */
  ghost predicate Aligned(rates: Rates, s: Schedule)
    requires rates.samplesPerRotation.Valid()
  {
    s.nextSample == FirstSample(rates, s.nextRotation)
  }

  lemma CeilingSplits(value: nat, unit: nat, sample: nat)
    requires unit > 0
    ensures sample < Ceiling(value, unit) <==> sample * unit < value
  {
    CeilingQuotient(value, unit);
    if sample >= Ceiling(value, unit) {
      ProductGrows(Ceiling(value, unit), sample, unit);
    }
  }

  lemma ProductGrows(a: nat, b: nat, unit: nat)
    requires a <= b
    ensures a * unit <= b * unit
  {
  }

  /** Scan k holds exactly the samples i with (k - 1) * n <= i * d < k * n. */
  lemma SamplesOfScan(rates: Rates, rotation: nat, sample: nat)
    requires rates.samplesPerRotation.Valid()
    ensures var n, d := rates.samplesPerRotation.numerator, rates.samplesPerRotation.denominator;
            FirstSample(rates, rotation) <= sample < FirstSample(rates, rotation + 1)
            <==> Times(n, rotation) <= sample * d < Times(n, rotation + 1)
  {
    CeilingSplits(Times(rates.samplesPerRotation.numerator, rotation), rates.samplesPerRotation.denominator, sample);
    CeilingSplits(Times(rates.samplesPerRotation.numerator, rotation + 1), rates.samplesPerRotation.denominator,
        sample);
  }

  lemma QuotientCounts(n: nat, d: nat)
    requires d > 0
    ensures Quotient(n, d) * d <= n < (Quotient(n, d) + 1) * d
    ensures Ceiling(n, d) == Quotient(n, d) || Ceiling(n, d) == Quotient(n, d) + 1
    ensures Ceiling(n, d) * d >= n
    ensures Ceiling(n, d) == Quotient(n, d) ==> Quotient(n, d) * d == n
  {
    DivisionIdentity(n, d);
    var q := Quotient(n, d);
    assert (q + 1) * d == q * d + d;
  }

  /** A rotation holds floor(n / d) or ceil(n / d) samples; with n >= d that is at least one. */
  lemma RotationSize(rates: Rates, rotation: nat)
    requires rates.samplesPerRotation.Valid()
    ensures var n, d := rates.samplesPerRotation.numerator, rates.samplesPerRotation.denominator;
            FirstSample(rates, rotation) + Quotient(n, d) <= FirstSample(rates, rotation + 1)
            <= FirstSample(rates, rotation) + Ceiling(n, d)
  {
    var n, d := rates.samplesPerRotation.numerator, rates.samplesPerRotation.denominator;
    var a, b := FirstSample(rates, rotation), FirstSample(rates, rotation + 1);
    QuotientCounts(n, d);
    CeilingSplits(Times(n, rotation), d, a);
    CeilingSplits(Times(n, rotation + 1), d, a + Ceiling(n, d));
    AddProducts(a, Ceiling(n, d), d);
    if Quotient(n, d) > 0 {
      var last := a + Quotient(n, d) - 1;
      CeilingSplits(Times(n, rotation + 1), d, last);
      if a > 0 {
        CeilingSplits(Times(n, rotation), d, a - 1);
        AddProducts(a - 1, Quotient(n, d), d);
      } else {
        ProductGrows(last, Quotient(n, d), d);
        StrictProduct(last, Quotient(n, d), d);
      }
    } else {
      CeilingMonotone(Times(n, rotation), Times(n, rotation + 1), d);
    }
  }

  lemma AddProducts(a: nat, b: nat, d: nat)
    ensures (a + b) * d == a * d + b * d
  {
  }

  lemma StrictProduct(a: nat, b: nat, d: nat)
    requires a < b && d > 0
    ensures a * d < b * d
  {
  }

  lemma CeilingMonotone(low: nat, high: nat, d: nat)
    requires low <= high && d > 0
    ensures Ceiling(low, d) <= Ceiling(high, d)
  {
    if Ceiling(high, d) < Ceiling(low, d) {
      CeilingSplits(low, d, Ceiling(high, d));
      CeilingSplits(high, d, Ceiling(high, d));
    }
  }

  lemma AtLeastOne(n: nat, d: nat)
    requires 0 < d <= n
    ensures Quotient(n, d) >= 1
  {
  }

  // ---------------------------------------------------------------- times

  lemma ScaledRates(rates: Rates, sample: nat, rotation: nat)
    requires rates.Valid()
    ensures var n, d := rates.samplesPerRotation.numerator, rates.samplesPerRotation.denominator;
            && (sample * d < n * rotation ==> rates.PointTime(sample) < rates.Boundary(rotation))
            && (sample * d >= n * rotation ==> rates.PointTime(sample) >= rates.Boundary(rotation))
  {
    hide S.Times;
    var n, d := rates.samplesPerRotation.numerator as real, rates.samplesPerRotation.denominator as real;
    CrossMultiplied(sample as real, rotation as real, rates.sampleRate, rates.rotationRate, n, d);
    RealProduct(sample, rates.samplesPerRotation.denominator);
    RealProduct(rates.samplesPerRotation.numerator, rotation);
  }

  lemma RealProduct(a: nat, b: nat)
    ensures S.Times(a as real, b as real) == (a * b) as real
  {
  }

  lemma CrossMultiplied(i: real, k: real, sampleRate: real, rotationRate: real, n: real, d: real)
    requires sampleRate > 0.0 && rotationRate > 0.0 && n > 0.0 && d > 0.0
    requires S.Times(sampleRate, d) == S.Times(rotationRate, n)
    ensures i / sampleRate < k / rotationRate <==> S.Times(i, d) < S.Times(n, k)
  {
    hide S.Times;
    var x, y := i / sampleRate, k / rotationRate;
    S.QuotientTimes(i, sampleRate);
    S.QuotientTimes(k, rotationRate);
    var unit := S.Times(sampleRate, d);
    Associate(x, sampleRate, d);
    Associate(y, rotationRate, n);
    S.TimesCommutes(n, k);
    PositiveTimes(sampleRate, d);
    OrderThrough(x, y, unit);
  }

  lemma Associate(a: real, b: real, c: real)
    ensures S.Times(S.Times(a, b), c) == S.Times(a, S.Times(b, c))
  {
  }

  lemma PositiveTimes(a: real, b: real)
    requires a > 0.0 && b > 0.0
    ensures S.Times(a, b) > 0.0
  {
  }

  lemma OrderThrough(x: real, y: real, unit: real)
    requires unit > 0.0
    ensures x < y <==> S.Times(x, unit) < S.Times(y, unit)
  {
  }

  lemma QuotientOrder(a: nat, b: nat, rate: real)
    requires a < b && rate > 0.0
    ensures a as real / rate < b as real / rate
  {
  }

  /** The times of a rotation's samples rise, start no earlier than the rotation, and stay before its completion. */
  lemma TimesFit(rates: Rates, rotation: nat, sample: nat)
    requires rates.Valid() && FirstSample(rates, rotation) <= sample < FirstSample(rates, rotation + 1)
    ensures rates.Boundary(rotation) <= rates.PointTime(sample) < rates.Boundary(rotation + 1)
  {
    SamplesOfScan(rates, rotation, sample);
    TimesIsProduct(rates.samplesPerRotation.numerator, rotation);
    TimesIsProduct(rates.samplesPerRotation.numerator, rotation + 1);
    ScaledRates(rates, sample, rotation);
    ScaledRates(rates, sample, rotation + 1);
  }

  // ---------------------------------------------------------------- every scan

  lemma CeilMultipleIsFirst(rates: Rates, rotation: nat)
    requires rates.Valid()
    ensures EndSample(rates, rotation).Some? ==> EndSample(rates, rotation).value == FirstSample(rates, rotation)
    ensures EndSample(rates, rotation).None? ==> FirstSample(rates, rotation) > MAX_I64
  {
    hide Shl;
    BeyondIndices();
  }

  lemma BeyondIndices()
    ensures Shl(1, 64) > MAX_I64
  {
    ShlBy52(1);
    ShlBy4(1, 52);
    ShlBy4(1, 56);
    ShlBy4(1, 60);
  }

  /** From an aligned schedule the next scan holds exactly the samples of the next rotation, between 1 and 32768 of
      them, and leaves the schedule aligned. The only errors are the ends of the number ranges. */
  lemma NextScanIsRotation(rates: Rates, s: Schedule)
    requires rates.Valid() && Aligned(rates, s)
    ensures var r := NextScan(rates, s);
            var n, d := rates.samplesPerRotation.numerator, rates.samplesPerRotation.denominator;
            if r.Success? then
              var (scan, next) := r.value;
              && Aligned(rates, next) && next.nextRotation == s.nextRotation + 1 == scan.scanId
              && |scan.samples| == |scan.times| == next.nextSample - s.nextSample
              && Quotient(n, d) <= |scan.samples| <= Ceiling(n, d)
              && 1 <= |scan.samples| <= MAX_SCAN_POINTS_PER_FRAME
              && forall x | 0 <= x < |scan.samples| ::
                   scan.samples[x] == s.nextSample + x && scan.times[x] == rates.PointTime(scan.samples[x])
            else r.error == ScanIdExhausted || r.error == SampleIndexExhausted || r.error == RotationTimeOutOfRange
  {
    hide Ceiling, Quotient, S.Times, Turned, Rates.PointTime, Rates.Boundary, EndSample, ScanError, FirstSample,
      PositiveRatio.ReciprocalMultipleToF64;
    var n, d := rates.samplesPerRotation.numerator, rates.samplesPerRotation.denominator;
    var scanId := s.nextRotation + 1;
    RotationSize(rates, s.nextRotation);
    AtLeastOne(n, d);
    CeilMultipleIsFirst(rates, scanId);
    var end := FirstSample(rates, scanId);
    var (samples, times, angles) := Points(rates, s.nextRotation, s.nextSample, end);
    ScanIsValid(rates, s.nextRotation, Scan(scanId, rates.Boundary(s.nextRotation), rates.Boundary(scanId), samples,
        times, angles));
  }

  lemma ScanIsValid(rates: Rates, rotation: nat, scan: Scan)
    requires rates.Valid()
    requires scan.startedAt == rates.Boundary(rotation) && scan.completedAt == rates.Boundary(rotation + 1)
    requires var (samples, times, angles) := Points(rates, rotation, FirstSample(rates, rotation),
             LaterOf(FirstSample(rates, rotation), FirstSample(rates, rotation + 1)));
             scan.times == times && scan.angles == angles && |times| > 0
    ensures ScanError(scan) == None
  {
    hide S.Times, Turned, Ceiling, Rates.PointTime, Rates.Boundary;
    var from := FirstSample(rates, rotation);
    forall x | 0 <= x < |scan.times|
      ensures scan.times[x] == rates.PointTime(from + x) && scan.startedAt <= scan.times[x] < scan.completedAt
    {
      TimesFit(rates, rotation, from + x);
    }
    forall x | 0 <= x < |scan.times| - 1 ensures scan.times[x] < scan.times[x + 1] {
      LaterSample(rates, from + x);
    }
    forall x | 0 <= x < |scan.angles| ensures 0.0 <= scan.angles[x] < 360.0 {
      AngleInRange(rates, from + x, rotation);
    }
    BoundariesRise(rates, rotation);
    ToleranceNotNegative(scan.completedAt);
  }

  function LaterOf(a: nat, b: nat): nat {
    if a >= b then a else b
  }

  lemma LaterSample(rates: Rates, sample: nat)
    requires rates.Valid()
    ensures rates.PointTime(sample) < rates.PointTime(sample + 1)
  {
    QuotientOrder(sample, sample + 1, rates.sampleRate);
  }

  lemma AngleInRange(rates: Rates, sample: nat, rotation: nat)
    requires rates.Valid()
    ensures 0.0 <= rates.Angle(sample, rotation) < 360.0
  {
    hide S.Times, Turned, Rates.PointTime;
  }

  lemma BoundariesRise(rates: Rates, rotation: nat)
    requires rates.Valid()
    ensures 0.0 <= rates.Boundary(rotation) < rates.Boundary(rotation + 1)
  {
    QuotientOrder(rotation, rotation + 1, rates.rotationRate);
    S.Quotient(rotation as real, rates.rotationRate);
  }

  lemma ToleranceNotNegative(completedAt: real)
    ensures S.Times(S.Max(completedAt, 1.0), TIME_TOLERANCE) >= 0.0
  {
  }

  // ---------------------------------------------------------------- runs of scans

  /** The samples of the next scans in order, up to the first error. */
  function ScanAll(rates: Rates, s: Schedule, count: nat): (r: (seq<nat>, Schedule))
    requires rates.Valid()
    decreases count
  {
    if count == 0 then ([], s)
    else
      var next := NextScan(rates, s);
      if next.Failure? then ([], s)
      else
        var (rest, end) := ScanAll(rates, next.value.1, count - 1);
        (next.value.0.samples + rest, end)
  }

  /** Successive scans hold every sample from the start exactly once, in order. */
  lemma {:induction false} ScansPartition(rates: Rates, s: Schedule, count: nat)
    requires rates.Valid() && Aligned(rates, s)
    ensures var (samples, end) := ScanAll(rates, s, count);
            && Aligned(rates, end) && s.nextSample + |samples| == end.nextSample
            && forall x | 0 <= x < |samples| :: samples[x] == s.nextSample + x
    decreases count
  {
    hide NextScan, Aligned;
    if count > 0 {
      NextScanIsRotation(rates, s);
      var next := NextScan(rates, s);
      if next.Success? {
        ScansPartition(rates, next.value.1, count - 1);
      }
    }
  }

  // ---------------------------------------------------------------- what a scan holds

  /** A sample's angle: where the beam points when it is taken, whole turns left out, before it is quantised. The share of
      the rotation that has passed is what the sample's time makes at the rotation rate. */
  ghost predicate PointsAt(rates: Rates, sample: nat, rotation: nat, angle: real) {
    exists progress: real, turn: real, turns: int ::
      IsSweep(rates, sample, rotation, progress, turn, turns) && angle == rates.quantize(turn)
  }

  ghost predicate IsSweep(rates: Rates, sample: nat, rotation: nat, progress: real, turn: real, turns: int) {
    && S.Times(rates.sampleRate, progress)
       == S.Times(sample as real, rates.rotationRate) - S.Times(rotation as real, rates.sampleRate)
    && 0.0 <= turn < 360.0 && turn + 360.0 * turns as real == rates.initialAngle + 360.0 * progress
  }

  lemma AngleSweeps(rates: Rates, sample: nat, rotation: nat)
    requires rates.sampleRate > 0.0
    ensures PointsAt(rates, sample, rotation, rates.Angle(sample, rotation))
  {
    hide S.Times, IsSweep;
    var progress := S.Times(rates.PointTime(sample), rates.rotationRate) - rotation as real;
    var angle := rates.initialAngle + 360.0 * progress;
    var turn, turns := Turned(angle), (angle / 360.0).Floor;
    ProgressOf(rates, sample, rotation, progress);
    assert IsSweep(rates, sample, rotation, progress, turn, turns) by {
      TurnsOf(rates, sample, rotation, progress, turn, turns);
    }
  }

  lemma TurnsOf(rates: Rates, sample: nat, rotation: nat, progress: real, turn: real, turns: int)
    requires S.Times(rates.sampleRate, progress)
          == S.Times(sample as real, rates.rotationRate) - S.Times(rotation as real, rates.sampleRate)
    requires var angle := rates.initialAngle + 360.0 * progress;
             turn == Turned(angle) && turns == (angle / 360.0).Floor
    ensures IsSweep(rates, sample, rotation, progress, turn, turns)
  {
    hide S.Times;
  }

  lemma ProgressOf(rates: Rates, sample: nat, rotation: nat, progress: real)
    requires rates.sampleRate > 0.0
    requires progress == S.Times(rates.PointTime(sample), rates.rotationRate) - rotation as real
    ensures S.Times(rates.sampleRate, progress)
         == S.Times(sample as real, rates.rotationRate) - S.Times(rotation as real, rates.sampleRate)
  {
    var time := rates.PointTime(sample);
    S.QuotientTimes(sample as real, rates.sampleRate);
    S.TimesSum(rates.sampleRate, S.Times(time, rates.rotationRate), rotation as real);
    S.TimesCommutes(rates.sampleRate, rotation as real);
    ThreeFactors(rates.sampleRate, time, rates.rotationRate);
  }

  lemma ThreeFactors(a: real, b: real, c: real)
    ensures S.Times(a, S.Times(b, c)) == S.Times(S.Times(b, a), c)
  {
  }

  lemma ScanFields(rates: Rates, s: Schedule)
    requires rates.Valid() && Aligned(rates, s) && NextScan(rates, s).Success?
    ensures var scan, next, k := NextScan(rates, s).value.0, NextScan(rates, s).value.1, s.nextRotation + 1;
            && scan.scanId == k <= MAX_I64 && next.nextSample == FirstSample(rates, k) <= MAX_I64
            && s.nextSample == FirstSample(rates, k - 1)
            && scan.startedAt == rates.Boundary(k - 1) && scan.completedAt == rates.Boundary(k)
            && |scan.samples| == |scan.times| == |scan.angles| == next.nextSample - s.nextSample
            && forall x | 0 <= x < |scan.samples| ::
                 && scan.samples[x] == s.nextSample + x && scan.times[x] == rates.PointTime(scan.samples[x])
                 && scan.angles[x] == rates.Angle(scan.samples[x], k - 1)
  {
    hide Turned, Rates.PointTime, Rates.Boundary, Rates.Angle, FirstSample, ScanError, EndSample,
         PositiveRatio.ReciprocalMultipleToF64;
    CeilMultipleIsFirst(rates, s.nextRotation + 1);
  }

  /** There is no scan only when a number no longer fits 63 bits, or a boundary no longer fits a double. */
  lemma ScanStops(rates: Rates, s: Schedule)
    requires rates.Valid() && Aligned(rates, s) && NextScan(rates, s).Failure?
    ensures var error, k := NextScan(rates, s).error, s.nextRotation + 1;
            && (error == ScanIdExhausted <==> k > 0x7fff_ffff_ffff_ffff)
            && (error == SampleIndexExhausted <==>
                  k <= 0x7fff_ffff_ffff_ffff && FirstSample(rates, k) > 0x7fff_ffff_ffff_ffff)
            && (error != ScanIdExhausted && error != SampleIndexExhausted ==>
                  || rates.rotationRateFraction.ReciprocalMultipleToF64(k - 1).None?
                  || rates.rotationRateFraction.ReciprocalMultipleToF64(k).None?)
  {
    hide S.Times, Turned, Rates.PointTime, Rates.Boundary, Rates.Angle, FirstSample, EndSample, Times,
         Points, PositiveRatio.ReciprocalMultipleToF64;
    NextScanIsRotation(rates, s);
    CeilMultipleIsFirst(rates, s.nextRotation + 1);
  }

  /** Scan k lasts from (k - 1) to k rotations and holds the samples that fall into it, each with the time at which the
      sample rate comes to it and the angle at which the beam then points. */
  lemma ScanHolds(rates: Rates, s: Schedule)
    requires rates.Valid() && Aligned(rates, s) && NextScan(rates, s).Success?
    ensures var scan, k := NextScan(rates, s).value.0, s.nextRotation + 1;
            var n, d := rates.samplesPerRotation.numerator, rates.samplesPerRotation.denominator;
            && scan.scanId == k && S.Times(scan.startedAt, rates.rotationRate) == (k - 1) as real
            && S.Times(scan.completedAt, rates.rotationRate) == k as real
            && |scan.samples| == |scan.times| == |scan.angles|
            && (forall i: nat :: i in scan.samples <==> Times(n, k - 1) <= i * d < Times(n, k))
            && forall x | 0 <= x < |scan.samples| ::
                 && scan.samples[x] == s.nextSample + x
                 && S.Times(scan.times[x], rates.sampleRate) == scan.samples[x] as real
                 && PointsAt(rates, scan.samples[x], k - 1, scan.angles[x])
  {
    hide S.Times, Rates.PointTime, Rates.Boundary, Rates.Angle, FirstSample, Times, PointsAt, NextScan, Aligned,
         Rates.Exact;
    var scan, k := NextScan(rates, s).value.0, s.nextRotation + 1;
    ScanFields(rates, s);
    BoundaryTimes(rates, k - 1);
    BoundaryTimes(rates, k);
    forall i: nat
      ensures var n, d := rates.samplesPerRotation.numerator, rates.samplesPerRotation.denominator;
              i in scan.samples <==> Times(n, k - 1) <= i * d < Times(n, k)
    {
      SamplesOfScan(rates, k - 1, i);
      InStretch(scan.samples, s.nextSample, i);
    }
    forall x | 0 <= x < |scan.samples|
      ensures S.Times(scan.times[x], rates.sampleRate) == scan.samples[x] as real
      ensures PointsAt(rates, scan.samples[x], k - 1, scan.angles[x])
    {
      PointTimes(rates, scan.samples[x]);
      AngleSweeps(rates, scan.samples[x], k - 1);
    }
  }

  lemma InStretch(samples: seq<nat>, from: nat, i: nat)
    requires forall x | 0 <= x < |samples| :: samples[x] == from + x
    ensures i in samples <==> from <= i < from + |samples|
  {
    if from <= i < from + |samples| {
      assert samples[i - from] == i;
    }
  }

  lemma BoundaryTimes(rates: Rates, rotation: nat)
    requires rates.rotationRate > 0.0
    ensures S.Times(rates.Boundary(rotation), rates.rotationRate) == rotation as real
  {
    S.QuotientTimes(rotation as real, rates.rotationRate);
  }

  lemma PointTimes(rates: Rates, sample: nat)
    requires rates.sampleRate > 0.0
    ensures S.Times(rates.PointTime(sample), rates.sampleRate) == sample as real
  {
    S.QuotientTimes(sample as real, rates.sampleRate);
  }

  // ---------------------------------------------------------------- the checks of a new scheduler

  function RateError(rates: Rates): Option<RotationError>
    requires rates.samplesPerRotation.Valid()
  {
    if rates.sampleRate <= 0.0 then Some(InvalidSampleRate)
    else if rates.rotationRate <= 0.0 then Some(InvalidRotationRate)
    else if rates.sampleRate < rates.rotationRate then Some(SampleRateBelowRotationRate)
    else
      var points := EndSample(rates, 1);
      if points.None? || points.value > MAX_SCAN_POINTS_PER_FRAME then Some(ScanPointLimitExceeded)
      else if rates.initialAngle < 0.0 || rates.initialAngle >= 360.0 then Some(InvalidInitialAngle)
      else None
  }

  /** The checks accept exactly the rates with at least one and at most a frame full of samples per rotation. */
  lemma AcceptedRates(rates: Rates)
    requires rates.Exact()
    ensures RateError(rates) == None <==> rates.Valid() && 0.0 <= rates.initialAngle < 360.0
  {
    hide S.Times, Ceiling;
    var n, d := rates.samplesPerRotation.numerator, rates.samplesPerRotation.denominator;
    assert Times(n, 1) == n;
    if rates.sampleRate > 0.0 && rates.rotationRate > 0.0 {
      RatesOrder(rates.sampleRate, rates.rotationRate, n as real, d as real);
    }
    FewPoints(rates);
  }

  lemma RatesOrder(sampleRate: real, rotationRate: real, n: real, d: real)
    requires sampleRate > 0.0 && rotationRate > 0.0 && n > 0.0 && d > 0.0
    requires S.Times(sampleRate, d) == S.Times(rotationRate, n)
    ensures sampleRate < rotationRate <==> n < d
  {
    if sampleRate < rotationRate {
      OrderThrough(sampleRate, rotationRate, d);
      S.TimesCommutes(rotationRate, n);
      S.TimesCommutes(rotationRate, d);
      S.OrderFromTimes(n, d, rotationRate);
    } else {
      S.Monotone(rotationRate, sampleRate, d);
      S.TimesCommutes(rotationRate, n);
      S.TimesCommutes(rotationRate, d);
      S.OrderFromTimes(d, n, rotationRate);
    }
  }

  lemma FewPoints(rates: Rates)
    requires rates.samplesPerRotation.Valid()
    ensures var n, d := rates.samplesPerRotation.numerator, rates.samplesPerRotation.denominator;
            (EndSample(rates, 1).Some? && EndSample(rates, 1).value <= MAX_SCAN_POINTS_PER_FRAME)
            <==> Ceiling(n, d) <= MAX_SCAN_POINTS_PER_FRAME
  {
    hide Ceiling;
    assert Times(rates.samplesPerRotation.numerator, 1) == rates.samplesPerRotation.numerator;
    LargeWord();
  }

  lemma LargeWord()
    ensures MAX_SCAN_POINTS_PER_FRAME < Shl(1, 64)
  {
    ShlBy52(1);
    ShlGrows(1, 52, 64);
  }

  // ---------------------------------------------------------------- the scheduler as it runs

  class SensorRotationScheduler {
    const rates: Rates
    var nextRotation: nat
    var nextSample: nat

    ghost predicate Valid()
      reads this
    {
      rates.Valid() && Aligned(rates, Schedule(nextRotation, nextSample))
    }

    constructor (rates: Rates)
      requires rates.Valid()
      ensures Valid() && this.rates == rates && nextRotation == 0 && nextSample == 0
    {
      this.rates := rates;
      nextRotation, nextSample := 0, 0;
    }

    method CollectPoints(end: nat) returns (samples: seq<nat>, times: seq<real>, angles: seq<real>)
      requires rates.sampleRate > 0.0 && nextSample <= end
      ensures (samples, times, angles) == Points(rates, nextRotation, nextSample, end)
    {
      hide S.Times, Turned, Rates.PointTime, Rates.Angle;
      samples, times, angles := [], [], [];
      for sample := nextSample to end
        invariant samples == Points(rates, nextRotation, nextSample, sample).0
        invariant times == Points(rates, nextRotation, nextSample, sample).1
        invariant angles == Points(rates, nextRotation, nextSample, sample).2
      {
        samples := samples + [sample];
        times := times + [rates.PointTime(sample)];
        angles := angles + [rates.Angle(sample, nextRotation)];
      }
    }

    /** A scheduler for accepted rates, or the first check that fails. */
    static method Create(rates: Rates) returns (r: Result<SensorRotationScheduler, RotationError>)
      requires rates.Exact()
      ensures var error := RateError(rates);
              if error.Some? then r == Failure(error.value)
              else r.Success? && fresh(r.value) && r.value.Valid() && r.value.rates == rates
    {
      AcceptedRates(rates);
      var error := RateError(rates);
      if error.Some? {
        return Failure(error.value);
      }
      var scheduler := new SensorRotationScheduler(rates);
      return Success(scheduler);
    }

    /** The next completed rotation; on an error nothing advances. */
    method Next() returns (r: Result<Scan, RotationError>)
      requires Valid()
      modifies this
      ensures Valid()
      ensures var spec := NextScan(rates, Schedule(old(nextRotation), old(nextSample)));
              if spec.Success? then r == Success(spec.value.0) && Schedule(nextRotation, nextSample) == spec.value.1
              else r == Failure(spec.error) && nextRotation == old(nextRotation) && nextSample == old(nextSample)
    {
      hide Ceiling, Quotient, S.Times, Turned, ScanError, Points, Rates.Boundary, Aligned, EndSample;
      NextScanIsRotation(rates, Schedule(nextRotation, nextSample));
      var scanId := nextRotation + 1;
      if scanId > MAX_I64 {
        return Failure(ScanIdExhausted);
      }
      var end := EndSample(rates, scanId);
      if end.None? || end.value > MAX_I64 {
        return Failure(SampleIndexExhausted);
      }
      if end.value <= nextSample {
        return Failure(NoMeasurementPoints);
      }
      var samples, times, angles := CollectPoints(end.value);
      if rates.rotationRateFraction.ReciprocalMultipleToF64(nextRotation).None?
         || rates.rotationRateFraction.ReciprocalMultipleToF64(scanId).None? {
        return Failure(RotationTimeOutOfRange);
      }
      var scan := Scan(scanId, rates.Boundary(nextRotation), rates.Boundary(scanId), samples, times, angles);
      var error := ScanError(scan);
      if error.Some? {
        return Failure(error.value);
      }
      nextRotation, nextSample := scanId, end.value;
      return Success(scan);
    }
  }
}

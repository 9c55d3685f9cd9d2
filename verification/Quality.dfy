/** Exact word thresholds for a quality distribution
    (services/simulation-server/src/measurement/generation.rs, QualityDistribution and scaled_word_threshold). */
module Quality {
  import opened Wrappers
  import opened Binary64

  const WORD_BITS: nat := 64
  const QUALITIES: nat := 256

  datatype QualityError = NoFrequency

  /** The least integer at or above cumulative * 2^64 / total, in integers. */
  ghost predicate IsThreshold(cumulative: nat, total: nat, threshold: nat) {
    && Shl(cumulative, WORD_BITS) <= threshold * total
    && (threshold > 0 ==> (threshold - 1) * total < Shl(cumulative, WORD_BITS))
  }

  /** Long division bit by bit. The remainder never exceeds the total, and is doubled only when that stays below it. */
  method ScaledWordThreshold(cumulative: nat, total: nat) returns (threshold: nat)
    requires cumulative <= total && total > 0
    ensures IsThreshold(cumulative, total, threshold)
  {
    hide Division;
    var remainder: nat := cumulative;
    threshold := 0;
    DivisionStarts(cumulative, total);
    for bit := 0 to WORD_BITS
      invariant remainder <= total && (cumulative < total ==> remainder < total)
      invariant cumulative == total ==> remainder == total
      invariant Division(Shl(cumulative, bit), threshold, total, remainder)
    {
      DivisionStep(Shl(cumulative, bit), threshold, total, remainder);
      var complement := total - remainder;
      threshold := threshold * 2;
      if remainder >= complement {
        remainder := remainder - complement;
        threshold := threshold + 1;
      } else {
        remainder := remainder * 2;
      }
    }
    DivisionEnds(cumulative, threshold, total, remainder);
    if remainder != 0 {
      threshold := threshold + 1;
    }
  }

  lemma OneMore(a: nat, total: nat)
    ensures (a + 1) * total == a * total + total
  {
  }

  ghost predicate Division(value: nat, quotient: nat, total: nat, remainder: nat) {
    value == quotient * total + remainder
  }

  lemma DivisionStarts(value: nat, total: nat)
    ensures Division(Shl(value, 0), 0, total, value)
  {
  }

  /** One more bit of the quotient. */
  lemma DivisionStep(value: nat, quotient: nat, total: nat, remainder: nat)
    requires remainder <= total && Division(value, quotient, total, remainder)
    ensures if remainder >= total - remainder then
              Division(2 * value, quotient * 2 + 1, total, remainder - (total - remainder))
            else Division(2 * value, quotient * 2, total, remainder * 2)
  {
    DoubleProducts(quotient, total);
    OneMore(2 * quotient, total);
  }

  lemma DivisionEnds(cumulative: nat, threshold: nat, total: nat, remainder: nat)
    requires Division(Shl(cumulative, WORD_BITS), threshold, total, remainder) && remainder <= total && total > 0
    ensures IsThreshold(cumulative, total, if remainder != 0 then threshold + 1 else threshold)
  {
    OneMore(threshold, total);
    if threshold > 0 {
      OneMore(threshold - 1, total);
    }
  }

  /** Thresholds are unique, so every way to compute one gives the same. */
  lemma ThresholdIsUnique(cumulative: nat, total: nat, a: nat, b: nat)
    requires total > 0 && IsThreshold(cumulative, total, a) && IsThreshold(cumulative, total, b)
    ensures a == b
  {
    if a < b {
      ProductOrder(a, b - 1, total);
    } else if b < a {
      ProductOrder(b, a - 1, total);
    }
  }

  lemma ProductOrder(a: nat, b: nat, total: nat)
    requires a <= b
    ensures a * total <= b * total
  {
  }

  lemma ThresholdsRise(low: nat, high: nat, total: nat, a: nat, b: nat)
    requires low <= high && total > 0 && IsThreshold(low, total, a) && IsThreshold(high, total, b)
    ensures a <= b
  {
    ShlOrder(low, high, WORD_BITS);
    if b < a {
      ProductOrder(b, a - 1, total);
    }
  }

  lemma WholeRange(total: nat)
    requires total > 0
    ensures IsThreshold(total, total, Shl(1, WORD_BITS)) && IsThreshold(0, total, 0)
  {
    var all := Shl(1, WORD_BITS);
    ShlProduct(1, total, WORD_BITS);
    if all > 0 {
      OneMore(all - 1, total);
    }
    ZeroShl(WORD_BITS);
  }

  lemma {:induction false} ZeroShl(k: nat)
    ensures Shl(0, k) == 0
  {
    if k > 0 {
      ZeroShl(k - 1);
    }
  }

  // ---------------------------------------------------------------- the distribution

  function Cumulative(frequencies: seq<nat>, n: nat): nat
    requires n <= |frequencies|
  {
    if n == 0 then 0 else Cumulative(frequencies, n - 1) + frequencies[n - 1]
  }

  lemma {:induction false} CumulativeRises(frequencies: seq<nat>, low: nat, high: nat)
    requires low <= high <= |frequencies|
    ensures Cumulative(frequencies, low) <= Cumulative(frequencies, high)
  {
    if low < high {
      CumulativeRises(frequencies, low, high - 1);
    }
  }

  datatype Distribution = Distribution(thresholds: seq<nat>, total: nat) {
    /** The thresholds belong to these frequencies. */
    ghost predicate For(frequencies: seq<nat>) {
      && |frequencies| == QUALITIES && |thresholds| == QUALITIES - 1
      && total == Cumulative(frequencies, QUALITIES) > 0
      && forall q | 0 <= q < QUALITIES - 1 :: IsThreshold(Cumulative(frequencies, q + 1), total, thresholds[q])
    }

    /** The first word that draws quality q, and the first one after those. */
    function Low(q: nat): nat
      requires q < QUALITIES && |thresholds| == QUALITIES - 1
    {
      if q == 0 then 0 else thresholds[q - 1]
    }

    function High(q: nat): nat
      requires q < QUALITIES && |thresholds| == QUALITIES - 1
    {
      if q == QUALITIES - 1 then Shl(1, WORD_BITS) else thresholds[q]
    }

    /** The quality that a word draws: the first threshold above it. */
    method Sample(word: nat) returns (quality: nat)
      requires |thresholds| == QUALITIES - 1
      ensures quality < QUALITIES
      ensures quality < QUALITIES - 1 ==> word < thresholds[quality]
      ensures forall q | 0 <= q < quality :: thresholds[q] <= word
    {
      quality := 0;
      while quality < QUALITIES - 1 && word >= thresholds[quality]
        invariant quality <= QUALITIES - 1
        invariant forall q | 0 <= q < quality :: thresholds[q] <= word
      {
        quality := quality + 1;
      }
    }
  }

  /** Both bounds of a quality are thresholds of neighbouring cumulative frequencies. */
  lemma BoundsAreThresholds(d: Distribution, frequencies: seq<nat>, q: nat)
    requires d.For(frequencies) && q < QUALITIES
    ensures IsThreshold(Cumulative(frequencies, q), d.total, d.Low(q))
    ensures IsThreshold(Cumulative(frequencies, q + 1), d.total, d.High(q))
    ensures d.Low(q) <= d.High(q) <= Shl(1, WORD_BITS)
  {
    hide IsThreshold, Shl;
    WholeRange(d.total);
    CumulativeRises(frequencies, q, q + 1);
    CumulativeRises(frequencies, q + 1, QUALITIES);
    ThresholdsRise(Cumulative(frequencies, q), Cumulative(frequencies, q + 1), d.total, d.Low(q), d.High(q));
    ThresholdsRise(Cumulative(frequencies, q + 1), d.total, d.total, d.High(q), Shl(1, WORD_BITS));
  }

  /** A word draws the one quality whose interval it lies in. */
  lemma {:induction false} IntervalsAreOrdered(d: Distribution, frequencies: seq<nat>, low: nat, high: nat)
    requires d.For(frequencies) && low < high < QUALITIES
    ensures d.High(low) <= d.Low(high)
    decreases high
  {
    if low + 1 < high {
      IntervalsAreOrdered(d, frequencies, low, high - 1);
      BoundsAreThresholds(d, frequencies, high - 1);
    }
  }

  /** Of all 2^64 words, quality q is drawn by High - Low consecutive ones: within one of frequency * 2^64 / total, and
      by none at all when its frequency is 0. */
  lemma DrawnInProportion(d: Distribution, frequencies: seq<nat>, q: nat)
    requires d.For(frequencies) && q < QUALITIES
    ensures var words := d.High(q) - d.Low(q);
            && 0 <= words
            && words * d.total < Shl(frequencies[q], WORD_BITS) + d.total
            && Shl(frequencies[q], WORD_BITS) < words * d.total + d.total
            && (frequencies[q] == 0 ==> words == 0)
  {
    hide Shl;
    var c := Cumulative(frequencies, q);
    BoundsAreThresholds(d, frequencies, q);
    ShlSum(c, frequencies[q], WORD_BITS);
    Difference(d.Low(q), d.High(q), d.total, Shl(c, WORD_BITS), Shl(c + frequencies[q], WORD_BITS));
    if frequencies[q] == 0 {
      ThresholdIsUnique(c, d.total, d.Low(q), d.High(q));
    }
  }

  lemma Difference(low: nat, high: nat, total: nat, a: nat, b: nat)
    requires low <= high && total > 0 && a <= low * total && b <= high * total
    requires (low > 0 ==> (low - 1) * total < a) && (high > 0 ==> (high - 1) * total < b)
    ensures (high - low) * total < (b - a) + total
    ensures b - a < (high - low) * total + total
  {
    assert (high - low) * total == high * total - low * total;
    if low > 0 {
      OneMore(low - 1, total);
    }
    if high > 0 {
      OneMore(high - 1, total);
    }
  }

  /** A sampled word lies in the interval of its quality, and in no other. */
  method DrawQuality(d: Distribution, ghost frequencies: seq<nat>, word: nat) returns (quality: nat)
    requires d.For(frequencies) && word < Shl(1, WORD_BITS)
    ensures quality < QUALITIES && d.Low(quality) <= word < d.High(quality)
    ensures forall q | 0 <= q < QUALITIES && d.Low(q) <= word < d.High(q) :: q == quality
  {
    hide Shl, IsThreshold;
    quality := d.Sample(word);
    forall q | 0 <= q < QUALITIES && d.Low(q) <= word < d.High(q) ensures q == quality {
      if quality < q {
        IntervalsAreOrdered(d, frequencies, quality, q);
      }
    }
  }

  method NewDistribution(frequencies: seq<nat>) returns (r: Result<Distribution, QualityError>)
    requires |frequencies| == QUALITIES
    ensures Cumulative(frequencies, QUALITIES) == 0 <==> r == Failure(NoFrequency)
    ensures r.Success? ==> r.value.For(frequencies)
  {
    hide IsThreshold;
    var cumulative: seq<nat> := [];
    var total := 0;
    for index := 0 to QUALITIES
      invariant total == Cumulative(frequencies, index)
      invariant |cumulative| == (if index < QUALITIES then index else QUALITIES - 1)
      invariant forall q | 0 <= q < |cumulative| :: cumulative[q] == Cumulative(frequencies, q + 1)
    {
      total := total + frequencies[index];
      if index < QUALITIES - 1 {
        cumulative := cumulative + [total];
      }
    }
    if total == 0 {
      return Failure(NoFrequency);
    }
    var thresholds: seq<nat> := [];
    for q := 0 to QUALITIES - 1
      invariant |thresholds| == q
      invariant forall k | 0 <= k < q :: IsThreshold(Cumulative(frequencies, k + 1), total, thresholds[k])
    {
      CumulativeRises(frequencies, q + 1, QUALITIES);
      var threshold := ScaledWordThreshold(cumulative[q], total);
      thresholds := thresholds + [threshold];
    }
    return Success(Distribution(thresholds, total));
  }
}

/** Times as the doubles that the program computes: one rounding each
    (services/simulation-server/src/decimal_ratio.rs, measurement/rotation.rs). */
module DoubleTimes {
  import opened Wrappers
  import opened Binary64
  import opened DecimalRatio
  import Ro = Rotation

  // ---------------------------------------------------------------- half a unit in the last place

  function Binade(bits: nat): nat {
    if bits / HIDDEN_BIT == 0 then 0 else bits / HIDDEN_BIT - 1
  }

  /** The spacing above a pattern, in units of 2^-1074. */
  function UnitInLastPlace(bits: nat): nat {
    Shl(1, Binade(bits))
  }

  lemma BinadeMeans(bits: nat)
    ensures IsPattern(bits, Binade(bits), bits - Binade(bits) * HIDDEN_BIT)
  {
  }

  /** The value of a pattern is a multiple of its spacing, and above the subnormals at least 2^52 times that. */
  lemma SpacingOf(bits: nat)
    ensures var u := UnitInLastPlace(bits);
            && u > 0 && ScaledValue(bits + 1) == ScaledValue(bits) + u
            && (bits > 0 ==> ScaledValue(bits - 1) + u >= ScaledValue(bits))
            && (Binade(bits) > 0 ==> ScaledValue(bits) >= HIDDEN_BIT * u)
            && (Binade(bits) == 0 ==> u == 1)
  {
    hide Shl, ScaledValue;
    var e, q := Binade(bits), bits - Binade(bits) * HIDDEN_BIT;
    BinadeMeans(bits);
    ScaledValueInBinade(bits, e, q);
    NextSignificand(bits, e, q);
    ShlOfSignificand(q, e);
    ShlOfSignificand(q + 1, e);
    ShlOfNothing();
    if e > 0 {
      ProductOrder(HIDDEN_BIT, q, Shl(1, e));
    }
    if bits > 0 {
      Below(bits, e, q);
    }
  }

  lemma ShlOfNothing()
    ensures Shl(1, 0) == 1
  {
  }

  lemma NextSignificand(bits: nat, e: nat, q: nat)
    requires e == Binade(bits) && q == bits - e * HIDDEN_BIT
    ensures ScaledValue(bits + 1) == Shl(q + 1, e)
  {
    ScaledValueInBinade(bits + 1, e, q + 1);
  }

  lemma ShlOfSignificand(q: nat, e: nat)
    ensures Shl(q, e) == q * Shl(1, e)
  {
    ShlProduct(q, 1, e);
  }

  lemma Below(bits: nat, e: nat, q: nat)
    requires bits > 0 && e == Binade(bits) && q == bits - e * HIDDEN_BIT
    ensures ScaledValue(bits - 1) + Shl(1, e) >= Shl(q, e)
  {
    hide Shl;
    if e == 0 || q > HIDDEN_BIT {
      ScaledValueInBinade(bits - 1, e, q - 1);
      ShlOfSignificand(q, e);
      ShlOfSignificand(q - 1, e);
      OneLess(q, Shl(1, e));
    } else {
      var low := 2 * HIDDEN_BIT - 1;
      ScaledValueInBinade(bits - 1, e - 1, low);
      ShlOfSignificand(low, e - 1);
      ShlOfSignificand(q, e);
      Halved(e);
    }
  }

  lemma OneLess(q: nat, u: nat)
    requires q > 0
    ensures (q - 1) * u + u == q * u
  {
  }

  lemma Halved(e: nat)
    requires e > 0
    ensures Shl(1, e) == 2 * Shl(1, e - 1)
  {
  }

  /** A correctly rounded ratio is within half a unit in the last place of its double. */
  lemma WithinHalfUnit(n: nat, d: nat, bits: nat)
    requires d > 0 && NearestTiesToEven(n, d, bits) && !Overflows(n, d)
    ensures var v, u, x := ScaledValue(bits), UnitInLastPlace(bits), Shl(n, 1074);
            2 * x <= (2 * v + u) * d && (2 * v) * d <= 2 * x + u * d
  {
    hide Shl, ScaledValue, NearestTiesToEven, UnitInLastPlace;
    var v, u, x := ScaledValue(bits), UnitInLastPlace(bits), Shl(n, 1074);
    BitsInRange(n, d, bits);
    SpacingOf(bits);
    if bits + 1 < INFINITY_BITS {
      RoundedDownToMidpoint(n, d, bits, bits + 1);
      assert ScaledValue(bits) + ScaledValue(bits + 1) == 2 * v + u;
    } else {
      OverflowsInUnits(n, d);
      LargestDouble(d);
    }
    if bits > 0 {
      RoundedUpPastMidpoint(n, d, bits, bits - 1);
      FromBelow(ScaledValue(bits - 1), v, u, d, x);
    } else {
      ZeroValue();
    }
  }

  lemma BitsInRange(n: nat, d: nat, bits: nat)
    requires NearestTiesToEven(n, d, bits)
    ensures bits < INFINITY_BITS
  {
  }

  lemma ZeroValue()
    ensures ScaledValue(0) == 0
  {
  }

  lemma FromBelow(w: nat, v: nat, u: nat, d: nat, x: nat)
    requires d > 0 && w + u >= v && 2 * x >= (w + v) * d
    ensures (2 * v) * d <= 2 * x + u * d
  {
    ProductOrder(2 * v, w + v + u, d);
    SumOfProducts(w + v, u, d);
  }

  lemma LargestDouble(d: nat)
    ensures (2 * ScaledValue(INFINITY_BITS - 1) + UnitInLastPlace(INFINITY_BITS - 1)) * d
         == (4 * HIDDEN_BIT - 1) * Shl(d, 2045)
  {
    hide Shl;
    ScaledValueInBinade(INFINITY_BITS - 1, 2045, 2 * HIDDEN_BIT - 1);
    assert Binade(INFINITY_BITS - 1) == 2045;
    ShlOfSignificand(2 * HIDDEN_BIT - 1, 2045);
    ShlOfSignificand(d, 2045);
    LargestTimes(Shl(1, 2045), d);
  }

  lemma LargestTimes(u: nat, d: nat)
    ensures (2 * ((2 * HIDDEN_BIT - 1) * u) + u) * d == (4 * HIDDEN_BIT - 1) * (d * u)
  {
  }

  // ---------------------------------------------------------------- multiples rise

  /** The ratio exceeds the smallest double, 2^-1074. */
  predicate Distinguishable(n: nat, d: nat) {
    Shl(n, 1074) > d
  }

  /** Two multiples that round to one double: the ratio is at most its spacing, and the double is too large for that. */
  lemma SameDouble(s: nat, d: nat, k: nat, x: nat, y: nat, v: nat, u: nat, normal: bool)
    requires d > 0 && x == k * s && y == x + s
    requires 2 * y <= (2 * v + u) * d && (2 * v) * d <= 2 * x + u * d
    requires if normal then v >= HIDDEN_BIT * u else u == 1
    ensures s <= d || k >= HIDDEN_BIT
  {
    assert (2 * v + u) * d == (2 * v) * d + u * d;
    assert 2 * s <= 2 * (u * d);
    if normal {
      var w := u * d;
      assert s <= w;
      ProductOrder(HIDDEN_BIT * u, v, d);
      assert (HIDDEN_BIT * u) * d == HIDDEN_BIT * w;
      assert (2 * v) * d == 2 * (v * d);
      assert 2 * (k * s) >= (2 * HIDDEN_BIT - 1) * w;
      if s > 0 {
        ManyTimes(k, s, w);
      }
    }
  }

  lemma ManyTimes(k: nat, s: nat, w: nat)
    requires 0 < s <= w && 2 * (k * s) >= (2 * HIDDEN_BIT - 1) * w
    ensures k >= HIDDEN_BIT
  {
    if k < HIDDEN_BIT {
      ProductOrder(k, HIDDEN_BIT - 1, s);
    }
  }

  /** Up to 2^52 the multiples of a ratio are different doubles. */
  lemma MultiplesRise(n: nat, d: nat, k: nat)
    requires d > 0 && k < HIDDEN_BIT && Distinguishable(n, d)
    requires Measurable(Times(n, k), d) && Measurable(Times(n, k + 1), d)
    requires RationalToF64(Times(n, k + 1), d).Some?
    ensures RationalToF64(Times(n, k), d).Some?
    ensures RationalToF64(Times(n, k), d).value < RationalToF64(Times(n, k + 1), d).value
  {
    hide Shl, ScaledValue, NearestTiesToEven, RationalToF64, BitLength, Overflows, UnitInLastPlace, Times;
    var a, c := Times(n, k), Times(n, k + 1);
    OneMoreTime(n, k);
    TimesIsProduct(n, k);
    TimesIsProduct(a, d);
    TimesIsProduct(c, d);
    ProductOrder(a, c, d);
    RationalToF64Monotone(a, d, c, d);
    RationalToF64IsCorrectlyRounded(a, d);
    RationalToF64IsCorrectlyRounded(c, d);
    var low, high := RationalToF64(a, d).value, RationalToF64(c, d).value;
    if low == high {
      RangeOfSome(a, d);
      RangeOfSome(c, d);
      WithinHalfUnit(a, d, low);
      WithinHalfUnit(c, d, low);
      SpacingOf(low);
      ShlSum(a, n, 1074);
      ShlProduct(n, k, 1074);
      Commute(n, k);
      ShlProduct(k, n, 1074);
      SameDouble(Shl(n, 1074), d, k, Shl(a, 1074), Shl(c, 1074), ScaledValue(low), UnitInLastPlace(low),
                 Binade(low) > 0);
    }
  }

  lemma OneMoreTime(n: nat, k: nat)
    ensures Times(n, k + 1) == Times(n, k) + n
  {
  }

  lemma RangeOfSome(n: nat, d: nat)
    requires d > 0 && RationalToF64(n, d).Some?
    ensures !Overflows(n, d)
  {
    hide Shl, Overflows, RationalToF64, NearestTiesToEven, BitLength;
    RationalToF64IsCorrectlyRounded(n, d);
    if n == 0 {
      ZeroNeverOverflows(d);
    }
  }

  /** The same from any multiple to any later one. */
  lemma {:induction false} LaterMultiples(n: nat, d: nat, low: nat, high: nat)
    requires d > 0 && low < high <= HIDDEN_BIT && Distinguishable(n, d)
    requires BitLength(d) <= MAX_I32 && forall k: nat | k <= high :: BitLength(Times(n, k)) <= MAX_I32
    requires RationalToF64(Times(n, high), d).Some?
    ensures RationalToF64(Times(n, low), d).Some?
    ensures RationalToF64(Times(n, low), d).value < RationalToF64(Times(n, high), d).value
    decreases high
  {
    hide Distinguishable, RationalToF64, BitLength, Times;
    MultiplesRise(n, d, high - 1);
    if low < high - 1 {
      LaterMultiples(n, d, low, high - 1);
    }
  }

  /** Later multiples of an interval are later doubles, for the first 2^52 of them. */
  lemma IntervalsRise(ratio: PositiveRatio, k: nat)
    requires ratio.Sized() && Distinguishable(ratio.numerator, ratio.denominator) && k < HIDDEN_BIT
    requires ratio.MultipleToF64(k + 1).Some?
    ensures ratio.MultipleToF64(k).Some? && ratio.MultipleToF64(k).value < ratio.MultipleToF64(k + 1).value
  {
    hide Shl, RationalToF64, BitLength, Times, Distinguishable;
    HiddenBitFits();
    SizedMultipleMeasurable(ratio, k);
    SizedMultipleMeasurable(ratio, k + 1);
    MultiplesRise(ratio.numerator, ratio.denominator, k);
    ZeroMultiple(ratio);
  }

  lemma HiddenBitFits()
    ensures HIDDEN_BIT < Shl(1, 64)
  {
    ShlBy52(1);
    ShlGrows(1, 52, 63);
    Halved(64);
  }

  lemma ZeroMultiple(ratio: PositiveRatio)
    requires ratio.Valid()
    ensures RationalToF64(Times(ratio.numerator, 0), ratio.denominator) == ratio.MultipleToF64(0)
  {
  }

  // ---------------------------------------------------------------- sample times and boundaries

  /** The quotient of two doubles with one rounding (IEEE 754-2019, section 5.4.1). */
  function Divided(a: nat, b: nat): Option<nat> {
    RationalToF64(ScaledValue(a), ScaledValue(b))
  }

  /** An index turned into a double and divided by the sample rate. */
  function SampleTime(index: nat, rate: nat): Option<nat> {
    var converted := RationalToF64(index, 1);
    if converted.None? then None else Divided(converted.value, rate)
  }

  /** The pattern of an integer below 2^53. */
  lemma IntegerPattern(index: nat) returns (bits: nat)
    requires 0 < index < 2 * HIDDEN_BIT
    ensures bits < INFINITY_BITS && ScaledValue(bits) == Shl(index, 1074)
  {
    hide Shl, BitLength, ScaledValue;
    var length := BitLength(index);
    BitLengthBounds(index);
    ShortIndex(index);
    var significand, binade: nat := Shl(index, 53 - length), 1021 + length;
    SignificandBounds(index, length);
    bits := binade * HIDDEN_BIT + significand;
    ScaledValueInBinade(bits, binade, significand);
    ShlShl(index, 53 - length, binade);
  }

  lemma ShortIndex(index: nat)
    requires 0 < index < 2 * HIDDEN_BIT
    ensures BitLength(index) <= 53
  {
    hide Shl, BitLength;
    TwoToThe53();
    BitLengthBelow(index, 53);
  }

  lemma TwoToThe53()
    ensures Shl(1, 53) == 2 * HIDDEN_BIT && Shl(1, 52) == HIDDEN_BIT
  {
    ShlBy52(1);
    Halved(53);
  }

  lemma SignificandBounds(index: nat, length: nat)
    requires 0 < length <= 53 && Shl(1, length - 1) <= index < Shl(1, length)
    ensures HIDDEN_BIT <= Shl(index, 53 - length) < 2 * HIDDEN_BIT
  {
    hide Shl;
    TwoToThe53();
    ShlShl(1, length - 1, 53 - length);
    ShlShl(1, length, 53 - length);
    ShlOrder(Shl(1, length - 1), index, 53 - length);
    ShlOrder(Shl(1, length), index, 53 - length);
  }

  /** Integers below 2^53 are doubles. */
  lemma IntegersAreExact(index: nat)
    requires index < 2 * HIDDEN_BIT
    ensures RationalToF64(index, 1).Some? && ScaledValue(RationalToF64(index, 1).value) == Shl(index, 1074)
  {
    hide Shl, BitLength, ScaledValue, RationalToF64, NearestTiesToEven, Overflows;
    if index == 0 {
      ZeroConverts();
    } else {
      var exact := IntegerPattern(index);
      ShortIndex(index);
      OneIsShort();
      RationalToF64IsCorrectlyRounded(index, 1);
      NoOverflow(index, exact);
      NearestOfExact(index, RationalToF64(index, 1).value, exact);
    }
  }

  lemma ZeroConverts()
    ensures RationalToF64(0, 1) == Some(0) && ScaledValue(0) == Shl(0, 1074)
  {
    ShlZero(1074);
  }

  lemma OneIsShort()
    ensures BitLength(1) <= 53
  {
    hide Shl, BitLength;
    TwoToThe53();
    BitLengthBelow(1, 53);
  }

  lemma NoOverflow(n: nat, bits: nat)
    requires bits < INFINITY_BITS && ScaledValue(bits) == Shl(n, 1074)
    ensures !Overflows(n, 1)
  {
    hide Shl, ScaledValue, Overflows, UnitInLastPlace;
    OverflowsInUnits(n, 1);
    LargestDouble(1);
    SpacingOf(INFINITY_BITS - 1);
    if bits < INFINITY_BITS - 1 {
      ScaledValueStrictlyMonotone(bits, INFINITY_BITS - 1);
    }
  }

  lemma NearestOfExact(n: nat, bits: nat, exact: nat)
    requires NearestTiesToEven(n, 1, bits) && exact < INFINITY_BITS && ScaledValue(exact) == Shl(n, 1074)
    ensures bits == exact
  {
    hide Shl, ScaledValue;
    TimesIsProduct(ScaledValue(bits), 1);
    TimesIsProduct(ScaledValue(exact), 1);
    if bits != exact {
      assert Preferred(n, 1, bits, exact);
      if bits < exact {
        ScaledValueStrictlyMonotone(bits, exact);
      } else {
        ScaledValueStrictlyMonotone(exact, bits);
      }
    }
  }

  /** A sample rate that is a double, its decimal value, and the decimal rotation rate; perRotation is the exact number
      of samples per rotation. */
  datatype Clock = Clock(rate: nat, sample: PositiveRatio, rotation: PositiveRatio, perRotation: PositiveRatio) {
    /** The double is exactly the decimal sample rate, and the ratio is that of the decimal rates. */
    ghost predicate Valid() {
      && sample.Sized() && rotation.Sized() && perRotation.Sized() && rate < INFINITY_BITS
      && ScaledValue(rate) * sample.denominator == Shl(sample.numerator, 1074)
      && sample.numerator * rotation.denominator * perRotation.denominator
         == perRotation.numerator * (rotation.numerator * sample.denominator)
    }

    function Sample(index: nat): Option<nat> {
      SampleTime(index, rate)
    }

    function Boundary(rotation: nat): Option<nat> {
      this.rotation.ReciprocalMultipleToF64(rotation)
    }

    /** Every time is a multiple of this unit: 1 / (denominator * sample rate). */
    function Unit(): PositiveRatio {
      PositiveRatio(sample.denominator, Times(perRotation.denominator, sample.numerator))
    }

    /** A sample in that unit, and a boundary in it. */
    function SampleUnits(index: nat): nat {
      Times(perRotation.denominator, index)
    }

    function BoundaryUnits(rotation: nat): nat {
      Times(perRotation.numerator, rotation)
    }

    function InUnits(units: nat): Option<nat> {
      RationalToF64(Times(Unit().numerator, units), Unit().denominator)
    }
  }

  lemma RateIsShort(rate: nat)
    requires rate < INFINITY_BITS
    ensures ScaledValue(rate) < Shl(1, 2099) && BitLength(ScaledValue(rate)) <= 2099
  {
    hide Shl, BitLength, ScaledValue;
    ScaledValueStrictlyMonotone(rate, INFINITY_BITS);
    ScaledValueInBinade(INFINITY_BITS, 2046, HIDDEN_BIT);
    TwoToThe53();
    ShlShl(1, 52, 2046);
    ShlGrows(1, 2098, 2099);
    BitLengthBelow(ScaledValue(rate), 2099);
  }

  /** Products of what a clock is made of can be measured. */
  lemma ClockIsShort(c: Clock, units: nat)
    requires c.Valid() && units < Shl(1, 9064)
    ensures Measurable(Times(c.Unit().numerator, units), c.Unit().denominator) && c.Unit().Valid()
  {
    hide Shl, BitLength, ScaledValue, Times;
    ProductBits(c.perRotation.denominator, 9000, c.sample.numerator, 9000);
    ProductBits(c.sample.denominator, 9000, units, 9064);
    BitLengthBelow(c.Unit().denominator, 18000);
    BitLengthBelow(Times(c.Unit().numerator, units), 18064);
    TimesIsProduct(c.perRotation.denominator, c.sample.numerator);
    NotZero(c.perRotation.denominator, c.sample.numerator);
  }

  lemma NotZero(a: nat, b: nat)
    requires a > 0 && b > 0
    ensures a * b > 0
  {
  }

  lemma IndexIsShort(index: nat)
    requires index < 2 * HIDDEN_BIT
    ensures index < Shl(1, 53) && BitLength(Shl(index, 1074)) <= 1127
  {
    hide Shl, BitLength;
    TwoToThe53();
    ShlShl(1, 53, 1074);
    ShlOrder(Shl(1, 53), index, 1074);
    BitLengthBelow(Shl(index, 1074), 1127);
  }

  lemma UnitsAreShort(c: Clock, index: nat, rotation: nat)
    requires c.Valid()
    ensures index < 2 * HIDDEN_BIT ==> c.SampleUnits(index) < Shl(1, 9064)
    ensures rotation < Shl(1, 64) ==> c.BoundaryUnits(rotation) < Shl(1, 9064)
  {
    hide Shl, BitLength, ScaledValue, Times;
    if index < 2 * HIDDEN_BIT {
      IndexIsShort(index);
      ShlGrows(1, 53, 64);
      ProductBits(c.perRotation.denominator, 9000, index, 64);
    }
    if rotation < Shl(1, 64) {
      ProductBits(c.perRotation.numerator, 9000, rotation, 64);
    }
  }

  lemma ThreeFactors(i: nat, p: nat, d: nat, s: nat, w: nat, v: nat, shifted: nat)
    requires v * w == s * p && shifted == i * p
    ensures shifted * (d * s) == (w * (d * i)) * v
  {
    assert shifted * (d * s) == (i * d) * (s * p);
    assert (w * (d * i)) * v == (i * d) * (v * w);
  }

  lemma RateIsPositive(c: Clock)
    requires c.Valid()
    ensures ScaledValue(c.rate) > 0
  {
  }

  /** The computed sample time is one rounding of the exact time. */
  lemma SampleIsMultiple(c: Clock, index: nat)
    requires c.Valid() && index < 2 * HIDDEN_BIT
    ensures c.Sample(index) == c.InUnits(c.SampleUnits(index))
  {
    hide Shl, BitLength, ScaledValue, Times, RationalToF64;
    var v, d, s, w := ScaledValue(c.rate), c.perRotation.denominator, c.sample.numerator, c.sample.denominator;
    RateIsPositive(c);
    IntegersAreExact(index);
    IndexIsShort(index);
    RateIsShort(c.rate);
    UnitsAreShort(c, index, 0);
    ClockIsShort(c, c.SampleUnits(index));
    ShlOfSignificand(s, 1074);
    ShlOfSignificand(index, 1074);
    TimesIsProduct(d, s);
    TimesIsProduct(d, index);
    TimesIsProduct(w, d * index);
    TimesIsProduct(Shl(index, 1074), d * s);
    TimesIsProduct(w * (d * index), v);
    ThreeFactors(index, Shl(1, 1074), d, s, w, v, Shl(index, 1074));
    RationalToF64OfEqualRatios(Shl(index, 1074), v, w * (d * index), d * s);
  }

  lemma FourFactors(k: nat, sn: nat, sd: nat, rn: nat, rd: nat, n: nat, d: nat)
    requires sn * rd * d == n * (rn * sd)
    ensures (rd * k) * (d * sn) == (sd * (n * k)) * rn
  {
    assert (rd * k) * (d * sn) == k * (sn * rd * d);
    assert (sd * (n * k)) * rn == k * (n * (rn * sd));
  }

  /** So is the computed boundary. */
  lemma BoundaryIsMultiple(c: Clock, rotation: nat)
    requires c.Valid() && rotation < Shl(1, 64)
    ensures c.Boundary(rotation) == c.InUnits(c.BoundaryUnits(rotation))
  {
    hide Shl, BitLength, ScaledValue, Times, RationalToF64;
    var n, d := c.perRotation.numerator, c.perRotation.denominator;
    UnitsAreShort(c, 0, rotation);
    ClockIsShort(c, c.BoundaryUnits(rotation));
    if rotation == 0 {
      NoUnits(c);
    } else {
      SizedMultipleMeasurable(c.rotation, rotation);
      TimesIsProduct(c.rotation.denominator, rotation);
      TimesIsProduct(d, c.sample.numerator);
      TimesIsProduct(n, rotation);
      TimesIsProduct(c.sample.denominator, n * rotation);
      TimesIsProduct(c.rotation.denominator * rotation, d * c.sample.numerator);
      TimesIsProduct(c.sample.denominator * (n * rotation), c.rotation.numerator);
      FourFactors(rotation, c.sample.numerator, c.sample.denominator, c.rotation.numerator, c.rotation.denominator, n, d);
      RationalToF64OfEqualRatios(c.rotation.denominator * rotation, c.rotation.numerator,
                                 c.sample.denominator * (n * rotation), d * c.sample.numerator);
    }
  }

  lemma NoUnits(c: Clock)
    requires c.Unit().Valid()
    ensures c.BoundaryUnits(0) == 0 && c.InUnits(0) == Some(0) == c.Boundary(0)
  {
  }

  /** Later units are later doubles, for the first 2^52 units. */
  lemma UnitsRise(c: Clock, low: nat, high: nat)
    requires c.Valid() && low < high <= HIDDEN_BIT && Distinguishable(c.Unit().numerator, c.Unit().denominator)
    requires c.InUnits(high).Some?
    ensures c.InUnits(low).Some? && c.InUnits(low).value < c.InUnits(high).value
  {
    hide Shl, BitLength, ScaledValue, Times, RationalToF64, Distinguishable;
    HiddenBitFits();
    ShlGrows(1, 64, 9064);
    ClockIsShort(c, 0);
    forall k: nat | k <= high ensures BitLength(Times(c.Unit().numerator, k)) <= MAX_I32 {
      ClockIsShort(c, k);
    }
    LaterMultiples(c.Unit().numerator, c.Unit().denominator, low, high);
  }

  /** Times are compared by their units, as exact times are, up to 2^52 units. */
  lemma TimesCompare(c: Clock, index: nat, rotation: nat)
    requires c.Valid() && Distinguishable(c.Unit().numerator, c.Unit().denominator)
    requires index < 2 * HIDDEN_BIT && rotation < Shl(1, 64)
    ensures var i, k, t, b := c.SampleUnits(index), c.BoundaryUnits(rotation), c.Sample(index), c.Boundary(rotation);
            && (i == k ==> t == b)
            && (i < k <= HIDDEN_BIT && b.Some? ==> t.Some? && t.value < b.value)
            && (k < i <= HIDDEN_BIT && t.Some? ==> b.Some? && b.value < t.value)
  {
    hide Clock.Valid, Clock.Unit, Clock.Sample, Clock.Boundary, Clock.SampleUnits, Clock.BoundaryUnits, Clock.InUnits,
         Shl, ScaledValue, Distinguishable;
    var i, k := c.SampleUnits(index), c.BoundaryUnits(rotation);
    SampleIsMultiple(c, index);
    BoundaryIsMultiple(c, rotation);
    if i < k <= HIDDEN_BIT && c.Boundary(rotation).Some? {
      UnitsRise(c, i, k);
    } else if k < i <= HIDDEN_BIT && c.Sample(index).Some? {
      UnitsRise(c, k, i);
    }
  }

  /** In double arithmetic too every sample that the scheduler gives a rotation lies in its half-open interval, while
      times are below 2^52 units. */
  lemma SampleStaysInRotation(c: Clock, rotation: nat, index: nat)
    requires c.Valid() && Distinguishable(c.Unit().numerator, c.Unit().denominator)
    requires var d := c.perRotation.denominator;
             Ceiling(c.BoundaryUnits(rotation), d) <= index < Ceiling(c.BoundaryUnits(rotation + 1), d)
    requires c.BoundaryUnits(rotation + 1) <= HIDDEN_BIT && c.Boundary(rotation + 1).Some?
    ensures c.Boundary(rotation).Some? && c.Sample(index).Some?
    ensures c.Boundary(rotation).value <= c.Sample(index).value < c.Boundary(rotation + 1).value
  {
    hide Clock.Valid, Clock.Unit, Clock.Sample, Clock.Boundary, Clock.BoundaryUnits, Clock.InUnits, Shl, ScaledValue,
         Distinguishable, Times, Ceiling;
    var d := c.perRotation.denominator;
    DenominatorIsPositive(c);
    Ro.CeilingSplits(c.BoundaryUnits(rotation), d, index);
    Ro.CeilingSplits(c.BoundaryUnits(rotation + 1), d, index);
    TimesIsProduct(d, index);
    Commute(d, index);
    FewUnits(c, index, rotation + 1);
    TimesCompare(c, index, rotation + 1);
    TimesCompare(c, index, rotation);
  }

  lemma DenominatorIsPositive(c: Clock)
    requires c.Valid()
    ensures c.perRotation.denominator > 0
  {
  }

  lemma FewUnits(c: Clock, index: nat, rotation: nat)
    requires c.Valid() && c.SampleUnits(index) < c.BoundaryUnits(rotation) <= HIDDEN_BIT
    ensures index < 2 * HIDDEN_BIT && rotation < Shl(1, 64)
  {
    hide Shl, ScaledValue, Times;
    HiddenBitFits();
    TimesIsProduct(c.perRotation.denominator, index);
    TimesIsProduct(c.perRotation.numerator, rotation);
    FactorBelow(c.perRotation.denominator, index);
    FactorBelow(c.perRotation.numerator, rotation);
  }

  lemma FactorBelow(a: nat, b: nat)
    requires a > 0
    ensures b <= a * b
  {
  }

  /** Successive sample times rise. */
  lemma SamplesRise(c: Clock, index: nat)
    requires c.Valid() && Distinguishable(c.Unit().numerator, c.Unit().denominator)
    requires c.SampleUnits(index + 1) <= HIDDEN_BIT && c.Sample(index + 1).Some?
    ensures c.Sample(index).Some? && c.Sample(index).value < c.Sample(index + 1).value
  {
    hide Clock.Unit, Clock.Sample, Clock.InUnits, Shl, ScaledValue, Distinguishable, Times;
    var d := c.perRotation.denominator;
    TimesIsProduct(d, index + 1);
    FactorBelow(d, index + 1);
    OneMoreTime(d, index);
    SampleIsMultiple(c, index);
    SampleIsMultiple(c, index + 1);
    UnitsRise(c, c.SampleUnits(index), c.SampleUnits(index + 1));
  }

  /** With a whole number of samples per rotation the first sample of every rotation has the very double of its start,
      as long as sample indices are below 2^53: no later sample is ever late. */
  lemma WholeNumberMeetsBoundary(c: Clock, whole: nat, rotation: nat)
    requires c.Valid() && c.perRotation.numerator == whole * c.perRotation.denominator
    requires whole * rotation < 2 * HIDDEN_BIT && rotation < Shl(1, 64)
    ensures c.Sample(whole * rotation) == c.Boundary(rotation)
  {
    hide Clock.Unit, Clock.Sample, Clock.Boundary, Clock.InUnits, Shl, ScaledValue, Times;
    var d := c.perRotation.denominator;
    SampleIsMultiple(c, whole * rotation);
    BoundaryIsMultiple(c, rotation);
    TimesIsProduct(d, whole * rotation);
    TimesIsProduct(whole * d, rotation);
    WholeTimes(d, whole, rotation);
  }

  lemma WholeTimes(d: nat, whole: nat, rotation: nat)
    ensures d * (whole * rotation) == (whole * d) * rotation
  {
  }

  /** Whole rates below 2^53 per second make such a clock. */
  lemma WholeRatesAreExact(sampleRate: nat, rotationRate: nat, perRotation: PositiveRatio)
    requires 0 < sampleRate < 2 * HIDDEN_BIT && 0 < rotationRate < 2 * HIDDEN_BIT && perRotation.Sized()
    requires sampleRate * perRotation.denominator == perRotation.numerator * rotationRate
    ensures RationalToF64(sampleRate, 1).Some?
    ensures Clock(RationalToF64(sampleRate, 1).value, PositiveRatio(sampleRate, 1), PositiveRatio(rotationRate, 1),
                  perRotation).Valid()
  {
    hide Shl, ScaledValue, RationalToF64, NearestTiesToEven, BitLength, Overflows;
    IntegersAreExact(sampleRate);
    IndexIsShort(sampleRate);
    IndexIsShort(rotationRate);
    ShlGrows(1, 53, 9000);
    TwoToThe53();
    RationalToF64IsCorrectlyRounded(sampleRate, 1);
    BitsInRange(sampleRate, 1, RationalToF64(sampleRate, 1).value);
  }
}

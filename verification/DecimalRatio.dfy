/** Exact decimal ratios with one correctly rounded conversion to simulation time
    (services/simulation-server/src/decimal_ratio.rs). */
module DecimalRatio {
  import opened Wrappers
  import opened Binary64

  const MAX_I32: nat := 0x7fff_ffff

  // ---------------------------------------------------------------- the conversion

  /** numerator/denominator >= 2^exponent, without fractions. */
  predicate AtLeastPow2(numerator: nat, denominator: nat, exponent: int) {
    if exponent >= 0 then Shl(denominator, exponent) <= numerator
    else denominator <= Shl(numerator, -exponent)
  }

  /** The exponent of the leading bit of numerator/denominator: the difference of the bit
      lengths, corrected downwards by one when the leading bits say so. */
  function LeadingExponent(numerator: nat, denominator: nat): (e: int)
    requires numerator > 0 && denominator > 0
    ensures AtLeastPow2(numerator, denominator, e)
    ensures !AtLeastPow2(numerator, denominator, e + 1)
  {
    LeadingExponentEstimate(numerator, denominator);
    var estimate := BitLength(numerator) - BitLength(denominator);
    if AtLeastPow2(numerator, denominator, estimate) then estimate else estimate - 1
  }

  /** q is value/unit rounded to the nearest integer, halves to even. */
  predicate RoundsHalfEven(value: nat, unit: nat, q: nat) {
    var error: int := 2 * (value - q * unit);
    0 - unit <= error <= unit && (error == unit || error == 0 - unit ==> q % 2 == 0)
  }

  /** Big-integer division. */
  function Quotient(a: nat, b: nat): nat
    requires b > 0
  {
    if a < b then 0 else 1 + Quotient(a - b, b)
  }

  function Remainder(a: nat, b: nat): (r: nat)
    requires b > 0
    ensures r < b
  {
    if a < b then a else Remainder(a - b, b)
  }

  function RoundHalfEven(a: nat, b: nat): nat
    requires b > 0
  {
    var quotient, remainder := Quotient(a, b), Remainder(a, b);
    if 2 * remainder > b || (2 * remainder == b && quotient % 2 == 1) then quotient + 1 else quotient
  }

  /** The quotient of the ratio scaled by 2^shift, rounded half to even. */
  function RoundedScaledQuotient(numerator: nat, denominator: nat, shift: int): nat
    requires denominator > 0
  {
    if shift >= 0 then RoundHalfEven(Shl(numerator, shift), denominator)
    else RoundHalfEven(numerator, Shl(denominator, -shift))
  }

  /** The pattern of numerator/denominator, or None. */
  function RationalToF64(numerator: nat, denominator: nat): Option<nat> {
    if numerator == 0 || denominator == 0 then
      if denominator != 0 then Some(0) else None
    else if BitLength(numerator) > MAX_I32 || BitLength(denominator) > MAX_I32 then
      None
    else
      var exponent := LeadingExponent(numerator, denominator);
      if exponent > 1023 then
        None
      else if exponent < -1022 then
        var significand := RoundedScaledQuotient(numerator, denominator, 1074);
        if significand <= HIDDEN_BIT then Some(significand) else None
      else
        var significand := RoundedScaledQuotient(numerator, denominator, 52 - exponent);
        SignificandInRange(numerator, denominator, exponent, significand);
        if BitLength(significand) == 54 then
          Assemble(significand / 2, exponent + 1)
        else
          Assemble(significand, exponent)
  }

  /** Exponent and fraction fields put together, when the exponent is still in range. */
  function Assemble(significand: nat, exponent: int): Option<nat>
    requires -1022 <= exponent && HIDDEN_BIT <= significand < 2 * HIDDEN_BIT
  {
    if exponent > 1023 then None
    else Some((exponent + 1023) * HIDDEN_BIT + (significand - HIDDEN_BIT))
  }

  // ---------------------------------------------------------------- arithmetic of the conversion

  lemma {:induction false} DivisionIdentity(a: nat, b: nat)
    requires b > 0
    ensures a == Quotient(a, b) * b + Remainder(a, b)
  {
    if a >= b {
      DivisionIdentity(a - b, b);
      Successor(Quotient(a - b, b), b);
    }
  }

  lemma RoundHalfEvenRounds(a: nat, b: nat)
    requires b > 0
    ensures RoundsHalfEven(a, b, RoundHalfEven(a, b))
  {
    hide Quotient, Remainder;
    DivisionIdentity(a, b);
    Successor(Quotient(a, b), b);
  }

  /** The product of two big integers, as repeated addition. */
  function Times(a: nat, b: nat): nat {
    if b == 0 then 0 else Times(a, b - 1) + a
  }

  lemma {:induction false} TimesIsProduct(a: nat, b: nat)
    ensures Times(a, b) == a * b
  {
    if b > 0 {
      TimesIsProduct(a, b - 1);
      Successor(b - 1, a);
      Commute(a, b);
      Commute(a, b - 1);
    }
  }

  lemma Successor(q: nat, unit: nat)
    ensures (q + 1) * unit == q * unit + unit
  {
  }

  lemma ProductOrder(a: nat, b: nat, c: nat)
    requires c > 0
    ensures a < b ==> a * c < b * c
    ensures a <= b ==> a * c <= b * c
  {
  }

  lemma LeadingExponentEstimate(numerator: nat, denominator: nat)
    requires numerator > 0 && denominator > 0
    ensures AtLeastPow2(numerator, denominator, BitLength(numerator) - BitLength(denominator) - 1)
    ensures !AtLeastPow2(numerator, denominator, BitLength(numerator) - BitLength(denominator) + 1)
  {
    BitLengthBounds(numerator);
    BitLengthBounds(denominator);
    EstimateFromLengths(numerator, denominator, BitLength(numerator), BitLength(denominator));
  }

  lemma EstimateFromLengths(numerator: nat, denominator: nat, a: int, b: int)
    requires a > 0 && Shl(1, a - 1) <= numerator < Shl(1, a)
    requires b > 0 && Shl(1, b - 1) <= denominator < Shl(1, b)
    ensures AtLeastPow2(numerator, denominator, a - b - 1)
    ensures !AtLeastPow2(numerator, denominator, a - b + 1)
  {
    if a - b - 1 >= 0 {
      ShiftBelow(denominator, b, a - b - 1);
    } else {
      ShiftAtLeast(numerator, a - 1, b - a + 1);
    }
    if a - b + 1 >= 0 {
      ShiftAtLeast(denominator, b - 1, a - b + 1);
    } else {
      ShiftBelow(numerator, a, b - a - 1);
    }
  }

  lemma ShiftBelow(x: nat, bits: nat, shift: nat)
    requires x < Shl(1, bits)
    ensures Shl(x, shift) < Shl(1, bits + shift)
  {
    ShlOrder(Shl(1, bits), x, shift);
    ShlShl(1, bits, shift);
  }

  lemma ShiftAtLeast(x: nat, bits: nat, shift: nat)
    requires Shl(1, bits) <= x
    ensures Shl(1, bits + shift) <= Shl(x, shift)
  {
    ShlOrder(Shl(1, bits), x, shift);
    ShlShl(1, bits, shift);
  }

  /** The two ways of comparing with a power of two agree once everything is scaled by 2^1074. */
  lemma AtLeastPow2Scaled(numerator: nat, denominator: nat, exponent: int)
    requires exponent >= -1074
    ensures AtLeastPow2(numerator, denominator, exponent)
       <==> Shl(denominator, 1074 + exponent) <= Shl(numerator, 1074)
  {
    if exponent >= 0 {
      ShlShl(denominator, exponent, 1074);
      ShlOrder(Shl(denominator, exponent), numerator, 1074);
    } else {
      ShlShl(numerator, -exponent, 1074 + exponent);
      ShlOrder(denominator, Shl(numerator, -exponent), 1074 + exponent);
    }
  }

  lemma {:induction false} AtLeastPow2Monotone(numerator: nat, denominator: nat, low: int, high: int)
    requires low <= high
    requires AtLeastPow2(numerator, denominator, high)
    ensures AtLeastPow2(numerator, denominator, low)
    decreases high - low
  {
    if low < high {
      AtLeastPow2Monotone(numerator, denominator, low, high - 1);
    }
  }

  lemma {:induction false} RoundsHalfEvenShifted(value: nat, unit: nat, q: nat, k: nat)
    requires RoundsHalfEven(value, unit, q)
    ensures RoundsHalfEven(Shl(value, k), Shl(unit, k), q)
  {
    if k > 0 {
      RoundsHalfEvenShifted(value, unit, q, k - 1);
      DoubleProducts(q, Shl(unit, k - 1));
    }
  }

  /** In units of the last place of its binade, the scaled ratio lies below 2^53, and at or above
      2^52 exactly when it is normal; the rounded quotient is its rounding in those units. */
  lemma RoundedInBinade(numerator: nat, denominator: nat, exponent: int, binade: nat, q: nat)
    requires numerator > 0 && denominator > 0
    requires exponent == LeadingExponent(numerator, denominator)
    requires exponent <= 1023 && binade == if exponent < -1022 then 0 else exponent + 1022
    requires q == RoundedScaledQuotient(numerator, denominator, 1074 - binade)
    ensures RoundsHalfEven(Shl(numerator, 1074), Shl(denominator, binade), q)
    ensures Shl(numerator, 1074) < 2 * HIDDEN_BIT * Shl(denominator, binade)
    ensures exponent >= -1022 <==> Shl(numerator, 1074) >= HIDDEN_BIT * Shl(denominator, binade)
  {
    var shift := 1074 - binade;
    if shift >= 0 {
      RoundHalfEvenRounds(Shl(numerator, shift), denominator);
      RoundsHalfEvenShifted(Shl(numerator, shift), denominator, q, binade);
      ShlShl(numerator, shift, binade);
    } else {
      RoundHalfEvenRounds(numerator, Shl(denominator, -shift));
      RoundsHalfEvenShifted(numerator, Shl(denominator, -shift), q, 1074);
      ShlShl(denominator, -shift, 1074);
    }
    BinadeBounds(numerator, denominator, exponent, binade);
  }

  lemma BinadeBounds(numerator: nat, denominator: nat, exponent: int, binade: nat)
    requires AtLeastPow2(numerator, denominator, exponent)
    requires !AtLeastPow2(numerator, denominator, exponent + 1)
    requires binade == if exponent < -1022 then 0 else exponent + 1022
    ensures Shl(numerator, 1074) < 2 * HIDDEN_BIT * Shl(denominator, binade)
    ensures exponent >= -1022 <==> Shl(numerator, 1074) >= HIDDEN_BIT * Shl(denominator, binade)
  {
    ShlShl(denominator, binade, 52);
    ShlBy52(Shl(denominator, binade));
    if exponent < -1022 {
      if AtLeastPow2(numerator, denominator, -1022) {
        AtLeastPow2Monotone(numerator, denominator, exponent + 1, -1022);
      }
      AtLeastPow2Scaled(numerator, denominator, -1022);
    } else {
      AtLeastPow2Scaled(numerator, denominator, exponent);
      AtLeastPow2Scaled(numerator, denominator, exponent + 1);
    }
  }

  lemma RoundingKeepsBounds(value: nat, unit: nat, q: nat, bound: nat)
    requires unit > 0 && RoundsHalfEven(value, unit, q)
    ensures value >= bound * unit ==> q >= bound
    ensures value <= bound * unit ==> q <= bound
  {
    if q < bound {
      ProductOrder(q, bound - 1, unit);
      Successor(bound - 1, unit);
    } else if q > bound {
      ProductOrder(bound + 1, q, unit);
      Successor(bound, unit);
    }
  }

  lemma SignificandInRange(numerator: nat, denominator: nat, exponent: int, significand: nat)
    requires numerator > 0 && denominator > 0
    requires exponent == LeadingExponent(numerator, denominator) && -1022 <= exponent <= 1023
    requires significand == RoundedScaledQuotient(numerator, denominator, 52 - exponent)
    ensures HIDDEN_BIT <= significand <= 2 * HIDDEN_BIT
    ensures BitLength(significand) == 54 <==> significand == 2 * HIDDEN_BIT
  {
    var binade := exponent + 1022;
    RoundedInBinade(numerator, denominator, exponent, binade, significand);
    var value, unit := Shl(numerator, 1074), Shl(denominator, binade);
    RoundingKeepsBounds(value, unit, significand, HIDDEN_BIT);
    RoundingKeepsBounds(value, unit, significand, 2 * HIDDEN_BIT);
    SignificandLength(significand);
  }

  lemma SignificandLength(significand: nat)
    requires HIDDEN_BIT <= significand <= 2 * HIDDEN_BIT
    ensures BitLength(significand) == 54 <==> significand == 2 * HIDDEN_BIT
  {
    BitLengthBounds(significand);
    LengthOf54Bits(significand, BitLength(significand));
  }

  lemma LengthOf54Bits(significand: nat, length: nat)
    requires HIDDEN_BIT <= significand <= 2 * HIDDEN_BIT
    requires length > 0 && Shl(1, length - 1) <= significand < Shl(1, length)
    ensures length == 54 <==> significand == 2 * HIDDEN_BIT
  {
    ShlBy52(1);
    assert Shl(1, 53) == 2 * Shl(1, 52);
    assert Shl(1, 54) == 2 * Shl(1, 53);
    if length < 54 {
      ShlGrows(1, length, 53);
    } else if length > 54 {
      ShlGrows(1, 54, length - 1);
    }
  }

  // ---------------------------------------------------------------- the standard it must meet

  /** Distance of numerator/denominator from a pattern's value, times 2^1074 * denominator. */
  function Distance(numerator: nat, denominator: nat, bits: nat): nat {
    Abs(Shl(numerator, 1074) - Times(ScaledValue(bits), denominator))
  }

  function Abs(x: int): nat {
    if x >= 0 then x else -x
  }

  /** Strictly closer, or equally close with the even significand. */
  predicate Preferred(numerator: nat, denominator: nat, bits: nat, other: nat) {
    var mine, theirs := Distance(numerator, denominator, bits), Distance(numerator, denominator, other);
    mine < theirs || (mine == theirs && bits % 2 == 0)
  }

  /** roundTiesToEven (IEEE 754-2019, section 4.3.1): no finite double is closer, and an equally
      close one has the odd significand. */
  ghost predicate NearestTiesToEven(numerator: nat, denominator: nat, bits: nat) {
    bits < INFINITY_BITS &&
    forall other: nat | other < INFINITY_BITS && other != bits :: Preferred(numerator, denominator, bits, other)
  }

  /** Overflow under roundTiesToEven (IEEE 754-2019, section 7.4): the ratio is at least
      2^1024 - 2^970, halfway between the largest double and its successor. Both sides carry
      the factor 2^1074 * denominator. */
  predicate Overflows(numerator: nat, denominator: nat) {
    Shl(numerator, 1074) >= Shl(denominator, 1024 + 1074) - Shl(denominator, 970 + 1074)
  }

  /** The bit lengths fit the 32-bit integers the conversion measures them with. */
  predicate Measurable(numerator: nat, denominator: nat) {
    BitLength(numerator) <= MAX_I32 && BitLength(denominator) <= MAX_I32
  }

  // ---------------------------------------------------------------- correctness

  lemma ValueInUnits(denominator: nat, bits: nat, binade: nat, q: nat)
    requires IsPattern(bits, binade, q)
    ensures ScaledValue(bits) * denominator == q * Shl(denominator, binade)
  {
    ScaledValueInBinade(bits, binade, q);
    ShlProduct(q, denominator, binade);
  }

  lemma SameParity(bits: nat, binade: nat, q: nat)
    requires IsPattern(bits, binade, q)
    ensures bits % 2 == q % 2
  {
    assert bits == 2 * (binade * 0x8_0000_0000_0000) + q;
  }

  lemma OrderedValues(a: nat, b: nat, denominator: nat)
    requires a <= b && denominator > 0
    ensures ScaledValue(a) * denominator <= ScaledValue(b) * denominator
    ensures a < b ==> ScaledValue(a) * denominator < ScaledValue(b) * denominator
  {
    if a < b {
      ScaledValueStrictlyMonotone(a, b);
    }
    ProductOrder(ScaledValue(a), ScaledValue(b), denominator);
  }

  /** Rounding to an edge of the binade does not cross it, so the other binade's spacing is irrelevant. */
  predicate InsideBinade(value: nat, unit: nat, binade: nat, q: nat) {
    && (binade > 0 && q == HIDDEN_BIT ==> q * unit <= value)
    && (q == 2 * HIDDEN_BIT ==> value <= q * unit)
  }

  lemma RivalAbove(value: nat, denominator: nat, bits: nat, binade: nat, q: nat, other: nat)
    requires denominator > 0 && IsPattern(bits, binade, q) && other > bits
    requires InsideBinade(value, Shl(denominator, binade), binade, q)
    ensures var unit, rounded, rival :=
              Shl(denominator, binade), ScaledValue(bits) * denominator, ScaledValue(other) * denominator;
            rival >= rounded + unit || value <= rounded < rival
  {
    ValueInUnits(denominator, bits, binade, q);
    if q < 2 * HIDDEN_BIT {
      OrderedValues(bits + 1, other, denominator);
      ValueInUnits(denominator, bits + 1, binade, q + 1);
      Successor(q, Shl(denominator, binade));
    } else {
      OrderedValues(bits, other, denominator);
    }
  }

  lemma RivalBelow(value: nat, denominator: nat, bits: nat, binade: nat, q: nat, other: nat)
    requires denominator > 0 && IsPattern(bits, binade, q) && other < bits
    requires InsideBinade(value, Shl(denominator, binade), binade, q)
    ensures var unit, rounded, rival :=
              Shl(denominator, binade), ScaledValue(bits) * denominator, ScaledValue(other) * denominator;
            rival <= rounded - unit || rival < rounded <= value
  {
    ValueInUnits(denominator, bits, binade, q);
    if binade == 0 || q > HIDDEN_BIT {
      OrderedValues(other, bits - 1, denominator);
      ValueInUnits(denominator, bits - 1, binade, q - 1);
      Successor(q - 1, Shl(denominator, binade));
    } else {
      OrderedValues(other, bits, denominator);
    }
  }

  /** A rival at least one unit away, or beyond the rounding on the other side of the value, loses. */
  lemma CloserByHalfEven(value: int, unit: int, rounded: int, even: bool, rival: int)
    requires -unit <= 2 * (value - rounded) <= unit
    requires 2 * (value - rounded) == unit || 2 * (value - rounded) == -unit ==> even
    requires || rival >= rounded + unit
             || rival <= rounded - unit
             || value <= rounded < rival
             || rival < rounded <= value
    ensures Abs(value - rounded) < Abs(value - rival) || (Abs(value - rounded) == Abs(value - rival) && even)
  {
  }

  lemma PatternRounds(value: nat, denominator: nat, bits: nat, binade: nat, q: nat)
    requires IsPattern(bits, binade, q) && RoundsHalfEven(value, Shl(denominator, binade), q)
    ensures var unit: int, error: int := Shl(denominator, binade), 2 * (value - ScaledValue(bits) * denominator);
            -unit <= error <= unit && (error == unit || error == -unit ==> bits % 2 == 0)
  {
    ValueInUnits(denominator, bits, binade, q);
    SameParity(bits, binade, q);
  }

  lemma NearestAgainst(value: nat, denominator: nat, bits: nat, binade: nat, q: nat, other: nat)
    requires denominator > 0 && IsPattern(bits, binade, q) && other != bits
    requires RoundsHalfEven(value, Shl(denominator, binade), q)
    requires InsideBinade(value, Shl(denominator, binade), binade, q)
    ensures var rounded, rival := ScaledValue(bits) * denominator, ScaledValue(other) * denominator;
            Abs(value - rounded) < Abs(value - rival)
            || (Abs(value - rounded) == Abs(value - rival) && bits % 2 == 0)
  {
    PatternRounds(value, denominator, bits, binade, q);
    if other > bits {
      RivalAbove(value, denominator, bits, binade, q, other);
    } else {
      RivalBelow(value, denominator, bits, binade, q, other);
    }
    CloserByHalfEven(value, Shl(denominator, binade), ScaledValue(bits) * denominator, bits % 2 == 0,
                     ScaledValue(other) * denominator);
  }

  /** A significand rounded half to even in its binade beats every other pattern. */
  lemma NearestInBinade(numerator: nat, denominator: nat, bits: nat, binade: nat, q: nat)
    requires denominator > 0 && IsPattern(bits, binade, q) && bits < INFINITY_BITS
    requires RoundsHalfEven(Shl(numerator, 1074), Shl(denominator, binade), q)
    requires InsideBinade(Shl(numerator, 1074), Shl(denominator, binade), binade, q)
    ensures NearestTiesToEven(numerator, denominator, bits)
  {
    forall other: nat | other < INFINITY_BITS && other != bits
      ensures Preferred(numerator, denominator, bits, other)
    {
      TimesIsProduct(ScaledValue(bits), denominator);
      TimesIsProduct(ScaledValue(other), denominator);
      NearestAgainst(Shl(numerator, 1074), denominator, bits, binade, q, other);
    }
  }

  /** Rounding reaches 2^53 units exactly from 2^53 - 1/2 units upwards: the tie is even. */
  lemma CarriesOut(value: nat, unit: nat, q: nat)
    requires unit > 0 && RoundsHalfEven(value, unit, q) && value < 2 * HIDDEN_BIT * unit
    ensures 2 * value >= (4 * HIDDEN_BIT - 1) * unit <==> q == 2 * HIDDEN_BIT
  {
    RoundingKeepsBounds(value, unit, q, 2 * HIDDEN_BIT);
    if q < 2 * HIDDEN_BIT - 1 {
      ProductOrder(q, 2 * HIDDEN_BIT - 2, unit);
    }
  }

  /** The rounded significand carries out of the top binade exactly on overflow. */
  lemma OverflowAtTopBinade(numerator: nat, denominator: nat, binade: nat, q: nat)
    requires denominator > 0 && binade <= 2045
    requires RoundsHalfEven(Shl(numerator, 1074), Shl(denominator, binade), q)
    requires Shl(numerator, 1074) < 2 * HIDDEN_BIT * Shl(denominator, binade)
    ensures Overflows(numerator, denominator) <==> binade == 2045 && q == 2 * HIDDEN_BIT
  {
    OverflowsInUnits(numerator, denominator);
    if binade == 2045 {
      CarriesOut(Shl(numerator, 1074), Shl(denominator, binade), q);
    } else {
      ShlGrows(denominator, binade + 1, 2045);
    }
  }

  lemma OverflowsInUnits(numerator: nat, denominator: nat)
    ensures Overflows(numerator, denominator)
       <==> 2 * Shl(numerator, 1074) >= (4 * HIDDEN_BIT - 1) * Shl(denominator, 2045)
  {
    ShlShl(denominator, 2045, 52);
    ShlBy52(Shl(denominator, 2045));
    HalfUnitBelow(Shl(numerator, 1074), Shl(denominator, 2044), Shl(denominator, 2045),
                  Shl(denominator, 2097), Shl(denominator, 2098));
  }

  lemma HalfUnitBelow(value: nat, half: nat, unit: nat, binade: nat, limit: nat)
    requires unit == 2 * half && binade == HIDDEN_BIT * unit && limit == 2 * binade
    ensures value >= limit - half <==> 2 * value >= (4 * HIDDEN_BIT - 1) * unit
  {
  }

  lemma HugeRatioOverflows(numerator: nat, denominator: nat, exponent: int)
    requires exponent > 1023 && AtLeastPow2(numerator, denominator, exponent)
    ensures Overflows(numerator, denominator)
  {
    AtLeastPow2Monotone(numerator, denominator, 1024, exponent);
    AtLeastPow2Scaled(numerator, denominator, 1024);
  }

  /** What the normal and the subnormal path return, in one formula. */
  lemma ResultInBinade(numerator: nat, denominator: nat, exponent: int, binade: nat, q: nat)
    requires numerator > 0 && denominator > 0 && Measurable(numerator, denominator)
    requires exponent == LeadingExponent(numerator, denominator)
    requires exponent <= 1023 && binade == if exponent < -1022 then 0 else exponent + 1022
    requires q == RoundedScaledQuotient(numerator, denominator, 1074 - binade)
    ensures q <= 2 * HIDDEN_BIT && (binade > 0 ==> HIDDEN_BIT <= q)
    ensures RationalToF64(numerator, denominator)
         == if binade == 2045 && q == 2 * HIDDEN_BIT then None else Some(binade * HIDDEN_BIT + q)
  {
    if exponent < -1022 {
      RoundedInBinade(numerator, denominator, exponent, binade, q);
      RoundingKeepsBounds(Shl(numerator, 1074), Shl(denominator, binade), q, HIDDEN_BIT);
    } else {
      NormalResult(numerator, denominator, exponent, q);
    }
  }

  lemma NormalResult(numerator: nat, denominator: nat, exponent: int, q: nat)
    requires numerator > 0 && denominator > 0 && Measurable(numerator, denominator)
    requires exponent == LeadingExponent(numerator, denominator) && -1022 <= exponent <= 1023
    requires q == RoundedScaledQuotient(numerator, denominator, 52 - exponent)
    ensures HIDDEN_BIT <= q <= 2 * HIDDEN_BIT
    ensures RationalToF64(numerator, denominator)
         == if exponent == 1023 && q == 2 * HIDDEN_BIT then None else Some((exponent + 1022) * HIDDEN_BIT + q)
  {
    SignificandInRange(numerator, denominator, exponent, q);
    if q == 2 * HIDDEN_BIT {
      assert RationalToF64(numerator, denominator) == Assemble(q / 2, exponent + 1);
    } else {
      assert RationalToF64(numerator, denominator) == Assemble(q, exponent);
    }
  }

  /** The conversion meets the standard on every ratio it can measure. */
  lemma RationalToF64IsCorrectlyRounded(numerator: nat, denominator: nat)
    ensures RationalToF64(numerator, denominator).None?
       <==> denominator == 0
            || (numerator > 0 && (!Measurable(numerator, denominator) || Overflows(numerator, denominator)))
    ensures RationalToF64(numerator, denominator).Some?
        ==> NearestTiesToEven(numerator, denominator, RationalToF64(numerator, denominator).value)
  {
    if numerator == 0 {
      if denominator > 0 {
        ZeroIsExact(denominator);
      }
    } else if denominator > 0 && Measurable(numerator, denominator) {
      var exponent := LeadingExponent(numerator, denominator);
      if exponent > 1023 {
        HugeRatioOverflows(numerator, denominator, exponent);
      } else {
        var binade := if exponent < -1022 then 0 else exponent + 1022;
        var q := RoundedScaledQuotient(numerator, denominator, 1074 - binade);
        ResultInBinade(numerator, denominator, exponent, binade, q);
        RoundedInBinade(numerator, denominator, exponent, binade, q);
        OverflowAtTopBinade(numerator, denominator, binade, q);
        if q < 2 * HIDDEN_BIT || binade < 2045 {
          NearestInBinade(numerator, denominator, binade * HIDDEN_BIT + q, binade, q);
        }
      }
    }
  }

  lemma {:induction false} ShlZero(k: nat)
    ensures Shl(0, k) == 0
  {
    if k > 0 {
      ShlZero(k - 1);
    }
  }

  lemma ZeroIsExact(denominator: nat)
    requires denominator > 0
    ensures NearestTiesToEven(0, denominator, 0)
  {
    ShlZero(1074);
    forall other: nat | other != 0 ensures Preferred(0, denominator, 0, other) {
      TimesIsProduct(ScaledValue(0), denominator);
      TimesIsProduct(ScaledValue(other), denominator);
      OrderedValues(0, other, denominator);
    }
  }

  // ---------------------------------------------------------------- order and value

  lemma Cancel(a: nat, b: nat, c: nat)
    requires c > 0 && a * c <= b * c
    ensures a <= b
  {
  }

  lemma Commute(a: nat, b: nat)
    ensures a * b == b * a
  {
  }

  /** (k * a) * b with the factors exchanged against an order or an equality. */
  lemma ExchangeFactors(k: nat, a: nat, b: nat, c: nat, d: nat)
    ensures a * b <= c * d ==> (k * a) * b <= (k * c) * d
    ensures a * b == c * d ==> (k * a) * b == (k * c) * d
  {
    assert (k * a) * b == k * (a * b);
    assert (k * c) * d == k * (c * d);
  }

  lemma CrossOrder(n: nat, d: nat, n2: nat, d2: nat)
    requires n * d2 <= n2 * d
    ensures Shl(n, 1074) * d2 <= Shl(n2, 1074) * d
  {
    ShlProduct(n, d2, 1074);
    ShlProduct(n2, d, 1074);
    ShlOrder(n * d2, n2 * d, 1074);
  }

  lemma CrossShift(d: nat, d2: nat, k: nat)
    ensures Shl(d, k) * d2 == Shl(d2, k) * d
  {
    ShlProduct(d, d2, k);
    Commute(d, Shl(d2, k));
  }

  /** A bound k*u on 2x carries over to any y with x/d <= y/d2 and u/d = u2/d2. */
  lemma CrossBound(x: nat, d: nat, y: nat, d2: nat, u: nat, u2: nat, k: nat)
    requires d > 0 && d2 > 0
    requires x * d2 <= y * d && u * d2 == u2 * d
    ensures 2 * x >= k * u ==> 2 * y >= k * u2
    ensures 2 * y <= k * u2 ==> 2 * x <= k * u
  {
    ExchangeFactors(2, x, d2, y, d);
    ExchangeFactors(k, u, d2, u2, d);
    if 2 * x >= k * u {
      ProductOrder(k * u, 2 * x, d2);
      Cancel(k * u2, 2 * y, d);
    }
    if 2 * y <= k * u2 {
      ProductOrder(2 * y, k * u2, d);
      Cancel(2 * x, k * u, d2);
    }
  }

  lemma CloserToUpper(value: int, low: int, high: int)
    requires low < high && Abs(value - high) <= Abs(value - low)
    ensures 2 * value >= low + high
  {
  }

  lemma CloserToLower(value: int, low: int, high: int)
    requires low < high && Abs(value - low) <= Abs(value - high)
    ensures 2 * value <= low + high
  {
  }

  lemma SumOfProducts(a: nat, b: nat, c: nat)
    ensures a * c + b * c == (a + b) * c
  {
  }

  lemma RoundedUpPastMidpoint(n: nat, d: nat, bits: nat, lower: nat)
    requires d > 0 && bits > lower && bits < INFINITY_BITS && NearestTiesToEven(n, d, bits)
    ensures 2 * Shl(n, 1074) >= (ScaledValue(lower) + ScaledValue(bits)) * d
  {
    assert Preferred(n, d, bits, lower);
    TimesIsProduct(ScaledValue(bits), d);
    TimesIsProduct(ScaledValue(lower), d);
    OrderedValues(lower, bits, d);
    CloserToUpper(Shl(n, 1074), ScaledValue(lower) * d, ScaledValue(bits) * d);
    SumOfProducts(ScaledValue(lower), ScaledValue(bits), d);
  }

  lemma RoundedDownToMidpoint(n: nat, d: nat, bits: nat, upper: nat)
    requires d > 0 && upper > bits && upper < INFINITY_BITS && NearestTiesToEven(n, d, bits)
    ensures 2 * Shl(n, 1074) <= (ScaledValue(bits) + ScaledValue(upper)) * d
    ensures 2 * Shl(n, 1074) == (ScaledValue(bits) + ScaledValue(upper)) * d ==> bits % 2 == 0
  {
    assert Preferred(n, d, bits, upper);
    TimesIsProduct(ScaledValue(bits), d);
    TimesIsProduct(ScaledValue(upper), d);
    OrderedValues(bits, upper, d);
    CloserToLower(Shl(n, 1074), ScaledValue(bits) * d, ScaledValue(upper) * d);
    SumOfProducts(ScaledValue(bits), ScaledValue(upper), d);
  }

  /** A ratio rounded up from a midpoint was between neighbouring patterns, the upper one even. */
  lemma MidpointOfNeighbours(n: nat, d: nat, bits: nat, lower: nat)
    requires d > 0 && bits > lower && NearestTiesToEven(n, d, bits)
    requires 2 * Shl(n, 1074) == (ScaledValue(lower) + ScaledValue(bits)) * d
    ensures bits == lower + 1 && bits % 2 == 0
  {
    SumOfProducts(ScaledValue(lower), ScaledValue(bits), d);
    OrderedValues(lower, bits, d);
    assert Preferred(n, d, bits, lower);
    TimesIsProduct(ScaledValue(bits), d);
    TimesIsProduct(ScaledValue(lower), d);
    TimesIsProduct(ScaledValue(lower + 1), d);
    OrderedValues(lower, lower + 1, d);
    assert bits > lower + 1 ==> Preferred(n, d, bits, lower + 1);
    if bits > lower + 1 {
      OrderedValues(lower + 1, bits, d);
      assert false;
    }
  }

  /** Rounding to nearest, ties to even, keeps the order of ratios. */
  lemma NearestMonotone(n: nat, d: nat, bits: nat, n2: nat, d2: nat, bits2: nat)
    requires d > 0 && d2 > 0 && n * d2 <= n2 * d
    requires NearestTiesToEven(n, d, bits) && NearestTiesToEven(n2, d2, bits2)
    ensures bits <= bits2
  {
    if bits > bits2 {
      RoundedUpPastMidpoint(n, d, bits, bits2);
      RoundedDownToMidpoint(n2, d2, bits2, bits);
      CrossOrder(n, d, n2, d2);
      Commute(d, d2);
      CrossBound(Shl(n, 1074), d, Shl(n2, 1074), d2, d, d2, ScaledValue(bits2) + ScaledValue(bits));
      MidpointOfNeighbours(n, d, bits, bits2);
      assert false;
    }
  }

  lemma OverflowsMonotone(n: nat, d: nat, n2: nat, d2: nat)
    requires d > 0 && d2 > 0 && n * d2 <= n2 * d
    requires Overflows(n, d)
    ensures Overflows(n2, d2)
  {
    OverflowsInUnits(n, d);
    OverflowsInUnits(n2, d2);
    CrossOrder(n, d, n2, d2);
    CrossShift(d, d2, 2045);
    CrossBound(Shl(n, 1074), d, Shl(n2, 1074), d2, Shl(d, 2045), Shl(d2, 2045), 4 * HIDDEN_BIT - 1);
  }

  lemma PositiveRatioStaysPositive(n: nat, d: nat, n2: nat, d2: nat)
    requires d2 > 0 && n * d2 <= n2 * d
    ensures n > 0 ==> n2 > 0
  {
    if n > 0 {
      ProductOrder(0, n, d2);
    }
  }

  /** A larger ratio never converts to a smaller double, and an overflow stays one. */
  lemma RationalToF64Monotone(n: nat, d: nat, n2: nat, d2: nat)
    requires d > 0 && d2 > 0 && Measurable(n, d) && Measurable(n2, d2)
    requires Times(n, d2) <= Times(n2, d)
    ensures RationalToF64(n2, d2).Some?
        ==> RationalToF64(n, d).Some? && RationalToF64(n, d).value <= RationalToF64(n2, d2).value
  {
    RationalToF64IsCorrectlyRounded(n, d);
    RationalToF64IsCorrectlyRounded(n2, d2);
    TimesIsProduct(n, d2);
    TimesIsProduct(n2, d);
    if RationalToF64(n2, d2).Some? {
      PositiveRatioStaysPositive(n, d, n2, d2);
      if n > 0 && Overflows(n, d) {
        OverflowsMonotone(n, d, n2, d2);
      }
      NearestMonotone(n, d, RationalToF64(n, d).value, n2, d2, RationalToF64(n2, d2).value);
    }
  }

  /** The double depends on the value of the ratio, not on the fraction that states it. */
  lemma RationalToF64OfEqualRatios(n: nat, d: nat, n2: nat, d2: nat)
    requires d > 0 && d2 > 0 && Measurable(n, d) && Measurable(n2, d2)
    requires Times(n, d2) == Times(n2, d)
    ensures RationalToF64(n, d) == RationalToF64(n2, d2)
  {
    RationalToF64Monotone(n, d, n2, d2);
    RationalToF64Monotone(n2, d2, n, d);
  }

  // ---------------------------------------------------------------- decimal ratios

  /** numerator/denominator, kept exactly. */
  datatype PositiveRatio = PositiveRatio(numerator: nat, denominator: nat) {
    ghost predicate Valid() {
      numerator > 0 && denominator > 0
    }

    /** Small enough that every multiple by a 64-bit integer can be measured. */
    ghost predicate Sized() {
      Valid() && numerator < Shl(1, 9000) && denominator < Shl(1, 9000)
    }

    /** The least integer at or above the multiple, when it fits 64 bits. */
    function CeilMultiple(multiplier: nat): (r: Option<nat>)
      requires denominator > 0
      ensures r.Some? ==> r.value < Shl(1, 64) && IsCeiling(Times(numerator, multiplier), denominator, r.value)
      ensures r.None? ==> Times(numerator, multiplier) > (Shl(1, 64) - 1) * denominator
    {
      CeilingQuotient(Times(numerator, multiplier), denominator);
      var quotient := Ceiling(Times(numerator, multiplier), denominator);
      if quotient < Shl(1, 64) then Some(quotient) else None
    }

    function MultipleToF64(multiplier: nat): Option<nat> {
      if multiplier == 0 then Some(0) else RationalToF64(Times(numerator, multiplier), denominator)
    }

    function ReciprocalMultipleToF64(multiplier: nat): Option<nat> {
      if multiplier == 0 then Some(0) else RationalToF64(Times(denominator, multiplier), numerator)
    }
  }

  predicate IsCeiling(value: nat, unit: nat, q: nat) {
    value <= q * unit && (q > 0 ==> (q - 1) * unit < value)
  }

  function Ceiling(value: nat, unit: nat): nat
    requires unit > 0
  {
    if Remainder(value, unit) != 0 then Quotient(value, unit) + 1 else Quotient(value, unit)
  }

  lemma CeilingQuotient(value: nat, unit: nat)
    requires unit > 0
    ensures IsCeiling(value, unit, Ceiling(value, unit))
    ensures forall bound: nat | bound < Ceiling(value, unit) :: bound * unit < value
  {
    var q := Quotient(value, unit);
    DivisionIdentity(value, unit);
    Successor(q, unit);
    forall bound: nat | bound < Ceiling(value, unit) ensures bound * unit < value {
      ProductOrder(bound, q, unit);
    }
  }

  function Pow10(k: nat): (r: nat)
    ensures r > 0
  {
    if k == 0 then 1 else 10 * Pow10(k - 1)
  }

  function GreatestCommonDivisor(a: nat, b: nat): nat
    decreases b
  {
    if b == 0 then a else GreatestCommonDivisor(b, Remainder(a, b))
  }

  /** The common divisor divides both numbers. */
  lemma {:induction false} GcdFactors(a: nat, b: nat) returns (x: nat, y: nat)
    ensures a == Times(x, GreatestCommonDivisor(a, b)) && b == Times(y, GreatestCommonDivisor(a, b))
    decreases b
  {
    if b == 0 {
      x, y := 1, 0;
      TimesIsProduct(1, a);
      TimesIsProduct(0, a);
    } else {
      var g := GreatestCommonDivisor(a, b);
      var x', y' := GcdFactors(b, Remainder(a, b));
      DivisionIdentity(a, b);
      FactorOut(Quotient(a, b), x', y', g);
      x, y := Times(Quotient(a, b), x') + y', x';
    }
  }

  lemma FactorOut(q: nat, x: nat, y: nat, g: nat)
    ensures q * Times(x, g) + Times(y, g) == Times(Times(q, x) + y, g)
  {
    TimesIsProduct(x, g);
    TimesIsProduct(y, g);
    TimesIsProduct(q, x);
    TimesIsProduct(q * x + y, g);
    Expand(q, x, y, g);
  }

  lemma Expand(q: nat, x: nat, y: nat, g: nat)
    ensures q * (x * g) + y * g == (q * x + y) * g
  {
  }

  lemma {:induction false} ExactQuotient(k: nat, g: nat)
    requires g > 0
    ensures Quotient(Times(k, g), g) == k
  {
    TimesIsProduct(k, g);
    if k > 0 {
      ExactQuotient(k - 1, g);
      TimesIsProduct(k - 1, g);
      Successor(k - 1, g);
    }
  }

  /** Euclid's loop. */
  method Gcd(a: nat, b: nat) returns (g: nat)
    ensures g == GreatestCommonDivisor(a, b)
  {
    var left, right := a, b;
    while right != 0
      invariant GreatestCommonDivisor(left, right) == GreatestCommonDivisor(a, b)
      decreases right
    {
      left, right := right, Remainder(left, right);
    }
    g := left;
  }

  /** A decimal rendering digits * 10^exponent of a positive double. */
  datatype Decimal = Decimal(digits: nat, exponent: int) {
    ghost predicate OfDouble() {
      0 < digits < Shl(1, 128) && -1074 <= exponent <= 1074
    }
  }

  /** The exact ratio of two decimals: common digits cancelled, one power of ten on the side it belongs to. */
  method FromDecimals(left: Decimal, right: Decimal) returns (ratio: PositiveRatio)
    requires left.OfDouble() && right.OfDouble()
    ensures ratio.Sized()
    ensures var e := left.exponent - right.exponent;
            if e >= 0 then Times(ratio.numerator, right.digits)
                == Times(ratio.denominator, Times(left.digits, Pow10(e)))
            else Times(ratio.numerator, Times(right.digits, Pow10(-e))) == Times(ratio.denominator, left.digits)
  {
    hide Times, Quotient, Pow10, Shl, GreatestCommonDivisor;
    var common := Gcd(left.digits, right.digits);
    CommonIsPositive(left.digits, right.digits);
    var numerator, denominator := Quotient(left.digits, common), Quotient(right.digits, common);
    ReducedDigits(left.digits, right.digits, common);
    ShlGrows(1, 128, 9000);
    if left.exponent > right.exponent {
      var k := left.exponent - right.exponent;
      WithPowerOfTen(numerator, denominator, left.digits, right.digits, k);
      numerator := Times(numerator, Pow10(k));
    } else if left.exponent < right.exponent {
      var k := right.exponent - left.exponent;
      WithPowerOfTen(denominator, numerator, right.digits, left.digits, k);
      denominator := Times(denominator, Pow10(k));
    } else {
      NoPowerOfTen(left.digits);
    }
    ratio := PositiveRatio(numerator, denominator);
  }

  lemma NoPowerOfTen(digits: nat)
    ensures Times(digits, Pow10(0)) == digits
  {
    TimesIsProduct(digits, 1);
  }

  lemma CommonIsPositive(a: nat, b: nat)
    requires a > 0
    ensures GreatestCommonDivisor(a, b) > 0
  {
    var x, y := GcdFactors(a, b);
  }

  lemma ReducedDigits(a: nat, b: nat, g: nat)
    requires a > 0 && b > 0 && g == GreatestCommonDivisor(a, b) > 0
    ensures Times(Quotient(a, g), b) == Times(Quotient(b, g), a)
    ensures 0 < Quotient(a, g) <= a && 0 < Quotient(b, g) <= b
  {
    var x, y := GcdFactors(a, b);
    ExactQuotient(x, g);
    ExactQuotient(y, g);
    PositiveQuotient(x, g);
    PositiveQuotient(y, g);
    CrossFactors(x, y, g);
  }

  lemma CrossFactors(x: nat, y: nat, g: nat)
    ensures Times(x, Times(y, g)) == Times(y, Times(x, g))
  {
    TimesIsProduct(y, g);
    TimesIsProduct(x, g);
    TimesIsProduct(x, y * g);
    TimesIsProduct(y, x * g);
    SwapOuter(x, y, g);
  }

  lemma SwapOuter(x: nat, y: nat, g: nat)
    ensures x * (y * g) == y * (x * g)
  {
  }

  lemma PositiveQuotient(x: nat, g: nat)
    requires g > 0 && Times(x, g) > 0
    ensures 0 < x <= Times(x, g)
  {
    TimesIsProduct(x, g);
  }

  /** Moving a power of ten to the side it belongs to keeps the value and the size. */
  lemma WithPowerOfTen(x: nat, y: nat, a: nat, b: nat, k: nat)
    requires 0 < x <= a < Shl(1, 128) && k <= 2148
    requires Times(x, b) == Times(y, a)
    ensures 0 < Times(x, Pow10(k)) < Shl(1, 9000)
    ensures Times(Times(x, Pow10(k)), b) == Times(y, Times(a, Pow10(k)))
  {
    ScaledDigits(x, k);
    ScaledReduction(x, y, a, b, Pow10(k));
  }

  lemma ScaledReduction(x: nat, y: nat, a: nat, b: nat, p: nat)
    requires Times(x, b) == Times(y, a)
    ensures Times(Times(x, p), b) == Times(y, Times(a, p))
  {
    TimesIsProduct(x, b);
    TimesIsProduct(y, a);
    TimesIsProduct(x, p);
    TimesIsProduct(a, p);
    TimesIsProduct(x * p, b);
    TimesIsProduct(y, a * p);
    ScaleBoth(x, y, a, b, p);
  }

  lemma ScaleBoth(x: nat, y: nat, a: nat, b: nat, p: nat)
    requires x * b == y * a
    ensures (x * p) * b == y * (a * p)
  {
    assert (x * p) * b == (x * b) * p;
    assert y * (a * p) == (y * a) * p;
  }

  lemma {:induction false} Pow10Bound(k: nat)
    ensures Pow10(k) <= Shl(1, 4 * k)
  {
    if k > 0 {
      Pow10Bound(k - 1);
      ShlBy4(1, 4 * (k - 1));
    }
  }

  lemma ProductBits(a: nat, i: nat, b: nat, j: nat)
    requires a < Shl(1, i) && b <= Shl(1, j)
    ensures Times(a, b) < Shl(1, i + j)
  {
    TimesIsProduct(a, b);
    if b > 0 {
      ProductOrder(a, Shl(1, i), b);
    }
    Commute(Shl(1, i), b);
    ShlProduct(Shl(1, i), 1, j);
    ShlShl(1, i, j);
    ProductOrder(b, Shl(1, j), Shl(1, i));
    Commute(Shl(1, i), Shl(1, j));
  }

  lemma ScaledDigits(digits: nat, k: nat)
    requires 0 < digits < Shl(1, 128) && k <= 2148
    ensures 0 < Times(digits, Pow10(k)) < Shl(1, 9000)
  {
    hide Times, Pow10, Shl;
    Pow10Bound(k);
    ProductBits(digits, 128, Pow10(k), 4 * k);
    ShlGrows(1, 128 + 4 * k, 9000);
    TimesIsProduct(digits, Pow10(k));
    ProductOrder(0, digits, Pow10(k));
  }

  lemma BitLengthBelow(n: nat, k: nat)
    requires n < Shl(1, k)
    ensures BitLength(n) <= k
  {
    if n > 0 {
      BitLengthBounds(n);
      if BitLength(n) - 1 >= k {
        ShlGrows(1, k, BitLength(n) - 1);
      }
    }
  }

  lemma SizedMultipleMeasurable(ratio: PositiveRatio, multiplier: nat)
    requires ratio.Sized() && multiplier < Shl(1, 64)
    ensures Measurable(Times(ratio.numerator, multiplier), ratio.denominator)
    ensures Measurable(Times(ratio.denominator, multiplier), ratio.numerator)
  {
    ProductBits(ratio.numerator, 9000, multiplier, 64);
    ProductBits(ratio.denominator, 9000, multiplier, 64);
    BitLengthBelow(Times(ratio.numerator, multiplier), 9064);
    BitLengthBelow(Times(ratio.denominator, multiplier), 9064);
    BitLengthBelow(ratio.numerator, 9000);
    BitLengthBelow(ratio.denominator, 9000);
  }

  /** Every multiple is one rounding of the exact product: no drift accumulates. */
  lemma MultipleIsRoundedOnce(ratio: PositiveRatio, multiplier: nat)
    requires ratio.Sized() && multiplier < Shl(1, 64)
    ensures var r := ratio.MultipleToF64(multiplier);
            && (r.None? <==> Overflows(Times(ratio.numerator, multiplier), ratio.denominator))
            && (r.Some? ==> NearestTiesToEven(Times(ratio.numerator, multiplier), ratio.denominator, r.value))
  {
    var n := Times(ratio.numerator, multiplier);
    SizedMultipleMeasurable(ratio, multiplier);
    RationalToF64IsCorrectlyRounded(n, ratio.denominator);
    if n == 0 {
      ZeroNeverOverflows(ratio.denominator);
    }
  }

  lemma ZeroNeverOverflows(denominator: nat)
    requires denominator > 0
    ensures !Overflows(0, denominator)
  {
    ShlZero(1074);
    OverflowsInUnits(0, denominator);
    ProductOrder(0, Shl(denominator, 2045), 4 * HIDDEN_BIT - 1);
  }

  /** An interval and the rate that is its reciprocal have identical boundaries, bit for bit. */
  lemma IntervalAndRateShareBoundaries(interval: PositiveRatio, rate: PositiveRatio, index: nat)
    requires interval.Sized() && rate.Sized() && index < Shl(1, 64)
    requires Times(interval.numerator, rate.numerator) == Times(interval.denominator, rate.denominator)
    ensures interval.MultipleToF64(index) == rate.ReciprocalMultipleToF64(index)
  {
    var n, n2 := Times(interval.numerator, index), Times(rate.denominator, index);
    SizedMultipleMeasurable(interval, index);
    SizedMultipleMeasurable(rate, index);
    ScaledReduction(interval.numerator, interval.denominator, rate.denominator, rate.numerator, index);
    TimesCommute(interval.denominator, n2);
    RationalToF64OfEqualRatios(n, interval.denominator, n2, rate.numerator);
  }

  lemma TimesCommute(a: nat, b: nat)
    ensures Times(a, b) == Times(b, a)
  {
    TimesIsProduct(a, b);
    TimesIsProduct(b, a);
    Commute(a, b);
  }

  /** Later multiples never come earlier. */
  lemma MultiplesMonotone(ratio: PositiveRatio, low: nat, high: nat)
    requires ratio.Sized() && low <= high < Shl(1, 64)
    ensures ratio.MultipleToF64(high).Some?
        ==> ratio.MultipleToF64(low).Some? && ratio.MultipleToF64(low).value <= ratio.MultipleToF64(high).value
    ensures ratio.ReciprocalMultipleToF64(high).Some?
        ==> ratio.ReciprocalMultipleToF64(low).Some?
            && ratio.ReciprocalMultipleToF64(low).value <= ratio.ReciprocalMultipleToF64(high).value
  {
    hide Times, Shl, RationalToF64, BitLength;
    SizedMultipleMeasurable(ratio, low);
    SizedMultipleMeasurable(ratio, high);
    OrderedMultiples(ratio.numerator, ratio.denominator, low, high);
    OrderedMultiples(ratio.denominator, ratio.numerator, low, high);
    RationalToF64Monotone(Times(ratio.numerator, low), ratio.denominator, Times(ratio.numerator, high),
        ratio.denominator);
    RationalToF64Monotone(Times(ratio.denominator, low), ratio.numerator, Times(ratio.denominator, high),
        ratio.numerator);
  }

  lemma OrderedMultiples(a: nat, b: nat, low: nat, high: nat)
    requires low <= high
    ensures Times(Times(a, low), b) <= Times(Times(a, high), b)
  {
    TimesMonotone(a, low, high);
    TimesIsProduct(Times(a, low), b);
    TimesIsProduct(Times(a, high), b);
    if b > 0 {
      ProductOrder(Times(a, low), Times(a, high), b);
    }
  }

  lemma {:induction false} TimesMonotone(a: nat, low: nat, high: nat)
    requires low <= high
    ensures Times(a, low) <= Times(a, high)
  {
    if low < high {
      TimesMonotone(a, low, high - 1);
    }
  }
}

/** How far the first sample of a rotation can lie past the start of that rotation
    (services/simulation-server/src/measurement/rotation.rs, decimal_ratio.rs). */
module Coverage {
  import S = Sums
  import opened DecimalRatio
  import opened Rotation

  /** How late the first sample of a rotation is, in units of one over (sample rate times denominator) seconds. */
  function Gap(rates: Rates, rotation: nat): int
    requires rates.samplesPerRotation.Valid()
  {
    FirstSample(rates, rotation) * rates.samplesPerRotation.denominator
        - Times(rates.samplesPerRotation.numerator, rotation)
  }

  ghost predicate WholeNumber(rates: Rates)
    requires rates.samplesPerRotation.Valid()
  {
    Remainder(rates.samplesPerRotation.numerator, rates.samplesPerRotation.denominator) == 0
  }

  // ---------------------------------------------------------------- the common divisor is reached

  /** The common divisor is a multiple of n, up to multiples of d. */
  lemma {:induction false} Bezout(n: nat, d: nat) returns (k: nat, m: nat)
    requires n > 0 && d > 0
    ensures n * k == m * d + GreatestCommonDivisor(n, d)
    decreases d
  {
    var r := Remainder(n, d);
    DivisionIdentity(n, d);
    DivisorIsSmall(n, d);
    if r == 0 {
      k, m := WhenDivided(n, d, Quotient(n, d));
    } else {
      var x, y := Bezout(d, r);
      k, m := Raised(n, d, Quotient(n, d), r, x, y, GreatestCommonDivisor(n, d));
    }
  }

  lemma WhenDivided(n: nat, d: nat, q: nat) returns (k: nat, m: nat)
    requires n > 0 && n == q * d
    ensures n * k == m * d + d
  {
    if q == 0 {
      assert false;
    }
    k, m := 1, q - 1;
    AddTimes(q, -1, d);
  }

  lemma Raised(n: nat, d: nat, q: nat, r: nat, x: nat, y: nat, g: nat) returns (k: nat, m: nat)
    requires n == q * d + r && d * x == y * r + g && g <= n && d > 0
    ensures n * k == m * d + g
  {
    var z := x + q * y;
    Turned(n, d, q, r, x, y, g);
    NotNegative(z, d - 1);
    k, m := y * (d - 1) + d, z * (d - 1) + (n - g);
    Lifted(n, d, y, z, g);
  }

  lemma NotNegative(a: nat, b: nat)
    ensures a * b >= 0
  {
  }

  lemma Turned(n: nat, d: nat, q: nat, r: nat, x: nat, y: nat, g: nat)
    requires n == q * d + r && d * x == y * r + g
    ensures n * y + g == d * (x + q * y)
  {
    AddTimes(q * d, r, y);
    Swap(q, d, y);
    AddTimes(x, q * y, d);
  }

  lemma AddTimes(a: int, b: int, c: int)
    ensures (a + b) * c == a * c + b * c
  {
  }

  lemma Swap(a: int, b: int, c: int)
    ensures a * b * c == b * (a * c)
  {
  }

  lemma Lifted(n: int, d: int, y: int, z: int, g: int)
    requires n * y + g == d * z
    ensures n * (y * (d - 1) + d) == (z * (d - 1) + (n - g)) * d + g
  {
    var e := d - 1;
    AddTimes(y * e, d, n);
    Swap(y, n, e);
    AddTimes(n * y, g, e);
    Swap(d, z, e);
    AddTimes(z * e, n - g, d);
    AddTimes(d, -1, g);
    AddTimes(n, -g, d);
    assert e * g == d * g - g;
  }

  lemma DivisorIsSmall(n: nat, d: nat)
    requires n > 0 && d > 0
    ensures 0 < GreatestCommonDivisor(n, d) <= n && GreatestCommonDivisor(n, d) <= d
  {
    var g := GreatestCommonDivisor(n, d);
    var x, y := GcdFactors(n, d);
    TimesIsProduct(x, g);
    TimesIsProduct(y, g);
    AtLeastFactor(x, g, n);
    AtLeastFactor(y, g, d);
  }

  lemma AtLeastFactor(x: nat, g: nat, n: nat)
    requires n > 0 && n == x * g
    ensures 0 < g <= n
  {
  }

  // ---------------------------------------------------------------- the gaps

  /** Every gap is a multiple of the common divisor, and leaves room for one more of it below the denominator. */
  lemma GapRange(rates: Rates, rotation: nat)
    requires rates.samplesPerRotation.Valid()
    ensures var n, d := rates.samplesPerRotation.numerator, rates.samplesPerRotation.denominator;
            0 <= Gap(rates, rotation) <= d - GreatestCommonDivisor(n, d)
  {
    var n, d := rates.samplesPerRotation.numerator, rates.samplesPerRotation.denominator;
    var a, g := FirstSample(rates, rotation), GreatestCommonDivisor(n, d);
    CeilingSplits(Times(n, rotation), d, a);
    if a > 0 {
      CeilingSplits(Times(n, rotation), d, a - 1);
      AddTimes(a, -1, d);
    }
    DivisorIsSmall(n, d);
    var x, y := GcdFactors(n, d);
    TimesIsProduct(x, g);
    TimesIsProduct(y, g);
    TimesIsProduct(n, rotation);
    Multiples(a, x, y, g, rotation);
    RoomForOneMore(a * y - x * rotation, y, g);
  }

  lemma Multiples(a: int, x: int, y: int, g: int, k: int)
    ensures a * (y * g) - (x * g) * k == (a * y - x * k) * g
  {
    Swap(x, g, k);
  }

  lemma RoomForOneMore(c: int, y: int, g: int)
    requires g > 0 && c * g < y * g
    ensures c * g <= y * g - g
  {
    assert c < y;
    AddTimes(y, -1, g);
    BelowTimes(c, y - 1, g);
  }

  lemma BelowTimes(a: int, b: int, g: int)
    requires a <= b && g > 0
    ensures a * g <= b * g
  {
  }

  /** The widest gap does occur, within as many rotations as the denominator says; the start itself leaves no gap. */
  lemma WidestGap(rates: Rates) returns (rotation: nat)
    requires rates.samplesPerRotation.Valid()
    ensures var n, d := rates.samplesPerRotation.numerator, rates.samplesPerRotation.denominator;
            && Gap(rates, rotation) == d - GreatestCommonDivisor(n, d) && rotation < d
            && (GreatestCommonDivisor(n, d) < d ==> rotation > 0)
  {
    var n, d := rates.samplesPerRotation.numerator, rates.samplesPerRotation.denominator;
    var g := GreatestCommonDivisor(n, d);
    DivisorIsSmall(n, d);
    var k, m := Bezout(n, d);
    DivisionIdentity(k, d);
    rotation := Remainder(k, d);
    var rest := m - n * Quotient(k, d);
    Reduced(n, d, Quotient(k, d), rotation, m);
    TimesIsProduct(n, rotation);
    if rest >= 0 {
      CeilingSplits(Times(n, rotation), d, rest);
      CeilingSplits(Times(n, rotation), d, rest + 1);
      AddTimes(rest, 1, d);
      assert FirstSample(rates, rotation) == rest + 1;
      NoneFromNone(n, rotation);
    } else {
      BelowTimes(rest, -1, d);
      NotNegative(n, rotation);
      CeilingSplits(0, d, 0);
    }
  }

  lemma NoneFromNone(n: nat, k: nat)
    ensures k == 0 ==> n * k == 0
  {
  }

  lemma Reduced(n: int, d: int, q: int, r: int, m: int)
    ensures n * (q * d + r) == (n * q) * d + n * r
    ensures (m - n * q) * d == m * d - (n * q) * d
  {
    AddTimes(q * d, r, n);
    Swap(n, q, d);
    AddTimes(m, -(n * q), d);
  }

  // ---------------------------------------------------------------- in seconds

  /** The first sample is within a tolerance of the start of its rotation when its gap is. */
  lemma LatenessIsGap(rates: Rates, rotation: nat, tolerance: real)
    requires rates.Valid()
    ensures rates.PointTime(FirstSample(rates, rotation)) <= rates.Boundary(rotation) + tolerance
            <==> Gap(rates, rotation) as real
                 <= S.Times(tolerance, S.Times(rates.sampleRate, rates.samplesPerRotation.denominator as real))
  {
    hide S.Times, FirstSample;
    var n, d := rates.samplesPerRotation.numerator, rates.samplesPerRotation.denominator;
    var a := FirstSample(rates, rotation);
    var t, b := rates.PointTime(a), rates.Boundary(rotation);
    var unit := S.Times(rates.sampleRate, d as real);
    S.QuotientTimes(a as real, rates.sampleRate);
    S.QuotientTimes(rotation as real, rates.rotationRate);
    Associate(t, rates.sampleRate, d as real);
    Associate(b, rates.rotationRate, n as real);
    RealProduct(a, d);
    RealProduct(rotation, n);
    TimesIsProduct(n, rotation);
    PositiveTimes(rates.sampleRate, d as real);
    S.TimesCommutes(b, unit);
    S.TimesCommutes(tolerance, unit);
    S.TimesCommutes(b + tolerance, unit);
    S.TimesSum(unit, b, tolerance);
    OrderThrough(b + tolerance, t, unit);
  }

  /** Every rotation's first sample is within a tolerance of the rotation's start if and only if the rates leave no
      wider gap: with g the common divisor of n and d, (d - g) / (d * sample rate) is at most the tolerance. */
  lemma FirstSamplesWithin(rates: Rates, tolerance: real)
    requires rates.Valid()
    ensures var n, d := rates.samplesPerRotation.numerator, rates.samplesPerRotation.denominator;
            (forall rotation: nat :: rates.PointTime(FirstSample(rates, rotation))
                <= rates.Boundary(rotation) + tolerance)
            <==> (d - GreatestCommonDivisor(n, d)) as real <= S.Times(tolerance, S.Times(rates.sampleRate, d as real))
  {
    hide S.Times, FirstSample, Gap, Rates.PointTime, Rates.Boundary, GreatestCommonDivisor;
    var widest := WidestGap(rates);
    LatenessIsGap(rates, widest, tolerance);
    forall rotation: nat
      ensures 0 <= Gap(rates, rotation) <= Gap(rates, widest)
      ensures rates.PointTime(FirstSample(rates, rotation)) <= rates.Boundary(rotation) + tolerance
              <==> Gap(rates, rotation) as real
                   <= S.Times(tolerance, S.Times(rates.sampleRate, rates.samplesPerRotation.denominator as real))
    {
      GapRange(rates, rotation);
      LatenessIsGap(rates, rotation, tolerance);
    }
  }

  /** With a whole number of samples per rotation every rotation starts with a sample. */
  lemma WholeNumberHasNoGap(rates: Rates, rotation: nat)
    requires rates.Valid() && WholeNumber(rates)
    ensures rates.PointTime(FirstSample(rates, rotation)) == rates.Boundary(rotation)
  {
    hide S.Times, FirstSample, Rates.PointTime, Rates.Boundary;
    var d := rates.samplesPerRotation.denominator;
    assert GreatestCommonDivisor(rates.samplesPerRotation.numerator, d) == d by {
      assert GreatestCommonDivisor(d, 0) == d;
    }
    GapRange(rates, rotation);
    LatenessIsGap(rates, rotation, 0.0);
    S.TimesZero(S.Times(rates.sampleRate, d as real));
    NotBefore(rates, rotation);
  }

  lemma NotBefore(rates: Rates, rotation: nat)
    requires rates.Valid()
    ensures rates.PointTime(FirstSample(rates, rotation)) >= rates.Boundary(rotation)
  {
    hide S.Times, Rates.PointTime, Rates.Boundary;
    var n, d := rates.samplesPerRotation.numerator, rates.samplesPerRotation.denominator;
    CeilingSplits(Times(n, rotation), d, FirstSample(rates, rotation));
    TimesIsProduct(n, rotation);
    ScaledRates(rates, FirstSample(rates, rotation), rotation);
  }

  /** Three samples in two rotations: the second rotation starts at 1/2 s, its first sample is taken at 2/3 s. */
  lemma ThreeHalvesLeaveAGap(rates: Rates)
    requires rates.Valid() && rates.sampleRate == 3.0 && rates.rotationRate == 2.0
    requires rates.samplesPerRotation == PositiveRatio(3, 2)
    ensures rates.PointTime(FirstSample(rates, 1)) == 2.0 / 3.0 > rates.Boundary(1) + TIME_TOLERANCE
    ensures !WholeNumber(rates)
  {
    assert Times(3, 1) == 3;
    assert Quotient(1, 2) == 0 && Remainder(1, 2) == 1;
    assert Ceiling(3, 2) == 2;
  }
}

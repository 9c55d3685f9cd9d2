/** The binary64 patterns of finite non-negative doubles and the values they stand for.

    A double is its 64-bit pattern, a natural number below INFINITY_BITS. Its value is measured in
    units of the smallest subnormal, 2^-1074, so that every statement below is about integers. */
module Binary64 {
  /** 2^52, the weight of the implicit leading bit of a normal significand. */
  const HIDDEN_BIT: nat := 0x10_0000_0000_0000
  /** The pattern of positive infinity: exponent field 2047, fraction 0. */
  const INFINITY_BITS: nat := 2047 * HIDDEN_BIT

  // ---------------------------------------------------------------- shifts

  /** n << k on big integers. */
  function Shl(n: nat, k: nat): (r: nat)
    ensures n > 0 ==> r > 0
  {
    if k == 0 then n else 2 * Shl(n, k - 1)
  }

  lemma {:induction false} ShlShl(n: nat, a: nat, b: nat)
    ensures Shl(Shl(n, a), b) == Shl(n, a + b)
  {
    if b > 0 {
      ShlShl(n, a, b - 1);
      assert a + b - 1 == a + (b - 1);
    }
  }

  lemma {:induction false} ShlOrder(m: nat, n: nat, k: nat)
    ensures m <= n <==> Shl(m, k) <= Shl(n, k)
  {
    if k > 0 {
      ShlOrder(m, n, k - 1);
    }
  }

  lemma {:induction false} ShlGrows(n: nat, a: nat, b: nat)
    requires a <= b
    ensures Shl(n, a) <= Shl(n, b)
  {
    if a < b {
      ShlGrows(n, a, b - 1);
    }
  }

  lemma {:induction false} ShlSum(m: nat, n: nat, k: nat)
    ensures Shl(m + n, k) == Shl(m, k) + Shl(n, k)
  {
    if k > 0 {
      ShlSum(m, n, k - 1);
    }
  }

  lemma {:induction false} ShlProduct(m: nat, n: nat, k: nat)
    ensures Shl(m, k) * n == m * Shl(n, k)
    ensures Shl(m * n, k) == m * Shl(n, k)
  {
    if k > 0 {
      ShlProduct(m, n, k - 1);
      DoubleProducts(Shl(m, k - 1), n);
      DoubleProducts(m, Shl(n, k - 1));
    }
  }

  lemma DoubleProducts(a: nat, b: nat)
    ensures (2 * a) * b == 2 * (a * b) == a * (2 * b)
  {
  }

  lemma ShlBy4(n: nat, k: nat)
    ensures Shl(n, k + 4) == 16 * Shl(n, k)
  {
    assert Shl(n, k + 4) == 2 * Shl(n, k + 3);
    assert Shl(n, k + 2) == 2 * Shl(n, k + 1);
  }

  lemma ShlBy13(n: nat)
    ensures Shl(n, 13) == 0x2000 * n
  {
    ShlBy4(n, 0);
    ShlBy4(n, 4);
    ShlBy4(n, 8);
  }

  lemma ShlBy52(n: nat)
    ensures Shl(n, 52) == HIDDEN_BIT * n
  {
    var a := Shl(n, 13);
    var b := Shl(a, 13);
    var c := Shl(b, 13);
    ShlBy13(n);
    ShlBy13(a);
    ShlBy13(b);
    ShlBy13(c);
    ShlShl(n, 13, 13);
    ShlShl(n, 26, 13);
    ShlShl(n, 39, 13);
  }

  /** The number of binary digits of n, as `BigUint::bits`: the least k with n < 2^k. */
  function BitLength(n: nat): nat {
    BitLengthFrom(n, 0)
  }

  function BitLengthFrom(n: nat, k: nat): nat
    decreases n - k
  {
    Shl1Exceeds(k);
    if n < Shl(1, k) then k else BitLengthFrom(n, k + 1)
  }

  lemma {:induction false} Shl1Exceeds(k: nat)
    ensures k < Shl(1, k)
  {
    if k > 0 {
      Shl1Exceeds(k - 1);
    }
  }

  lemma {:induction false} BitLengthFromBounds(n: nat, k: nat)
    requires k > 0 ==> Shl(1, k - 1) <= n
    ensures BitLengthFrom(n, k) >= k && n < Shl(1, BitLengthFrom(n, k))
    ensures BitLengthFrom(n, k) > 0 ==> Shl(1, BitLengthFrom(n, k) - 1) <= n
    decreases n - k
  {
    Shl1Exceeds(k);
    if n >= Shl(1, k) {
      BitLengthFromBounds(n, k + 1);
    }
  }

  lemma BitLengthBounds(n: nat)
    requires n > 0
    ensures BitLength(n) > 0
    ensures Shl(1, BitLength(n) - 1) <= n < Shl(1, BitLength(n))
  {
    BitLengthFromBounds(n, 0);
  }

  // ---------------------------------------------------------------- the value of a pattern

  /** The value of a finite pattern in units of 2^-1074 (IEEE 754-2019, section 3.4). */
  function ScaledValue(bits: nat): nat {
    var exponentField, fraction := bits / HIDDEN_BIT, bits % HIDDEN_BIT;
    if exponentField == 0 then fraction else Shl(HIDDEN_BIT + fraction, exponentField - 1)
  }

  lemma SubnormalValue(bits: nat)
    requires bits < HIDDEN_BIT
    ensures ScaledValue(bits) == bits
  {
  }

  lemma NormalValue(bits: nat, field: nat, fraction: nat)
    requires field > 0 && fraction < HIDDEN_BIT && bits == field * HIDDEN_BIT + fraction
    ensures ScaledValue(bits) == Shl(HIDDEN_BIT + fraction, field - 1)
  {
    assert bits / HIDDEN_BIT == field && bits % HIDDEN_BIT == fraction;
  }

  lemma ShlOfDouble(n: nat, k: nat)
    ensures Shl(n, k + 1) == Shl(2 * n, k)
  {
    ShlShl(n, 1, k);
    assert Shl(n, 1) == 2 * n;
  }

  /** bits is the pattern with this significand in this binade. A significand of 2^53 is the first
      pattern of the next binade; below 2^52 only the subnormal binade 0 goes on. */
  predicate IsPattern(bits: nat, binade: nat, significand: nat) {
    && bits == binade * HIDDEN_BIT + significand
    && significand <= 2 * HIDDEN_BIT
    && (binade > 0 ==> HIDDEN_BIT <= significand)
  }

  /** Patterns of one binade, including the carry into the next one, have evenly spaced values. */
  lemma ScaledValueInBinade(bits: nat, binade: nat, significand: nat)
    requires IsPattern(bits, binade, significand)
    ensures ScaledValue(bits) == Shl(significand, binade)
  {
    if significand < HIDDEN_BIT {
      SubnormalValue(bits);
    } else if significand < 2 * HIDDEN_BIT {
      NormalValue(bits, binade + 1, significand - HIDDEN_BIT);
    } else {
      NormalValue(bits, binade + 2, 0);
      ShlOfDouble(HIDDEN_BIT, binade);
    }
  }

  lemma ScaledValueNext(bits: nat)
    ensures ScaledValue(bits) < ScaledValue(bits + 1)
  {
    var field := bits / HIDDEN_BIT;
    var binade := if field == 0 then 0 else field - 1;
    var significand := bits - binade * HIDDEN_BIT;
    ScaledValueInBinade(bits, binade, significand);
    ScaledValueInBinade(bits + 1, binade, significand + 1);
    ShlOrder(significand + 1, significand, binade);
  }

  /** Bit patterns are ordered as the numbers they stand for. */
  lemma {:induction false} ScaledValueStrictlyMonotone(a: nat, b: nat)
    requires a < b
    ensures ScaledValue(a) < ScaledValue(b)
  {
    ScaledValueNext(b - 1);
    if a < b - 1 {
      ScaledValueStrictlyMonotone(a, b - 1);
    }
  }
}

/** Weighted sums over vectors of reals. */
module Sums {
  function Min(a: real, b: real): real {
    if a <= b then a else b
  }

  function Max(a: real, b: real): real {
    if a >= b then a else b
  }

  function Abs(a: real): real {
    if a >= 0.0 then a else -a
  }

  function Clamp(value: real, low: real, high: real): real {
    Max(low, Min(value, high))
  }

  /** A product under a name, so that sums of products stay linear where the factors do not matter. */
  function Times(a: real, b: real): real {
    a * b
  }

  /** The weighted sum of the first n entries. */
  function Dot(w: seq<real>, x: seq<real>, n: nat): real
    requires n <= |w| && n <= |x|
  {
    if n == 0 then 0.0 else Dot(w, x, n - 1) + Times(w[n - 1], x[n - 1])
  }

  /** A sum of vectors has the sum of their weighted sums. */
  lemma {:induction false} DotSum(w: seq<real>, x: seq<real>, y: seq<real>, z: seq<real>, n: nat)
    requires n <= |w| && n <= |x| && n <= |y| && n <= |z|
    requires forall i | 0 <= i < n :: z[i] == x[i] + y[i]
    ensures Dot(w, z, n) == Dot(w, x, n) + Dot(w, y, n)
  {
    hide Times;
    if n > 0 {
      DotSum(w, x, y, z, n - 1);
      TimesSum(w[n - 1], x[n - 1], y[n - 1]);
    }
  }

  lemma {:induction false} DotScaled(w: seq<real>, x: seq<real>, y: seq<real>, k: real, n: nat)
    requires n <= |w| && n <= |x| && n <= |y|
    requires forall i | 0 <= i < n :: y[i] == Times(k, x[i])
    ensures Dot(w, y, n) == Times(k, Dot(w, x, n))
  {
    hide Times;
    if n > 0 {
      DotScaled(w, x, y, k, n - 1);
      TimesDistributes(k, w[n - 1], x[n - 1], Dot(w, x, n - 1));
    } else {
      TimesZero(k);
    }
  }

  lemma TimesDistributes(k: real, a: real, b: real, rest: real)
    ensures Times(k, rest + Times(a, b)) == Times(k, rest) + Times(a, Times(k, b))
  {
  }

  lemma TimesZero(k: real)
    ensures Times(k, 0.0) == 0.0 == Times(0.0, k)
  {
  }

  lemma TimesOrder(weight: real, a: real, b: real)
    requires weight >= 0.0 && a <= b
    ensures Times(weight, a) <= Times(weight, b)
  {
  }

  lemma TimesSum(weight: real, a: real, b: real)
    ensures Times(weight, a + b) == Times(weight, a) + Times(weight, b)
    ensures Times(weight, a - b) == Times(weight, a) - Times(weight, b)
  {
  }

  lemma TimesCommutes(a: real, b: real)
    ensures Times(a, b) == Times(b, a)
  {
  }

  lemma QuotientTimes(a: real, b: real)
    requires b != 0.0
    ensures Times(a / b, b) == a
  {
  }

  lemma Quotient(a: real, b: real)
    requires a >= 0.0 && b > 0.0
    ensures a / b >= 0.0
  {
  }

  lemma NegativeFactor(a: real, b: real)
    ensures Times(a, -b) == -Times(a, b)
  {
  }

  lemma Monotone(a: real, b: real, c: real)
    requires a <= b && c >= 0.0
    ensures Times(a, c) <= Times(b, c)
    ensures a >= 0.0 ==> Times(a, c) >= 0.0
  {
  }

  lemma OrderFromTimes(a: real, b: real, c: real)
    requires c > 0.0
    ensures Times(a, c) <= Times(b, c) ==> a <= b
  {
  }

  lemma QuotientRange(a: real, d: real)
    requires d > 0.0
    ensures a <= 0.0 <==> a / d <= 0.0
    ensures a >= 0.0 <==> a / d >= 0.0
    ensures a <= d <==> a / d <= 1.0
    ensures a >= d <==> a / d >= 1.0
  {
  }

  lemma MinusOne(a: real, c: real)
    ensures Times(a - 1.0, c) == Times(a, c) - c
  {
  }

  /** A step of at least the width takes at least one off the number of whole widths. */
  lemma StepsInQuotient(a: real, b: real, width: real)
    requires width > 0.0 && b <= a - width && a >= width
    ensures 0 <= (a / width).Floor && (b / width).Floor < (a / width).Floor
  {
    QuotientTimes(a, width);
    QuotientTimes(b, width);
    QuotientRange(a, width);
    MinusOne(a / width, width);
    OrderFromTimes(b / width, a / width - 1.0, width);
  }

  lemma TimesOne(a: real)
    ensures Times(a, 1.0) == a
  {
  }

  /** The weighted sum with a running compensation, as the geometry code adds up every volume
      (services/simulation-server/src/geometry/mod.rs, sum). Over reals the compensation stays 0. */
  method WeightedSum(w: seq<real>, x: seq<real>) returns (r: real)
    requires |w| == |x|
    ensures r == Dot(w, x, |w|)
  {
    hide Times;
    var total, correction := 0.0, 0.0;
    for i := 0 to |w|
      invariant total == Dot(w, x, i) && correction == 0.0
    {
      var value := Times(w[i], x[i]);
      var next := total + value;
      correction := correction + if Abs(total) >= Abs(value) then (total - next) + value else (value - next) + total;
      total := next;
    }
    return total + correction;
  }
}

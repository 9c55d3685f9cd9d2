/** The padded CRC-32 of scan capsules (services/simulation-server/src/s2e.rs, padded_crc32). */
module Crc {
  const POLYNOMIAL: bv32 := 0xedb8_8320

  /** The bit operations under names, so that proofs about registers need not look at single bits. */
  function Xor(x: bv32, y: bv32): bv32 { x ^ y }
  function Half(x: bv32): bv32 { x >> 1 }
  function Odd(x: bv32): bool { x & 1 == 1 }
  function Extend(b: bv8): bv32 { b as bv32 }

  /** One shift of the register. */
  function Shift(c: bv32): bv32 {
    (c >> 1) ^ (POLYNOMIAL & (0 - (c & 1)))
  }

  function Shifts(c: bv32, n: nat): bv32
    decreases n
  {
    if n == 0 then c else Shifts(Shift(c), n - 1)
  }

  /** The register after one byte, and after some bytes. */
  function Step(c: bv32, b: bv8): bv32 {
    Shifts(Xor(c, Extend(b)), 8)
  }

  function Register(c: bv32, bytes: seq<bv8>): bv32
    decreases |bytes|
  {
    if bytes == [] then c else Register(Step(c, bytes[0]), bytes[1..])
  }

  function Zeros(n: nat): (z: seq<bv8>)
    ensures |z| == n && forall k | 0 <= k < n :: z[k] == 0
  {
    seq(n, k => 0)
  }

  /** Between one and four zero bytes fill up to a multiple of four: a full word is padded too. */
  function Padding(length: nat): nat {
    4 - length % 4
  }

  function Inverted(x: bv32): bv32 { !x }

  function PaddedCrc(bytes: seq<bv8>): bv32 {
    Inverted(Register(0xffff_ffff, bytes + Zeros(Padding(|bytes|))))
  }

  method PaddedCrc32(bytes: seq<bv8>) returns (crc: bv32)
    ensures crc == PaddedCrc(bytes)
  {
    hide Shift, Xor, Extend, Inverted, Shifts;
    var padded := bytes + Zeros(Padding(|bytes|));
    crc := 0xffff_ffff;
    assert padded[0..] == padded;
    for k := 0 to |padded|
      invariant Register(0xffff_ffff, padded) == Register(crc, padded[k..])
    {
      assert padded[k..][1..] == padded[k + 1..];
      ghost var before := Xor(crc, Extend(padded[k]));
      crc := Xor(crc, Extend(padded[k]));
      for bit := 0 to 8
        invariant Shifts(before, 8) == Shifts(crc, 8 - bit)
      {
        ShiftsUnfold(crc, 8 - bit);
        crc := Shift(crc);
      }
      ShiftsUnfold(crc, 0);
    }
    crc := Inverted(crc);
  }

  lemma ShiftsUnfold(c: bv32, n: nat)
    ensures Shifts(c, n) == if n == 0 then c else Shifts(Shift(c), n - 1)
  {
    hide Shift;
  }

  // ---------------------------------------------------------------- shifting is linear and loses nothing

  lemma ShiftMeans(c: bv32)
    ensures Shift(c) == if Odd(c) then Xor(Half(c), POLYNOMIAL) else Half(c)
  {
    assert c & 1 == 0 || c & 1 == 1;
  }

  lemma HalfOfXor(x: bv32, y: bv32)
    ensures Half(Xor(x, y)) == Xor(Half(x), Half(y))
    ensures Odd(Xor(x, y)) == (Odd(x) != Odd(y))
  {
  }

  lemma XorAssociates(a: bv32, b: bv32, p: bv32)
    ensures Xor(a, Xor(b, p)) == Xor(Xor(a, b), p)
  {
  }

  lemma XorCommutes(a: bv32, b: bv32)
    ensures Xor(a, b) == Xor(b, a)
  {
  }

  lemma XorSelf(a: bv32)
    ensures Xor(a, a) == 0 && Xor(a, 0) == a
  {
  }

  lemma XorTwice(a: bv32, b: bv32, p: bv32)
    ensures Xor(Xor(a, p), Xor(b, p)) == Xor(a, b)
  {
    hide Xor;
    XorAssociates(Xor(a, p), b, p);
    XorAssociates(a, p, b);
    XorCommutes(p, b);
    XorAssociates(a, b, p);
    XorAssociates(Xor(a, b), p, p);
    XorSelf(p);
    XorSelf(Xor(a, b));
  }

  lemma XorLaws(a: bv32, b: bv32, p: bv32)
    ensures Xor(Xor(a, p), Xor(b, p)) == Xor(a, b)
    ensures Xor(a, Xor(b, p)) == Xor(Xor(a, b), p)
    ensures Xor(Xor(a, p), b) == Xor(Xor(a, b), p)
  {
    hide Xor;
    XorTwice(a, b, p);
    XorAssociates(a, b, p);
    XorAssociates(b, a, p);
    XorCommutes(Xor(a, p), b);
    XorCommutes(a, b);
  }

  lemma ShiftLinear(x: bv32, y: bv32)
    ensures Shift(Xor(x, y)) == Xor(Shift(x), Shift(y))
  {
    hide Xor, Half, Odd, Shift;
    ShiftMeans(x);
    ShiftMeans(y);
    ShiftMeans(Xor(x, y));
    HalfOfXor(x, y);
    XorLaws(Half(x), Half(y), POLYNOMIAL);
  }

  lemma HalvesAgree(x: bv32, y: bv32)
    ensures Half(x) == Half(y) && Odd(x) == Odd(y) ==> x == y
    ensures Xor(Half(x), POLYNOMIAL) != Half(y)
    ensures Xor(Half(x), POLYNOMIAL) == Xor(Half(y), POLYNOMIAL) ==> Half(x) == Half(y)
  {
  }

  lemma ShiftInjective(x: bv32, y: bv32)
    requires Shift(x) == Shift(y)
    ensures x == y
  {
    hide Xor, Half, Odd, Shift;
    ShiftMeans(x);
    ShiftMeans(y);
    HalvesAgree(x, y);
    HalvesAgree(y, x);
  }

  lemma {:induction false} ShiftsLinear(x: bv32, y: bv32, n: nat)
    ensures Shifts(Xor(x, y), n) == Xor(Shifts(x, n), Shifts(y, n))
    decreases n
  {
    hide Xor, Shift;
    if n > 0 {
      ShiftLinear(x, y);
      ShiftsLinear(Shift(x), Shift(y), n - 1);
    }
  }

  lemma {:induction false} ShiftsInjective(x: bv32, y: bv32, n: nat)
    requires Shifts(x, n) == Shifts(y, n)
    ensures x == y
    decreases n
  {
    hide Shift;
    if n > 0 {
      ShiftsInjective(Shift(x), Shift(y), n - 1);
      ShiftInjective(x, y);
    }
  }

  // ---------------------------------------------------------------- bit by bit

  /** One bit of the message: the lowest bit of the register and the message's decide whether the polynomial is
      subtracted. */
  function BitStep(c: bv32, bit: bool): bv32 {
    if Odd(c) != bit then Xor(Half(c), 0xedb8_8320) else Half(c)
  }

  function Fed(c: bv32, bits: seq<bool>): bv32
    decreases |bits|
  {
    if bits == [] then c else Fed(BitStep(c, bits[0]), bits[1..])
  }

  /** The bits of a byte, lowest first. */
  function BitsOf(b: bv8): (bits: seq<bool>)
    ensures |bits| == 8
  {
    [b & 1 != 0, b & 2 != 0, b & 4 != 0, b & 8 != 0, b & 16 != 0, b & 32 != 0, b & 64 != 0, b & 128 != 0]
  }

  function AllBits(bytes: seq<bv8>): seq<bool>
    decreases |bytes|
  {
    if bytes == [] then [] else BitsOf(bytes[0]) + AllBits(bytes[1..])
  }

  /** Shifting a register that holds message bits feeds it the lowest of them. */
  lemma ShiftFeeds(c: bv32, e: bv32)
    ensures Shift(Xor(c, e)) == Xor(BitStep(c, Odd(e)), Half(e))
  {
    hide Shift, Xor, Half, Odd;
    ShiftMeans(Xor(c, e));
    HalfOfXor(c, e);
    XorLaws(Half(c), Half(e), POLYNOMIAL);
  }

  /** What is left of a value after so many halvings. */
  function Halved(e: bv32, k: nat): bv32 {
    if k == 0 then e else Half(Halved(e, k - 1))
  }

  lemma HalvedMeans(e: bv32)
    ensures Halved(e, 0) == e && Halved(e, 1) == e >> 1 && Halved(e, 2) == (e >> 1) >> 1
    ensures Halved(e, 3) == Half(Halved(e, 2)) && Halved(e, 4) == Half(Halved(e, 3))
    ensures Halved(e, 5) == Half(Halved(e, 4)) && Halved(e, 6) == Half(Halved(e, 5))
    ensures Halved(e, 7) == Half(Halved(e, 6)) && Halved(e, 8) == Half(Halved(e, 7))
  {
  }

  /** The bits of a byte are the lowest bits of what is left of it. */
  lemma BitsInTurn(b: bv8)
    ensures var e := Extend(b);
            && (forall k | 0 <= k < 8 :: BitsOf(b)[k] == Odd(Halved(e, k))) && Halved(e, 8) == 0
  {
    HalvedMeans(Extend(b));
  }

  /** The registers while the halves of a value are shifted in. */
  ghost predicate Halving(halves: seq<bv32>, bits: seq<bool>) {
    && |halves| == |bits| + 1 && halves[|bits|] == 0
    && forall k | 0 <= k < |bits| :: bits[k] == Odd(halves[k]) && halves[k + 1] == Half(halves[k])
  }

  lemma {:induction false} ShiftsFeed(c: bv32, halves: seq<bv32>, bits: seq<bool>)
    requires Halving(halves, bits)
    ensures Shifts(Xor(c, halves[0]), |bits|) == Fed(c, bits)
    decreases |bits|
  {
    hide Shift, Xor, Half, Odd, BitStep, Shifts;
    ShiftsUnfold(Xor(c, halves[0]), |bits|);
    if bits == [] {
      XorSelf(c);
    } else {
      ShiftFeeds(c, halves[0]);
      var rest, later := halves[1..], bits[1..];
      assert forall k | 0 <= k < |later| :: later[k] == bits[k + 1] && rest[k] == halves[k + 1];
      ShiftsFeed(BitStep(c, bits[0]), rest, later);
    }
  }

  lemma StepFeeds(c: bv32, b: bv8)
    ensures Step(c, b) == Fed(c, BitsOf(b))
  {
    hide Shift, Xor, Half, Odd, BitStep, Shifts, Fed, Extend, BitsOf, Halved;
    var e := Extend(b);
    var halves := seq(9, k requires 0 <= k < 9 => Halved(e, k));
    BitsInTurn(b);
    forall k | 0 <= k < 8 ensures halves[k + 1] == Half(halves[k]) {
      HalvedUnfolds(e, k + 1);
    }
    HalvedUnfolds(e, 0);
    ShiftsFeed(c, halves, BitsOf(b));
  }

  lemma HalvedUnfolds(e: bv32, k: nat)
    ensures Halved(e, k) == if k == 0 then e else Half(Halved(e, k - 1))
  {
    hide Half;
  }

  lemma {:induction false} FedBoth(c: bv32, a: seq<bool>, b: seq<bool>)
    ensures Fed(c, a + b) == Fed(Fed(c, a), b)
    decreases |a|
  {
    hide BitStep;
    if a == [] {
      assert a + b == b;
    } else {
      FedBoth(BitStep(c, a[0]), a[1..], b);
      assert (a + b)[1..] == a[1..] + b;
    }
  }

  lemma {:induction false} RegisterFeeds(c: bv32, bytes: seq<bv8>)
    ensures Register(c, bytes) == Fed(c, AllBits(bytes))
    decreases |bytes|
  {
    hide Step, BitsOf, BitStep;
    if bytes != [] {
      StepFeeds(c, bytes[0]);
      FedBoth(c, BitsOf(bytes[0]), AllBits(bytes[1..]));
      RegisterFeeds(Step(c, bytes[0]), bytes[1..]);
    }
  }

  lemma PaddingIs(length: nat, padding: nat)
    requires 1 <= padding <= 4 && (length + padding) % 4 == 0
    ensures padding == Padding(length)
  {
  }

  /** The checksum is the reflected CRC-32 of the bytes and the zeros that fill them up to the next multiple of four, all
      bits set at first and inverted at last. */
  lemma PaddedCrcIsBitwise(bytes: seq<bv8>, padding: seq<bv8>)
    requires 1 <= |padding| <= 4 && (|bytes| + |padding|) % 4 == 0
    requires forall k | 0 <= k < |padding| :: padding[k] == 0
    ensures PaddedCrc(bytes) == !Fed(0xffff_ffff, AllBits(bytes + padding))
  {
    hide Register, Fed, AllBits;
    PaddingIs(|bytes|, |padding|);
    assert padding == Zeros(|padding|);
    RegisterFeeds(0xffff_ffff, bytes + padding);
  }

  // ---------------------------------------------------------------- short bursts

  predicate Low1(d: bv32) { d & 0xffff_ff00 == 0 }
  predicate Low2(d: bv32) { d & 0xffff_0000 == 0 }
  predicate Low3(d: bv32) { d & 0xff00_0000 == 0 }

  /** Only the low n bytes can differ from zero. */
  predicate LowBytes(d: bv32, n: nat) {
    if n == 0 then d == 0 else if n == 1 then Low1(d) else if n == 2 then Low2(d) else if n == 3 then Low3(d) else true
  }

  function ByteUp(w: bv32): bv32 { w << 8 }

  lemma EvenShift(x: bv32)
    ensures !Odd(x) ==> Shift(x) == Half(x)
  {
    hide Shift, Half, Odd;
    ShiftMeans(x);
  }

  predicate Doubles(x: bv32, half: bv32) {
    x & 1 == 0 && x >> 1 == half
  }

  lemma DoublesMeans(x: bv32, half: bv32)
    requires Doubles(x, half)
    ensures Shift(x) == half
  {
    hide Shift;
    EvenShift(x);
  }

  lemma EvenStep(x: bv32, half: bv32, n: nat)
    requires Doubles(x, half)
    ensures Shifts(x, n + 1) == Shifts(half, n)
  {
    hide Shift, Doubles;
    DoublesMeans(x, half);
  }

  /** The values on the way down from w << 8: none of them is odd. */
  lemma UpIsEven(w: bv32)
    requires Low3(w)
    ensures Doubles(w << 8, w << 7) && Doubles(w << 7, w << 6) && Doubles(w << 6, w << 5) && Doubles(w << 5, w << 4)
    ensures Doubles(w << 4, w << 3) && Doubles(w << 3, w << 2) && Doubles(w << 2, w << 1) && Doubles(w << 1, w)
  {
  }

  lemma MoveDown(w: bv32)
    requires Low3(w)
    ensures Shifts(w << 8, 8) == w
  {
    hide Shift, Shifts, Low3, Doubles;
    UpIsEven(w);
    EvenStep(w << 8, w << 7, 7);
    EvenStep(w << 7, w << 6, 6);
    EvenStep(w << 6, w << 5, 5);
    EvenStep(w << 5, w << 4, 4);
    EvenStep(w << 4, w << 3, 3);
    EvenStep(w << 3, w << 2, 2);
    EvenStep(w << 2, w << 1, 1);
    EvenStep(w << 1, w, 0);
    ShiftsUnfold(w, 0);
  }

  lemma ByteUpIs(w: bv32)
    ensures ByteUp(w) == w << 8
  {
  }

  /** A byte's worth of shifts undoes moving up by one byte, when nothing is lost at the top. */
  lemma ShiftsMoveDown(w: bv32)
    requires Low3(w)
    ensures Shifts(ByteUp(w), 8) == w
  {
    hide Shifts, Low3, ByteUp;
    MoveDown(w);
    ByteUpIs(w);
  }

  lemma ZeroUp(w: bv32)
    requires w == 0
    ensures Low3(w) && Low1(w << 8)
  {
  }

  lemma Low1Up(w: bv32)
    requires Low1(w)
    ensures Low3(w) && Low2(w << 8)
  {
  }

  lemma Low2Up(w: bv32)
    requires Low2(w)
    ensures Low3(w) && Low3(w << 8)
  {
  }

  lemma LowBytesUp(w: bv32, n: nat)
    requires n < 4 && LowBytes(w, n)
    ensures Low3(w) && LowBytes(ByteUp(w), n + 1)
  {
    hide Low1, Low2, Low3, ByteUp;
    ByteUpIs(w);
    if n == 0 {
      ZeroUp(w);
    } else if n == 1 {
      Low1Up(w);
    } else if n == 2 {
      Low2Up(w);
    }
  }

  /** A register that eight shifts bring down to n low bytes had n + 1 of them, the lowest zero. */
  lemma ByteBefore(z: bv32, n: nat)
    requires n < 4 && LowBytes(Shifts(z, 8), n)
    ensures z == ByteUp(Shifts(z, 8)) && LowBytes(z, n + 1)
  {
    hide Shifts, LowBytes, ByteUp;
    var w := Shifts(z, 8);
    LowBytesUp(w, n);
    ShiftsMoveDown(w);
    ShiftsInjective(z, ByteUp(w), 8);
  }

  lemma ExtendXor(u: bv8, v: bv8)
    ensures Xor(Extend(u), Extend(v)) == Extend(u ^ v)
  {
  }

  lemma DifferenceOfInputs(x: bv32, y: bv32, u: bv8, v: bv8)
    ensures Xor(Xor(x, Extend(u)), Xor(y, Extend(v))) == Xor(Xor(x, y), Extend(u ^ v))
  {
    hide Xor, Extend;
    ExtendXor(u, v);
    XorAssociates(x, Extend(u), Xor(y, Extend(v)));
    XorLaws(y, Extend(u), Extend(v));
    XorAssociates(Extend(u), y, Extend(v));
    XorCommutes(Extend(u), y);
    XorAssociates(y, Extend(u), Extend(v));
    XorAssociates(x, y, Extend(u ^ v));
  }

  lemma NoDifference(x: bv32, y: bv32)
    ensures Xor(x, y) == 0 <==> x == y
  {
    hide Xor;
    XorAssociates(x, y, y);
    XorSelf(x);
    XorSelf(y);
    XorCommutes(0, y);
  }

  /** The byte is what a difference and a multiple of 256 have between them. */
  predicate Mends(d: bv32, b: bv8, up: bv32) {
    d ^ (b as bv32) == up
  }

  lemma MendsMeans(d: bv32, b: bv8, up: bv32)
    requires Xor(d, Extend(b)) == up
    ensures Mends(d, b, up)
  {
  }

  lemma Low1Mends(d: bv32, b: bv8, up: bv32)
    requires Mends(d, b, up) && Low1(up)
    ensures Low1(d)
  {
  }

  lemma Low2Mends(d: bv32, b: bv8, up: bv32)
    requires Mends(d, b, up) && Low2(up)
    ensures Low2(d)
  {
  }

  lemma Low3Mends(d: bv32, b: bv8, up: bv32)
    requires Mends(d, b, up) && Low3(up)
    ensures Low3(d)
  {
  }

  predicate Zero(d: bv32) { d == 0 }
  predicate ZeroByte(b: bv8) { b == 0 }
  predicate NoLowByte(d: bv32) { d & 0xff == 0 }

  lemma NothingMends(d: bv32, b: bv8, up: bv32)
    requires Mends(d, b, up) && NoLowByte(up) && Zero(d)
    ensures ZeroByte(b)
  {
  }

  lemma UpHasNoLowByte(w: bv32)
    ensures NoLowByte(w << 8)
  {
  }

  lemma ByteUpHasNoLowByte(w: bv32)
    ensures NoLowByte(ByteUp(w))
  {
    hide NoLowByte, ByteUp;
    UpHasNoLowByte(w);
    ByteUpIs(w);
  }

  /** A difference that a byte turns into a multiple of 256 has that byte at its low end. */
  lemma LowByteOfDifference(d: bv32, b: bv8, w: bv32, n: nat)
    requires n < 4 && Xor(d, Extend(b)) == ByteUp(w) && LowBytes(ByteUp(w), n + 1)
    ensures LowBytes(d, n + 1)
    ensures Zero(d) ==> ZeroByte(b)
  {
    hide Xor, Extend, ByteUp, Mends, Low1, Low2, Low3, Zero, ZeroByte, NoLowByte;
    var up := ByteUp(w);
    MendsMeans(d, b, up);
    ByteUpHasNoLowByte(w);
    if n == 0 {
      Low1Mends(d, b, up);
    } else if n == 1 {
      Low2Mends(d, b, up);
    } else if n == 2 {
      Low3Mends(d, b, up);
    }
    if Zero(d) {
      NothingMends(d, b, up);
    }
  }

  /** Registers that meet after at most four bytes each differed only in that many low bytes. */
  lemma {:induction false} MeetingRegisters(x: bv32, y: bv32, u: seq<bv8>, v: seq<bv8>)
    requires |u| == |v| <= 4 && Register(x, u) == Register(y, v)
    ensures LowBytes(Xor(x, y), |u|)
    decreases |u|
  {
    hide Xor, Extend, LowBytes, ByteUp, Shifts;
    if u == [] {
      NoDifference(x, y);
      NoBytes(Xor(x, y));
    } else {
      MeetingRegisters(Step(x, u[0]), Step(y, v[0]), u[1..], v[1..]);
      InputsBefore(x, y, u[0], v[0], |u| - 1);
    }
  }

  lemma NoBytes(d: bv32)
    requires d == 0
    ensures LowBytes(d, 0)
  {
  }

  /** One byte back: the registers differ in one more low byte; equal registers were fed equal bytes. */
  lemma InputsBefore(x: bv32, y: bv32, u: bv8, v: bv8, n: nat)
    requires n < 4 && LowBytes(Xor(Step(x, u), Step(y, v)), n)
    ensures LowBytes(Xor(x, y), n + 1)
    ensures x == y ==> u == v
  {
    hide Xor, Extend, LowBytes, ByteUp, Shifts, Zero, ZeroByte;
    var x1, y1 := Xor(x, Extend(u)), Xor(y, Extend(v));
    ShiftsLinear(x1, y1, 8);
    ByteBefore(Xor(x1, y1), n);
    DifferenceOfInputs(x, y, u, v);
    LowByteOfDifference(Xor(x, y), u ^ v, Shifts(Xor(x1, y1), 8), n);
    if x == y {
      SameRegister(x, y);
      SameByte(u, v);
    }
  }

  lemma SameRegister(x: bv32, y: bv32)
    requires x == y
    ensures Zero(Xor(x, y))
  {
  }

  lemma SameByte(u: bv8, v: bv8)
    ensures ZeroByte(u ^ v) ==> u == v
  {
  }

  /** From one register, two different windows of at most four bytes never lead to the same register. */
  lemma {:induction false} WindowsDiffer(x: bv32, u: seq<bv8>, v: seq<bv8>)
    requires |u| == |v| <= 4 && Register(x, u) == Register(x, v)
    ensures u == v
    decreases |u|
  {
    hide Step, LowBytes, Xor;
    if u != [] {
      MeetingRegisters(Step(x, u[0]), Step(x, v[0]), u[1..], v[1..]);
      InputsBefore(x, x, u[0], v[0], |u| - 1);
      WindowsDiffer(Step(x, u[0]), u[1..], v[1..]);
      assert u == [u[0]] + u[1..] && v == [v[0]] + v[1..];
    }
  }

  /** Equal bytes never bring different registers together. */
  lemma {:induction false} SameBytesKeepApart(x: bv32, y: bv32, s: seq<bv8>)
    requires Register(x, s) == Register(y, s)
    ensures x == y
    decreases |s|
  {
    hide Shifts, Xor, Extend;
    if s != [] {
      SameBytesKeepApart(Step(x, s[0]), Step(y, s[0]), s[1..]);
      ShiftsInjective(Xor(x, Extend(s[0])), Xor(y, Extend(s[0])), 8);
      XorCancels(x, y, Extend(s[0]));
    }
  }

  lemma XorCancels(x: bv32, y: bv32, b: bv32)
    ensures Xor(x, b) == Xor(y, b) ==> x == y
    ensures Inverted(x) == Inverted(y) ==> x == y
  {
  }

  lemma {:induction false} RegisterOfBoth(x: bv32, a: seq<bv8>, b: seq<bv8>)
    ensures Register(x, a + b) == Register(Register(x, a), b)
    decreases |a|
  {
    hide Step;
    if a == [] {
      assert a + b == b;
    } else {
      RegisterOfBoth(Step(x, a[0]), a[1..], b);
      assert (a + b)[1..] == a[1..] + b;
    }
  }

  lemma RegisterOfThree(x: bv32, a: seq<bv8>, b: seq<bv8>, c: seq<bv8>)
    ensures Register(x, a + b + c) == Register(Register(Register(x, a), b), c)
  {
    hide Register;
    RegisterOfBoth(x, a + b, c);
    RegisterOfBoth(x, a, b);
  }

  lemma ThreeParts(a: seq<bv8>, b: seq<bv8>, at: nat, end: nat, zeros: seq<bv8>)
    requires |a| == |b| && a != b && at <= end <= |a|
    requires forall k | 0 <= k < |a| && !(at <= k < end) :: a[k] == b[k]
    ensures a + zeros == a[..at] + a[at..end] + (a[end..] + zeros)
    ensures b + zeros == a[..at] + b[at..end] + (a[end..] + zeros)
    ensures a[at..end] != b[at..end]
  {
    assert a == a[..at] + a[at..end] + a[end..];
    assert b == a[..at] + b[at..end] + a[end..];
  }

  /** Two strings of one length that differ only inside four consecutive bytes have different checksums. */
  lemma BurstsAreDetected(a: seq<bv8>, b: seq<bv8>, at: nat)
    requires |a| == |b| && a != b && at <= |a|
    requires forall k | 0 <= k < |a| && !(at <= k < at + 4) :: a[k] == b[k]
    ensures PaddedCrc(a) != PaddedCrc(b)
  {
    hide Register, Inverted;
    var end := if at + 4 <= |a| then at + 4 else |a|;
    var zeros, start := Zeros(Padding(|a|)), Register(0xffff_ffff, a[..at]);
    var rest := a[end..] + zeros;
    XorCancels(Register(0xffff_ffff, a + zeros), Register(0xffff_ffff, b + zeros), 0);
    ThreeParts(a, b, at, end, zeros);
    RegisterOfThree(0xffff_ffff, a[..at], a[at..end], rest);
    RegisterOfThree(0xffff_ffff, a[..at], b[at..end], rest);
    if PaddedCrc(a) == PaddedCrc(b) {
      SameBytesKeepApart(Register(start, a[at..end]), Register(start, b[at..end]), rest);
      WindowsDiffer(start, a[at..end], b[at..end]);
    }
  }
}

/** The minimum distance of the checksummed frames is exactly four: for every message there is
    an error of four bits the checksum misses. */
module CrcTightness {
  import opened Words
  import opened Gf2
  import opened Crc16
  import opened CrcDetection
  import opened CrcPowers
  import opened CrcBursts

  function Zeros(n: nat): (z: seq<byte>)
    ensures |z| == n
  {
    seq(n, _ => 0)
  }

  lemma {:induction false} XorZeros(m: seq<byte>)
    ensures XorBytes(m, Zeros(|m|)) == m
  {
    if m != [] {
      var n := |m| - 1;
      assert Zeros(|m|)[..n] == Zeros(n);
      XorZeros(m[..n]);
      XorZero(m[n]);
    }
  }

  lemma {:induction false} ZeroStaysZero(n: nat)
    ensures ShiftSteps(0, n) == 0
  {
    if n > 0 { ZeroStaysZero(n - 1); }
  }

  lemma {:induction false} CrcOfZeros(n: nat)
    ensures CrcFrom(0, Zeros(n)) == 0
  {
    if n > 0 {
      assert Zeros(n)[..n - 1] == Zeros(n - 1);
      CrcOfZeros(n - 1);
      ZeroStaysZero(8);
      XorZero(0);
    }
  }

  /** Only the last byte of such a message counts. */
  lemma CrcOfLastByte(n: nat, d: byte)
    ensures CrcFrom(0, Zeros(n) + [d]) == ShiftSteps(0x100 * d, 8)
  {
    assert (Zeros(n) + [d])[..n] == Zeros(n);
    CrcOfZeros(n);
    ZeroXor(0x100 * d);
  }

  lemma ZeroXor(n: nat)
    ensures Xor(0, n) == n
  {
    XorCommutes(n, 0);
    XorZero(n);
  }

  /** x^8 shifted eight times is x^16, which reduces to the generator's low part. */
  lemma EightShiftsOfOne()
    ensures ShiftSteps(0x100, 8) == CRC16_MCUCO
  {
    Pow2Values();
    forall e: nat ensures Bit(0x100, e) == (e == 8) { Pow2Bit(8, e); }
    assert PolyOf(0x100) == {8};
    PolyOfShiftSteps(0x100, 8);
    StepsShift(8, 7);
    StepMember({15});
    assert Steps({8}, 8) == StepPoly(Steps({8}, 7));
    forall e: nat ensures Bit(CRC16_MCUCO, e) <==> e == 0 || e == 5 || e == 12 { GeneratorBits(e); }
    assert StepPoly({15}) == {0, 5, 12} == PolyOf(CRC16_MCUCO);
    PolyOfInjective(ShiftSteps(0x100, 8), CRC16_MCUCO);
  }

  lemma XorCommutes(a: nat, b: nat)
    ensures Xor(a, b) == Xor(b, a)
  {
    BitwiseBits(XOR, a, b);
    BitwiseBits(XOR, b, a);
    SameBits(Xor(a, b), Xor(b, a));
  }

  /** What flipping bits of the last byte does to the checksum. */
  lemma FlippingTheLastByte(m: seq<byte>, x: byte, d: byte)
    ensures Xor(x, d) < 0x100 && Crc(m + [Xor(x, d)]) == Xor(Crc(m + [x]), ShiftSteps(0x100 * d, 8))
  {
    var z := Zeros(|m|) + [d];
    ByteXorFits(x, d);
    XorZeros(m);
    assert (m + [x])[..|m|] == m && z[..|m|] == Zeros(|m|);
    assert XorBytes(m + [x], z) == m + [Xor(x, d)];
    CrcAffine(m + [x], z);
    CrcOfLastByte(|m|, d);
  }

  lemma FlippingTheLastBit(m: seq<byte>, x: byte)
    requires x % 2 == 0
    ensures x + 1 < 0x100 && Crc(m + [x + 1]) == Xor(Crc(m + [x]), CRC16_MCUCO)
  {
    FlippingTheLastByte(m, x, 1);
    XorZero(x / 2);
    assert Xor(x, 1) == x + 1;
    EightShiftsOfOne();
  }

  lemma WireCrcBits(c: uint16, k: nat)
    requires k < 16
    ensures MessageBits(WireCrc(c))[k] == Bit(c, if k < 8 then 7 - k else 23 - k)
  {
    MessageBitAt(WireCrc(c), k);
    CrcWireBit([], c, true, k);
    assert [] + WireCrc(c) == WireCrc(c);
  }

  lemma ChecksumsThreeApart(c: uint16, e: uint16)
    requires e == Xor(c, CRC16_MCUCO)
    ensures Distance(WireCrc(c), WireCrc(e)) == 3
  {
    var w := XorBits(MessageBits(WireCrc(c)), MessageBits(WireCrc(e)));
    BitwiseBits(XOR, c, CRC16_MCUCO);
    forall k: nat | k < 16 ensures w[k] == (k == 2 || k == 7 || k == 11) {
      WireCrcBits(c, k);
      WireCrcBits(e, k);
      GeneratorBits(if k < 8 then 7 - k else 23 - k);
    }
    ThreeOnes(w);
  }

  lemma ThreeOnes(w: seq<bool>)
    requires |w| == 16 && forall k :: 0 <= k < 16 ==> w[k] == (k == 2 || k == 7 || k == 11)
    ensures Weight(w) == 3
  {
    assert w == w[..2] + [true] + w[3..7] + [true] + w[8..11] + [true] + w[12..];
    WeightZero(w[..2]); WeightZero(w[3..7]); WeightZero(w[8..11]); WeightZero(w[12..]);
    assert Weight([true]) == 1 by { assert [true][..0] == []; }
    WeightConcat(w[..2], [true]);
    WeightConcat(w[..2] + [true], w[3..7]);
    WeightConcat(w[..2] + [true] + w[3..7], [true]);
    WeightConcat(w[..2] + [true] + w[3..7] + [true], w[8..11]);
    WeightConcat(w[..2] + [true] + w[3..7] + [true] + w[8..11], [true]);
    WeightConcat(w[..2] + [true] + w[3..7] + [true] + w[8..11] + [true], w[12..]);
  }

  lemma NeighboursOneApart(x: byte)
    requires x % 2 == 0
    ensures x + 1 < 0x100 && Distance([x], [x + 1]) == 1
  {
    var v, y := [x], [x + 1];
    assert v[..0] == [] && y[..0] == [];
    assert MessageBits(v) == MessageBits([]) + ByteBits(x) == ByteBits(x);
    assert MessageBits(y) == MessageBits([]) + ByteBits(x + 1) == ByteBits(x + 1);
    var w := XorBits(MessageBits(v), MessageBits(y));
    forall k: nat | k < 8 ensures w[k] == (k == 7) {
      assert (x + 1) / 2 == x / 2;
      assert Bit(x + 1, 7 - k) == Bit(x, 7 - k) || k == 7;
    }
    assert w == w[..7] + [true];
    WeightZero(w[..7]);
    assert [true][..0] == [];
    WeightConcat(w[..7], [true]);
  }

  /** Four flipped bits, one in the message and three in the checksum, go unnoticed: the bound
      of three detected errors cannot be raised, for any message. */
  lemma FourIsAttained(m: seq<byte>, x: byte)
    requires x % 2 == 0
    ensures x + 1 < 0x100
    ensures var a, b := m + [x], m + [x + 1]; Distance(a + WireCrc(Crc(a)), b + WireCrc(Crc(b))) == 4
  {
    var a, b := m + [x], m + [x + 1];
    FlippingTheLastBit(m, x);
    ChecksumsThreeApart(Crc(a), Crc(b));
    NeighboursOneApart(x);
    DistanceZero(m, m);
    DistanceConcat(m, m, [x], [x + 1]);
    DistanceConcat(a, b, WireCrc(Crc(a)), WireCrc(Crc(b)));
  }

  // ----- bursts one bit longer than the limit

  /** The shifts in plain arithmetic. */
  function ArithSteps(c: int, n: nat): int {
    if n == 0 then c else ShiftArith(ArithSteps(c, n - 1))
  }

  lemma {:induction false} ShiftsAreArithmetic(c: uint16, n: nat)
    ensures ShiftSteps(c, n) == ArithSteps(c, n)
  {
    if n > 0 {
      ShiftsAreArithmetic(c, n - 1);
      ShiftStepArith(ShiftSteps(c, n - 1));
    }
  }

  predicate Takes(c: int, n: nat, d: int) { ArithSteps(c, n) == d }

  lemma FourShifts(c: int, n: nat, a0: int, a1: int, a2: int, a3: int, a4: int)
    requires Takes(c, n, a0) && Shifts(a0, a1) && Shifts(a1, a2) && Shifts(a2, a3) && Shifts(a3, a4)
    ensures Takes(c, n + 4, a4)
  {
    assert Takes(c, n + 1, a1);
    assert Takes(c, n + 2, a2);
    assert Takes(c, n + 3, a3);
  }

  /** The eight shifts of 0x98 at the top of the register. */
  lemma EightShiftsOfPattern(c: uint16, n: nat)
    requires c == 0x9800 && n == 8
    ensures ShiftSteps(c, n) == 0x02B1
  {
    FourShifts(c, n - 8, 0x9800, 0x2021, 0x4042, 0x8084, 0x1129);
    FourShifts(c, n - 4, 0x1129, 0x2252, 0x44A4, 0x8948, 0x02B1);
    ShiftsAreArithmetic(c, n);
  }

  /** Two messages that differ in their last byte: where their images differ. */
  lemma LastByteWindow(m: seq<byte>, x: byte, y: byte, c: uint16, e: uint16, highFirst: bool, lo: nat, length: nat)
    requires forall t: nat :: t < 8 && WireBit([x], highFirst, t) != WireBit([y], highFirst, t) ==> lo <= t < lo + length
    requires forall t: nat :: t < 16 && WireBit(WireCrc(c), highFirst, t) != WireBit(WireCrc(e), highFirst, t) ==>
      lo <= t + 8 < lo + length
    ensures DifferWithin(m + [x] + WireCrc(c), m + [y] + WireCrc(e), highFirst, 8 * |m| + lo, length)
  {
    var v, w := m + [x] + WireCrc(c), m + [y] + WireCrc(e);
    forall t: nat | t < 8 * |v| && WireBit(v, highFirst, t) != WireBit(w, highFirst, t)
      ensures 8 * |m| + lo <= t < 8 * |m| + lo + length
    {
      if t / 8 == |m| {
        assert WireBit([x], highFirst, t - 8 * |m|) != WireBit([y], highFirst, t - 8 * |m|);
      } else if t / 8 > |m| {
        var u: nat := t - 8 * |m| - 8;
        assert WireBit(WireCrc(c), highFirst, u) != WireBit(WireCrc(e), highFirst, u);
      }
    }
  }

  /** Thirteen consecutive bits, sent highest bit first, can hide an error: for every message
      there is another with a valid checksum that differs only there. */
  lemma ThirteenIsAttained(m: seq<byte>, x: byte)
    requires x % 2 == 0
    ensures x + 1 < 0x100
    ensures var a, b := m + [x], m + [x + 1];
      DifferWithin(a + WireCrc(Crc(a)), b + WireCrc(Crc(b)), true, 8 * |m| + 7, BurstLimit(true) + 1)
  {
    var c := Crc(m + [x]);
    FlippingTheLastBit(m, x);
    BitwiseBits(XOR, c, CRC16_MCUCO);
    forall t: nat | t < 16 && WireBit(WireCrc(c), true, t) != WireBit(WireCrc(Xor(c, CRC16_MCUCO)), true, t)
      ensures 7 <= t + 8 < 20
    {
      CrcPairBit(c, Xor(c, CRC16_MCUCO), true, t);
      GeneratorBits(if t < 8 then 7 - t else 23 - t);
    }
    forall t: nat | t < 8 && WireBit([x], true, t) != WireBit([x + 1], true, t) ensures 7 <= t {
      assert (x + 1) / 2 == x / 2;
    }
    LastByteWindow(m, x, x + 1, c, Xor(c, CRC16_MCUCO), true, 7, 13);
  }

  lemma CrcPairBit(c: uint16, e: uint16, highFirst: bool, t: nat)
    requires t < 16
    ensures var i := (if t < 8 then 0 else 8) + if highFirst then 7 - t % 8 else t % 8;
      WireBit(WireCrc(c), highFirst, t) == Bit(c, i) && WireBit(WireCrc(e), highFirst, t) == Bit(e, i)
  {
    CrcWireBit([], c, highFirst, t);
    CrcWireBit([], e, highFirst, t);
    assert [] + WireCrc(c) == WireCrc(c) && [] + WireCrc(e) == WireCrc(e);
  }

  /** Fifteen consecutive bits in the order of the serial line, lowest bit first, can. */
  lemma FifteenIsAttained(m: seq<byte>, x: byte)
    ensures Xor(x, 0x98) < 0x100 && Xor(x, 0x98) != x
    ensures var a, b := m + [x], m + [Xor(x, 0x98)];
      DifferWithin(a + WireCrc(Crc(a)), b + WireCrc(Crc(b)), false, 8 * |m| + 3, BurstLimit(false) + 1)
  {
    var c, y, p: uint16 := Crc(m + [x]), Xor(x, 0x98), 0x02B1;
    FlippingTheLastByte(m, x, 0x98);
    EightShiftsOfPattern(0x9800, 8);
    BitwiseBits(XOR, c, p);
    BitwiseBits(XOR, x, 0x98);
    PatternBits();
    forall t: nat | t < 16 && WireBit(WireCrc(c), false, t) != WireBit(WireCrc(Xor(c, p)), false, t) ensures t < 10 {
      CrcPairBit(c, Xor(c, p), false, t);
    }
    forall t: nat | t < 8 && WireBit([x], false, t) != WireBit([y], false, t) ensures 3 <= t {
    }
    LastByteWindow(m, x, y, c, Xor(c, p), false, 3, 15);
  }

  lemma PatternBits()
    ensures forall i: nat :: Bit(0x98, i) ==> i >= 3
    ensures Bit(0x98, 7)
    ensures forall i: nat :: Bit(0x02B1, i) ==> i < 10
  {
    assert Pow2(10) == 1024 by { assert Pow2(4) == 16; assert Pow2(6) == 64; assert Pow2(8) == 256; }
    FitsIffNoHighBits(0x02B1, 10);
    forall i: nat | i < 3 ensures !Bit(0x98, i) {
      assert 0x98 / 2 == 0x4C && 0x4C / 2 == 0x26;
    }
    assert Bit(0x98, 7) == Bit(0x4C, 6) == Bit(0x26, 5) == Bit(0x13, 4) == Bit(9, 3) == Bit(4, 2) == Bit(2, 1) == Bit(1, 0);
  }
}

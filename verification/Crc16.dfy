/** The frame checksum (common/crc16.c) and its host twin: CRC-16/CCITT-FALSE, proved
    to be a remainder of polynomial division over GF(2). */
module Crc16 {
  import opened Words
  import opened Gf2

  const INIT: uint16 := 0xFFFF
  const CRC16_MCUCO: uint16 := 0x1021

  /** One shift of the 16-bit register. */
  function ShiftStep(c: uint16): uint16 {
    XorFits(2 * c % 0x1_0000, CRC16_MCUCO);
    if c >= 0x8000 then Xor(2 * c % 0x1_0000, CRC16_MCUCO) else 2 * c
  }

  function ShiftSteps(c: uint16, n: nat): uint16 {
    if n == 0 then c else ShiftStep(ShiftSteps(c, n - 1))
  }

  /** One message byte: added at the top of the register, then eight shifts. */
  function ByteStep(c: uint16, b: byte): uint16 {
    XorFits(c, 0x100 * b);
    ShiftSteps(Xor(c, 0x100 * b), 8)
  }

  function CrcFrom(c: uint16, m: seq<byte>): uint16 {
    if m == [] then c else ByteStep(CrcFrom(c, m[..|m| - 1]), m[|m| - 1])
  }

  /** The checksum of a message. */
  function Crc(m: seq<byte>): uint16 { CrcFrom(INIT, m) }

  function CrcLow(c: uint16): byte { c % 0x100 }
  function CrcHigh(c: uint16): byte { c / 0x100 }
  function Combine(low: byte, high: byte): uint16 { 0x100 * high + low }

  lemma Pow2Values()
    ensures Pow2(4) == 0x10 && Pow2(8) == 0x100 && Pow2(15) == 0x8000 && Pow2(16) == 0x1_0000
  {
    assert Pow2(2) == 4;
    assert Pow2(4) == 0x10;
    assert Pow2(6) == 64;
    assert Pow2(8) == 0x100;
    assert Pow2(10) == 1024;
    assert Pow2(12) == 4096;
    assert Pow2(14) == 16384;
  }

  lemma XorFits(a: uint16, b: uint16)
    ensures Xor(a, b) < 0x1_0000
  {
    Pow2Values();
    FitsIffNoHighBits(a, 16);
    FitsIffNoHighBits(b, 16);
    BitwiseBits(XOR, a, b);
    FitsIffNoHighBits(Xor(a, b), 16);
  }

  // ----- the loops of the firmware and of the host

  lemma TopBitTest(c: uint16)
    ensures And(c, 0x8000) != 0 <==> c >= 0x8000
    ensures Bit(c, 15) <==> c >= 0x8000
  {
    Pow2Values();
    BitwiseBits(AND, c, 0x8000);
    FitsIffNoHighBits(c, 15);
    FitsIffNoHighBits(c, 16);
    forall i: nat ensures Bit(And(c, 0x8000), i) == (i == 15 && Bit(c, 15)) { Pow2Bit(15, i); }
    if And(c, 0x8000) == 0 { ZeroBit(15); }
    if !Bit(c, 15) {
      forall i: nat ensures Bit(And(c, 0x8000), i) == Bit(0, i) { ZeroBit(i); }
      SameBits(And(c, 0x8000), 0);
    }
  }

  lemma LoadByte(c: uint16, b: byte)
    ensures Xor(c, Shl(b, 8)) < 0x1_0000 && Xor(c, Shl(b, 8)) == Xor(c, 0x100 * b)
  {
    ShlIsTimesPow2(b, 8);
    Pow2Values();
    XorFits(c, 0x100 * b);
  }

  lemma FirmwareShiftStep(c: uint16, s: nat)
    requires s == Shl(c, 1) % 0x1_0000
    ensures And(c, 0x8000) != 0 ==> Xor(s, CRC16_MCUCO) < 0x1_0000 && Xor(s, CRC16_MCUCO) == ShiftStep(c)
    ensures And(c, 0x8000) == 0 ==> s == ShiftStep(c)
  {
    assert s == 2 * c % 0x1_0000;
    TopBitTest(c);
    XorFits(s, CRC16_MCUCO);
  }

  lemma CrcGrows(c: uint16, m: seq<byte>, i: nat)
    requires i < |m|
    ensures CrcFrom(c, m[..i + 1]) == ByteStep(CrcFrom(c, m[..i]), m[i])
  {
    assert m[..i + 1][..i] == m[..i];
  }

  lemma ByteGrows(m: seq<byte>, i: nat, c: uint16)
    requires i < |m| && c == Crc(m[..i])
    ensures Xor(c, Shl(m[i], 8)) < 0x1_0000 && Crc(m[..i + 1]) == ShiftSteps(Xor(c, Shl(m[i], 8)), 8)
  {
    CrcGrows(INIT, m, i);
    LoadByte(c, m[i]);
  }

  /** crc16_compute(): two nested loops over one register. */
  method Crc16Compute(data: array<byte>, start: nat, size: byte) returns (crc: uint16)
    requires start + size <= data.Length
    ensures crc == Crc(data[start..start + size])
  {
    crc := INIT;
    var i := 0;
    ghost var m: seq<byte> := data[start..start + size];
    while i < size
      invariant i <= size
      invariant crc == Crc(m[..i])
    {
      assert data[start + i] == m[i];
      ByteGrows(m, i, crc);
      crc := Xor(crc, Shl(data[start + i], 8));
      ghost var loaded := crc;
      var bit := 0;
      while bit < 8
        invariant bit <= 8
        invariant crc == ShiftSteps(loaded, bit)
      {
        FirmwareShiftStep(crc, Shl(crc, 1) % 0x1_0000);
        if And(crc, 0x8000) != 0 {
          crc := Xor(Shl(crc, 1) % 0x1_0000, CRC16_MCUCO);
        } else {
          crc := Shl(crc, 1) % 0x1_0000;
        }
        bit := bit + 1;
      }
      i := i + 1;
    }
    assert m[..size] == m;
  }

  /** The inner step of the host's loop: masked after the exclusive-or instead of before. */
  method HostShift(c: uint16) returns (r: uint16)
    ensures r == ShiftStep(c)
  {
    HostShiftStep(c, Shl(c, 1));
    if And(c, 0x8000) != 0 {
      r := And(Xor(Shl(c, 1), CRC16_MCUCO), Mask(16));
    } else {
      r := And(Shl(c, 1), Mask(16));
    }
  }

  /** crc16_ccitt_false(). */
  method Crc16CcittFalse(data: seq<byte>) returns (crc: uint16)
    ensures crc == Crc(data)
  {
    crc := 0xFFFF;
    for i := 0 to |data|
      invariant crc == Crc(data[..i])
    {
      ByteGrows(data, i, crc);
      crc := Xor(crc, Shl(data[i], 8));
      ghost var loaded: uint16 := crc;
      for bit := 0 to 8
        invariant crc == ShiftSteps(loaded, bit)
      {
        crc := HostShift(crc);
      }
    }
    assert data[..|data|] == data;
  }

  /** One pass of the host's inner loop: mask after the exclusive-or, or after the shift. */
  lemma HostShiftStep(c: uint16, s: nat)
    requires s == Shl(c, 1)
    ensures And(c, 0x8000) != 0 ==> And(Xor(s, CRC16_MCUCO), Mask(16)) == ShiftStep(c)
    ensures And(c, 0x8000) == 0 ==> And(s, Mask(16)) == ShiftStep(c)
  {
    assert s == 2 * c;
    TopBitTest(c);
    if c >= 0x8000 {
      MaskAfterXor(s, CRC16_MCUCO);
    } else {
      MaskIsIdentity(s);
    }
  }

  lemma MaskIsIdentity(s: uint16)
    ensures And(s, Mask(16)) == s
  {
    Pow2Values();
    AndMaskIsMod(s, 16);
  }

  lemma MaskAfterXor(a: nat, g: uint16)
    ensures And(Xor(a, g), Mask(16)) == Xor(a % 0x1_0000, g)
  {
    var l, r := And(Xor(a, g), Mask(16)), Xor(a % 0x1_0000, g);
    Pow2Values();
    BitwiseBits(AND, Xor(a, g), Mask(16));
    MaskBits(16);
    BitwiseBits(XOR, a, g);
    BitwiseBits(XOR, a % 0x1_0000, g);
    FitsIffNoHighBits(g, 16);
    forall i: nat ensures Bit(l, i) == Bit(r, i) { ModPow2Bit(a, 16, i); }
    SameBits(l, r);
  }

  // ----- registers and messages as polynomials

  /** The polynomial a 16-bit register stands for. */
  function PolyOf(c: uint16): Poly { set e: nat | e < 16 && Bit(c, e) }

  /** The bits of a byte in the order the checksum consumes them: highest first. */
  function ByteBits(b: byte): (w: seq<bool>)
    ensures |w| == 8 && forall k :: 0 <= k < 8 ==> w[k] == Bit(b, 7 - k)
  {
    seq(8, k requires 0 <= k < 8 => Bit(b, 7 - k))
  }

  function MessageBits(m: seq<byte>): (w: seq<bool>)
    ensures |w| == 8 * |m|
  {
    if m == [] then [] else MessageBits(m[..|m| - 1]) + ByteBits(m[|m| - 1])
  }

  lemma PolyOfInjective(a: uint16, b: uint16)
    requires PolyOf(a) == PolyOf(b)
    ensures a == b
  {
    Pow2Values();
    FitsIffNoHighBits(a, 16); FitsIffNoHighBits(b, 16);
    forall i: nat ensures Bit(a, i) == Bit(b, i) {
      if i < 16 { assert i in PolyOf(a) <==> i in PolyOf(b); }
    }
    SameBits(a, b);
  }

  lemma PolyOfXor(a: uint16, b: uint16)
    ensures Xor(a, b) < 0x1_0000
    ensures PolyOf(Xor(a, b)) == Add(PolyOf(a), PolyOf(b))
  {
    XorFits(a, b);
    BitwiseBits(XOR, a, b);
  }

  /** Digits of 0x1021 = 2^12 + 2^5 + 1. */
  lemma GeneratorBits(i: nat)
    ensures Bit(CRC16_MCUCO, i) <==> i == 0 || i == 5 || i == 12
  {
    assert Bit(CRC16_MCUCO, i) == if i == 0 then true else Bit(2064, i - 1);
    assert i >= 3 ==> Bit(2064, i - 1) == Bit(516, i - 3);
    assert i >= 5 ==> Bit(516, i - 3) == Bit(129, i - 5);
    assert i >= 6 ==> Bit(129, i - 5) == Bit(64, i - 6);
    assert Pow2(3) == 8;
    assert Pow2(6) == 64;
    if i >= 6 { Pow2Bit(6, i - 6); }
  }

  lemma PolyOfShiftStep(c: uint16)
    ensures PolyOf(ShiftStep(c)) == StepPoly(PolyOf(c))
  {
    var s := 2 * c % 0x1_0000;
    TopBitTest(c);
    Pow2Values();
    StepMember(PolyOf(c));
    XorFits(s, CRC16_MCUCO);
    BitwiseBits(XOR, s, CRC16_MCUCO);
    forall e: nat ensures e in PolyOf(ShiftStep(c)) <==> e in StepPoly(PolyOf(c)) {
      GeneratorBits(e);
      ModPow2Bit(2 * c, 16, e);
      assert e > 0 ==> Bit(2 * c, e) == Bit(c, e - 1);
    }
  }

  lemma {:induction false} PolyOfShiftSteps(c: uint16, n: nat)
    ensures PolyOf(ShiftSteps(c, n)) == Steps(PolyOf(c), n)
  {
    if n > 0 {
      PolyOfShiftSteps(c, n - 1);
      PolyOfShiftStep(ShiftSteps(c, n - 1));
    }
  }

  lemma PolyOfByteStep(c: uint16, b: byte)
    ensures PolyOf(ByteStep(c, b)) == FeedAll(PolyOf(c), ByteBits(b))
  {
    var top := 0x100 * b;
    PolyOfXor(c, top);
    PolyOfShiftSteps(Xor(c, top), 8);
    FeedIsLoadAndSteps(PolyOf(c), ByteBits(b));
    TopIsLoad(b);
  }

  lemma TopIsLoad(b: byte)
    ensures PolyOf(0x100 * b) == Load(ByteBits(b))
  {
    var top := 0x100 * b;
    Pow2Values();
    ShlIsTimesPow2(b, 8);
    FitsIffNoHighBits(b, 8);
    forall e: nat ensures e in PolyOf(top) <==> e in Load(ByteBits(b)) {
      ShlBit(b, 8, e);
      assert 8 <= e < 16 ==> ByteBits(b)[15 - e] == Bit(b, e - 8);
      assert e >= 16 ==> !Bit(b, e - 8);
    }
    assert PolyOf(top) == Load(ByteBits(b));
  }

  lemma {:induction false} PolyOfCrcFrom(c: uint16, m: seq<byte>)
    ensures PolyOf(CrcFrom(c, m)) == FeedAll(PolyOf(c), MessageBits(m))
  {
    if m != [] {
      var n := |m| - 1;
      PolyOfCrcFrom(c, m[..n]);
      PolyOfByteStep(CrcFrom(c, m[..n]), m[n]);
      FeedAllConcat(PolyOf(c), MessageBits(m[..n]), ByteBits(m[n]));
    }
  }

  // ----- main results

  /** x^15 + x^14 + ... + 1. */
  const ALL_ONES: Poly := {0, 1, 2, 3, 4, 5, 6, 7, 8, 9, 10, 11, 12, 13, 14, 15}

  lemma SeedIsAllOnes()
    ensures PolyOf(INIT) == ALL_ONES && PolyOf(Crc([])) == ALL_ONES
  {
    Pow2Values();
    MaskBits(16);
    assert INIT == Mask(16);
  }

  /** The checksum is the one remainder of (x^15 + ... + 1) * x^(8n) + message * x^16. */
  lemma CrcIsTheRemainder(m: seq<byte>, r: Poly)
    ensures IsRemainder(Dividend(ALL_ONES, MessageBits(m)), r) <==> r == PolyOf(Crc(m))
  {
    SeedIsAllOnes();
    PolyOfCrcFrom(INIT, m);
    RegisterIsRemainder(PolyOf(INIT), MessageBits(m));
    if IsRemainder(Dividend(PolyOf(INIT), MessageBits(m)), r) {
      RemainderUnique(Dividend(PolyOf(INIT), MessageBits(m)), r, PolyOf(Crc(m)));
    }
  }

  lemma {:induction false} CrcComposes(c: uint16, a: seq<byte>, b: seq<byte>)
    ensures CrcFrom(c, a + b) == CrcFrom(CrcFrom(c, a), b)
  {
    if b == [] {
      assert a + b == a;
    } else {
      assert (a + b)[..|a + b| - 1] == a + b[..|b| - 1];
      CrcComposes(c, a, b[..|b| - 1]);
    }
  }

  function XorBytes(a: seq<byte>, b: seq<byte>): (c: seq<byte>)
    requires |a| == |b|
    ensures |c| == |a|
  {
    if a == [] then []
    else
      var n := |a| - 1;
      XorFits(a[n], b[n]); ByteXorFits(a[n], b[n]);
      XorBytes(a[..n], b[..n]) + [Xor(a[n], b[n])]
  }

  lemma ByteXorFits(a: byte, b: byte)
    ensures Xor(a, b) < 0x100
  {
    Pow2Values();
    FitsIffNoHighBits(a, 8); FitsIffNoHighBits(b, 8);
    BitwiseBits(XOR, a, b);
    FitsIffNoHighBits(Xor(a, b), 8);
  }

  lemma {:induction false} MessageBitsXor(a: seq<byte>, b: seq<byte>)
    requires |a| == |b|
    ensures MessageBits(XorBytes(a, b)) == XorBits(MessageBits(a), MessageBits(b))
  {
    if a != [] {
      var n := |a| - 1;
      MessageBitsXor(a[..n], b[..n]);
      BitwiseBits(XOR, a[n], b[n]);
      assert XorBytes(a, b)[..n] == XorBytes(a[..n], b[..n]);
      assert ByteBits(XorBytes(a, b)[n]) == XorBits(ByteBits(a[n]), ByteBits(b[n]));
    }
  }

  /** The checksum is affine: adding a difference to the message adds the zero-seeded
      checksum of that difference to the result. */
  lemma CrcAffine(m: seq<byte>, d: seq<byte>)
    requires |m| == |d|
    ensures Crc(XorBytes(m, d)) == Xor(Crc(m), CrcFrom(0, d))
  {
    PolyOfCrcFrom(INIT, XorBytes(m, d));
    PolyOfCrcFrom(INIT, m);
    PolyOfCrcFrom(0, d);
    MessageBitsXor(m, d);
    assert PolyOf(0) == {} by { forall i: nat ensures !Bit(0, i) { ZeroBit(i); } }
    FeedAllAdd(PolyOf(INIT), {}, MessageBits(m), MessageBits(d));
    assert Add(PolyOf(INIT), {}) == PolyOf(INIT);
    PolyOfXor(Crc(m), CrcFrom(0, d));
    PolyOfInjective(Crc(XorBytes(m, d)), Xor(Crc(m), CrcFrom(0, d)));
  }

  /** The 16 bits of a register, highest first: the bytes [high, low]. */
  lemma RegisterBits(c: uint16)
    ensures |MessageBits([CrcHigh(c), CrcLow(c)])| == 16
    ensures Load(MessageBits([CrcHigh(c), CrcLow(c)])) == PolyOf(c)
  {
    var hi, lo := CrcHigh(c), CrcLow(c);
    var w := MessageBits([hi, lo]);
    assert [hi, lo][..1] == [hi];
    assert [hi][..0] == [];
    assert MessageBits([hi]) == [] + ByteBits(hi);
    assert w == ByteBits(hi) + ByteBits(lo);
    Pow2Values();
    forall e: nat ensures e in Load(w) <==> e in PolyOf(c) {
      if e < 8 {
        ModPow2Bit(c, 8, e);
      } else if e < 16 {
        ShrBit(c, 8, e - 8);
        ShrIsDiv(c, 8);
      }
    }
  }

  lemma HalfDiv(n: nat, m: nat)
    requires m > 0
    ensures n / 2 / m == n / (2 * m)
  {
    var q, r := n / 2 / m, n / 2 % m;
    assert n == 2 * (q * m + r) + n % 2;
    assert 2 * (q * m) == q * (2 * m);
    DivModUnique(n, 2 * m, q, 2 * r + n % 2);
  }

  lemma {:induction false} ShrIsDiv(n: nat, k: nat)
    ensures Shr(n, k) == n / Pow2(k)
    decreases k
  {
    if k > 0 {
      ShrIsDiv(n / 2, k - 1);
      HalfDiv(n, Pow2(k - 1));
    }
  }

  /** A message followed by its own checksum, high byte first, leaves residue zero; and
      only its own checksum does. */
  lemma ResidueZeroIffOwnCrc(m: seq<byte>, c: uint16)
    ensures Crc(m + [CrcHigh(c), CrcLow(c)]) == 0 <==> c == Crc(m)
  {
    var t := [CrcHigh(c), CrcLow(c)];
    var r := PolyOf(Crc(m));
    CrcComposes(INIT, m, t);
    PolyOfCrcFrom(Crc(m), t);
    RegisterBits(c);
    FeedIsLoadAndSteps(r, MessageBits(t));
    assert PolyOf(0) == {} by { forall i: nat ensures !Bit(0, i) { ZeroBit(i); } }
    StepsZero(16);
    if Crc(m + t) == 0 {
      StepsInjective(Add(r, PolyOf(c)), {}, 16);
      AddCancel(r, PolyOf(c), {}, {});
      PolyOfInjective(Crc(m), c);
    }
    if c == Crc(m) {
      assert Add(r, PolyOf(c)) == {};
      PolyOfInjective(Crc(m + t), 0);
    }
  }
}

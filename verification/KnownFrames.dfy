/** The check value of the checksum, and the frames the protocol document prints byte for byte. */
module KnownFrames {
  import opened Words
  import opened Gf2
  import opened Crc16
  import opened CrcPowers
  import opened CrcBursts
  import opened CrcDetection

  // ----- one bit in plain arithmetic

  /** The register with its top bit flipped if the message bit is set, shifted once. */
  function FeedArith(c: int, bit: bool): int {
    ShiftArith(if !bit then c else if c < 0x8000 then c + 0x8000 else c - 0x8000)
  }

  lemma TopBitAdded(c: nat)
    requires c < 0x8000
    ensures PolyOf(c + 0x8000) == PolyOf(c) + {15} && 15 !in PolyOf(c)
  {
    Pow2Values();
    OrShiftIsSum(c, 1, 15);
    BitwiseBits(OR, c, Shl(1, 15));
    OneBit(15);
    TopBitTest(c);
  }

  lemma FeedIsArithmetic(c: uint16, bit: bool)
    ensures 0 <= FeedArith(c, bit) < 0x1_0000 && PolyOf(FeedArith(c, bit)) == Feed(PolyOf(c), bit)
  {
    var d: uint16 := if !bit then c else if c < 0x8000 then c + 0x8000 else c - 0x8000;
    TopBitAdded(if c < 0x8000 then c else c - 0x8000);
    assert PolyOf(d) == Add(PolyOf(c), Unless(!bit, {15}));
    ShiftStepArith(d);
    PolyOfShiftStep(d);
  }

  // ----- one byte of a message

  /** The register after the first `t` bits of a message. */
  ghost predicate Holds(m: seq<byte>, t: nat, c: int) {
    t <= 8 * |m| && 0 <= c < 0x1_0000 && FeedAll(ALL_ONES, MessageBits(m)[..t]) == PolyOf(c)
  }

  /** The digit of weight `p` of `b` takes the register from `c` to `d`. */
  predicate Feeds(c: int, b: int, p: int, d: int)
    requires p > 0
  {
    FeedArith(c, b / p % 2 == 1) == d
  }

  lemma BitAt(m: seq<byte>, k: nat, j: nat)
    requires k < |m| && j < 8
    ensures MessageBits(m)[8 * k + j] == Bit(m[k], 7 - j)
  {
    MessageBitAt(m, 8 * k + j);
    assert (8 * k + j) / 8 == k && (8 * k + j) % 8 == j;
  }

  lemma NextBit(m: seq<byte>, k: nat, j: nat, b: byte, p: nat, c: int, d: int)
    requires k < |m| && m[k] == b && j < 8 && p == Pow2(7 - j)
    requires Holds(m, 8 * k + j, c) && Feeds(c, b, p, d)
    ensures Holds(m, 8 * k + j + 1, d)
  {
    var t := 8 * k + j;
    BitAt(m, k, j);
    BitIsDigit(b, 7 - j);
    FeedIsArithmetic(c, MessageBits(m)[t]);
    assert MessageBits(m)[..t + 1][..t] == MessageBits(m)[..t];
  }

  lemma NextByte(m: seq<byte>, k: nat, b: byte, c: int,
                 a1: int, a2: int, a3: int, a4: int, a5: int, a6: int, a7: int, a8: int)
    requires k < |m| && m[k] == b && Holds(m, 8 * k, c)
    requires Feeds(c, b, 128, a1) && Feeds(a1, b, 64, a2) && Feeds(a2, b, 32, a3) && Feeds(a3, b, 16, a4)
    requires Feeds(a4, b, 8, a5) && Feeds(a5, b, 4, a6) && Feeds(a6, b, 2, a7) && Feeds(a7, b, 1, a8)
    ensures Holds(m, 8 * (k + 1), a8)
  {
    assert Pow2(2) == 4 && Pow2(3) == 8 && Pow2(4) == 16;
    assert Pow2(5) == 32 && Pow2(6) == 64 && Pow2(7) == 128;
    NextBit(m, k, 0, b, 128, c, a1);
    NextBit(m, k, 1, b, 64, a1, a2);
    NextBit(m, k, 2, b, 32, a2, a3);
    NextBit(m, k, 3, b, 16, a3, a4);
    NextBit(m, k, 4, b, 8, a4, a5);
    NextBit(m, k, 5, b, 4, a5, a6);
    NextBit(m, k, 6, b, 2, a6, a7);
    NextBit(m, k, 7, b, 1, a7, a8);
  }

  lemma FirstBit(m: seq<byte>)
    ensures Holds(m, 0, 0xFFFF)
  {
    SeedIsAllOnes();
  }

  lemma LastBit(m: seq<byte>, c: uint16)
    requires Holds(m, 8 * |m|, c)
    ensures Crc(m) == c
  {
    SeedIsAllOnes();
    PolyOfCrcFrom(INIT, m);
    assert MessageBits(m)[..8 * |m|] == MessageBits(m);
    PolyOfInjective(Crc(m), c);
  }

  // ----- known checksums

  lemma CheckValuePart1(m: seq<byte>)
    requires m == [0x31, 0x32, 0x33, 0x34, 0x35, 0x36, 0x37, 0x38, 0x39]
    ensures Holds(m, 24, 0x5BCE)
  {
    FirstBit(m);
    NextByte(m, 0, 0x31, 0xFFFF, 0xEFDF, 0xCF9F, 0x9F3E, 0x3E7C, 0x7CF8, 0xF9F0, 0xE3C1, 0xC782);
    NextByte(m, 1, 0x32, 0xC782, 0x9F25, 0x2E6B, 0x4CF7, 0x89CF, 0x03BF, 0x077E, 0x1EDD, 0x3DBA);
    NextByte(m, 2, 0x33, 0x3DBA, 0x7B74, 0xF6E8, 0xEDD0, 0xDBA0, 0xA761, 0x5EE3, 0xADE7, 0x5BCE);
  }

  lemma CheckValuePart2(m: seq<byte>)
    requires m == [0x31, 0x32, 0x33, 0x34, 0x35, 0x36, 0x37, 0x38, 0x39]
    ensures Holds(m, 48, 0x2EF4)
  {
    CheckValuePart1(m);
    NextByte(m, 3, 0x34, 0x5BCE, 0xB79C, 0x7F19, 0xEE13, 0xDC26, 0xA86D, 0x50DA, 0xA1B4, 0x5349);
    NextByte(m, 4, 0x35, 0x5349, 0xA692, 0x5D05, 0xAA2B, 0x5456, 0xA8AC, 0x5158, 0xA2B0, 0x4560);
    NextByte(m, 5, 0x36, 0x4560, 0x8AC0, 0x05A1, 0x1B63, 0x26E7, 0x4DCE, 0x8BBD, 0x177A, 0x2EF4);
  }

  /** The check value of CRC-16/CCITT-FALSE: the checksum of "123456789". */
  lemma CheckValue(m: seq<byte>)
    requires m == [0x31, 0x32, 0x33, 0x34, 0x35, 0x36, 0x37, 0x38, 0x39]
    ensures Crc(m) == 0x29B1
  {
    CheckValuePart2(m);
    NextByte(m, 6, 0x37, 0x2EF4, 0x5DE8, 0xBBD0, 0x77A0, 0xFF61, 0xEEE3, 0xDDC6, 0xBB8C, 0x7718);
    NextByte(m, 7, 0x38, 0x7718, 0xEE30, 0xCC41, 0x9882, 0x3104, 0x7229, 0xE452, 0xD885, 0xA12B);
    NextByte(m, 8, 0x39, 0xA12B, 0x5277, 0xA4EE, 0x49DC, 0x8399, 0x0732, 0x0E64, 0x1CC8, 0x29B1);
    LastBit(m, 0x29B1);
  }

  /** mcu-co_Protocol.md:159. */
  lemma ProbeCrc(m: seq<byte>)
    requires m == [0x10, 0x00]
    ensures Crc(m) == 0x1E7C
  {
    FirstBit(m);
    NextByte(m, 0, 0x10, 0xFFFF, 0xEFDF, 0xCF9F, 0x8F1F, 0x1E3E, 0x3C7C, 0x78F8, 0xF1F0, 0xF3C1);
    NextByte(m, 1, 0x00, 0xF3C1, 0xF7A3, 0xFF67, 0xEEEF, 0xCDFF, 0x8BDF, 0x079F, 0x0F3E, 0x1E7C);
    LastBit(m, 0x1E7C);
  }

  lemma MagicCrcPart1(m: seq<byte>)
    requires m == [0x05, 0x01, 0x4D, 0x43, 0x55, 0x4F]
    ensures Holds(m, 24, 0x8D34)
  {
    FirstBit(m);
    NextByte(m, 0, 0x05, 0xFFFF, 0xEFDF, 0xCF9F, 0x8F1F, 0x0E1F, 0x1C3E, 0x285D, 0x50BA, 0xB155);
    NextByte(m, 1, 0x01, 0xB155, 0x728B, 0xE516, 0xDA0D, 0xA43B, 0x5857, 0xB0AE, 0x717D, 0xF2DB);
    NextByte(m, 2, 0x4D, 0xF2DB, 0xF597, 0xEB2E, 0xC67D, 0x9CDB, 0x39B6, 0x634D, 0xC69A, 0x8D34);
  }

  /** mcu-co_Protocol.md:160. */
  lemma MagicCrc(m: seq<byte>)
    requires m == [0x05, 0x01, 0x4D, 0x43, 0x55, 0x4F]
    ensures Crc(m) == 0xBCC6
  {
    MagicCrcPart1(m);
    NextByte(m, 3, 0x43, 0x8D34, 0x0A49, 0x04B3, 0x0966, 0x12CC, 0x2598, 0x4B30, 0x8641, 0x0C82);
    NextByte(m, 4, 0x55, 0x0C82, 0x1904, 0x2229, 0x4452, 0x9885, 0x212B, 0x5277, 0xA4EE, 0x49DC);
    NextByte(m, 5, 0x4F, 0x49DC, 0x93B8, 0x2770, 0x4EE0, 0x9DC0, 0x3B80, 0x6721, 0xDE63, 0xBCC6);
    LastBit(m, 0xBCC6);
  }

  /** mcu-co_Protocol.md:188. */
  lemma ResetCrc(m: seq<byte>)
    requires m == [0x11, 0x00]
    ensures Crc(m) == 0x2D4D
  {
    FirstBit(m);
    NextByte(m, 0, 0x11, 0xFFFF, 0xEFDF, 0xCF9F, 0x8F1F, 0x1E3E, 0x3C7C, 0x78F8, 0xF1F0, 0xE3E0);
    NextByte(m, 1, 0x00, 0xE3E0, 0xD7E1, 0xBFE3, 0x6FE7, 0xDFCE, 0xAFBD, 0x4F5B, 0x9EB6, 0x2D4D);
    LastBit(m, 0x2D4D);
  }

  /** mcu-co_Protocol.md:189, and wherever a bare acknowledgement is shown. */
  lemma AckCrc(m: seq<byte>)
    requires m == [0x01, 0x01]
    ensures Crc(m) == 0x3E1F
  {
    FirstBit(m);
    NextByte(m, 0, 0x01, 0xFFFF, 0xEFDF, 0xCF9F, 0x8F1F, 0x0E1F, 0x1C3E, 0x387C, 0x70F8, 0xF1D1);
    NextByte(m, 1, 0x01, 0xF1D1, 0xF383, 0xF727, 0xFE6F, 0xECFF, 0xC9DF, 0x839F, 0x171F, 0x3E1F);
    LastBit(m, 0x3E1F);
  }

  /** mcu-co_Protocol.md:587. */
  lemma BusyCrc(m: seq<byte>)
    requires m == [0x02, 0x00, 0x06]
    ensures Crc(m) == 0xC23A
  {
    FirstBit(m);
    NextByte(m, 0, 0x02, 0xFFFF, 0xEFDF, 0xCF9F, 0x8F1F, 0x0E1F, 0x1C3E, 0x387C, 0x60D9, 0xC1B2);
    NextByte(m, 1, 0x00, 0xC1B2, 0x9345, 0x36AB, 0x6D56, 0xDAAC, 0xA579, 0x5AD3, 0xB5A6, 0x7B6D);
    NextByte(m, 2, 0x06, 0x7B6D, 0xF6DA, 0xFD95, 0xEB0B, 0xC637, 0x9C4F, 0x389E, 0x611D, 0xC23A);
    LastBit(m, 0xC23A);
  }

  lemma SetDutyCrcPart1(m: seq<byte>)
    requires m == [0x42, 0x04, 0xFA, 0x00, 0x00, 0x05]
    ensures Holds(m, 24, 0x3DC0)
  {
    FirstBit(m);
    NextByte(m, 0, 0x42, 0xFFFF, 0xEFDF, 0xDFBE, 0xAF5D, 0x4E9B, 0x9D36, 0x2A4D, 0x44BB, 0x8976);
    NextByte(m, 1, 0x04, 0x8976, 0x02CD, 0x059A, 0x0B34, 0x1668, 0x2CD0, 0x4981, 0x9302, 0x3625);
    NextByte(m, 2, 0xFA, 0x3625, 0x7C6B, 0xE8F7, 0xD1EE, 0xA3DC, 0x47B8, 0x8F70, 0x1EE0, 0x3DC0);
  }

  /** mcu-co_Protocol.md:493. */
  lemma SetDutyCrc(m: seq<byte>)
    requires m == [0x42, 0x04, 0xFA, 0x00, 0x00, 0x05]
    ensures Crc(m) == 0xC105
  {
    SetDutyCrcPart1(m);
    NextByte(m, 3, 0x00, 0x3DC0, 0x7B80, 0xF700, 0xFE21, 0xEC63, 0xC8E7, 0x81EF, 0x13FF, 0x27FE);
    NextByte(m, 4, 0x00, 0x27FE, 0x4FFC, 0x9FF8, 0x2FD1, 0x5FA2, 0xBF44, 0x6EA9, 0xDD52, 0xAA85);
    NextByte(m, 5, 0x05, 0xAA85, 0x452B, 0x8A56, 0x048D, 0x091A, 0x1234, 0x3449, 0x6892, 0xC105);
    LastBit(m, 0xC105);
  }

  lemma KilohertzCrcPart1(m: seq<byte>)
    requires m == [0x05, 0x01, 0xE8, 0x03, 0x00, 0x00]
    ensures Holds(m, 24, 0x687B)
  {
    FirstBit(m);
    NextByte(m, 0, 0x05, 0xFFFF, 0xEFDF, 0xCF9F, 0x8F1F, 0x0E1F, 0x1C3E, 0x285D, 0x50BA, 0xB155);
    NextByte(m, 1, 0x01, 0xB155, 0x728B, 0xE516, 0xDA0D, 0xA43B, 0x5857, 0xB0AE, 0x717D, 0xF2DB);
    NextByte(m, 2, 0xE8, 0xF2DB, 0xE5B6, 0xCB6C, 0x96D8, 0x3D91, 0x6B03, 0xD606, 0xBC2D, 0x687B);
  }

  /** mcu-co_Protocol.md:555. */
  lemma KilohertzCrc(m: seq<byte>)
    requires m == [0x05, 0x01, 0xE8, 0x03, 0x00, 0x00]
    ensures Crc(m) == 0xBF39
  {
    KilohertzCrcPart1(m);
    NextByte(m, 3, 0x03, 0x687B, 0xD0F6, 0xB1CD, 0x73BB, 0xE776, 0xDECD, 0xADBB, 0x5B76, 0xA6CD);
    NextByte(m, 4, 0x00, 0xA6CD, 0x5DBB, 0xBB76, 0x66CD, 0xCD9A, 0x8B15, 0x060B, 0x0C16, 0x182C);
    NextByte(m, 5, 0x00, 0x182C, 0x3058, 0x60B0, 0xC160, 0x92E1, 0x35E3, 0x6BC6, 0xD78C, 0xBF39);
    LastBit(m, 0xBF39);
  }

  /** mcu-co_Protocol.md:554. */
  lemma ReadGroupCrc(m: seq<byte>)
    requires m == [0x45, 0x01, 0x00]
    ensures Crc(m) == 0x09F0
  {
    FirstBit(m);
    NextByte(m, 0, 0x45, 0xFFFF, 0xEFDF, 0xDFBE, 0xAF5D, 0x4E9B, 0x9D36, 0x3A6C, 0x74D8, 0xF991);
    NextByte(m, 1, 0x01, 0xF991, 0xE303, 0xD627, 0xBC6F, 0x68FF, 0xD1FE, 0xB3DD, 0x779B, 0xFF17);
    NextByte(m, 2, 0x00, 0xFF17, 0xEE0F, 0xCC3F, 0x885F, 0x009F, 0x013E, 0x027C, 0x04F8, 0x09F0);
    LastBit(m, 0x09F0);
  }

  lemma SetUpGroupCrcPart1(m: seq<byte>)
    requires m == [0x40, 0x05, 0xE8, 0x03, 0x00, 0x00, 0x00]
    ensures Holds(m, 24, 0x52E2)
  {
    FirstBit(m);
    NextByte(m, 0, 0x40, 0xFFFF, 0xEFDF, 0xDFBE, 0xAF5D, 0x4E9B, 0x9D36, 0x2A4D, 0x549A, 0xA934);
    NextByte(m, 1, 0x05, 0xA934, 0x4249, 0x8492, 0x1905, 0x320A, 0x6414, 0xD809, 0xA033, 0x4066);
    NextByte(m, 2, 0xE8, 0x4066, 0x90ED, 0x21DA, 0x5395, 0xA72A, 0x4E54, 0x9CA8, 0x2971, 0x52E2);
  }

  lemma SetUpGroupCrcPart2(m: seq<byte>)
    requires m == [0x40, 0x05, 0xE8, 0x03, 0x00, 0x00, 0x00]
    ensures Holds(m, 48, 0x1F2E)
  {
    SetUpGroupCrcPart1(m);
    NextByte(m, 3, 0x03, 0x52E2, 0xA5C4, 0x5BA9, 0xB752, 0x7E85, 0xFD0A, 0xEA35, 0xD46A, 0xA8D4);
    NextByte(m, 4, 0x00, 0xA8D4, 0x4189, 0x8312, 0x1605, 0x2C0A, 0x5814, 0xB028, 0x7071, 0xE0E2);
    NextByte(m, 5, 0x00, 0xE0E2, 0xD1E5, 0xB3EB, 0x77F7, 0xEFEE, 0xCFFD, 0x8FDB, 0x0F97, 0x1F2E);
  }

  /** mcu-co_Protocol.md:417. */
  lemma SetUpGroupCrc(m: seq<byte>)
    requires m == [0x40, 0x05, 0xE8, 0x03, 0x00, 0x00, 0x00]
    ensures Crc(m) == 0xCDDE
  {
    SetUpGroupCrcPart2(m);
    NextByte(m, 6, 0x00, 0x1F2E, 0x3E5C, 0x7CB8, 0xF970, 0xE2C1, 0xD5A3, 0xBB67, 0x66EF, 0xCDDE);
    LastBit(m, 0xCDDE);
  }
}

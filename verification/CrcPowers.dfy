/** The powers x^16, x^32, ..., x^288 modulo the generator polynomial, computed with plain
    arithmetic: the table behind the two-bit case of the minimum distance. */
module CrcPowers {

  /** The checksum's shift step without bitwise operators: digits 0, 5 and 12 flip when the
      top digit falls out. */
  function ShiftArith(c: int): int {
    if c < 0x8000 then 2 * c
    else
      var s := 2 * c - 0x1_0000;
      s + 1 + (if s / 32 % 2 == 0 then 32 else -32) + (if s / 4096 % 2 == 0 then 4096 else -4096)
  }

  function PowerOfX(n: nat): int {
    if n == 0 then 1 else ShiftArith(PowerOfX(n - 1))
  }

  /** x^n reduced by the generator is `c`. */
  predicate Reaches(n: nat, c: int) { PowerOfX(n) == c }

  predicate Shifts(c: int, d: int) { ShiftArith(c) == d }

  /** Sixteen single steps. */
  lemma Walk(n: nat, a0: int, a1: int, a2: int, a3: int, a4: int, a5: int, a6: int, a7: int, a8: int,
             a9: int, a10: int, a11: int, a12: int, a13: int, a14: int, a15: int, a16: int)
    requires Reaches(n, a0)
    requires Shifts(a0, a1) && Shifts(a1, a2) && Shifts(a2, a3) && Shifts(a3, a4)
    requires Shifts(a4, a5) && Shifts(a5, a6) && Shifts(a6, a7) && Shifts(a7, a8)
    requires Shifts(a8, a9) && Shifts(a9, a10) && Shifts(a10, a11) && Shifts(a11, a12)
    requires Shifts(a12, a13) && Shifts(a13, a14) && Shifts(a14, a15) && Shifts(a15, a16)
    ensures Reaches(n + 16, a16)
  {
    Step(n, a0, a1); Step(n + 1, a1, a2); Step(n + 2, a2, a3); Step(n + 3, a3, a4);
    Step(n + 4, a4, a5); Step(n + 5, a5, a6); Step(n + 6, a6, a7); Step(n + 7, a7, a8);
    Step(n + 8, a8, a9); Step(n + 9, a9, a10); Step(n + 10, a10, a11); Step(n + 11, a11, a12);
    Step(n + 12, a12, a13); Step(n + 13, a13, a14); Step(n + 14, a14, a15); Step(n + 15, a15, a16);
  }

  lemma Step(n: nat, c: int, d: int)
    requires Reaches(n, c) && Shifts(c, d)
    ensures Reaches(n + 1, d)
  {
  }

  lemma Power16(n: nat)
    requires Reaches(n, 0x0001)
    ensures Reaches(n + 16, 0x1021)
  {
    Walk(n, 0x0001, 0x0002, 0x0004, 0x0008, 0x0010, 0x0020, 0x0040, 0x0080, 0x0100,
         0x0200, 0x0400, 0x0800, 0x1000, 0x2000, 0x4000, 0x8000, 0x1021);
  }

  lemma Power32(n: nat)
    requires Reaches(n, 0x1021)
    ensures Reaches(n + 16, 0x3730)
  {
    Walk(n, 0x1021, 0x2042, 0x4084, 0x8108, 0x1231, 0x2462, 0x48C4, 0x9188, 0x3331,
         0x6662, 0xCCC4, 0x89A9, 0x0373, 0x06E6, 0x0DCC, 0x1B98, 0x3730);
  }

  lemma Power48(n: nat)
    requires Reaches(n, 0x3730)
    ensures Reaches(n + 16, 0xAA51)
  {
    Walk(n, 0x3730, 0x6E60, 0xDCC0, 0xA9A1, 0x4363, 0x86C6, 0x1DAD, 0x3B5A, 0x76B4,
         0xED68, 0xCAF1, 0x85C3, 0x1BA7, 0x374E, 0x6E9C, 0xDD38, 0xAA51);
  }

  lemma Power64(n: nat)
    requires Reaches(n, 0xAA51)
    ensures Reaches(n + 16, 0xB861)
  {
    Walk(n, 0xAA51, 0x4483, 0x8906, 0x022D, 0x045A, 0x08B4, 0x1168, 0x22D0, 0x45A0,
         0x8B40, 0x06A1, 0x0D42, 0x1A84, 0x3508, 0x6A10, 0xD420, 0xB861);
  }

  lemma Power80(n: nat)
    requires Reaches(n, 0xB861)
    ensures Reaches(n + 16, 0xEB23)
  {
    Walk(n, 0xB861, 0x60E3, 0xC1C6, 0x93AD, 0x377B, 0x6EF6, 0xDDEC, 0xABF9, 0x47D3,
         0x8FA6, 0x0F6D, 0x1EDA, 0x3DB4, 0x7B68, 0xF6D0, 0xFD81, 0xEB23);
  }

  lemma Power96(n: nat)
    requires Reaches(n, 0xEB23)
    ensures Reaches(n + 16, 0xD849)
  {
    Walk(n, 0xEB23, 0xC667, 0x9CEF, 0x29FF, 0x53FE, 0xA7FC, 0x5FD9, 0xBFB2, 0x6F45,
         0xDE8A, 0xAD35, 0x4A4B, 0x9496, 0x390D, 0x721A, 0xE434, 0xD849);
  }

  lemma Power112(n: nat)
    requires Reaches(n, 0xD849)
    ensures Reaches(n + 16, 0x4563)
  {
    Walk(n, 0xD849, 0xA0B3, 0x5147, 0xA28E, 0x553D, 0xAA7A, 0x44D5, 0x89AA, 0x0375,
         0x06EA, 0x0DD4, 0x1BA8, 0x3750, 0x6EA0, 0xDD40, 0xAAA1, 0x4563);
  }

  lemma Power128(n: nat)
    requires Reaches(n, 0x4563)
    ensures Reaches(n + 16, 0xAEFC)
  {
    Walk(n, 0x4563, 0x8AC6, 0x05AD, 0x0B5A, 0x16B4, 0x2D68, 0x5AD0, 0xB5A0, 0x7B61,
         0xF6C2, 0xFDA5, 0xEB6B, 0xC6F7, 0x9DCF, 0x2BBF, 0x577E, 0xAEFC);
  }

  lemma Power144(n: nat)
    requires Reaches(n, 0xAEFC)
    ensures Reaches(n + 16, 0x10E2)
  {
    Walk(n, 0xAEFC, 0x4DD9, 0x9BB2, 0x2745, 0x4E8A, 0x9D14, 0x2A09, 0x5412, 0xA824,
         0x4069, 0x80D2, 0x1185, 0x230A, 0x4614, 0x8C28, 0x0871, 0x10E2);
  }

  lemma Power160(n: nat)
    requires Reaches(n, 0x10E2)
    ensures Reaches(n + 16, 0xDE1F)
  {
    Walk(n, 0x10E2, 0x21C4, 0x4388, 0x8710, 0x1E01, 0x3C02, 0x7804, 0xF008, 0xF031,
         0xF043, 0xF0A7, 0xF16F, 0xF2FF, 0xF5DF, 0xFB9F, 0xE71F, 0xDE1F);
  }

  lemma Power176(n: nat)
    requires Reaches(n, 0xDE1F)
    ensures Reaches(n + 16, 0xD5F6)
  {
    Walk(n, 0xDE1F, 0xAC1F, 0x481F, 0x903E, 0x305D, 0x60BA, 0xC174, 0x92C9, 0x35B3,
         0x6B66, 0xD6CC, 0xBDB9, 0x6B53, 0xD6A6, 0xBD6D, 0x6AFB, 0xD5F6);
  }

  lemma Power192(n: nat)
    requires Reaches(n, 0xD5F6)
    ensures Reaches(n + 16, 0x650B)
  {
    Walk(n, 0xD5F6, 0xBBCD, 0x67BB, 0xCF76, 0x8ECD, 0x0DBB, 0x1B76, 0x36EC, 0x6DD8,
         0xDBB0, 0xA741, 0x5EA3, 0xBD46, 0x6AAD, 0xD55A, 0xBA95, 0x650B);
  }

  lemma Power208(n: nat)
    requires Reaches(n, 0x650B)
    ensures Reaches(n + 16, 0x45B4)
  {
    Walk(n, 0x650B, 0xCA16, 0x840D, 0x183B, 0x3076, 0x60EC, 0xC1D8, 0x9391, 0x3703,
         0x6E06, 0xDC0C, 0xA839, 0x4053, 0x80A6, 0x116D, 0x22DA, 0x45B4);
  }

  lemma Power224(n: nat)
    requires Reaches(n, 0x45B4)
    ensures Reaches(n + 16, 0x1566)
  {
    Walk(n, 0x45B4, 0x8B68, 0x06F1, 0x0DE2, 0x1BC4, 0x3788, 0x6F10, 0xDE20, 0xAC61,
         0x48E3, 0x91C6, 0x33AD, 0x675A, 0xCEB4, 0x8D49, 0x0AB3, 0x1566);
  }

  lemma Power240(n: nat)
    requires Reaches(n, 0x1566)
    ensures Reaches(n + 16, 0xF0E6)
  {
    Walk(n, 0x1566, 0x2ACC, 0x5598, 0xAB30, 0x4641, 0x8C82, 0x0925, 0x124A, 0x2494,
         0x4928, 0x9250, 0x3481, 0x6902, 0xD204, 0xB429, 0x7873, 0xF0E6);
  }

  lemma Power256(n: nat)
    requires Reaches(n, 0xF0E6)
    ensures Reaches(n + 16, 0x8E29)
  {
    Walk(n, 0xF0E6, 0xF1ED, 0xF3FB, 0xF7D7, 0xFF8F, 0xEF3F, 0xCE5F, 0x8C9F, 0x091F,
         0x123E, 0x247C, 0x48F8, 0x91F0, 0x33C1, 0x6782, 0xCF04, 0x8E29);
  }

  lemma Power272(n: nat)
    requires Reaches(n, 0x8E29)
    ensures Reaches(n + 16, 0x8DDC)
  {
    Walk(n, 0x8E29, 0x0C73, 0x18E6, 0x31CC, 0x6398, 0xC730, 0x9E41, 0x2CA3, 0x5946,
         0xB28C, 0x7539, 0xEA72, 0xC4C5, 0x99AB, 0x2377, 0x46EE, 0x8DDC);
  }

  lemma Power288(n: nat)
    requires Reaches(n, 0x8DDC)
    ensures Reaches(n + 16, 0x6735)
  {
    Walk(n, 0x8DDC, 0x0B99, 0x1732, 0x2E64, 0x5CC8, 0xB990, 0x6301, 0xC602, 0x9C25,
         0x286B, 0x50D6, 0xA1AC, 0x5379, 0xA6F2, 0x5DC5, 0xBB8A, 0x6735);
  }

  function Table(a: nat): int {
    match a
    case 0 => 0x0001
    case 1 => 0x1021
    case 2 => 0x3730
    case 3 => 0xAA51
    case 4 => 0xB861
    case 5 => 0xEB23
    case 6 => 0xD849
    case 7 => 0x4563
    case 8 => 0xAEFC
    case 9 => 0x10E2
    case 10 => 0xDE1F
    case 11 => 0xD5F6
    case 12 => 0x650B
    case 13 => 0x45B4
    case 14 => 0x1566
    case 15 => 0xF0E6
    case 16 => 0x8E29
    case 17 => 0x8DDC
    case _ => 0x6735
  }

  lemma {:induction false} PowerTable(a: nat)
    requires a <= 18
    ensures PowerOfX(16 * a) == Table(a)
  {
    if a > 0 {
      PowerTable(a - 1);
      var n := 16 * (a - 1);
      assert n + 16 == 16 * a;
      match a {
        case 1 => Power16(n);
        case 2 => Power32(n);
        case 3 => Power48(n);
        case 4 => Power64(n);
        case 5 => Power80(n);
        case 6 => Power96(n);
        case 7 => Power112(n);
        case 8 => Power128(n);
        case 9 => Power144(n);
        case 10 => Power160(n);
        case 11 => Power176(n);
        case 12 => Power192(n);
        case 13 => Power208(n);
        case 14 => Power224(n);
        case 15 => Power240(n);
        case 16 => Power256(n);
        case 17 => Power272(n);
        case _ => Power288(n);
      }
    }
  }

  /** None of these powers divides 2^15, so none is itself a power of two. */
  lemma TableHasNoMonomial(a: nat)
    requires 1 <= a <= 18
    ensures Table(a) > 0 && 0x8000 % Table(a) != 0
  {
  }
}

/** Fixed-width unsigned words as natural numbers, with the bitwise operators of C
    defined on binary digits. Every register and every shift in the firmware model is
    written with these, so widths and truncations are explicit. */
module Words {
  type byte = n: nat | n < 0x100
  type uint16 = n: nat | n < 0x1_0000
  type uint32 = n: nat | n < 0x1_0000_0000

  /** Binary digit `i` of `n`. */
  predicate Bit(n: nat, i: nat)
    decreases i
  {
    if i == 0 then n % 2 == 1 else Bit(n / 2, i - 1)
  }

  function Pow2(k: nat): (r: nat)
    ensures r > 0
  {
    if k == 0 then 1 else 2 * Pow2(k - 1)
  }

  /** `w` one-bits. */
  function Mask(w: nat): nat { Pow2(w) - 1 }

  datatype Op = AND | OR | XOR | ANDNOT

  predicate Apply(op: Op, a: bool, b: bool) {
    match op
    case AND => a && b
    case OR => a || b
    case XOR => a != b
    case ANDNOT => a && !b
  }

  function Bitwise(op: Op, a: nat, b: nat): nat
    decreases a + b
  {
    if a == 0 && b == 0 then 0
    else (if Apply(op, a % 2 == 1, b % 2 == 1) then 1 else 0) + 2 * Bitwise(op, a / 2, b / 2)
  }

  function And(a: nat, b: nat): nat { Bitwise(AND, a, b) }
  function Or(a: nat, b: nat): nat { Bitwise(OR, a, b) }
  function Xor(a: nat, b: nat): nat { Bitwise(XOR, a, b) }
  /** `a & ~b`. */
  function AndNot(a: nat, b: nat): nat { Bitwise(ANDNOT, a, b) }

  function Shl(n: nat, k: nat): nat {
    if k == 0 then n else 2 * Shl(n, k - 1)
  }

  function Shr(n: nat, k: nat): nat
    decreases k
  {
    if k == 0 then n else Shr(n / 2, k - 1)
  }

  // ----- digits of each operator

  lemma {:induction false} ZeroBit(i: nat)
    ensures !Bit(0, i)
  {
    if i > 0 { ZeroBit(i - 1); }
  }

  lemma BitwiseHalf(op: Op, a: nat, b: nat)
    requires a != 0 || b != 0
    ensures Bitwise(op, a, b) / 2 == Bitwise(op, a / 2, b / 2)
    ensures (Bitwise(op, a, b) % 2 == 1) == Apply(op, a % 2 == 1, b % 2 == 1)
  {
  }

  lemma {:induction false} BitwiseBit(op: Op, a: nat, b: nat, i: nat)
    ensures Bit(Bitwise(op, a, b), i) == Apply(op, Bit(a, i), Bit(b, i))
    decreases i
  {
    if a == 0 && b == 0 {
      ZeroBit(i);
    } else {
      BitwiseHalf(op, a, b);
      if i > 0 { BitwiseBit(op, a / 2, b / 2, i - 1); }
    }
  }

  lemma BitwiseBits(op: Op, a: nat, b: nat)
    ensures forall i: nat :: Bit(Bitwise(op, a, b), i) == Apply(op, Bit(a, i), Bit(b, i))
  {
    forall i: nat { BitwiseBit(op, a, b, i); }
  }

  lemma {:induction false} ShlBit(n: nat, k: nat, i: nat)
    ensures Bit(Shl(n, k), i) == (i >= k && Bit(n, i - k))
    decreases k
  {
    if k > 0 {
      assert (2 * Shl(n, k - 1)) / 2 == Shl(n, k - 1);
      if i > 0 { ShlBit(n, k - 1, i - 1); }
    }
  }

  lemma ShlBits(n: nat, k: nat)
    ensures forall i: nat :: Bit(Shl(n, k), i) == (i >= k && Bit(n, i - k))
  {
    forall i: nat { ShlBit(n, k, i); }
  }

  lemma {:induction false} ShrBit(n: nat, k: nat, i: nat)
    ensures Bit(Shr(n, k), i) == Bit(n, k + i)
    decreases k
  {
    if k > 0 { ShrBit(n / 2, k - 1, i); }
  }

  lemma ShrBits(n: nat, k: nat)
    ensures forall i: nat :: Bit(Shr(n, k), i) == Bit(n, k + i)
  {
    forall i: nat { ShrBit(n, k, i); }
  }

  lemma {:induction false} Pow2Bit(k: nat, i: nat)
    ensures Bit(Pow2(k), i) == (i == k)
    decreases k
  {
    if k == 0 {
      if i > 0 { ZeroBit(i - 1); }
    } else {
      assert (2 * Pow2(k - 1)) / 2 == Pow2(k - 1);
      if i > 0 { Pow2Bit(k - 1, i - 1); }
    }
  }

  lemma {:induction false} MaskBit(w: nat, i: nat)
    ensures Bit(Mask(w), i) == (i < w)
    decreases w
  {
    if w == 0 {
      ZeroBit(i);
    } else {
      assert Mask(w) / 2 == Mask(w - 1);
      if i > 0 { MaskBit(w - 1, i - 1); }
    }
  }

  lemma MaskBits(w: nat)
    ensures forall i: nat :: Bit(Mask(w), i) == (i < w)
  {
    forall i: nat { MaskBit(w, i); }
  }

  lemma {:induction false} ShlIsTimesPow2(n: nat, k: nat)
    ensures Shl(n, k) == n * Pow2(k)
  {
    if k > 0 { ShlIsTimesPow2(n, k - 1); }
  }

  // ----- numbers are their digits

  /** Two numbers with the same digits are equal. */
  lemma {:induction false} SameBits(a: nat, b: nat)
    requires forall i: nat :: Bit(a, i) == Bit(b, i)
    ensures a == b
    decreases a + b
  {
    assert Bit(a, 0) == Bit(b, 0);
    if a + b > 0 {
      if a / 2 + b / 2 < a + b {
        forall i: nat ensures Bit(a / 2, i) == Bit(b / 2, i) {
          assert Bit(a, i + 1) == Bit(b, i + 1);
        }
        SameBits(a / 2, b / 2);
      }
    }
  }

  ghost predicate NoBitsFrom(n: nat, w: nat) {
    forall i: nat :: i >= w ==> !Bit(n, i)
  }

  /** A number fits in `w` bits exactly when no digit from `w` on is set. */
  lemma {:induction false} FitsIffNoHighBits(n: nat, w: nat)
    ensures n < Pow2(w) <==> NoBitsFrom(n, w)
    decreases w
  {
    if w == 0 {
      if NoBitsFrom(n, w) {
        forall i: nat ensures Bit(n, i) == Bit(0, i) { ZeroBit(i); }
        SameBits(n, 0);
      } else {
        var i: nat :| Bit(n, i);
        ZeroBit(i);
      }
    } else {
      FitsIffNoHighBits(n / 2, w - 1);
      HalfHighBits(n, w);
    }
  }

  lemma HalfHighBits(n: nat, w: nat)
    requires w > 0
    ensures NoBitsFrom(n, w) <==> NoBitsFrom(n / 2, w - 1)
  {
    if NoBitsFrom(n, w) {
      forall i: nat | i >= w - 1 ensures !Bit(n / 2, i) { assert !Bit(n, i + 1); }
    }
    if NoBitsFrom(n / 2, w - 1) {
      forall i: nat | i >= w ensures !Bit(n, i) { assert Bit(n, i) == Bit(n / 2, i - 1); }
    }
  }

  /** `n % 2^k` keeps the low `k` digits. */
  lemma {:induction false} ModPow2Bit(n: nat, k: nat, i: nat)
    ensures Bit(n % Pow2(k), i) == (i < k && Bit(n, i))
    decreases k
  {
    if k == 0 {
      ZeroBit(i);
    } else {
      ModHalves(n, Pow2(k - 1));
      if i > 0 { ModPow2Bit(n / 2, k - 1, i - 1); }
    }
  }

  lemma ModHalves(n: nat, m: nat)
    requires m > 0
    ensures (n % (2 * m)) % 2 == n % 2 && (n % (2 * m)) / 2 == (n / 2) % m
    ensures n / (2 * m) == n / 2 / m
  {
    var h, b := n / 2, n % 2;
    var q, r := h / m, h % m;
    assert n == 2 * (q * m + r) + b;
    assert n == q * (2 * m) + (2 * r + b);
    DivModUnique(n, 2 * m, q, 2 * r + b);
  }

  lemma MulMono(a: int, b: int, d: nat)
    requires a <= b
    ensures a * d <= b * d
  {
  }

  lemma DivModUnique(n: nat, d: nat, q: nat, r: nat)
    requires d > 0 && r < d && n == q * d + r
    ensures n / d == q && n % d == r
  {
    var q' := n / d;
    var k := q' - q;
    assert k * d == q' * d - q * d;
    if k >= 1 { MulMono(1, k, d); }
    if k <= -1 { MulMono(k, -1, d); }
  }

  /** `x & (2^k - 1)` is `x mod 2^k`. */
  lemma AndMaskIsMod(x: nat, k: nat)
    ensures And(x, Mask(k)) == x % Pow2(k)
  {
    BitwiseBits(AND, x, Mask(k));
    MaskBits(k);
    forall i: nat ensures Bit(And(x, Mask(k)), i) == Bit(x % Pow2(k), i) { ModPow2Bit(x, k, i); }
    SameBits(And(x, Mask(k)), x % Pow2(k));
  }

  ghost predicate IsPow2(n: nat) {
    exists k: nat :: n == Pow2(k)
  }

  /** The bitmask test `x & (x - 1) == 0` accepts exactly the powers of two. */
  lemma {:induction false} PowerOfTwoTest(x: nat)
    requires x > 0
    ensures And(x, x - 1) == 0 <==> IsPow2(x)
  {
    if x == 1 {
      assert x == Pow2(0);
    } else if x % 2 == 1 {
      assert And(x, x - 1) == 2 * And(x / 2, x / 2) by { assert (x - 1) / 2 == x / 2; }
      AndSelf(x / 2);
      forall k: nat ensures x != Pow2(k) { assert k > 0 ==> Pow2(k) % 2 == 0; }
    } else {
      assert And(x, x - 1) == 2 * And(x / 2, x / 2 - 1) by { assert (x - 1) / 2 == x / 2 - 1; }
      PowerOfTwoTest(x / 2);
      HalfIsPow2(x);
    }
  }

  lemma HalfIsPow2(x: nat)
    requires x > 0 && x % 2 == 0
    ensures IsPow2(x) <==> IsPow2(x / 2)
  {
    if IsPow2(x / 2) {
      var k: nat :| x / 2 == Pow2(k);
      assert x == Pow2(k + 1);
    }
    if IsPow2(x) {
      var k: nat :| x == Pow2(k);
      assert x / 2 == Pow2(k - 1);
    }
  }

  lemma {:induction false} AndSelf(n: nat)
    ensures And(n, n) == n
  {
    if n > 0 { AndSelf(n / 2); }
  }

  // ----- packed fields

  /** The `w`-bit field of `r` at `pos`: `(r >> pos) & (2^w - 1)`. */
  function Field(r: nat, pos: nat, w: nat): nat {
    And(Shr(r, pos), Mask(w))
  }

  /** Read-modify-write of the same field: `(r & ~(mask << pos)) | (v << pos)`. */
  function WithField(r: nat, pos: nat, w: nat, v: nat): nat {
    Or(AndNot(r, Shl(Mask(w), pos)), Shl(v, pos))
  }

  lemma {:induction false} ShrIsDivision(n: nat, k: nat)
    ensures Shr(n, k) == n / Pow2(k)
  {
    if k > 0 {
      ShrIsDivision(n / 2, k - 1);
      ModHalves(n, Pow2(k - 1));
    }
  }

  /** A bit and a field as digits of the number. */
  lemma BitIsDigit(n: nat, i: nat)
    ensures Bit(n, i) <==> n / Pow2(i) % 2 == 1
  {
    ShrIsDivision(n, i);
    ShrBit(n, i, 0);
  }

  lemma FieldIsDigit(r: nat, pos: nat, w: nat)
    ensures Field(r, pos, w) == r / Pow2(pos) % Pow2(w)
  {
    ShrIsDivision(r, pos);
    AndMaskIsMod(Shr(r, pos), w);
  }

  lemma FieldBits(r: nat, pos: nat, w: nat)
    ensures forall i: nat :: Bit(Field(r, pos, w), i) == (i < w && Bit(r, pos + i))
  {
    BitwiseBits(AND, Shr(r, pos), Mask(w));
    ShrBits(r, pos);
    MaskBits(w);
  }

  lemma WithFieldBits(r: nat, pos: nat, w: nat, v: nat)
    requires v < Pow2(w)
    ensures forall i: nat :: Bit(WithField(r, pos, w, v), i) == if pos <= i < pos + w then Bit(v, i - pos) else Bit(r, i)
  {
    var m := Shl(Mask(w), pos);
    BitwiseBits(OR, AndNot(r, m), Shl(v, pos));
    BitwiseBits(ANDNOT, r, m);
    ShlBits(Mask(w), pos);
    ShlBits(v, pos);
    MaskBits(w);
    FitsIffNoHighBits(v, w);
    forall i: nat
      ensures Bit(WithField(r, pos, w, v), i) == if pos <= i < pos + w then Bit(v, i - pos) else Bit(r, i)
    {
      assert Bit(m, i) == (pos <= i < pos + w) by { assert i >= pos ==> Bit(Mask(w), i - pos) == (i - pos < w); }
      assert Bit(AndNot(r, m), i) == (Bit(r, i) && !Bit(m, i));
      assert i >= pos + w ==> !Bit(v, i - pos);
    }
  }

  /** Writing one field sets it and leaves every disjoint field and the word width alone. */
  lemma WithFieldFields(r: nat, pos: nat, w: nat, v: nat, pos': nat, w': nat)
    requires v < Pow2(w)
    requires (pos == pos' && w == w') || pos + w <= pos' || pos' + w' <= pos
    ensures Field(WithField(r, pos, w, v), pos', w') == if pos == pos' && w == w' then v else Field(r, pos', w')
  {
    var r' := WithField(r, pos, w, v);
    WithFieldBits(r, pos, w, v);
    FieldBits(r', pos', w');
    FieldBits(r, pos', w');
    FitsIffNoHighBits(v, w);
    if pos == pos' && w == w' {
      SameBits(Field(r', pos', w'), v);
    } else {
      SameBits(Field(r', pos', w'), Field(r, pos', w'));
    }
  }

  /** A field write inside the word keeps the word in 32 bits. */
  lemma WithFieldFits(r: uint32, pos: nat, w: nat, v: nat)
    requires v < Pow2(w) && pos + w <= 32
    ensures WithField(r, pos, w, v) < 0x1_0000_0000
  {
    Pow2Of32();
    WithFieldBits(r, pos, w, v);
    FitsIffNoHighBits(r, 32);
    FitsIffNoHighBits(WithField(r, pos, w, v), 32);
  }

  lemma Pow2Of32()
    ensures Pow2(32) == 0x1_0000_0000
  {
    assert Pow2(4) == 0x10;
    assert Pow2(8) == 0x100 by { assert Pow2(6) == 0x40; }
    assert Pow2(12) == 0x1000 by { assert Pow2(10) == 0x400; }
    assert Pow2(16) == 0x1_0000 by { assert Pow2(14) == 0x4000; }
    assert Pow2(20) == 0x10_0000 by { assert Pow2(18) == 0x4_0000; }
    assert Pow2(24) == 0x100_0000 by { assert Pow2(22) == 0x40_0000; }
    assert Pow2(28) == 0x1000_0000 by { assert Pow2(26) == 0x400_0000; }
    assert Pow2(30) == 0x4000_0000;
  }

  // ----- single bits

  /** `r | 1 << n`. */
  function SetBit(r: nat, n: nat): nat { Or(r, Shl(1, n)) }
  /** `r & ~(1 << n)`. */
  function ClearBit(r: nat, n: nat): nat { AndNot(r, Shl(1, n)) }
  /** `r ^ 1 << n`. */
  function ToggleBit(r: nat, n: nat): nat { Xor(r, Shl(1, n)) }

  lemma OneBit(n: nat)
    ensures forall i: nat :: Bit(Shl(1, n), i) == (i == n)
  {
    ShlBits(1, n);
    forall i: nat ensures Bit(Shl(1, n), i) == (i == n) {
      if i > n { ZeroBit(i - n - 1); }
    }
  }

  lemma BitWrites(r: nat, n: nat)
    ensures forall i: nat :: Bit(SetBit(r, n), i) == (i == n || Bit(r, i))
    ensures forall i: nat :: Bit(ClearBit(r, n), i) == (i != n && Bit(r, i))
    ensures forall i: nat :: Bit(ToggleBit(r, n), i) == ((i == n) != Bit(r, i))
  {
    OneBit(n);
    BitwiseBits(OR, r, Shl(1, n));
    BitwiseBits(ANDNOT, r, Shl(1, n));
    BitwiseBits(XOR, r, Shl(1, n));
  }

  lemma BitWritesFit(r: uint32, n: nat)
    requires n < 32
    ensures SetBit(r, n) < 0x1_0000_0000 && ClearBit(r, n) < 0x1_0000_0000 && ToggleBit(r, n) < 0x1_0000_0000
  {
    Pow2Of32();
    BitWrites(r, n);
    FitsIffNoHighBits(r, 32);
    FitsIffNoHighBits(SetBit(r, n), 32);
    FitsIffNoHighBits(ClearBit(r, n), 32);
    FitsIffNoHighBits(ToggleBit(r, n), 32);
  }

  /** `(r & 1 << n) != 0` tests digit `n`. */
  lemma BitTest(r: nat, n: nat)
    ensures And(r, Shl(1, n)) != 0 <==> Bit(r, n)
  {
    OneBit(n);
    BitwiseBits(AND, r, Shl(1, n));
    if And(r, Shl(1, n)) == 0 { ZeroBit(n); }
    if !Bit(r, n) {
      forall i: nat ensures Bit(And(r, Shl(1, n)), i) == Bit(0, i) { ZeroBit(i); }
      SameBits(And(r, Shl(1, n)), 0);
    }
  }

  // ----- assembling words from bytes

  lemma {:induction false} OrZero(n: nat)
    ensures Or(n, 0) == n && Or(0, n) == n && AndNot(n, 0) == n
  {
    if n > 0 { OrZero(n / 2); }
  }

  /** `a | b << k` is a sum when `a` has only `k` bits. */
  lemma {:induction false} OrShiftIsSum(a: nat, b: nat, k: nat)
    requires a < Pow2(k)
    ensures Or(a, Shl(b, k)) == a + b * Pow2(k)
    ensures Or(Shl(b, k), a) == a + b * Pow2(k)
    decreases k
  {
    OrZero(b);
    if k > 0 {
      var m := Pow2(k - 1);
      OrShiftIsSum(a / 2, b, k - 1);
      OrDoubled(a, Shl(b, k - 1));
      TimesTwice(b, m);
    }
  }

  lemma TimesTwice(b: nat, m: nat)
    ensures b * (2 * m) == 2 * (b * m)
  {
  }

  lemma OrDoubled(a: nat, s: nat)
    ensures Or(a, 2 * s) == a % 2 + 2 * Or(a / 2, s)
    ensures Or(2 * s, a) == a % 2 + 2 * Or(s, a / 2)
  {
    if a != 0 || s != 0 {
      BitwiseHalf(OR, a, 2 * s);
      BitwiseHalf(OR, 2 * s, a);
    }
  }
}

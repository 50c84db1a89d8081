module CrcBursts {
  import opened Words
  import opened Gf2
  import opened Crc16
  import opened CrcDetection

  // ----- division as a shift register: the bits fed back

  /** The k-th feedback bit, none outside the stream. */
  predicate At(fb: seq<bool>, k: int) { 0 <= k < |fb| && fb[k] }

  /** Bit n of a multiple of the generator whose quotient, highest first, is `fb`. */
  predicate CodeBit(fb: seq<bool>, n: int) {
    At(fb, n) != (At(fb, n - 4) != (At(fb, n - 11) != At(fb, n - 16)))
  }

  /** Exponent `e` of what is left in the register after it. */
  predicate LeftBit(fb: seq<bool>, e: int) {
    At(fb, |fb| - 1 - e) != (At(fb, |fb| + 4 - e) != At(fb, |fb| + 11 - e))
  }

  ghost predicate IsQuotient(fb: seq<bool>, w: seq<bool>) {
    && |fb| == |w|
    && (forall n :: 0 <= n < |w| ==> w[n] == CodeBit(fb, n))
    && (forall e: nat :: e < 16 ==> (e in FeedAll({}, w) <==> LeftBit(fb, e)))
  }

  lemma {:induction false} Quotient(w: seq<bool>) returns (fb: seq<bool>)
    ensures IsQuotient(fb, w)
  {
    if w == [] {
      fb := [];
    } else {
      var v, b := w[..|w| - 1], w[|w| - 1];
      var before := Quotient(v);
      var r := FeedAll({}, v);
      FeedAllBelow({}, v);
      fb := before + [b != (15 in r)];
      QuotientGrows(before, v, b, r);
      assert w == v + [b];
    }
  }

  lemma AtGrows(fb: seq<bool>, x: bool, k: int)
    ensures At(fb + [x], k) == if k == |fb| then x else At(fb, k)
  {
  }

  lemma QuotientGrows(fb: seq<bool>, v: seq<bool>, b: bool, r: Poly)
    requires IsQuotient(fb, v) && r == FeedAll({}, v) && Below(r, 16)
    ensures IsQuotient(fb + [b != (15 in r)], v + [b])
  {
    var x := b != (15 in r);
    var next, w := fb + [x], v + [b];
    assert w[..|v|] == v;
    assert LeftBit(fb, 15) == (15 in r);
    forall n | 0 <= n < |w| ensures w[n] == CodeBit(next, n) {
      AtGrows(fb, x, n); AtGrows(fb, x, n - 4); AtGrows(fb, x, n - 11); AtGrows(fb, x, n - 16);
    }
    LeftGrows(fb, v, b, r);
    assert FeedAll({}, w) == Feed(r, b);
  }

  lemma LeftGrows(fb: seq<bool>, v: seq<bool>, b: bool, r: Poly)
    requires IsQuotient(fb, v) && r == FeedAll({}, v) && Below(r, 16)
    ensures forall e: nat :: e < 16 ==> (e in Feed(r, b) <==> LeftBit(fb + [b != (15 in r)], e))
  {
    var loaded := Add(r, Unless(!b, {15}));
    StepMember(loaded);
    assert 15 in loaded <==> b != (15 in r);
    forall e: nat | e < 16 ensures e in Feed(r, b) <==> LeftBit(fb + [b != (15 in r)], e) {
      LeftBitGrows(fb, b != (15 in r), e);
      if e > 0 { assert e - 1 in loaded <==> e - 1 in r; }
    }
  }

  lemma LeftBitGrows(fb: seq<bool>, x: bool, e: nat)
    requires e < 16
    ensures LeftBit(fb + [x], e) == ((x && (e == 0 || e == 5 || e == 12)) != (e > 0 && LeftBit(fb, e - 1)))
  {
    var k := |fb| - e;
    AtGrows(fb, x, k); AtGrows(fb, x, k + 5); AtGrows(fb, x, k + 12);
  }

  // ----- multiples of the generator within four bytes

  /** Which three consecutive bytes of the wire a four-byte block of the checksum's order holds:
      three bytes of the body; the last two and the low checksum byte; or the last one and both
      checksum bytes, which travel low byte first. */
  datatype Place = BODY | EDGE | TAIL

  /** Wire position of block bit `k`, counted from the first of the three bytes. */
  function WireIndex(place: Place, highFirst: bool, k: nat): int {
    var j := match place
      case BODY => k / 8 - 1
      case EDGE => if k / 8 == 2 then 3 else if k / 8 == 3 then 2 else k / 8
      case TAIL => if k / 8 == 2 then 2 else if k / 8 == 3 then 1 else k / 8 - 1;
    8 * j + if highFirst then k % 8 else 7 - k % 8
  }

  /** No block bit outside `length` wire bits from `s` on. */
  predicate Confined(b: seq<bool>, place: Place, highFirst: bool, s: nat, length: nat)
    requires |b| == 32
  {
    forall k :: 0 <= k < 32 ==> b[k] ==> s <= WireIndex(place, highFirst, k) < s + length
  }

  predicate AllOff(b: seq<bool>) { forall k :: 0 <= k < |b| ==> !b[k] }

  ghost predicate IsMultiple(b: seq<bool>, fb: seq<bool>) {
    && |b| == 32 && |fb| == 32
    && (forall n :: 0 <= n < 32 ==> b[n] == CodeBit(fb, n))
    && (forall k :: 16 <= k < 32 ==> !fb[k])
  }

  lemma Explicit0(b: seq<bool>, fb: seq<bool>)
    requires IsMultiple(b, fb)
    ensures b[0] == (fb[0])
    ensures b[1] == (fb[1])
    ensures b[2] == (fb[2])
    ensures b[3] == (fb[3])
    ensures b[4] == (fb[4] != fb[0])
    ensures b[5] == (fb[5] != fb[1])
    ensures b[6] == (fb[6] != fb[2])
    ensures b[7] == (fb[7] != fb[3])
  {
    forall n | 0 <= n < 8 ensures b[n] == CodeBit(fb, n) { }
  }

  lemma Explicit1(b: seq<bool>, fb: seq<bool>)
    requires IsMultiple(b, fb)
    ensures b[8] == (fb[8] != fb[4])
    ensures b[9] == (fb[9] != fb[5])
    ensures b[10] == (fb[10] != fb[6])
    ensures b[11] == (fb[11] != (fb[7] != fb[0]))
    ensures b[12] == (fb[12] != (fb[8] != fb[1]))
    ensures b[13] == (fb[13] != (fb[9] != fb[2]))
    ensures b[14] == (fb[14] != (fb[10] != fb[3]))
    ensures b[15] == (fb[15] != (fb[11] != fb[4]))
  {
    forall n | 8 <= n < 16 ensures b[n] == CodeBit(fb, n) { }
  }

  lemma Explicit2(b: seq<bool>, fb: seq<bool>)
    requires IsMultiple(b, fb)
    ensures b[16] == (fb[12] != (fb[5] != fb[0]))
    ensures b[17] == (fb[13] != (fb[6] != fb[1]))
    ensures b[18] == (fb[14] != (fb[7] != fb[2]))
    ensures b[19] == (fb[15] != (fb[8] != fb[3]))
    ensures b[20] == (fb[9] != fb[4])
    ensures b[21] == (fb[10] != fb[5])
    ensures b[22] == (fb[11] != fb[6])
    ensures b[23] == (fb[12] != fb[7])
  {
    forall n | 16 <= n < 24 ensures b[n] == CodeBit(fb, n) { }
  }

  lemma Explicit3(b: seq<bool>, fb: seq<bool>)
    requires IsMultiple(b, fb)
    ensures b[24] == (fb[13] != fb[8])
    ensures b[25] == (fb[14] != fb[9])
    ensures b[26] == (fb[15] != fb[10])
    ensures b[27] == (fb[11])
    ensures b[28] == (fb[12])
    ensures b[29] == (fb[13])
    ensures b[30] == (fb[14])
    ensures b[31] == (fb[15])
  {
    forall n | 24 <= n < 32 ensures b[n] == CodeBit(fb, n) { }
  }


  lemma BodyHighFirst(b: seq<bool>, fb: seq<bool>, s: nat)
    requires IsMultiple(b, fb) && s < 8 && Confined(b, BODY, true, s, 12)
    ensures AllOff(b)
  {
    Explicit0(b, fb); Explicit1(b, fb); Explicit2(b, fb); Explicit3(b, fb);
    if s == 0 {} else if s == 1 {} else if s == 2 {} else if s == 3 {} else if s == 4 {} else if s == 5 {} else if s == 6 {} else {}
  }

  lemma BodyLowFirst(b: seq<bool>, fb: seq<bool>, s: nat)
    requires IsMultiple(b, fb) && s < 8 && Confined(b, BODY, false, s, 14)
    ensures AllOff(b)
  {
    Explicit0(b, fb); Explicit1(b, fb); Explicit2(b, fb); Explicit3(b, fb);
    if s == 0 {} else if s == 1 {} else if s == 2 {} else if s == 3 {} else if s == 4 {} else if s == 5 {} else if s == 6 {} else {}
  }

  lemma EdgeHighFirst(b: seq<bool>, fb: seq<bool>, s: nat)
    requires IsMultiple(b, fb) && s < 8 && Confined(b, EDGE, true, s, 12)
    ensures AllOff(b)
  {
    Explicit0(b, fb); Explicit1(b, fb); Explicit2(b, fb); Explicit3(b, fb);
    if s == 0 {} else if s == 1 {} else if s == 2 {} else if s == 3 {} else if s == 4 {} else if s == 5 {} else if s == 6 {} else {}
  }

  lemma EdgeLowFirst(b: seq<bool>, fb: seq<bool>, s: nat)
    requires IsMultiple(b, fb) && s < 8 && Confined(b, EDGE, false, s, 14)
    ensures AllOff(b)
  {
    Explicit0(b, fb); Explicit1(b, fb); Explicit2(b, fb); Explicit3(b, fb);
    if s == 0 {} else if s == 1 {} else if s == 2 {} else if s == 3 {} else if s == 4 {} else if s == 5 {} else if s == 6 {} else {}
  }

  lemma TailHighFirst(b: seq<bool>, fb: seq<bool>, s: nat)
    requires IsMultiple(b, fb) && s < 8 && Confined(b, TAIL, true, s, 12)
    ensures AllOff(b)
  {
    Explicit0(b, fb); Explicit1(b, fb); Explicit2(b, fb); Explicit3(b, fb);
    if s == 0 {} else if s == 1 {} else if s == 2 {} else if s == 3 {} else if s == 4 {} else if s == 5 {} else if s == 6 {} else {}
  }

  lemma TailLowFirst(b: seq<bool>, fb: seq<bool>, s: nat)
    requires IsMultiple(b, fb) && s < 8 && Confined(b, TAIL, false, s, 14)
    ensures AllOff(b)
  {
    Explicit0(b, fb); Explicit1(b, fb); Explicit2(b, fb); Explicit3(b, fb);
    if s == 0 {} else if s == 1 {} else if s == 2 {} else if s == 3 {} else if s == 4 {} else if s == 5 {} else if s == 6 {} else {}
  }

  // ----- differences on the wire

  /** Bit `t` of a stretch of bytes, each sent highest or lowest bit first. */
  predicate WireBit(m: seq<byte>, highFirst: bool, t: nat)
    requires t < 8 * |m|
  {
    Bit(m[t / 8], if highFirst then 7 - t % 8 else t % 8)
  }

  /** The two differ at most within `length` consecutive bits from `lo` on. */
  ghost predicate DifferWithin(a: seq<byte>, b: seq<byte>, highFirst: bool, lo: nat, length: nat)
    requires |a| == |b|
  {
    forall t: nat :: t < 8 * |a| && WireBit(a, highFirst, t) != WireBit(b, highFirst, t) ==> lo <= t < lo + length
  }

  /** Longest burst that is always detected: 12 bits if bytes travel highest bit first, 14 if
      lowest bit first as on the serial line. */
  function BurstLimit(highFirst: bool): nat { if highFirst then 12 else 14 }

  lemma {:induction false} MessageBitAt(m: seq<byte>, t: nat)
    requires t < 8 * |m|
    ensures MessageBits(m)[t] == WireBit(m, true, t)
  {
    var n := |m| - 1;
    if t < 8 * n { MessageBitAt(m[..n], t); }
  }

  /** Body and checksum in the order the register takes them. */
  function CodeOrder(body: seq<byte>, crc: uint16): seq<byte> { body + [CrcHigh(crc), CrcLow(crc)] }

  /** Position on the wire of bit `x` in that order, for a body of `n` bytes. */
  function Travels(n: nat, highFirst: bool, x: nat): nat {
    var i := if x / 8 == n then n + 1 else if x / 8 == n + 1 then n else x / 8;
    8 * i + if highFirst then x % 8 else 7 - x % 8
  }

  lemma TravelsAs(body: seq<byte>, crc: uint16, highFirst: bool, x: nat)
    requires x < 8 * (|body| + 2)
    ensures Travels(|body|, highFirst, x) < 8 * (|body| + 2)
    ensures MessageBits(CodeOrder(body, crc))[x] == WireBit(body + WireCrc(crc), highFirst, Travels(|body|, highFirst, x))
  {
    MessageBitAt(CodeOrder(body, crc), x);
    var i := x / 8;
    assert i >= |body| ==> i == |body| || i == |body| + 1;
  }

  /** The difference of two images in checksum order, behind three zero bytes. */
  function Padded(x: seq<bool>): (z: seq<bool>)
    ensures |z| == |x| + 24
  {
    seq(24, _ => false) + x
  }

  lemma PaddedVanishes(x: seq<bool>)
    requires FeedAll({}, x) == {}
    ensures FeedAll({}, Padded(x)) == {}
  {
    var zeros := seq(24, _ => false);
    FeedAllConcat({}, zeros, x);
    FeedZeros({}, zeros);
    StepsZero(24);
  }

  /** No multiple of the generator fits in so few wire bits. */
  lemma NoneConfined(b: seq<bool>, place: Place, highFirst: bool, s: nat)
    requires |b| == 32 && FeedAll({}, b) == {} && s < 8 && Confined(b, place, highFirst, s, BurstLimit(highFirst))
    ensures AllOff(b)
  {
    var fb := Quotient(b);
    NothingFedBack(fb, b);
    match place
    case BODY => if highFirst { BodyHighFirst(b, fb, s); } else { BodyLowFirst(b, fb, s); }
    case EDGE => if highFirst { EdgeHighFirst(b, fb, s); } else { EdgeLowFirst(b, fb, s); }
    case TAIL => if highFirst { TailHighFirst(b, fb, s); } else { TailLowFirst(b, fb, s); }
  }

  /** With nothing left in the register the last sixteen feedback bits were zero. */
  lemma NothingFedBack(fb: seq<bool>, b: seq<bool>)
    requires |b| == 32 && IsQuotient(fb, b) && FeedAll({}, b) == {}
    ensures IsMultiple(b, fb)
  {
    var e: nat := 0;
    while e < 16
      invariant e <= 16
      invariant forall k :: 32 - e <= k < 32 ==> !fb[k]
    {
      assert !LeftBit(fb, e);
      e := e + 1;
    }
  }

  /** Where a window that starts in the body lies. */
  function PlaceOf(n: nat, lo: nat): Place {
    if lo / 8 + 2 < n then BODY else if lo / 8 + 2 == n then EDGE else TAIL
  }

  /** First byte of its block, behind the padding. */
  function BlockOf(n: nat, lo: nat): nat { if lo / 8 + 2 < n then lo / 8 + 2 else n + 1 }

  /** Every bit of the window is in the block, at the place the block says. */
  lemma BlockHoldsWindow(n: nat, highFirst: bool, lo: nat, x: nat)
    requires x < 8 * (n + 2) && lo / 8 < n
    requires lo <= Travels(n, highFirst, x) < lo + BurstLimit(highFirst)
    ensures 8 * BlockOf(n, lo) <= x + 24 < 8 * BlockOf(n, lo) + 32
    ensures var k := x + 24 - 8 * BlockOf(n, lo);
      lo % 8 <= WireIndex(PlaceOf(n, lo), highFirst, k) < lo % 8 + BurstLimit(highFirst)
  {
    var i, j, f := x / 8, x % 8, lo / 8;
    assert x == 8 * i + j && lo == 8 * f + lo % 8;
    ByteOfWindow(n, f, i, if i == n then n + 1 else if i == n + 1 then n else i);
    ByteAndBit(i + 3 - BlockOf(n, lo), j);
    assert x + 24 - 8 * BlockOf(n, lo) == 8 * (i + 3 - BlockOf(n, lo)) + j;
  }

  /** The same for whole bytes: `i` in checksum order, `w` on the wire. */
  lemma ByteOfWindow(n: nat, f: nat, i: nat, w: nat)
    requires f < n && i <= n + 1 && w == if i == n then n + 1 else if i == n + 1 then n else i
    requires f <= w <= f + 2
    ensures var q := BlockOf(n, 8 * f);
      q <= i + 3 < q + 4 && WireIndex(PlaceOf(n, 8 * f), true, 8 * (i + 3 - q)) == 8 * (w - f)
  {
  }

  lemma PaddedBit(x: seq<bool>, i: nat)
    requires i < |x| + 24
    ensures Padded(x)[i] == (i >= 24 && x[i - 24])
  {
  }

  /** A difference confined to such a window cannot cancel. */
  lemma WindowIsSilent(x: seq<bool>, n: nat, highFirst: bool, lo: nat)
    requires |x| == 8 * (n + 2) && FeedAll({}, x) == {} && lo / 8 < n
    requires forall i :: 0 <= i < |x| && x[i] ==> lo <= Travels(n, highFirst, i) < lo + BurstLimit(highFirst)
    ensures AllOff(x)
  {
    var z, p := Padded(x), 8 * BlockOf(n, lo);
    forall i | 0 <= i < |z| && z[i] ensures p <= i < p + 32 {
      PaddedBit(x, i);
      BlockHoldsWindow(n, highFirst, lo, i - 24);
    }
    var b := z[p..p + 32];
    forall k | 0 <= k < 32 && b[k]
      ensures lo % 8 <= WireIndex(PlaceOf(n, lo), highFirst, k) < lo % 8 + BurstLimit(highFirst)
    {
      PaddedBit(x, p + k);
      BlockHoldsWindow(n, highFirst, lo, p + k - 24);
    }
    BlockIsSilent(z, p, PlaceOf(n, lo), highFirst, lo % 8, x);
    forall i | 0 <= i < |x| ensures !x[i] { PaddedBit(x, i + 24); }
  }

  lemma BlockIsSilent(z: seq<bool>, p: nat, place: Place, highFirst: bool, s: nat, x: seq<bool>)
    requires z == Padded(x) && FeedAll({}, x) == {} && p + 32 <= |z| && s < 8
    requires forall i :: 0 <= i < |z| && z[i] ==> p <= i < p + 32
    requires Confined(z[p..p + 32], place, highFirst, s, BurstLimit(highFirst))
    ensures AllOff(z)
  {
    var b := z[p..p + 32];
    PaddedVanishes(x);
    assert z == z[..p] + b + z[p + 32..];
    TrimZeros(z[..p], b, z[p + 32..]);
    NoneConfined(b, place, highFirst, s);
    forall i | 0 <= i < |z| ensures !z[i] {
      if p <= i < p + 32 { assert z[i] == b[i - p]; }
    }
  }

  lemma SameCode(sent: seq<byte>, body: seq<byte>, c: uint16, d: uint16)
    requires |sent| == |body|
    requires AllOff(XorBits(MessageBits(CodeOrder(sent, c)), MessageBits(CodeOrder(body, d))))
    ensures sent == body
  {
    var v, w := MessageBits(CodeOrder(sent, c)), MessageBits(CodeOrder(body, d));
    forall i | 0 <= i < |v| ensures v[i] == w[i] { assert !XorBits(v, w)[i]; }
    MessageBitsInjective(CodeOrder(sent, c), CodeOrder(body, d));
    assert CodeOrder(sent, c)[..|sent|] == sent && CodeOrder(body, d)[..|sent|] == body;
  }

  /** Bits of the two checksum bytes on the wire. */
  lemma CrcWireBit(body: seq<byte>, crc: uint16, highFirst: bool, t: nat)
    requires 8 * |body| <= t < 8 * (|body| + 2)
    ensures WireBit(body + WireCrc(crc), highFirst, t) ==
      Bit(crc, (if t / 8 == |body| then 0 else 8) + if highFirst then 7 - t % 8 else t % 8)
  {
    var j := if highFirst then 7 - t % 8 else t % 8;
    Pow2Values();
    if t / 8 == |body| {
      ModPow2Bit(crc, 8, j);
    } else {
      ShrIsDiv(crc, 8);
      ShrBit(crc, 8, j);
    }
  }

  lemma ByteAndBit(i: nat, j: nat)
    requires j < 8
    ensures (8 * i + j) / 8 == i && (8 * i + j) % 8 == j
  {
  }

  lemma BodyWireBit(body: seq<byte>, tail: seq<byte>, highFirst: bool, t: nat, u: nat)
    requires t < 8 * |body| && u == 8 * (t / 8) + if highFirst then t % 8 else 7 - t % 8
    ensures u < 8 * |body + tail| && WireBit(body + tail, highFirst, u) == WireBit(body, true, t)
  {
    var i, j := t / 8, if highFirst then t % 8 else 7 - t % 8;
    ByteAndBit(i, j);
    assert u / 8 == i && u % 8 == j;
    assert (body + tail)[i] == body[i];
  }

  /** Different bodies differ before the checksum begins. */
  lemma BodyDiffers(sent: seq<byte>, body: seq<byte>, crc: uint16, highFirst: bool, lo: nat)
    requires |body| == |sent| && body != sent
    requires DifferWithin(sent + WireCrc(Crc(sent)), body + WireCrc(crc), highFirst, lo, BurstLimit(highFirst))
    ensures lo < 8 * |sent|
  {
    if lo >= 8 * |sent| {
      forall t: nat | t < 8 * |sent| ensures MessageBits(sent)[t] == MessageBits(body)[t] {
        var u := 8 * (t / 8) + if highFirst then t % 8 else 7 - t % 8;
        BodyWireBit(sent, WireCrc(Crc(sent)), highFirst, t, u);
        BodyWireBit(body, WireCrc(crc), highFirst, t, u);
        MessageBitAt(sent, t);
        MessageBitAt(body, t);
      }
      MessageBitsInjective(sent, body);
      assert false;
    }
  }

  /** A received body and checksum that differ from a sent pair only within twelve consecutive
      bits of the wire (fourteen in the bit order of the serial line), checksum included, never
      pass the check. */
  lemma WireBurstDetected(sent: seq<byte>, body: seq<byte>, crc: uint16, highFirst: bool, lo: nat)
    requires |body| == |sent| && sent + WireCrc(Crc(sent)) != body + WireCrc(crc)
    requires DifferWithin(sent + WireCrc(Crc(sent)), body + WireCrc(crc), highFirst, lo, BurstLimit(highFirst))
    ensures Crc(body) != crc
  {
    if Crc(body) == crc && body != sent {
      var n := |sent|;
      var v, w := MessageBits(CodeOrder(sent, Crc(sent))), MessageBits(CodeOrder(body, crc));
      ResidueZeroIffOwnCrc(sent, Crc(sent));
      ResidueZeroIffOwnCrc(body, crc);
      PolyOfCrcFrom(INIT, CodeOrder(sent, Crc(sent)));
      PolyOfCrcFrom(INIT, CodeOrder(body, crc));
      DifferenceVanishes(PolyOf(INIT), v, w);
      var x := XorBits(v, w);
      forall i | 0 <= i < |x| && x[i] ensures lo <= Travels(n, highFirst, i) < lo + BurstLimit(highFirst) {
        TravelsAs(sent, Crc(sent), highFirst, i);
        TravelsAs(body, crc, highFirst, i);
      }
      BodyDiffers(sent, body, crc, highFirst, lo);
      WindowIsSilent(x, n, highFirst, lo);
      SameCode(sent, body, Crc(sent), crc);
    }
  }

  /** Without an equal first byte the window moves one byte closer. */
  lemma WindowFromSecondByte(v: seq<byte>, w: seq<byte>, highFirst: bool, lo: nat, length: nat)
    requires |v| == |w| > 0 && v[0] == w[0] && DifferWithin(v, w, highFirst, lo, length)
    ensures DifferWithin(v[1..], w[1..], highFirst, if lo < 8 then 0 else lo - 8, length)
  {
    forall t: nat | t < 8 * |v[1..]| && WireBit(v[1..], highFirst, t) != WireBit(w[1..], highFirst, t)
      ensures lo <= t + 8 < lo + length
    {
      assert WireBit(v, highFirst, t + 8) != WireBit(w, highFirst, t + 8);
    }
  }
}

/** What the checksum detects: every burst of at most 16 bits within the body it covers, and
    every error of one to three bits in body and checksum of the longest command. Bursts that
    reach into the checksum are in CrcBursts. */
module CrcDetection {
  import opened Words
  import opened Gf2
  import opened Crc16
  import opened CrcPowers

  /** Longest range the firmware checksums in a command: opcode, length, 32 payload bytes. */
  const MAX_BODY: nat := 34

  function Weight(w: seq<bool>): nat {
    if w == [] then 0 else Weight(w[..|w| - 1]) + (if w[|w| - 1] then 1 else 0)
  }

  /** Number of differing bits. */
  function Distance(a: seq<byte>, b: seq<byte>): nat
    requires |a| == |b|
  {
    Weight(XorBits(MessageBits(a), MessageBits(b)))
  }

  // ----- weights

  lemma {:induction false} WeightConcat(v: seq<bool>, w: seq<bool>)
    ensures Weight(v + w) == Weight(v) + Weight(w)
  {
    if w == [] {
      assert v + w == v;
    } else {
      assert (v + w)[..|v + w| - 1] == v + w[..|w| - 1];
      WeightConcat(v, w[..|w| - 1]);
    }
  }

  lemma {:induction false} WeightZero(w: seq<bool>)
    ensures Weight(w) == 0 <==> forall i :: 0 <= i < |w| ==> !w[i]
  {
    if w != [] { WeightZero(w[..|w| - 1]); }
  }

  lemma {:induction false} LastOne(w: seq<bool>) returns (i: nat)
    requires Weight(w) > 0
    ensures i < |w| && w[i] && Weight(w[..i]) == Weight(w) - 1
    ensures forall j :: i < j < |w| ==> !w[j]
  {
    var n := |w| - 1;
    if w[n] {
      i := n;
    } else {
      i := LastOne(w[..n]);
      assert w[..n][..i] == w[..i];
    }
  }

  lemma ByteBitsInjective(a: byte, b: byte)
    requires ByteBits(a) == ByteBits(b)
    ensures a == b
  {
    Pow2Values();
    FitsIffNoHighBits(a, 8); FitsIffNoHighBits(b, 8);
    forall i: nat ensures Bit(a, i) == Bit(b, i) {
      if i < 8 { assert ByteBits(a)[7 - i] == ByteBits(b)[7 - i]; }
    }
    SameBits(a, b);
  }

  lemma {:induction false} MessageBitsInjective(a: seq<byte>, b: seq<byte>)
    requires |a| == |b| && MessageBits(a) == MessageBits(b)
    ensures a == b
  {
    if a != [] {
      var n := |a| - 1;
      var x, y := MessageBits(a), MessageBits(b);
      assert MessageBits(a[..n]) == x[..8 * n] == y[..8 * n] == MessageBits(b[..n]);
      assert ByteBits(a[n]) == x[8 * n..] == y[8 * n..] == ByteBits(b[n]);
      MessageBitsInjective(a[..n], b[..n]);
      ByteBitsInjective(a[n], b[n]);
    }
  }

  lemma {:induction false} MessageBitsConcat(a: seq<byte>, b: seq<byte>)
    ensures MessageBits(a + b) == MessageBits(a) + MessageBits(b)
  {
    if b == [] {
      assert a + b == a;
    } else {
      assert (a + b)[..|a + b| - 1] == a + b[..|b| - 1];
      MessageBitsConcat(a, b[..|b| - 1]);
    }
  }

  lemma DistanceConcat(a: seq<byte>, b: seq<byte>, x: seq<byte>, y: seq<byte>)
    requires |a| == |b| && |x| == |y|
    ensures Distance(a + x, b + y) == Distance(a, b) + Distance(x, y)
  {
    MessageBitsConcat(a, x); MessageBitsConcat(b, y);
    var v, w := XorBits(MessageBits(a), MessageBits(b)), XorBits(MessageBits(x), MessageBits(y));
    assert XorBits(MessageBits(a + x), MessageBits(b + y)) == v + w;
    WeightConcat(v, w);
  }

  lemma DistanceZero(a: seq<byte>, b: seq<byte>)
    requires |a| == |b|
    ensures Distance(a, b) == 0 <==> a == b
  {
    var x, y := MessageBits(a), MessageBits(b);
    WeightZero(XorBits(x, y));
    if Distance(a, b) == 0 {
      assert forall i :: 0 <= i < |x| ==> !XorBits(x, y)[i];
      assert x == y;
      MessageBitsInjective(a, b);
    }
  }

  lemma DistanceFromSecondByte(w: seq<byte>, v: seq<byte>)
    requires |w| == |v| > 0 && w[0] == v[0]
    ensures Distance(w, v) == Distance(w[1..], v[1..])
  {
    DistanceConcat(w[..1], v[..1], w[1..], v[1..]);
    assert w == w[..1] + w[1..] && v == v[..1] + v[1..];
    assert w[..1] == v[..1];
    DistanceZero(w[..1], v[..1]);
  }

  // ----- difference patterns

  /** Equal final registers mean the difference pattern alone leaves the register at zero. */
  lemma DifferenceVanishes(r: Poly, v: seq<bool>, w: seq<bool>)
    requires Below(r, 16) && |v| == |w|
    requires FeedAll(r, v) == FeedAll(r, w)
    ensures FeedAll({}, XorBits(v, w)) == {}
  {
    FeedAllAdd(r, r, v, w);
    assert Add(r, r) == {};
  }

  /** Zeros around a difference do not help it to cancel. */
  lemma TrimZeros(y: seq<bool>, mid: seq<bool>, z: seq<bool>)
    requires FeedAll({}, y + mid + z) == {}
    requires forall i :: 0 <= i < |y| ==> !y[i]
    requires forall i :: 0 <= i < |z| ==> !z[i]
    ensures FeedAll({}, mid) == {}
  {
    FeedAllConcat({}, y + mid, z);
    FeedAllConcat({}, y, mid);
    FeedZeros({}, y);
    StepsZero(|y|);
    var r := FeedAll({}, mid);
    FeedAllBelow({}, mid);
    FeedZeros(r, z);
    StepsZero(|z|);
    StepsInjective(r, {}, |z|);
  }

  /** At most 16 bits cannot cancel themselves. */
  lemma ShortIsZero(w: seq<bool>)
    requires |w| <= 16 && FeedAll({}, w) == {}
    ensures forall i :: 0 <= i < |w| ==> !w[i]
  {
    FeedIsLoadAndSteps({}, w);
    assert Add({}, Load(w)) == Load(w);
    StepsZero(|w|);
    StepsInjective(Load(w), {}, |w|);
    forall i | 0 <= i < |w| ensures !w[i] { assert 15 - i !in Load(w); }
  }

  lemma BurstsDoNotCancel(w: seq<bool>, lo: nat, hi: nat)
    requires FeedAll({}, w) == {} && lo <= hi <= |w| && hi - lo <= 16
    requires forall i :: 0 <= i < |w| && w[i] ==> lo <= i < hi
    ensures Weight(w) == 0
  {
    var y, mid, z := w[..lo], w[lo..hi], w[hi..];
    assert w == y + mid + z;
    TrimZeros(y, mid, z);
    ShortIsZero(mid);
    forall i | 0 <= i < |w| ensures !w[i] {
      if lo <= i < hi { assert !mid[i - lo]; }
    }
    WeightZero(w);
  }

  /** Two different messages whose difference lies within 16 consecutive bits have
      different checksums, whatever surrounds the burst. */
  lemma BurstDetected(a: seq<byte>, b: seq<byte>, k: nat)
    requires |a| == |b| && a != b
    requires forall i :: 0 <= i < 8 * |a| && MessageBits(a)[i] != MessageBits(b)[i] ==> k <= i < k + 16
    ensures Crc(a) != Crc(b)
  {
    if Crc(a) == Crc(b) {
      var x, y := MessageBits(a), MessageBits(b);
      PolyOfCrcFrom(INIT, a);
      PolyOfCrcFrom(INIT, b);
      DifferenceVanishes(PolyOf(INIT), x, y);
      assert forall i :: 0 <= i < |x| ==> XorBits(x, y)[i] == (x[i] != y[i]);
      BurstsDoNotCancel(XorBits(x, y), if k <= |x| then k else |x|, if k + 16 <= |x| then k + 16 else |x|);
      DistanceZero(a, b);
    }
  }

  // ----- odd weights: the register keeps parity

  /** Whether an odd number of exponents below `n` occurs. */
  predicate Odd(p: Poly, n: nat) {
    n > 0 && Odd(p, n - 1) != ((n - 1) in p)
  }

  lemma {:induction false} OddAdd(p: Poly, q: Poly, n: nat)
    ensures Odd(Add(p, q), n) == (Odd(p, n) != Odd(q, n))
  {
    if n > 0 { OddAdd(p, q, n - 1); }
  }

  lemma {:induction false} OddMulX(p: Poly, n: nat)
    ensures Odd(MulX(p), n + 1) == Odd(p, n)
  {
    MulXMember(p);
    if n > 0 { OddMulX(p, n - 1); }
  }

  lemma {:induction false} OddEmpty(n: nat)
    ensures !Odd({}, n)
  {
    if n > 0 { OddEmpty(n - 1); }
  }

  lemma {:induction false} OddMonomial(e: nat, n: nat)
    ensures Odd({e}, n) == (e < n)
  {
    if n > 0 { OddMonomial(e, n - 1); }
  }

  /** The generator has an even number of terms, so a step keeps the parity. */
  lemma StepKeepsParity(r: Poly)
    requires Below(r, 16)
    ensures Odd(StepPoly(r), 16) == Odd(r, 16)
  {
    var m := MulX(r);
    OddMulX(r, 16);
    OddAdd({16}, {12}, 17); OddAdd({16, 12}, {5}, 17); OddAdd({16, 12, 5}, {0}, 17);
    OddMonomial(16, 17); OddMonomial(12, 17); OddMonomial(5, 17); OddMonomial(0, 17);
    assert Add({16}, {12}) == {16, 12} && Add({16, 12}, {5}) == {16, 12, 5};
    assert Add({16, 12, 5}, {0}) == GENERATOR;
    OddAdd(m, GENERATOR, 17);
    StepMember(r);
    assert Odd(StepPoly(r), 17) == Odd(StepPoly(r), 16);
  }

  lemma {:induction false} FeedKeepsParity(w: seq<bool>)
    ensures Odd(FeedAll({}, w), 16) == (Weight(w) % 2 == 1)
  {
    if w == [] {
      OddEmpty(16);
    } else {
      var v, b := w[..|w| - 1], w[|w| - 1];
      FeedKeepsParity(v);
      FeedAllBelow({}, v);
      var r := Add(FeedAll({}, v), Unless(!b, {15}));
      OddAdd(FeedAll({}, v), Unless(!b, {15}), 16);
      OddEmpty(16);
      OddMonomial(15, 16);
      StepKeepsParity(r);
    }
  }

  // ----- weight two: x has order above 287 modulo the generator

  lemma ShrBitZero(n: nat, k: nat)
    ensures Bit(n, k) <==> n / Pow2(k) % 2 == 1
  {
    ShrBit(n, k, 0);
    ShrIsDiv(n, k);
  }

  /** Flipping digit `k` adds or subtracts 2^k. */
  lemma {:induction false} FlipBit(n: nat, k: nat)
    ensures Xor(n, Pow2(k)) == if Bit(n, k) then n - Pow2(k) else n + Pow2(k)
    decreases k
  {
    var d := Pow2(k);
    if k == 0 {
      assert Xor(n, 1) == (if n % 2 == 1 then 0 else 1) + 2 * Xor(n / 2, 0);
      XorZero(n / 2);
    } else {
      assert d / 2 == Pow2(k - 1) && d % 2 == 0;
      FlipBit(n / 2, k - 1);
    }
  }

  lemma {:induction false} XorZero(n: nat)
    ensures Xor(n, 0) == n
  {
    if n > 0 { XorZero(n / 2); }
  }

  /** Adding 0x1021 flips digits 0, 5 and 12. */
  lemma XorGenerator(s: uint16)
    ensures Xor(Xor(Xor(s, Pow2(0)), Pow2(5)), Pow2(12)) == Xor(s, CRC16_MCUCO)
  {
    var a := Xor(s, Pow2(0));
    var b := Xor(a, Pow2(5));
    var r := Xor(b, Pow2(12));
    BitwiseBits(XOR, s, CRC16_MCUCO);
    BitwiseBits(XOR, s, Pow2(0)); BitwiseBits(XOR, a, Pow2(5)); BitwiseBits(XOR, b, Pow2(12));
    forall i: nat ensures Bit(r, i) == Bit(Xor(s, CRC16_MCUCO), i) {
      GeneratorBits(i);
      Pow2Bit(0, i); Pow2Bit(5, i); Pow2Bit(12, i);
    }
    SameBits(r, Xor(s, CRC16_MCUCO));
  }

  lemma FlipThree(s: nat)
    requires s % 2 == 0
    ensures Xor(Xor(Xor(s, Pow2(0)), Pow2(5)), Pow2(12))
      == s + 1 + (if s / 32 % 2 == 0 then 32 else -32) + (if s / 4096 % 2 == 0 then 4096 else -4096)
  {
    var a := Xor(s, Pow2(0));
    var b := Xor(a, Pow2(5));
    FlipBit(s, 0); FlipBit(a, 5); FlipBit(b, 12);
    assert Pow2(5) == 32 by { assert Pow2(3) == 8; }
    assert Pow2(12) == 4096 by { assert Pow2(8) == 256 by { Pow2Values(); } assert Pow2(10) == 1024; }
    BitwiseBit(XOR, s, Pow2(0), 5); BitwiseBit(XOR, s, Pow2(0), 12); BitwiseBit(XOR, a, Pow2(5), 12);
    Pow2Bit(0, 5); Pow2Bit(0, 12); Pow2Bit(5, 12);
    ShrBitZero(s, 5); ShrBitZero(s, 12);
  }

  lemma ShiftStepArith(c: uint16)
    ensures ShiftStep(c) == ShiftArith(c)
  {
    if c >= 0x8000 {
      var s := 2 * c - 0x1_0000;
      assert s == 2 * c % 0x1_0000;
      XorGenerator(s);
      FlipThree(s);
    }
  }

  lemma {:induction false} PowerOfXIsSteps(n: nat)
    ensures ShiftSteps(1, n) == PowerOfX(n)
  {
    if n > 0 {
      PowerOfXIsSteps(n - 1);
      ShiftStepArith(ShiftSteps(1, n - 1));
    }
  }

  lemma {:induction false} Pow2Product(a: nat, b: nat)
    ensures Pow2(a) * Pow2(b) == Pow2(a + b)
  {
    if a > 0 {
      Pow2Product(a - 1, b);
      assert Pow2(a) * Pow2(b) == 2 * (Pow2(a - 1) * Pow2(b));
    }
  }

  lemma FactorDivides(p: nat, q: nat, n: nat)
    requires p > 0 && q > 0 && p * q == n
    ensures p <= n && n % p == 0
  {
    MulMono(1, q, p);
    DivModUnique(n, p, q, 0);
  }

  lemma MonomialDivides(b: nat)
    requires b < 16
    ensures Pow2(b) < 0x1_0000
    ensures 0x8000 % Pow2(b) == 0
  {
    Pow2Product(b, 15 - b);
    Pow2Values();
    FactorDivides(Pow2(b), Pow2(15 - b), 0x8000);
  }

  lemma RoundUp(d: nat) returns (a: nat, b: nat)
    ensures 16 * a == d + b && b < 16
  {
    a := (d + 15) / 16;
    b := 16 * a - d;
  }

  /** x^d is not 1 modulo the generator for 0 < d < 288. */
  lemma OrderOfX(d: nat)
    requires 1 <= d <= 287
    ensures Steps({0}, d) != {0}
  {
    if Steps({0}, d) == {0} {
      var a, b := RoundUp(d);
      StepsCompose({0}, d, b);
      StepsShift(0, b);
      PolyOfShiftSteps(1, 16 * a);
      MonomialPoly(0);
      MonomialPoly(b);
      PolyOfInjective(ShiftSteps(1, 16 * a), Pow2(b));
      PowerOfXIsSteps(16 * a);
      PowerTable(a);
      TableHasNoMonomial(a);
      MonomialDivides(b);
    }
  }

  lemma MonomialPoly(b: nat)
    requires b < 16
    ensures Pow2(b) < 0x1_0000 && PolyOf(Pow2(b)) == {b}
  {
    MonomialDivides(b);
    forall e: nat ensures Bit(Pow2(b), e) == (e == b) { Pow2Bit(b, e); }
  }

  // ----- light patterns never cancel

  /** The register after two ones with zeros between. */
  lemma FeedPair(gap: seq<bool>)
    requires forall i :: 0 <= i < |gap| ==> !gap[i]
    ensures FeedAll({}, [true] + gap + [true]) == StepPoly(Add(Steps({15}, |gap| + 1), {15}))
  {
    FeedAllConcat({}, [true] + gap, [true]);
    FeedAllConcat({}, [true], gap);
    FeedOne({});
    assert Add({}, {15}) == {15};
    FeedZeros(StepPoly({15}), gap);
    StepsCompose({15}, 1, |gap|);
    assert Steps({15}, 1) == StepPoly(Steps({15}, 0));
    FeedOne(Steps({15}, |gap| + 1));
  }

  /** Two ones at distance `d` cancel only if x^d is 1. */
  lemma PairCancels(gap: seq<bool>)
    requires forall i :: 0 <= i < |gap| ==> !gap[i]
    requires FeedAll({}, [true] + gap + [true]) == {}
    ensures Steps({15}, |gap| + 1) == {15}
  {
    var t := Steps({15}, |gap| + 1);
    FeedPair(gap);
    StepsBelow({15}, |gap| + 1);
    StepsZero(1);
    assert Steps({}, 1) == StepPoly(Steps({}, 0));
    StepInjective(Add(t, {15}), {});
    AddCancel(t, {15}, {}, {});
  }

  lemma FeedOne(r: Poly)
    ensures FeedAll(r, [true]) == StepPoly(Add(r, {15}))
  {
    assert [true][..0] == [];
    assert FeedAll(r, [true]) == Feed(FeedAll(r, [true][..0]), true);
  }

  lemma CancelFifteen(d: nat)
    requires Steps({15}, d) == {15}
    ensures Steps({0}, d) == {0}
  {
    StepsShift(0, 15);
    StepsCompose({0}, 15, d);
    StepsCompose({0}, d, 15);
    StepsBelow({0}, d);
    StepsInjective(Steps({0}, d), {0}, 15);
  }

  lemma PairDoesNotCancel(gap: seq<bool>)
    requires |gap| <= 286 && forall i :: 0 <= i < |gap| ==> !gap[i]
    ensures FeedAll({}, [true] + gap + [true]) != {}
  {
    if FeedAll({}, [true] + gap + [true]) == {} {
      PairCancels(gap);
      CancelFifteen(|gap| + 1);
      OrderOfX(|gap| + 1);
    }
  }

  predicate AllFalse(w: seq<bool>) { forall i :: 0 <= i < |w| ==> !w[i] }

  /** Two ones, and zeros before, between and behind. */
  lemma PairAndZeros(i: nat, j: nat, w: seq<bool>)
    requires i < j < |w| && forall k :: 0 <= k < |w| ==> w[k] == (k == i || k == j)
    ensures w == w[..i] + ([true] + w[i + 1..j] + [true]) + w[j + 1..]
    ensures AllFalse(w[..i]) && AllFalse(w[i + 1..j]) && AllFalse(w[j + 1..])
  {
  }

  lemma PaddedPair(before: seq<bool>, gap: seq<bool>, after: seq<bool>)
    requires AllFalse(before) && AllFalse(gap) && AllFalse(after) && |gap| <= 286
    ensures FeedAll({}, before + ([true] + gap + [true]) + after) != {}
  {
    PairDoesNotCancel(gap);
    if FeedAll({}, before + ([true] + gap + [true]) + after) == {} {
      TrimZeros(before, [true] + gap + [true], after);
    }
  }

  lemma TwoOnesDoNotCancel(i: nat, j: nat, w: seq<bool>)
    requires i < j < |w| <= 288
    requires forall k :: 0 <= k < |w| ==> w[k] == (k == i || k == j)
    ensures FeedAll({}, w) != {}
  {
    PairAndZeros(i, j, w);
    PaddedPair(w[..i], w[i + 1..j], w[j + 1..]);
  }

  /** A difference pattern of one to three bits leaves a non-zero register. */
  lemma LightPatternsDoNotCancel(w: seq<bool>)
    requires |w| <= 288 && 1 <= Weight(w) <= 3
    ensures FeedAll({}, w) != {}
  {
    FeedKeepsParity(w);
    OddEmpty(16);
    if Weight(w) == 2 {
      var j := LastOne(w);
      var i := LastOne(w[..j]);
      WeightZero(w[..j][..i]);
      assert forall k :: 0 <= k < i ==> w[..j][..i][k] == w[k];
      assert forall k :: i < k < j ==> w[..j][k] == w[k];
      TwoOnesDoNotCancel(i, j, w);
    }
  }

  // ----- main results

  /** The two checksum bytes in the order they travel: low byte first. */
  function WireCrc(c: uint16): seq<byte> { [CrcLow(c), CrcHigh(c)] }

  lemma SwapKeepsDistance(a: byte, b: byte, x: byte, y: byte)
    ensures Distance([a, b], [x, y]) == Distance([b, a], [y, x])
  {
    DistanceConcat([a], [x], [b], [y]);
    DistanceConcat([b], [y], [a], [x]);
    assert [a, b] == [a] + [b] && [b, a] == [b] + [a] && [x, y] == [x] + [y] && [y, x] == [y] + [x];
  }

  /** A received body and checksum that differ from a sent pair in one, two or three bits
      never pass the check. */
  lemma ThreeBitErrorsDetected(sent: seq<byte>, body: seq<byte>, crc: uint16)
    requires |body| == |sent| <= MAX_BODY
    requires 1 <= Distance(sent + WireCrc(Crc(sent)), body + WireCrc(crc)) <= 3
    ensures Crc(body) != crc
  {
    var s, r := [CrcHigh(Crc(sent)), CrcLow(Crc(sent))], [CrcHigh(crc), CrcLow(crc)];
    DistanceConcat(sent, body, WireCrc(Crc(sent)), WireCrc(crc));
    DistanceConcat(sent, body, s, r);
    SwapKeepsDistance(CrcLow(Crc(sent)), CrcHigh(Crc(sent)), CrcLow(crc), CrcHigh(crc));
    if Crc(body) == crc {
      ResidueZeroIffOwnCrc(sent, Crc(sent));
      ResidueZeroIffOwnCrc(body, crc);
      PolyOfCrcFrom(INIT, sent + s);
      PolyOfCrcFrom(INIT, body + r);
      DifferenceVanishes(PolyOf(INIT), MessageBits(sent + s), MessageBits(body + r));
      LightPatternsDoNotCancel(XorBits(MessageBits(sent + s), MessageBits(body + r)));
    }
  }

  /** Minimum distance 4: two different valid frames of the same length differ in at least
      four bits. */
  lemma MinimumDistanceFour(a: seq<byte>, b: seq<byte>)
    requires |a| == |b| <= MAX_BODY && a != b
    ensures Distance(a + WireCrc(Crc(a)), b + WireCrc(Crc(b))) >= 4
  {
    DistanceZero(a, b);
    DistanceConcat(a, b, WireCrc(Crc(a)), WireCrc(Crc(b)));
    if Distance(a + WireCrc(Crc(a)), b + WireCrc(Crc(b))) <= 3 {
      ThreeBitErrorsDetected(a, b, Crc(b));
    }
  }
}

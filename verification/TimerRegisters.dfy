/** One general-purpose timer's registers (the register accesses of peripherals/timer.c) and
    what their packed bits mean. */
module TimerRegisters {
  import opened Words
  import opened Timebase

  const CHANNELS: nat := 4
  const CR1_CEN: nat := 0
  const CR1_ARPE: uint32 := 0x80

  /** A channel is free, or claimed with the duty last requested and a polarity. */
  datatype Channel = Free | Claimed(duty: nat, activeLow: bool)

  /** A timer and its four channels. */
  datatype Group =
    | Off
    | On(psc: nat, arr: nat, running: bool, channels: seq<Channel>)

  /** Both registers fit 16 bits and the period in ticks fits 32. */
  predicate IsTimebase(psc: nat, arr: nat) {
    psc <= TIMER_PRESCALER_MAX && arr <= TIMER_RELOAD_MAX && Period(psc, arr) < 0x1_0000_0000
  }

  predicate WellFormed(g: Group) {
    g.On? ==>
      && IsTimebase(g.psc, g.arr)
      && |g.channels| == CHANNELS
      && forall c :: 0 <= c < CHANNELS ==> g.channels[c].Claimed? ==> g.channels[c].duty <= TIMER_DUTY_MAX
  }

  const ALL_FREE: seq<Channel> := [Free, Free, Free, Free]

  /** The compare register of a channel: floor((reload + 1) * duty / 1000), or 0 when free. */
  function CompareOf(arr: nat, c: Channel): nat {
    if c.Claimed? then Compare(arr, c.duty) else 0
  }

  /** The enable register: one enable bit per claimed channel, and its polarity bit. */
  predicate EnableBit(channels: seq<Channel>, i: nat)
    requires |channels| == CHANNELS
  {
    i < 16 && channels[i / 4].Claimed? && (i % 4 == 0 || (i % 4 == 1 && channels[i / 4].activeLow))
  }

  /** The mode register of a pair of channels: PWM mode 1 (0b110) and the preload bit of
      each claimed one, in bytes of their own. */
  predicate ModeBit(channels: seq<Channel>, half: nat, i: nat)
    requires |channels| == CHANNELS && half < 2
  {
    i < 16 && channels[2 * half + i / 8].Claimed? && (i % 8 == 3 || i % 8 == 5 || i % 8 == 6)
  }

  /** timer_ocm_pos(). */
  function OcmPos(c: nat): nat { if c == 0 || c == 2 then 4 else 12 }

  /** timer_ccmr(): which mode register holds the channel. */
  function ModeHalf(c: nat): nat { if c <= 1 then 0 else 1 }

  const OCM_FIELD: nat := 0x1007
  const OCM_PWM_MODE1: nat := 6
  const CCS_FIELD: nat := 3

  lemma FieldConstants(i: nat)
    ensures Bit(OCM_FIELD, i) <==> i <= 2 || i == 12
    ensures Bit(OCM_PWM_MODE1, i) <==> i == 1 || i == 2
    ensures Bit(CCS_FIELD, i) <==> i <= 1
  {
    assert Pow2(2) == 4;
    assert Mask(2) == CCS_FIELD;
    MaskBit(2, i);
    assert Bit(OCM_PWM_MODE1, i) == (i > 0 && Bit(3, i - 1));
    if i > 0 { MaskBit(2, i - 1); }
    assert Pow2(3) == 8;
    assert Mask(3) == 7;
    assert Pow2(9) == 512 by { assert Pow2(5) == 32; assert Pow2(7) == 128; }
    ModPow2Bit(OCM_FIELD, 3, i);
    DivModUnique(OCM_FIELD, 8, 512, 7);
    MaskBit(3, i);
    ShrIsDivBy8(OCM_FIELD);
    if i >= 3 {
      ShrBit(OCM_FIELD, 3, i - 3);
      Pow2Bit(9, i - 3);
    }
  }

  lemma ShrIsDivBy8(n: nat)
    ensures Shr(n, 3) == n / 8
  {
    assert Shr(n, 3) == Shr(n / 2, 2);
    assert Shr(n / 2, 2) == Shr(n / 2 / 2, 1);
  }

  /** `mode` after claiming the channel at `pos`. */
  function ClaimedMode(mode: nat, pos: nat): nat
    requires pos >= 4
  {
    var cleared := AndNot(mode, Or(Shl(OCM_FIELD, pos), Shl(CCS_FIELD, pos - 4)));
    Or(Or(cleared, Shl(OCM_PWM_MODE1, pos)), Shl(1, pos - 1))
  }

  lemma ClaimedModeBits(mode: nat, pos: nat, i: nat)
    requires pos >= 4
    ensures Bit(ClaimedMode(mode, pos), i) <==>
      i == pos - 1 || i == pos + 1 || i == pos + 2 ||
      (Bit(mode, i) && !(pos <= i <= pos + 2 || i == pos + 12 || pos - 4 <= i <= pos - 3))
  {
    var field := Or(Shl(OCM_FIELD, pos), Shl(CCS_FIELD, pos - 4));
    var cleared := AndNot(mode, field);
    var m := Or(cleared, Shl(OCM_PWM_MODE1, pos));
    BitwiseBit(OR, Shl(OCM_FIELD, pos), Shl(CCS_FIELD, pos - 4), i);
    BitwiseBit(ANDNOT, mode, field, i);
    BitwiseBit(OR, cleared, Shl(OCM_PWM_MODE1, pos), i);
    BitwiseBit(OR, m, Shl(1, pos - 1), i);
    ShlBit(OCM_FIELD, pos, i); ShlBit(CCS_FIELD, pos - 4, i); ShlBit(OCM_PWM_MODE1, pos, i);
    OneBit(pos - 1);
    if i >= pos { FieldConstants(i - pos); }
    if i >= pos - 4 { FieldConstants(i - (pos - 4)); }
  }

  /** `mode` after releasing the channel at `pos`. */
  function ReleasedMode(mode: nat, pos: nat): nat
    requires pos >= 1
  {
    AndNot(mode, Or(Shl(OCM_FIELD, pos), Shl(1, pos - 1)))
  }

  lemma ReleasedModeBits(mode: nat, pos: nat, i: nat)
    requires pos >= 1
    ensures Bit(ReleasedMode(mode, pos), i) <==>
      Bit(mode, i) && !(pos - 1 <= i <= pos + 2 || i == pos + 12)
  {
    var field := Or(Shl(OCM_FIELD, pos), Shl(1, pos - 1));
    BitwiseBit(OR, Shl(OCM_FIELD, pos), Shl(1, pos - 1), i);
    BitwiseBit(ANDNOT, mode, field, i);
    ShlBit(OCM_FIELD, pos, i);
    OneBit(pos - 1);
    if i >= pos { FieldConstants(i - pos); }
  }

  lemma HighBitsClear(n: nat)
    requires forall i: nat :: i >= 32 ==> !Bit(n, i)
    ensures n < 0x1_0000_0000
  {
    Pow2Of32();
    FitsIffNoHighBits(n, 32);
  }

  /** The byte of the mode register that belongs to channel `c`. */
  lemma ModePositions(c: nat, i: nat)
    requires c < CHANNELS
    ensures var pos := OcmPos(c);
      && (i == pos - 1 || i == pos + 1 || i == pos + 2 <==>
            i < 16 && 2 * ModeHalf(c) + i / 8 == c && (i % 8 == 3 || i % 8 == 5 || i % 8 == 6))
      && (i < 16 && 2 * ModeHalf(c) + i / 8 != c ==> !(pos - 4 <= i <= pos + 2 || i == pos + 12))
  {
  }

  /** `ccer` after claiming channel `c`. */
  function ClaimedEnable(ccer: nat, c: nat, activeLow: bool): nat {
    var cleared := AndNot(ccer, Or(Shl(1, 4 * c), Shl(1, 4 * c + 1)));
    Or(if activeLow then Or(cleared, Shl(1, 4 * c + 1)) else cleared, Shl(1, 4 * c))
  }

  lemma ClaimedEnableBits(ccer: nat, c: nat, activeLow: bool, i: nat)
    ensures Bit(ClaimedEnable(ccer, c, activeLow), i) <==>
      i == 4 * c || (activeLow && i == 4 * c + 1) || (Bit(ccer, i) && i != 4 * c && i != 4 * c + 1)
  {
    var field := Or(Shl(1, 4 * c), Shl(1, 4 * c + 1));
    var cleared := AndNot(ccer, field);
    var marked := if activeLow then Or(cleared, Shl(1, 4 * c + 1)) else cleared;
    BitwiseBit(OR, Shl(1, 4 * c), Shl(1, 4 * c + 1), i);
    BitwiseBit(ANDNOT, ccer, field, i);
    BitwiseBit(OR, cleared, Shl(1, 4 * c + 1), i);
    BitwiseBit(OR, marked, Shl(1, 4 * c), i);
    OneBit(4 * c);
    OneBit(4 * c + 1);
  }

  /** `ccer` after releasing channel `c`. */
  function ReleasedEnable(ccer: nat, c: nat): nat {
    AndNot(ccer, Or(Shl(1, 4 * c), Shl(1, 4 * c + 1)))
  }

  lemma ReleasedEnableBits(ccer: nat, c: nat, i: nat)
    ensures Bit(ReleasedEnable(ccer, c), i) <==> Bit(ccer, i) && i != 4 * c && i != 4 * c + 1
  {
    var field := Or(Shl(1, 4 * c), Shl(1, 4 * c + 1));
    BitwiseBit(OR, Shl(1, 4 * c), Shl(1, 4 * c + 1), i);
    BitwiseBit(ANDNOT, ccer, field, i);
    OneBit(4 * c);
    OneBit(4 * c + 1);
  }

  ghost predicate ShowsChannels(ccer: nat, ccmr: seq<uint32>, ccr: seq<uint32>, arr: nat, channels: seq<Channel>)
    requires |ccmr| == 2 && |ccr| == |channels| == CHANNELS
  {
    && (forall i: nat :: Bit(ccer, i) <==> EnableBit(channels, i))
    && (forall i: nat :: Bit(ccmr[0], i) <==> ModeBit(channels, 0, i))
    && (forall i: nat :: Bit(ccmr[1], i) <==> ModeBit(channels, 1, i))
    && (forall c :: 0 <= c < CHANNELS ==> ccr[c] == CompareOf(arr, channels[c]))
  }

  lemma ClaimEnableShows(ccer: nat, channels: seq<Channel>, c: nat, duty: nat, activeLow: bool)
    requires |channels| == CHANNELS && c < CHANNELS
    requires forall i: nat :: Bit(ccer, i) <==> EnableBit(channels, i)
    ensures forall i: nat :: Bit(ClaimedEnable(ccer, c, activeLow), i) <==>
      EnableBit(channels[c := Claimed(duty, activeLow)], i)
  {
    var e, after := ClaimedEnable(ccer, c, activeLow), channels[c := Claimed(duty, activeLow)];
    forall i: nat ensures Bit(e, i) <==> EnableBit(after, i) {
      ClaimedEnableBits(ccer, c, activeLow, i);
    }
  }

  lemma ClaimModeShows(mode: nat, channels: seq<Channel>, c: nat, k: Channel)
    requires |channels| == CHANNELS && c < CHANNELS && k.Claimed?
    requires forall i: nat :: Bit(mode, i) <==> ModeBit(channels, ModeHalf(c), i)
    ensures forall i: nat :: Bit(ClaimedMode(mode, OcmPos(c)), i) <==> ModeBit(channels[c := k], ModeHalf(c), i)
  {
    var m, after := ClaimedMode(mode, OcmPos(c)), channels[c := k];
    forall i: nat ensures Bit(m, i) <==> ModeBit(after, ModeHalf(c), i) {
      ClaimedModeBits(mode, OcmPos(c), i);
      ModePositions(c, i);
    }
  }

  /** The mode register of the other pair of channels does not depend on channel `c`. */
  lemma OtherModeKept(channels: seq<Channel>, c: nat, k: Channel)
    requires |channels| == CHANNELS && c < CHANNELS
    ensures var other := 1 - ModeHalf(c);
      forall i: nat :: ModeBit(channels[c := k], other, i) == ModeBit(channels, other, i)
  {
    var other, after := 1 - ModeHalf(c), channels[c := k];
    forall i: nat ensures ModeBit(after, other, i) == ModeBit(channels, other, i) { ModePositions(c, i); }
  }

  /** The three packed registers after a claim show the claimed channel and leave the other
      three channels' bits and compare values alone. */
  lemma ClaimShows(ccer: uint32, ccmr: seq<uint32>, ccr: seq<uint32>, arr: nat, channels: seq<Channel>,
                   c: nat, duty: nat, activeLow: bool, compare: uint32)
    requires |ccmr| == 2 && |ccr| == |channels| == CHANNELS && c < CHANNELS
    requires ShowsChannels(ccer, ccmr, ccr, arr, channels) && compare == Compare(arr, duty)
    ensures var m := ClaimedMode(ccmr[ModeHalf(c)], OcmPos(c));
      var e := ClaimedEnable(ccer, c, activeLow);
      && m < 0x1_0000_0000 && e < 0x1_0000_0000
      && ShowsChannels(e, ccmr[ModeHalf(c) := m], ccr[c := compare], arr, channels[c := Claimed(duty, activeLow)])
  {
    var k := Claimed(duty, activeLow);
    ClaimEnableShows(ccer, channels, c, duty, activeLow);
    ClaimModeShows(ccmr[ModeHalf(c)], channels, c, k);
    OtherModeKept(channels, c, k);
    HighBitsClear(ClaimedEnable(ccer, c, activeLow));
    HighBitsClear(ClaimedMode(ccmr[ModeHalf(c)], OcmPos(c)));
  }

  /** The same for a release. */
  lemma ReleaseShows(ccer: uint32, ccmr: seq<uint32>, ccr: seq<uint32>, arr: nat, channels: seq<Channel>, c: nat)
    requires |ccmr| == 2 && |ccr| == |channels| == CHANNELS && c < CHANNELS
    requires ShowsChannels(ccer, ccmr, ccr, arr, channels)
    ensures var m := ReleasedMode(ccmr[ModeHalf(c)], OcmPos(c));
      var e := ReleasedEnable(ccer, c);
      && m < 0x1_0000_0000 && e < 0x1_0000_0000
      && ShowsChannels(e, ccmr[ModeHalf(c) := m], ccr[c := 0], arr, channels[c := Free])
  {
    var half, pos := ModeHalf(c), OcmPos(c);
    var after := channels[c := Free];
    var m, e := ReleasedMode(ccmr[half], pos), ReleasedEnable(ccer, c);
    forall i: nat ensures Bit(e, i) <==> EnableBit(after, i) {
      ReleasedEnableBits(ccer, c, i);
    }
    forall i: nat ensures Bit(m, i) <==> ModeBit(after, half, i) {
      ReleasedModeBits(ccmr[half], pos, i);
      ModePositions(c, i);
    }
    HighBitsClear(e);
    HighBitsClear(m);
    OtherModeKept(channels, c, Free);
  }

  /** The counter-enable bit of the two control values in use. */
  lemma CounterBit(r: nat)
    requires r == CR1_ARPE || r == CR1_ARPE + 1
    ensures SetBit(r, CR1_CEN) == CR1_ARPE + 1 && ClearBit(r, CR1_CEN) == CR1_ARPE
    ensures And(r, Shl(1, CR1_CEN)) == 0 <==> r == CR1_ARPE
  {
    assert Shl(1, 0) == 1;
    OrZero(r / 2);
    BitTest(r, 0);
  }

  /** One timer's register block. */
  datatype TimRegs = TimRegs(
    cr1: uint32, ccer: uint32, psc: uint32, arr: uint32, cnt: uint32, sr: uint32,
    ccmr: seq<uint32>, ccr: seq<uint32>)

  /** The registers hold exactly what the group's abstract state says. */
  ghost predicate Shows(r: TimRegs, g: Group) {
    && WellFormed(g)
    && |r.ccmr| == 2 && |r.ccr| == CHANNELS
    && ShowsChannels(r.ccer, r.ccmr, r.ccr, if g.On? then g.arr else 0, if g.On? then g.channels else ALL_FREE)
    && match g
       case Off => r.cr1 == 0
       case On(p, a, running, _) =>
         r.psc == p && r.arr == a && r.cr1 == (if running then CR1_ARPE + 1 else CR1_ARPE)
  }

  /** The counter-enable bit is set. */
  predicate Counting(r: TimRegs) { And(r.cr1, Shl(1, CR1_CEN)) != 0 }

  lemma CountingIsRunning(r: TimRegs, g: Group)
    requires Shows(r, g) && g.On?
    ensures Counting(r) <==> g.running
  {
    CounterBit(r.cr1);
  }

  /** A change to a timer in state `g` leaves a running counter alone and restarts a stopped
      one from zero. */
  predicate CounterKept(g: Group, before: TimRegs, after: TimRegs)
    requires g.On?
  {
    if g.running then after.cnt == before.cnt && after.sr == before.sr else after.cnt == 0 && after.sr == 0
  }

  /** Two timers showing the same channels have the same enable and mode registers: nothing
      in them depends on how the state was reached. */
  lemma RegistersDetermined(r: TimRegs, s: TimRegs, g: Group)
    requires Shows(r, g) && Shows(s, g)
    ensures r.ccer == s.ccer && r.ccmr == s.ccmr && r.ccr == s.ccr && r.cr1 == s.cr1
  {
    SameBits(r.ccer, s.ccer);
    SameBits(r.ccmr[0], s.ccmr[0]);
    SameBits(r.ccmr[1], s.ccmr[1]);
    assert r.ccr == s.ccr;
  }

  // ----- the registers as numbers

  lemma SixtyEight(i: nat)
    ensures Bit(0x68, i) <==> i == 3 || i == 5 || i == 6
  {
    ShrIsDivBy8(0x68);
    assert Bit(0x68, 0) == false && Bit(0x68, 1) == Bit(0x34, 0) && Bit(0x68, 2) == Bit(0x34, 1);
    assert Bit(0x34, 1) == Bit(0x1A, 0);
    if i >= 3 {
      ShrBit(0x68, 3, i - 3);
      ThirteenBits(i - 3);
    }
  }

  lemma ThirteenBits(i: nat)
    ensures Bit(13, i) <==> i == 0 || i == 2 || i == 3
  {
    ZeroBit(i);
    assert i >= 1 ==> Bit(13, i) == Bit(6, i - 1);
    assert i >= 2 ==> Bit(6, i - 1) == Bit(3, i - 2);
    assert i >= 3 ==> Bit(3, i - 2) == Bit(1, i - 3);
    if i >= 4 {
      assert Bit(1, i - 3) == Bit(0, i - 4);
      ZeroBit(i - 4);
    }
  }

  lemma ModeByte(mode: uint32, channels: seq<Channel>, half: nat, c: nat)
    requires |channels| == CHANNELS && half < 2 && c < CHANNELS && c / 2 == half
    requires forall i: nat :: Bit(mode, i) <==> ModeBit(channels, half, i)
    ensures mode / Pow2(8 * (c % 2)) % 0x100 == if channels[c].Claimed? then 0x68 else 0
  {
    var f := Field(mode, 8 * (c % 2), 8);
    FieldBits(mode, 8 * (c % 2), 8);
    FieldIsDigit(mode, 8 * (c % 2), 8);
    assert Pow2(8) == 0x100 by { assert Pow2(4) == 16; assert Pow2(6) == 64; }
    var x := if channels[c].Claimed? then 0x68 else 0;
    forall i: nat ensures Bit(f, i) == Bit(x, i) {
      SixtyEight(i);
      ZeroBit(i);
      if i < 8 { ModeBitOfByte(channels, c, i); }
    }
    SameBits(f, x);
  }

  lemma ModeBitOfByte(channels: seq<Channel>, c: nat, i: nat)
    requires |channels| == CHANNELS && c < CHANNELS && i < 8
    ensures ModeBit(channels, c / 2, 8 * (c % 2) + i) <==> channels[c].Claimed? && (i == 3 || i == 5 || i == 6)
  {
  }

  lemma EnableNibble(ccer: uint32, channels: seq<Channel>, c: nat)
    requires |channels| == CHANNELS && c < CHANNELS
    requires forall i: nat :: Bit(ccer, i) <==> EnableBit(channels, i)
    ensures ccer / Pow2(4 * c) % 0x10 ==
      if channels[c].Free? then 0 else if channels[c].activeLow then 3 else 1
  {
    var f := Field(ccer, 4 * c, 4);
    FieldBits(ccer, 4 * c, 4);
    FieldIsDigit(ccer, 4 * c, 4);
    assert Pow2(4) == 16 by { assert Pow2(2) == 4; }
    var x := if channels[c].Free? then 0 else if channels[c].activeLow then 3 else 1;
    forall i: nat ensures Bit(f, i) == Bit(x, i) {
      LowTwoBits(x, i);
      if i < 4 { EnableBitOfNibble(channels, c, i); }
    }
    SameBits(f, x);
  }

  lemma EnableBitOfNibble(channels: seq<Channel>, c: nat, i: nat)
    requires |channels| == CHANNELS && c < CHANNELS && i < 4
    ensures EnableBit(channels, 4 * c + i) <==> channels[c].Claimed? && (i == 0 || (i == 1 && channels[c].activeLow))
  {
  }

  lemma LowTwoBits(x: nat, i: nat)
    requires x == 0 || x == 1 || x == 3
    ensures Bit(x, i) <==> (i == 0 && x != 0) || (i == 1 && x == 3)
  {
    ZeroBit(i);
    assert i >= 1 ==> Bit(x, i) == Bit(x / 2, i - 1);
    if i >= 2 {
      assert Bit(x / 2, i - 1) == Bit(0, i - 2);
      ZeroBit(i - 2);
    } else if i == 1 {
      ZeroBit(0);
    }
  }

  /** What the timer's registers hold as numbers: mode byte 0x68 (PWM mode 1, preloaded) and enable digit
      1 or 3 (active low) for a claimed channel, zero for a free one; control 0x80, or 0x81 running. */
  lemma RegisterNumbers(r: TimRegs, g: Group, c: nat)
    requires Shows(r, g) && g.On? && c < CHANNELS
    ensures r.ccmr[c / 2] / Pow2(8 * (c % 2)) % 0x100 == if g.channels[c].Claimed? then 0x68 else 0
    ensures r.ccer / Pow2(4 * c) % 0x10 == if g.channels[c].Free? then 0 else if g.channels[c].activeLow then 3 else 1
    ensures r.cr1 == (if g.running then 0x81 else 0x80) && r.psc == g.psc && r.arr == g.arr
    ensures g.channels[c].Free? ==> r.ccr[c] == 0
    ensures g.channels[c].Claimed? ==> r.ccr[c] == (r.arr + 1) * g.channels[c].duty / 1000
  {
    ModeByte(r.ccmr[c / 2], g.channels, c / 2, c);
    EnableNibble(r.ccer, g.channels, c);
  }
}

/** The GPIO and EXTI driver (peripherals/gpio.c): packed configuration registers of seven
    ports and the sixteen interrupt lines they share. */
module Gpio {
  import opened Words
  import opened Status

  const GPIO_NUM_OF_PORTS: nat := 7
  const MAX_PIN_COUNT: nat := 15
  const MAX_GPIO_INTERRUPTS: nat := 16
  const PINS: nat := 112

  /** Interrupt vectors of the sixteen lines. */
  const VECTORS: nat := 7

  datatype PinId = PinId(port: nat, num: nat)

  /** PA13-15 and PB3-4 belong to the debug port. */
  predicate IsReserved(p: PinId) {
    (p.port == 0 && 13 <= p.num <= 15) || (p.port == 1 && 3 <= p.num <= 4)
  }

  predicate InRange(p: PinId) { p.port < GPIO_NUM_OF_PORTS && p.num <= MAX_PIN_COUNT }

  /** is_valid_pin(). */
  predicate IsValidPin(p: PinId) { InRange(p) && !IsReserved(p) }

  /** Position of a pin when all ports are laid end to end. */
  function At(p: PinId): (i: nat)
    requires InRange(p)
    ensures i < PINS && i / 16 == p.port && i % 16 == p.num
  {
    16 * p.port + p.num
  }

  const MODE_INPUT: nat := 0
  const MODE_OUTPUT: nat := 1
  const MODE_AF: nat := 2
  const MODE_ANALOG: nat := 3

  /** gpio_config_t. */
  datatype Config = Config(mode: nat, otype: nat, speed: nat, pull: nat) {
    predicate Fits() { mode < 4 && otype < 2 && speed < 4 && pull < 4 }
  }

  datatype Trigger = RISING | FALLING | BOTH

  /** get_exti_irqn(): lines 0 to 4 have a vector each, 5 to 9 share one, and 10 to 15. */
  function VectorOf(n: nat): (v: nat)
    ensures v < VECTORS
  {
    if n <= 4 then n else if n <= 9 then 5 else 6
  }

  /** The sixteen interrupt lines: for each its mask, the port routed to it, its edges, its handler
      and whether an edge is pending; and which vectors the processor takes. Handler `Some(n)`
      stands for entry `n` of the dispatch table. */
  datatype LineFields = LineFields(
    unmasked: seq<bool>, owner: seq<nat>, rising: seq<bool>, falling: seq<bool>, callbacks: seq<Option<nat>>,
    pending: seq<bool>, vectors: seq<bool>)
  {
    predicate Fits() {
      |unmasked| == |owner| == |rising| == |falling| == |callbacks| == |pending| == MAX_GPIO_INTERRUPTS && |vectors| == VECTORS
    }
  }

  const NONE_PENDING: seq<bool> := [false, false, false, false, false, false, false, false,
                                    false, false, false, false, false, false, false, false]

  const NO_LINES: LineFields := LineFields(
    NONE_PENDING, [0, 0, 0, 0, 0, 0, 0, 0, 0, 0, 0, 0, 0, 0, 0, 0], NONE_PENDING, NONE_PENDING,
    [None, None, None, None, None, None, None, None, None, None, None, None, None, None, None, None],
    NONE_PENDING, [false, false, false, false, false, false, false])

  type Lines = x: LineFields | x.Fits() witness NO_LINES

  /** What the registers mean: the configuration fields and levels of every pin, and the lines. */
  datatype GpioFields = GpioFields(
    mode: seq<nat>, otype: seq<nat>, speed: seq<nat>, pull: seq<nat>, af: seq<nat>,
    levels: seq<bool>, inputs: seq<bool>, lines: Lines)
  {
    predicate Fits() {
      |mode| == |otype| == |speed| == |pull| == |af| == |levels| == |inputs| == PINS
    }

    predicate IsMode(p: PinId, m: nat)
      requires Fits() && InRange(p)
    {
      mode[At(p)] == m
    }
  }

  type GpioState = g: GpioFields | g.Fits()
    witness GpioFields(seq(PINS, _ => 0), seq(PINS, _ => 0), seq(PINS, _ => 0), seq(PINS, _ => 0), seq(PINS, _ => 0),
                       seq(PINS, _ => false), seq(PINS, _ => false), NO_LINES)

  // ----- meaning of each driver call

  function Configured(g: GpioState, p: PinId, c: Config): (h: GpioState)
    requires InRange(p)
  {
    var i := At(p);
    g.(mode := g.mode[i := c.mode], otype := g.otype[i := c.otype], speed := g.speed[i := c.speed],
       pull := g.pull[i := c.pull])
  }

  function Reset(g: GpioState, p: PinId): (h: GpioState)
    requires InRange(p)
  {
    var c := Configured(g, p, Config(0, 0, 0, 0));
    c.(af := c.af[At(p) := 0])
  }

  function WithAf(g: GpioState, p: PinId, af: nat): (h: GpioState)
    requires InRange(p)
  {
    g.(af := g.af[At(p) := af])
  }

  function Driven(g: GpioState, p: PinId, level: bool): (h: GpioState)
    requires InRange(p)
  {
    g.(levels := g.levels[At(p) := level])
  }

  /** Status shared by the calls that drive an output pin. */
  function DriveStatus(g: GpioState, p: PinId): Status
  {
    if !IsValidPin(p) then InvalidPin else if !g.IsMode(p, MODE_OUTPUT) then InvalidState else Ok
  }

  function ArmedLine(x: Lines, p: PinId, t: Trigger, callback: Option<nat>): (y: Lines)
    requires InRange(p)
  {
    var n := p.num;
    x.(unmasked := x.unmasked[n := true], owner := x.owner[n := p.port],
       rising := x.rising[n := t != FALLING], falling := x.falling[n := t != RISING],
       callbacks := x.callbacks[n := callback], vectors := x.vectors[VectorOf(n) := true])
  }

  /** Disarming a line turns its whole vector off. */
  function DisarmedLine(x: Lines, p: PinId): (y: Lines)
    requires InRange(p)
  {
    var n := p.num;
    x.(unmasked := x.unmasked[n := false], owner := x.owner[n := 0],
       rising := x.rising[n := false], falling := x.falling[n := false],
       callbacks := x.callbacks[n := None], vectors := x.vectors[VectorOf(n) := false])
  }

  function Armed(g: GpioState, p: PinId, t: Trigger, callback: Option<nat>): (h: GpioState)
    requires InRange(p)
  {
    g.(lines := ArmedLine(g.lines, p, t, callback))
  }

  function Disarmed(g: GpioState, p: PinId): (h: GpioState)
    requires InRange(p)
  {
    g.(lines := DisarmedLine(g.lines, p))
  }

  /** Interrupts not yet handled are forgotten. */
  function NothingPending(g: GpioState): (h: GpioState)
  {
    g.(lines := g.lines.(pending := NONE_PENDING))
  }

  /** An unmasked line routed to another port cannot be taken. */
  function ArmStatus(g: GpioState, p: PinId): Status
  {
    if !IsValidPin(p) then InvalidPin
    else if g.lines.unmasked[p.num] && g.lines.owner[p.num] != p.port then Busy
    else Ok
  }

  /** The edge armed on a pin, if its line is unmasked and routed to its port. */
  function ArmedTrigger(g: GpioState, p: PinId): Result<Trigger, Status>
  {
    if !IsValidPin(p) then Failure(InvalidPin)
    else if !g.lines.unmasked[p.num] || g.lines.owner[p.num] != p.port then Failure(InvalidState)
    else
      match (g.lines.rising[p.num], g.lines.falling[p.num])
      case (true, true) => Success(BOTH)
      case (true, false) => Success(RISING)
      case (false, true) => Success(FALLING)
      case (false, false) => Failure(InvalidState)
  }

  // ----- register banks

  type Bank = b: seq<uint32> | |b| == GPIO_NUM_OF_PORTS witness [0, 0, 0, 0, 0, 0, 0]

  ghost function FieldAt(bank: Bank, i: nat, w: nat): nat
    requires i < PINS
  {
    Field(bank[i / 16], w * (i % 16), w)
  }

  /** The `w`-bit field of every pin. */
  ghost function Column(bank: Bank, w: nat): (s: seq<nat>)
    ensures |s| == PINS
  {
    seq(PINS, i requires 0 <= i < PINS => FieldAt(bank, i, w))
  }

  /** Alternate functions: pins 0-7 in one register, pins 8-15 in another. */
  ghost function AfAt(low: Bank, high: Bank, i: nat): nat
    requires i < PINS
  {
    if i % 16 < 8 then Field(low[i / 16], 4 * (i % 16), 4) else Field(high[i / 16], 4 * (i % 16 - 8), 4)
  }

  ghost function AfColumn(low: Bank, high: Bank): (s: seq<nat>)
    ensures |s| == PINS
  {
    seq(PINS, i requires 0 <= i < PINS => AfAt(low, high, i))
  }

  ghost function LevelAt(bank: Bank, i: nat): bool
    requires i < PINS
  {
    Bit(bank[i / 16], i % 16)
  }

  ghost function Levels(bank: Bank): (s: seq<bool>)
    ensures |s| == PINS
  {
    seq(PINS, i requires 0 <= i < PINS => LevelAt(bank, i))
  }

  type Vectors = v: seq<bool> | |v| == VECTORS witness seq(VECTORS, _ => false)

  type Routing = r: seq<uint32> | |r| == 4 witness [0, 0, 0, 0]

  ghost function OwnerAt(exticr: Routing, n: nat): nat
    requires n < MAX_GPIO_INTERRUPTS
  {
    Field(exticr[n / 4], 4 * (n % 4), 4)
  }

  ghost function Owners(exticr: Routing): (s: seq<nat>)
    ensures |s| == MAX_GPIO_INTERRUPTS
  {
    seq(MAX_GPIO_INTERRUPTS, n requires 0 <= n < MAX_GPIO_INTERRUPTS => OwnerAt(exticr, n))
  }

  ghost function LineBits(r: uint32): (s: seq<bool>)
    ensures |s| == MAX_GPIO_INTERRUPTS
  {
    seq(MAX_GPIO_INTERRUPTS, n requires 0 <= n < MAX_GPIO_INTERRUPTS => Bit(r, n))
  }

  lemma SmallPowers()
    ensures Pow2(0) == 1 && Pow2(1) == 2 && Pow2(2) == 4 && Pow2(4) == 16
  {
    assert Pow2(3) == 8;
  }

  /** `r &= ~(mask << pos); r |= v << pos;` on one port's register. */
  method ReadModifyWrite(bank: Bank, port: nat, pos: nat, w: nat, v: nat) returns (out: Bank)
    requires port < GPIO_NUM_OF_PORTS && v < Pow2(w) && pos + w <= 32
    ensures WithField(bank[port], pos, w, v) < 0x1_0000_0000
    ensures out == bank[port := WithField(bank[port], pos, w, v)]
  {
    var r := AndNot(bank[port], Shl(Mask(w), pos));
    r := Or(r, Shl(v, pos));
    WithFieldFits(bank[port], pos, w, v);
    out := bank[port := r];
  }

  lemma FieldsApart(a: nat, b: nat, w: nat)
    requires a != b
    ensures w * a + w <= w * b || w * b + w <= w * a
  {
    if a < b { MulMono(a + 1, b, w); } else { MulMono(b + 1, a, w); }
  }

  /** Distinct pins of one port have distinct fields. */
  lemma PinFieldWritten(r: nat, a: nat, b: nat, w: nat, v: nat)
    requires v < Pow2(w)
    ensures Field(WithField(r, w * a, w, v), w * b, w) == if a == b then v else Field(r, w * b, w)
  {
    if a != b { FieldsApart(a, b, w); }
    WithFieldFields(r, w * a, w, v, w * b, w);
    if a != b && w * a == w * b {
      assert w == 0;
      FieldBits(r, w * b, w);
      FitsIffNoHighBits(v, w);
      SameBits(v, Field(r, w * b, w));
    }
  }

  lemma ColumnWritten(bank: Bank, out: Bank, p: PinId, w: nat, v: nat)
    requires InRange(p) && v < Pow2(w) && WithField(bank[p.port], w * p.num, w, v) < 0x1_0000_0000
    requires out == bank[p.port := WithField(bank[p.port], w * p.num, w, v)]
    ensures Column(out, w) == Column(bank, w)[At(p) := v]
  {
    forall i: nat | i < PINS ensures FieldAt(out, i, w) == if i == At(p) then v else FieldAt(bank, i, w) {
      PinFieldWritten(bank[p.port], p.num, i % 16, w, v);
      assert i == 16 * (i / 16) + i % 16;
    }
  }

  /** One pin's field of a whole bank. */
  method WritePinField(bank: Bank, p: PinId, w: nat, v: nat) returns (out: Bank)
    requires InRange(p) && v < Pow2(w) && w * p.num + w <= 32
    ensures Column(out, w) == Column(bank, w)[At(p) := v]
  {
    out := ReadModifyWrite(bank, p.port, w * p.num, w, v);
    ColumnWritten(bank, out, p, w, v);
  }

  lemma AfLowWritten(low: Bank, high: Bank, out: Bank, p: PinId, v: nat)
    requires InRange(p) && p.num < 8 && v < 16 && WithField(low[p.port], 4 * p.num, 4, v) < 0x1_0000_0000
    requires out == low[p.port := WithField(low[p.port], 4 * p.num, 4, v)]
    ensures AfColumn(out, high) == AfColumn(low, high)[At(p) := v]
  {
    SmallPowers();
    forall i: nat | i < PINS ensures AfAt(out, high, i) == if i == At(p) then v else AfAt(low, high, i) {
      PinFieldWritten(low[p.port], p.num, i % 16, 4, v);
      assert i == 16 * (i / 16) + i % 16;
    }
  }

  lemma AfHighWritten(low: Bank, high: Bank, out: Bank, p: PinId, v: nat)
    requires InRange(p) && p.num >= 8 && v < 16 && WithField(high[p.port], 4 * (p.num - 8), 4, v) < 0x1_0000_0000
    requires out == high[p.port := WithField(high[p.port], 4 * (p.num - 8), 4, v)]
    ensures AfColumn(low, out) == AfColumn(low, high)[At(p) := v]
  {
    SmallPowers();
    forall i: nat | i < PINS ensures AfAt(low, out, i) == if i == At(p) then v else AfAt(low, high, i) {
      if i % 16 >= 8 { PinFieldWritten(high[p.port], p.num - 8, i % 16 - 8, 4, v); }
      assert i == 16 * (i / 16) + i % 16;
    }
  }

  lemma LevelWritten(bank: Bank, p: PinId, r: uint32, level: bool)
    requires InRange(p)
    requires forall i: nat :: i < 16 ==> Bit(r, i) == if i == p.num then level else Bit(bank[p.port], i)
    ensures Levels(bank[p.port := r]) == Levels(bank)[At(p) := level]
  {
    var out: Bank := bank[p.port := r];
    forall i: nat | i < PINS ensures LevelAt(out, i) == if i == At(p) then level else LevelAt(bank, i) {
      assert i == 16 * (i / 16) + i % 16;
    }
  }

  lemma LineBitsWritten(r: uint32, n: nat)
    requires n < MAX_GPIO_INTERRUPTS
    ensures SetBit(r, n) < 0x1_0000_0000 && LineBits(SetBit(r, n)) == LineBits(r)[n := true]
    ensures ClearBit(r, n) < 0x1_0000_0000 && LineBits(ClearBit(r, n)) == LineBits(r)[n := false]
  {
    BitWrites(r, n);
    BitWritesFit(r, n);
  }

  /** `PR1 |= 1 << n` on a register whose bits are cleared by writing a one: what is read back is
      written back, so every pending bit goes. */
  lemma WriteBackClears(r: nat, n: nat)
    ensures AndNot(r, Or(r, Shl(1, n))) == 0
  {
    BitwiseBits(OR, r, Shl(1, n));
    BitwiseBits(ANDNOT, r, Or(r, Shl(1, n)));
    forall i: nat ensures Bit(AndNot(r, Or(r, Shl(1, n))), i) == Bit(0, i) { ZeroBit(i); }
    SameBits(AndNot(r, Or(r, Shl(1, n))), 0);
  }

  lemma ZeroLineBits()
    ensures LineBits(0) == NONE_PENDING
  {
    forall n: nat | n < MAX_GPIO_INTERRUPTS ensures !Bit(0, n) { ZeroBit(n); }
  }

  lemma OwnersWritten(exticr: Routing, n: nat, port: nat)
    requires n < MAX_GPIO_INTERRUPTS && port < 16
    ensures WithField(exticr[n / 4], 4 * (n % 4), 4, port) < 0x1_0000_0000
    ensures Owners(exticr[n / 4 := WithField(exticr[n / 4], 4 * (n % 4), 4, port)]) == Owners(exticr)[n := port]
  {
    SmallPowers();
    WithFieldFits(exticr[n / 4], 4 * (n % 4), 4, port);
    var out: Routing := exticr[n / 4 := WithField(exticr[n / 4], 4 * (n % 4), 4, port)];
    forall k: nat | k < MAX_GPIO_INTERRUPTS ensures OwnerAt(out, k) == if k == n then port else OwnerAt(exticr, k) {
      PinFieldWritten(exticr[n / 4], n % 4, k % 4, 4, port);
      assert k == 4 * (k / 4) + k % 4;
    }
  }

  // ----- reset values

  lemma ZeroField(pos: nat, w: nat)
    ensures Field(0, pos, w) == 0
  {
    FieldBits(0, pos, w);
    forall i: nat ensures Bit(Field(0, pos, w), i) == Bit(0, i) { ZeroBit(i); ZeroBit(pos + i); }
    SameBits(Field(0, pos, w), 0);
  }

  lemma OnesField(num: nat)
    requires num < 16
    ensures Field(0xFFFF_FFFF, 2 * num, 2) == MODE_ANALOG
  {
    Pow2Of32();
    SmallPowers();
    MaskBits(32);
    FieldBits(0xFFFF_FFFF, 2 * num, 2);
    MaskBits(2);
    assert Mask(32) == 0xFFFF_FFFF;
    assert Mask(2) == MODE_ANALOG;
    SameBits(Field(0xFFFF_FFFF, 2 * num, 2), Mask(2));
  }

  /** The mode registers: all ones, then the debug port's pins in alternate-function mode. */
  method ResetModes(ones: Bank) returns (bank: Bank)
    requires forall q :: 0 <= q < GPIO_NUM_OF_PORTS ==> ones[q] == 0xFFFF_FFFF
    ensures forall i: nat :: i < PINS ==> Column(ones, 2)[i] == MODE_ANALOG
    ensures Column(bank, 2) == Column(ones, 2)[13 := MODE_AF][14 := MODE_AF][15 := MODE_AF][19 := MODE_AF][20 := MODE_AF]
  {
    SmallPowers();
    forall i: nat | i < PINS ensures Column(ones, 2)[i] == MODE_ANALOG { OnesField(i % 16); }
    var a := WritePinField(ones, PinId(0, 13), 2, MODE_AF);
    var b := WritePinField(a, PinId(0, 14), 2, MODE_AF);
    var c := WritePinField(b, PinId(0, 15), 2, MODE_AF);
    var d := WritePinField(c, PinId(1, 3), 2, MODE_AF);
    bank := WritePinField(d, PinId(1, 4), 2, MODE_AF);
  }

  /** A line in its reset state, which is also where disarming it leaves it. */
  predicate IdleLine(g: GpioState, n: nat)
    requires n < MAX_GPIO_INTERRUPTS
  {
    !g.lines.unmasked[n] && g.lines.owner[n] == 0 && !g.lines.rising[n] && !g.lines.falling[n] && g.lines.callbacks[n] == None
  }

  function ResetMode(p: PinId): nat { if IsReserved(p) then MODE_AF else MODE_ANALOG }

  /** Push-pull, slow, no pull, alternate function 0, driven low. */
  predicate SettingsCleared(g: GpioState, i: nat)
    requires i < PINS
  {
    g.otype[i] == 0 && g.speed[i] == 0 && g.pull[i] == 0 && g.af[i] == 0 && !g.levels[i]
  }

  lemma ZeroRegisters(b: Bank, i: nat)
    requires i < PINS && b[i / 16] == 0
    ensures FieldAt(b, i, 1) == 0 && FieldAt(b, i, 2) == 0 && AfAt(b, b, i) == 0 && !LevelAt(b, i)
  {
    ZeroField(1 * (i % 16), 1);
    ZeroField(2 * (i % 16), 2);
    ZeroField(4 * (i % 16), 4);
    if i % 16 >= 8 { ZeroField(4 * (i % 16 - 8), 4); }
    ZeroBit(i % 16);
  }

  /** Hardware reset: every pin analog but the debug port's, every line masked
      and every vector off. */
  ghost predicate AtReset(g: GpioState) {
    && (forall p: PinId :: IsValidPin(p) ==> SettingsCleared(g, At(p)))
    && g.lines.pending == NONE_PENDING
    && (forall p: PinId :: InRange(p) ==> g.IsMode(p, ResetMode(p)))
    && (forall n :: 0 <= n < MAX_GPIO_INTERRUPTS ==> IdleLine(g, n))
    && (forall v :: 0 <= v < VECTORS ==> !g.lines.vectors[v])
  }

  lemma PinsAtReset(g: GpioState, zero: Bank)
    requires zero == [0, 0, 0, 0, 0, 0, 0]
    requires g.otype == Column(zero, 1) && g.speed == Column(zero, 2) && g.pull == Column(zero, 2)
    requires g.af == AfColumn(zero, zero) && g.levels == Levels(zero)
    ensures forall p: PinId :: IsValidPin(p) ==> SettingsCleared(g, At(p))
  {
    forall p: PinId | IsValidPin(p) ensures SettingsCleared(g, At(p)) { ZeroRegisters(zero, At(p)); }
  }

  lemma LinesAtReset(g: GpioState, exticr: Routing)
    requires exticr == [0, 0, 0, 0] && g.lines.owner == Owners(exticr)
    requires g.lines.unmasked == g.lines.rising == g.lines.falling == g.lines.pending == LineBits(0)
    requires forall n :: 0 <= n < MAX_GPIO_INTERRUPTS ==> g.lines.callbacks[n] == None
    ensures g.lines.pending == NONE_PENDING
    ensures forall n :: 0 <= n < MAX_GPIO_INTERRUPTS ==> IdleLine(g, n)
  {
    ZeroLineBits();
    forall n | 0 <= n < MAX_GPIO_INTERRUPTS ensures IdleLine(g, n) { ZeroField(4 * (n % 4), 4); }
  }

  class GpioDriver {
    var moder: Bank
    var otyper: Bank
    var ospeedr: Bank
    var pupdr: Bank
    var afrl: Bank
    var afrh: Bank
    var odr: Bank
    var idr: Bank
    var exticr: Routing
    var imr: uint32
    var rtsr: uint32
    var ftsr: uint32
    var callbacks: seq<Option<nat>>
    var pr: uint32
    var nvic: Vectors

    ghost predicate Valid()
      reads this
    {
      |callbacks| == MAX_GPIO_INTERRUPTS
    }

    ghost function State(): (g: GpioState)
      requires Valid()
      reads this
    {
      GpioFields(Column(moder, 2), Column(otyper, 1), Column(ospeedr, 2), Column(pupdr, 2), AfColumn(afrl, afrh),
                 Levels(odr), Levels(idr), LinesNow())
    }

    ghost function LinesNow(): (x: Lines)
      requires Valid()
      reads this
    {
      LineFields(LineBits(imr), Owners(exticr), LineBits(rtsr), LineBits(ftsr), callbacks, LineBits(pr), nvic)
    }

    /** How the registers are laid out: the digits of each that belong to a pin. */
    lemma PinDigits(p: PinId)
      requires Valid() && InRange(p)
      ensures State().mode[At(p)] == moder[p.port] / Pow2(2 * p.num) % 4
      ensures State().otype[At(p)] == otyper[p.port] / Pow2(p.num) % 2
      ensures State().speed[At(p)] == ospeedr[p.port] / Pow2(2 * p.num) % 4
      ensures State().pull[At(p)] == pupdr[p.port] / Pow2(2 * p.num) % 4
      ensures p.num < 8 ==> State().af[At(p)] == afrl[p.port] / Pow2(4 * p.num) % 16
      ensures p.num >= 8 ==> State().af[At(p)] == afrh[p.port] / Pow2(4 * (p.num - 8)) % 16
      ensures State().levels[At(p)] <==> odr[p.port] / Pow2(p.num) % 2 == 1
      ensures State().inputs[At(p)] <==> idr[p.port] / Pow2(p.num) % 2 == 1
    {
      SmallPowers();
      FieldIsDigit(moder[p.port], 2 * p.num, 2);
      FieldIsDigit(otyper[p.port], 1 * p.num, 1);
      FieldIsDigit(ospeedr[p.port], 2 * p.num, 2);
      FieldIsDigit(pupdr[p.port], 2 * p.num, 2);
      AfDigits(p);
      BitIsDigit(odr[p.port], p.num);
      BitIsDigit(idr[p.port], p.num);
    }

    lemma AfDigits(p: PinId)
      requires Valid() && InRange(p)
      ensures p.num < 8 ==> State().af[At(p)] == afrl[p.port] / Pow2(4 * p.num) % 16
      ensures p.num >= 8 ==> State().af[At(p)] == afrh[p.port] / Pow2(4 * (p.num - 8)) % 16
    {
      SmallPowers();
      if p.num < 8 {
        FieldIsDigit(afrl[p.port], 4 * p.num, 4);
      } else {
        FieldIsDigit(afrh[p.port], 4 * (p.num - 8), 4);
      }
    }

    /** And those that belong to a line. */
    lemma LineDigits(n: nat)
      requires Valid() && n < MAX_GPIO_INTERRUPTS
      ensures var x := State().lines;
        && (x.unmasked[n] <==> imr / Pow2(n) % 2 == 1)
        && (x.rising[n] <==> rtsr / Pow2(n) % 2 == 1)
        && (x.falling[n] <==> ftsr / Pow2(n) % 2 == 1)
        && (x.pending[n] <==> pr / Pow2(n) % 2 == 1)
        && x.owner[n] == exticr[n / 4] / Pow2(4 * (n % 4)) % 16
        && x.vectors == nvic
    {
      SmallPowers();
      BitIsDigit(imr, n);
      BitIsDigit(rtsr, n);
      BitIsDigit(ftsr, n);
      BitIsDigit(pr, n);
      FieldIsDigit(exticr[n / 4], 4 * (n % 4), 4);
    }

    /** Registers after a hardware reset (MODER 0xABFFFFFF, 0xFFFFFEBF, 0xFFFFFFFF, ...). */
    constructor ()
      ensures Valid() && AtReset(State())
    {
      var zero: Bank := [0, 0, 0, 0, 0, 0, 0];
      var ones: uint32 := 0xFFFF_FFFF;
      var bank: Bank := [ones, ones, ones, ones, ones, ones, ones];
      bank := ResetModes(bank);
      moder := bank;
      otyper, ospeedr, pupdr, afrl, afrh, odr, idr := zero, zero, zero, zero, zero, zero, zero;
      exticr := [0, 0, 0, 0];
      imr, rtsr, ftsr, pr := 0, 0, 0, 0;
      nvic := seq(VECTORS, _ => false);
      callbacks := seq(MAX_GPIO_INTERRUPTS, _ => None);
      new;
      PinsAtReset(State(), zero);
      LinesAtReset(State(), exticr);
    }

    /** is_pin_an_input(), is_pin_an_output(), is_pin_an_af(): no range check of their own. */
    method ReadMode(p: PinId) returns (mode: nat)
      requires Valid() && InRange(p)
      ensures mode == State().mode[At(p)]
    {
      mode := And(Shr(moder[p.port], 2 * p.num), Mask(2));
    }

    /** A mode is one of four. */
    lemma ModesAreTwoBits(p: PinId)
      requires Valid() && InRange(p)
      ensures State().mode[At(p)] < 4
    {
      FieldBits(moder[p.port], 2 * p.num, 2);
      SmallPowers();
      FitsIffNoHighBits(Field(moder[p.port], 2 * p.num, 2), 2);
    }

    /** gpio_init(): rewrites four fields of one pin; the alternate function stays. */
    method Init(p: PinId, config: Config) returns (status: Status)
      requires Valid() && config.Fits()
      modifies this`moder, this`otyper, this`ospeedr, this`pupdr
      ensures Valid()
      ensures status == if IsValidPin(p) then Ok else InvalidPin
      ensures State() == if status == Ok then Configured(old(State()), p, config) else old(State())
      ensures status != Ok ==> unchanged(this)
    {
      if !IsValidPin(p) {
        return InvalidPin;
      }
      WriteConfig(p, config);
      return Ok;
    }

    /** The four configuration fields of one pin. */
    method WriteConfig(p: PinId, config: Config)
      requires IsValidPin(p) && config.Fits()
      modifies this`moder, this`otyper, this`ospeedr, this`pupdr
      ensures Column(moder, 2) == old(Column(moder, 2))[At(p) := config.mode]
      ensures Column(otyper, 1) == old(Column(otyper, 1))[At(p) := config.otype]
      ensures Column(ospeedr, 2) == old(Column(ospeedr, 2))[At(p) := config.speed]
      ensures Column(pupdr, 2) == old(Column(pupdr, 2))[At(p) := config.pull]
    {
      SmallPowers();
      moder := WritePinField(moder, p, 2, config.mode);
      otyper := WritePinField(otyper, p, 1, config.otype);
      ospeedr := WritePinField(ospeedr, p, 2, config.speed);
      pupdr := WritePinField(pupdr, p, 2, config.pull);
    }

    /** gpio_deinit(): clears every field of the pin, which leaves it an input. */
    method Deinit(p: PinId) returns (status: Status)
      requires Valid()
      modifies this`moder, this`otyper, this`ospeedr, this`pupdr, this`afrl, this`afrh
      ensures Valid()
      ensures status == if IsValidPin(p) then Ok else InvalidPin
      ensures State() == if status == Ok then Reset(old(State()), p) else old(State())
      ensures status != Ok ==> unchanged(this)
    {
      if !IsValidPin(p) {
        return InvalidPin;
      }
      WriteConfig(p, Config(0, 0, 0, 0));
      WriteAf(p, 0);
      return Ok;
    }

    /** The alternate-function field: one of two registers by pin number. */
    method WriteAf(p: PinId, af: nat)
      requires Valid() && IsValidPin(p) && af < 16
      modifies this`afrl, this`afrh
      ensures Valid() && State() == WithAf(old(State()), p, af)
    {
      SmallPowers();
      if p.num < 8 {
        var out := ReadModifyWrite(afrl, p.port, 4 * p.num, 4, af);
        AfLowWritten(afrl, afrh, out, p, af);
        afrl := out;
      } else {
        var out := ReadModifyWrite(afrh, p.port, 4 * (p.num - 8), 4, af);
        AfHighWritten(afrl, afrh, out, p, af);
        afrh := out;
      }
    }

    /** gpio_set_af(). */
    method SetAf(p: PinId, af: nat) returns (status: Status)
      requires Valid() && af < 16
      modifies this`afrl, this`afrh
      ensures Valid()
      ensures status == if IsValidPin(p) then Ok else InvalidPin
      ensures State() == if status == Ok then WithAf(old(State()), p, af) else old(State())
      ensures status != Ok ==> unchanged(this)
    {
      if !IsValidPin(p) {
        return InvalidPin;
      }
      WriteAf(p, af);
      return Ok;
    }

    /** gpio_set(), gpio_reset() and gpio_set_state(): the write-only set and reset
        registers change one output bit. */
    method SetState(p: PinId, level: bool) returns (status: Status)
      requires Valid()
      modifies this`odr
      ensures Valid()
      ensures status == DriveStatus(old(State()), p)
      ensures State() == if status == Ok then Driven(old(State()), p, level) else old(State())
      ensures status != Ok ==> unchanged(this)
    {
      if !IsValidPin(p) {
        return InvalidPin;
      }
      var mode := ReadMode(p);
      if mode != MODE_OUTPUT {
        return InvalidState;
      }
      BitWrites(odr[p.port], p.num);
      BitWritesFit(odr[p.port], p.num);
      var r := if level then SetBit(odr[p.port], p.num) else ClearBit(odr[p.port], p.num);
      LevelWritten(odr, p, r, level);
      odr := odr[p.port := r];
      return Ok;
    }

    /** gpio_toggle(): reports the level after the change. */
    method Toggle(p: PinId) returns (status: Status, level: bool)
      requires Valid()
      modifies this`odr
      ensures Valid()
      ensures status == DriveStatus(old(State()), p)
      ensures status == Ok ==> level == !old(State()).levels[At(p)]
      ensures State() == if status == Ok then Driven(old(State()), p, level) else old(State())
      ensures status != Ok ==> unchanged(this)
    {
      level := false;
      if !IsValidPin(p) {
        return InvalidPin, level;
      }
      var mode := ReadMode(p);
      if mode != MODE_OUTPUT {
        return InvalidState, level;
      }
      var r := ToggleBit(odr[p.port], p.num);
      BitWrites(odr[p.port], p.num);
      BitWritesFit(odr[p.port], p.num);
      LevelWritten(odr, p, r, !Bit(odr[p.port], p.num));
      odr := odr[p.port := r];
      BitTest(odr[p.port], p.num);
      return Ok, And(odr[p.port], Shl(1, p.num)) != 0;
    }

    /** gpio_read(): samples an input pin. */
    method Read(p: PinId) returns (status: Status, level: bool)
      requires Valid()
      ensures status == if !IsValidPin(p) then InvalidPin else if !State().IsMode(p, MODE_INPUT) then InvalidState else Ok
      ensures status == Ok ==> level == State().inputs[At(p)]
    {
      level := false;
      if !IsValidPin(p) {
        return InvalidPin, level;
      }
      var mode := ReadMode(p);
      if mode != MODE_INPUT {
        return InvalidState, level;
      }
      BitTest(idr[p.port], p.num);
      return Ok, And(idr[p.port], Shl(1, p.num)) != 0;
    }

    /** The 4-bit owner field of one line in its routing register. */
    method RouteLine(n: nat, port: nat)
      requires n < MAX_GPIO_INTERRUPTS && port < GPIO_NUM_OF_PORTS
      modifies this`exticr
      ensures Owners(exticr) == old(Owners(exticr))[n := port]
    {
      OwnersWritten(exticr, n, port);
      var r := AndNot(exticr[n / 4], Shl(Mask(4), 4 * (n % 4)));
      exticr := exticr[n / 4 := Or(r, Shl(port, 4 * (n % 4)))];
    }

    /** Both edges of one line off. */
    method ClearEdges(n: nat)
      requires n < MAX_GPIO_INTERRUPTS
      modifies this`rtsr, this`ftsr
      ensures LineBits(rtsr) == old(LineBits(rtsr))[n := false]
      ensures LineBits(ftsr) == old(LineBits(ftsr))[n := false]
    {
      LineBitsWritten(rtsr, n);
      rtsr := ClearBit(rtsr, n);
      LineBitsWritten(ftsr, n);
      ftsr := ClearBit(ftsr, n);
    }

    /** The edge selection: both edges off first, then the requested ones on. */
    method SelectEdges(n: nat, trigger: Trigger)
      requires n < MAX_GPIO_INTERRUPTS
      modifies this`rtsr, this`ftsr
      ensures LineBits(rtsr) == old(LineBits(rtsr))[n := trigger != FALLING]
      ensures LineBits(ftsr) == old(LineBits(ftsr))[n := trigger != RISING]
    {
      ClearEdges(n);
      LineBitsWritten(rtsr, n);
      LineBitsWritten(ftsr, n);
      match trigger
      case RISING =>
        rtsr := SetBit(rtsr, n);
      case FALLING =>
        ftsr := SetBit(ftsr, n);
      case BOTH =>
        rtsr := SetBit(rtsr, n);
        ftsr := SetBit(ftsr, n);
    }

    /** `EXTI->PR1 |= 1 << n`. */
    method ClearPending(n: nat)
      requires Valid() && n < MAX_GPIO_INTERRUPTS
      modifies this`pr
      ensures Valid() && State() == NothingPending(old(State()))
    {
      var written := Or(pr, Shl(1, n));
      WriteBackClears(pr, n);
      ZeroLineBits();
      pr := AndNot(pr, written);
    }

    /** One line's bit of the mask register. */
    method SetMask(n: nat, unmasked: bool)
      requires n < MAX_GPIO_INTERRUPTS
      modifies this`imr
      ensures LineBits(imr) == old(LineBits(imr))[n := unmasked]
    {
      LineBitsWritten(imr, n);
      imr := if unmasked then SetBit(imr, n) else ClearBit(imr, n);
    }

    /** is_gpio_line_an_interrupt(): another port holds the line unmasked. */
    method LineTaken(p: PinId) returns (taken: bool)
      requires Valid() && InRange(p)
      ensures taken == (LinesNow().unmasked[p.num] && LinesNow().owner[p.num] != p.port)
    {
      var n := p.num;
      var owner := And(Shr(exticr[n / 4], 4 * (n % 4)), Mask(4));
      assert owner == OwnerAt(exticr, n);
      BitTest(imr, n);
      taken := And(imr, Shl(1, n)) != 0 && owner != p.port;
    }

    /** gpio_init_interrupt(): route, unmask, select exactly the requested edges. */
    method InitInterrupt(p: PinId, trigger: Trigger, callback: Option<nat>) returns (status: Status)
      requires Valid()
      modifies this`exticr, this`imr, this`rtsr, this`ftsr, this`callbacks, this`nvic
      ensures Valid()
      ensures status == ArmStatus(old(State()), p)
      ensures State() == if status == Ok then Armed(old(State()), p, trigger, callback) else old(State())
      ensures status != Ok ==> unchanged(this)
    {
      if !IsValidPin(p) {
        return InvalidPin;
      }
      var taken := LineTaken(p);
      if taken {
        return Busy;
      }
      Arm(p, trigger, callback);
      return Ok;
    }

    /** The register writes that arm a line. */
    method Arm(p: PinId, trigger: Trigger, callback: Option<nat>)
      requires Valid() && IsValidPin(p)
      modifies this`exticr, this`imr, this`rtsr, this`ftsr, this`callbacks, this`nvic
      ensures Valid() && LinesNow() == ArmedLine(old(LinesNow()), p, trigger, callback)
    {
      var n := p.num;
      RouteLine(n, p.port);
      SetMask(n, true);
      SelectEdges(n, trigger);
      callbacks := callbacks[n := callback];
      nvic := nvic[VectorOf(n) := true];
    }

    /** gpio_deinit_interrupt(): masks the line whichever port owns it, and turns off its vector
        whichever other lines use it. */
    method DeinitInterrupt(p: PinId) returns (status: Status)
      requires Valid()
      modifies this`exticr, this`imr, this`rtsr, this`ftsr, this`callbacks, this`nvic
      ensures Valid()
      ensures status == if IsValidPin(p) then Ok else InvalidPin
      ensures State() == if status == Ok then Disarmed(old(State()), p) else old(State())
      ensures status != Ok ==> unchanged(this)
    {
      if !IsValidPin(p) {
        return InvalidPin;
      }
      Disarm(p);
      return Ok;
    }

    /** The register writes that disarm a line. */
    method Disarm(p: PinId)
      requires Valid() && IsValidPin(p)
      modifies this`exticr, this`imr, this`rtsr, this`ftsr, this`callbacks, this`nvic
      ensures Valid() && LinesNow() == DisarmedLine(old(LinesNow()), p)
    {
      var n := p.num;
      nvic := nvic[VectorOf(n) := false];
      SetMask(n, false);
      ClearEdges(n);
      RouteLine(n, 0);
      callbacks := callbacks[n := None];
    }

    /** gpio_get_interrupt_trigger(): reads back the edges only of a line that is unmasked
        and routed to the pin's port. */
    method GetInterruptTrigger(p: PinId) returns (result: Result<Trigger, Status>)
      requires Valid()
      ensures result == ArmedTrigger(State(), p)
    {
      if !IsValidPin(p) {
        return Failure(InvalidPin);
      }
      var n := p.num;
      BitTest(imr, n); BitTest(rtsr, n); BitTest(ftsr, n);
      if And(imr, Shl(1, n)) == 0 {
        return Failure(InvalidState);
      }
      var owner := And(Shr(exticr[n / 4], 4 * (n % 4)), Mask(4));
      assert owner == OwnerAt(exticr, n);
      if owner != p.port {
        return Failure(InvalidState);
      }
      var rising := And(rtsr, Shl(1, n)) != 0;
      var falling := And(ftsr, Shl(1, n)) != 0;
      if rising && falling {
        return Success(BOTH);
      } else if rising {
        return Success(RISING);
      } else if falling {
        return Success(FALLING);
      } else {
        return Failure(InvalidState);
      }
    }
  }
}

/** The command dispatcher (src/command_dispatcher.c): an opcode table over the GPIO and PWM
    controllers, and the replies it builds. */
module CommandDispatcher {
  import opened Words
  import opened Status
  import opened Gpio
  import opened Timebase
  import opened TimerRegisters
  import opened Timer
  import opened TimerDriver
  import opened PwmController
  import opened GpioController
  import opened FrameGrammar
  import opened FrameParser
  import HostProtocol

  const PROBE_MAGIC: nat := 0x4F55_434D

  datatype Command = PROBE | RESET | GPIO(io: IoCommand) | PWM(pwm: PwmCommand)

  /** One row of the table: where an opcode goes and how many bytes its reply carries. */
  datatype Entry = Entry(opcode: nat, command: Command, width: nat)

  const COMMAND_TABLE: seq<Entry> := [
    Entry(0x10, PROBE, 4),
    Entry(0x11, RESET, 0),
    Entry(0x30, GPIO(IO_CFG), 0),
    Entry(0x31, GPIO(IO_WRITE), 0),
    Entry(0x32, GPIO(IO_READ), 1),
    Entry(0x33, GPIO(IRQ_BIND), 0),
    Entry(0x34, GPIO(IRQ_CFG), 0),
    Entry(0x35, GPIO(IRQ_UNBIND), 0),
    Entry(0x36, GPIO(IO_TOGGLE), 1),
    Entry(0x40, PWM(GROUP_CFG), 0),
    Entry(0x41, PWM(CHANNEL_CFG), 0),
    Entry(0x42, PWM(CHANNEL_SET), 0),
    Entry(0x43, PWM(CHANNEL_RELEASE), 0),
    Entry(0x44, PWM(CHANNEL_GET), 2),
    Entry(0x45, PWM(GROUP_GET), 4),
    Entry(0x46, PWM(GROUP_RELEASE), 0)
  ]

  /** What an opcode asks for. */
  function CommandOf(opcode: byte): Option<Command> {
    match opcode
    case 0x10 => Some(PROBE)
    case 0x11 => Some(RESET)
    case 0x30 => Some(GPIO(IO_CFG))
    case 0x31 => Some(GPIO(IO_WRITE))
    case 0x32 => Some(GPIO(IO_READ))
    case 0x33 => Some(GPIO(IRQ_BIND))
    case 0x34 => Some(GPIO(IRQ_CFG))
    case 0x35 => Some(GPIO(IRQ_UNBIND))
    case 0x36 => Some(GPIO(IO_TOGGLE))
    case 0x40 => Some(PWM(GROUP_CFG))
    case 0x41 => Some(PWM(CHANNEL_CFG))
    case 0x42 => Some(PWM(CHANNEL_SET))
    case 0x43 => Some(PWM(CHANNEL_RELEASE))
    case 0x44 => Some(PWM(CHANNEL_GET))
    case 0x45 => Some(PWM(GROUP_GET))
    case 0x46 => Some(PWM(GROUP_RELEASE))
    case _ => None
  }

  /** Bytes of the value an acknowledgement carries. */
  function WidthOf(c: Command): (w: nat)
    ensures w <= TX_DATA_MAX
  {
    match c
    case PROBE => 4
    case RESET => 0
    case GPIO(k) => if k == IO_READ || k == IO_TOGGLE then 1 else 0
    case PWM(k) => if k == CHANNEL_GET then 2 else if k == GROUP_GET then 4 else 0
  }

  // ----- meaning of a command

  /** Everything a command can change. */
  datatype Machine = Machine(pwm: PwmState, bindings: Bindings, resetRequested: bool) {
    function Io(): IoState { IoState(pwm.pins, bindings) }

    function WithIo(s: IoState): Machine { Machine(pwm.(pins := s.pins), s.bindings, resetRequested) }
  }

  /** What one command does: new state, status, value read. */
  function Obey(clkHz: uint32, m: Machine, c: Command, payload: seq<byte>): (r: (Machine, Status, nat))
  {
    match c
    case PROBE => if |payload| != 0 then (m, InvalidArg, 0) else (m, Ok, PROBE_MAGIC)
    case RESET => if |payload| != 0 then (m, InvalidArg, 0) else (m.(resetRequested := true), Ok, 0)
    case GPIO(k) =>
      var (s, status, value) := IoExecute(m.Io(), k, payload);
      (m.WithIo(s), status, value)
    case PWM(k) =>
      var (s, status, value) := PwmExecute(clkHz, m.pwm, k, payload);
      (m.(pwm := s), status, value)
  }

  /** What a frame's opcode and payload do. */
  function Execute(clkHz: uint32, m: Machine, opcode: byte, payload: seq<byte>): (r: (Machine, Status, nat))
  {
    if CommandOf(opcode).None? then (m, Unsupported, 0) else Obey(clkHz, m, CommandOf(opcode).value, payload)
  }

  /** The low `width` bytes of a number, least significant first. */
  function LeBytes(value: nat, width: nat): (s: seq<byte>)
    ensures |s| == width
  {
    if width == 0 then [] else [value % 0x100] + LeBytes(value / 0x100, width - 1)
  }

  /** The reply to a command: its value at the opcode's width, or the one reason byte. */
  function ReplyTo(opcode: byte, status: Status, value: nat): (r: Reply)
    ensures |r.data| <= TX_DATA_MAX
  {
    if status == Ok && CommandOf(opcode).Some? then Reply(true, LeBytes(value, WidthOf(CommandOf(opcode).value)))
    else Reply(false, [status.Code()])
  }

  // ----- properties

  /** A command that is not acknowledged changes nothing at all. */
  lemma RefusedChangesNothing(clkHz: uint32, m: Machine, opcode: byte, payload: seq<byte>)
    requires Execute(clkHz, m, opcode, payload).1 != Ok
    ensures Execute(clkHz, m, opcode, payload).0 == m
  {
    match CommandOf(opcode)
    case Some(PWM(k)) => CommandsAreAtomic(clkHz, m.pwm, k, payload);
    case _ =>
  }

  /** How many numbers `width` bytes can tell apart. */
  function Limit(width: nat): nat {
    if width == 0 then 1 else 0x100 * Limit(width - 1)
  }

  lemma Limits()
    ensures Limit(0) == 1 && Limit(1) == 0x100 && Limit(2) == 0x1_0000 && Limit(4) == 0x1_0000_0000
  {
    assert Limit(3) == 0x100_0000;
  }

  lemma ReadBackFits(clkHz: uint32, psc: nat, arr: nat)
    ensures ReadBack(clkHz, psc, arr) < 0x1_0000_0000
  {
    var period := Period(psc, arr) % 0x1_0000_0000;
    if period != 0 { TotalFits(clkHz, period); }
  }

  /** Every value fits the width its opcode's reply gives it; an action reads nothing. */
  lemma ValuesFit(clkHz: uint32, m: Machine, opcode: byte, payload: seq<byte>)
    requires Execute(clkHz, m, opcode, payload).1 == Ok
    ensures CommandOf(opcode).Some?
    ensures Execute(clkHz, m, opcode, payload).2 < Limit(WidthOf(CommandOf(opcode).value))
  {
    Limits();
    match CommandOf(opcode)
    case Some(PWM(GROUP_GET)) =>
      var g := m.pwm.groups[payload[0]];
      ReadBackFits(clkHz, g.psc, g.arr);
    case Some(PWM(CHANNEL_GET)) =>
      assert Resolve(payload[0], payload[1]).Success?;
      ChannelOfIsInverse(PinId(payload[0], payload[1]), 0, 0);
    case _ =>
  }

  lemma {:induction false} LittleEndianRoundTrip(value: nat, width: nat)
    requires value < Limit(width)
    ensures HostProtocol.FromLittleEndian(LeBytes(value, width)) == value
  {
    if width > 0 {
      LittleEndianRoundTrip(value / 0x100, width - 1);
      assert LeBytes(value, width)[1..] == LeBytes(value / 0x100, width - 1);
    }
  }

  /** The host decodes the reply to any command to its outcome: the value read, whole, on an
      acknowledged read; nothing on an acknowledged action; the non-zero reason otherwise. */
  lemma ReplyDecodes(clkHz: uint32, m: Machine, opcode: byte, payload: seq<byte>, tail: seq<byte>)
    ensures var (_, status, value) := Execute(clkHz, m, opcode, payload);
      var decoded := HostProtocol.ParseResponse(ReplyWire(ReplyTo(opcode, status, value)) + tail);
      && decoded.Success?
      && decoded.value.ack == (status == Ok)
      && if status == Ok then
           && CommandOf(opcode).Some?
           && decoded.value.Reason() == None
           && decoded.value.Value() == if WidthOf(CommandOf(opcode).value) == 0 then None else Some(value)
         else
           && decoded.value.Reason() == Some(status.Code())
           && status.Code() != 0
           && decoded.value.Value() == None
  {
    var (_, status, value) := Execute(clkHz, m, opcode, payload);
    var reply := ReplyTo(opcode, status, value);
    HostProtocol.ReplyRoundTrip(reply, tail);
    if status == Ok {
      ValuesFit(clkHz, m, opcode, payload);
      LittleEndianRoundTrip(value, WidthOf(CommandOf(opcode).value));
    }
  }

  // ----- the dispatcher

  /** find_command(): linear search of the table. */
  method FindCommand(opcode: byte) returns (found: Option<Entry>)
    ensures found.None? <==> CommandOf(opcode).None?
    ensures found.Some? ==> found.value.opcode == opcode && Some(found.value.command) == CommandOf(opcode)
    ensures found.Some? ==> found.value.width == WidthOf(found.value.command)
  {
    var i := 0;
    while i < |COMMAND_TABLE|
      invariant 0 <= i <= |COMMAND_TABLE|
      invariant forall k :: 0 <= k < i ==> COMMAND_TABLE[k].opcode != opcode
    {
      if COMMAND_TABLE[i].opcode == opcode {
        return Some(COMMAND_TABLE[i]);
      }
      i := i + 1;
    }
    if CommandOf(opcode).Some? {
      TableCovers(opcode);
      assert false;
    }
    return None;
  }

  lemma TableCovers(opcode: byte)
    requires CommandOf(opcode).Some?
    ensures exists k :: 0 <= k < |COMMAND_TABLE| && COMMAND_TABLE[k].opcode == opcode
  {
    var k := if opcode < 0x30 then opcode - 0x10 else if opcode < 0x40 then opcode - 0x2E else opcode - 0x37;
    assert COMMAND_TABLE[k].opcode == opcode;
  }

  /** The bytes of `value` from byte `i` up, by shifting. */
  lemma {:induction false} LeBytesShift(value: nat, width: nat, i: nat)
    requires i < width
    ensures LeBytes(value, width)[i] == And(Shr(value, 8 * i), Mask(8))
  {
    BytePowers();
    if i == 0 {
      AndMaskIsMod(value, 8);
    } else {
      LeBytesShift(value / 0x100, width - 1, i - 1);
      ShrByte(value, 8 * i);
    }
  }

  lemma ShrByte(n: nat, k: nat)
    requires k >= 8
    ensures Shr(n, k) == Shr(n / 0x100, k - 8)
  {
    assert Shr(n, k) == Shr(n / 2 / 2, k - 2);
    assert Shr(n / 4, k - 2) == Shr(n / 4 / 2 / 2, k - 4);
    assert Shr(n / 16, k - 4) == Shr(n / 16 / 2 / 2, k - 6);
    assert Shr(n / 64, k - 6) == Shr(n / 64 / 2 / 2, k - 8);
  }

  /** store_le(). */
  method StoreLe(data: array<byte>, value: nat, width: nat)
    requires data.Length == TX_DATA_MAX && width <= TX_DATA_MAX
    modifies data
    ensures data[..width] == LeBytes(value, width)
  {
    var i := 0;
    while i < width && i < TX_DATA_MAX
      invariant 0 <= i <= width
      invariant forall k :: 0 <= k < i ==> data[k] == LeBytes(value, width)[k]
    {
      LeBytesShift(value, width, i);
      data[i] := And(Shr(value, 8 * i), Mask(8));
      i := i + 1;
    }
  }

  class Dispatcher {
    const pwm: PwmController
    const io: GpioController
    var resetRequested: bool

    /** Both controllers drive the same pins. */
    ghost predicate Valid()
      reads pwm.driver.gpio, pwm.driver.tim2, pwm.driver.tim3, pwm.driver.tim4
    {
      pwm.Valid() && io.gpio == pwm.driver.gpio
    }

    ghost function State(): (m: Machine)
      requires Valid()
      reads this, io, pwm.driver.gpio, pwm.driver.tim2, pwm.driver.tim3, pwm.driver.tim4
    {
      Machine(pwm.State(), io.bindings, resetRequested)
    }

    constructor (p: PwmController, g: GpioController)
      requires p.Valid() && g.gpio == p.driver.gpio
      ensures Valid() && pwm == p && io == g && State() == Machine(p.State(), g.bindings, false)
    {
      pwm, io, resetRequested := p, g, false;
    }

    /** The handler of one table row. */
    method Handle(command: Command, payload: seq<byte>) returns (status: Status, value: nat)
      requires Valid()
      modifies this`resetRequested, io, pwm.driver.gpio, pwm.driver.tim2, pwm.driver.tim3, pwm.driver.tim4
      ensures Valid() && (State(), status, value) == Obey(pwm.driver.clkHz, old(State()), command, payload)
      ensures status != Ok ==> unchanged(this, io, pwm.driver.gpio, pwm.driver.tim2, pwm.driver.tim3, pwm.driver.tim4)
    {
      value := 0;
      match command
      case PROBE =>
        if |payload| != 0 {
          return InvalidArg, value;
        }
        return Ok, PROBE_MAGIC;
      case RESET =>
        if |payload| != 0 {
          return InvalidArg, value;
        }
        resetRequested := true;
        return Ok, value;
      case GPIO(k) =>
        status, value := io.Handle(k, payload);
      case PWM(k) =>
        status, value := pwm.Handle(k, payload);
    }

    /** dispatch_command(). */
    method Dispatch(opcode: byte, payload: seq<byte>, resp: ResponseFrame) returns (status: Status)
      requires Valid() && resp.Valid()
      modifies this`resetRequested, io, pwm.driver.gpio, pwm.driver.tim2, pwm.driver.tim3, pwm.driver.tim4
      modifies resp, resp.data
      ensures Valid() && resp.Valid() && resp.data == old(resp.data)
      ensures var (after, outcome, value) := Execute(pwm.driver.clkHz, old(State()), opcode, payload);
        && State() == after && status == outcome
        && resp.dataLen <= TX_DATA_MAX && resp.Value() == ReplyTo(opcode, outcome, value)
      ensures status != Ok ==> unchanged(this, io, pwm.driver.gpio, pwm.driver.tim2, pwm.driver.tim3, pwm.driver.tim4)
    {
      resp.ack := false;
      resp.dataLen := 0;
      var entry := FindCommand(opcode);
      if entry.None? {
        ReplyNack(resp, Unsupported);
        return Unsupported;
      }
      var value;
      status, value := Handle(entry.value.command, payload);
      Respond(resp, opcode, entry.value.width, status, value);
    }

    /** command_dispatcher_take_reset_request(). */
    method TakeResetRequest() returns (pending: bool)
      requires Valid()
      modifies this`resetRequested
      ensures pending == old(resetRequested)
      ensures Valid() && State() == old(State()).(resetRequested := false)
    {
      pending := resetRequested;
      resetRequested := false;
    }
  }

  /** The reply once the handler is done: a reason, or the value at the row's width. */
  method Respond(resp: ResponseFrame, opcode: byte, width: nat, status: Status, value: nat)
    requires resp.Valid() && CommandOf(opcode).Some? && width == WidthOf(CommandOf(opcode).value)
    modifies resp, resp.data
    ensures resp.Valid() && resp.data == old(resp.data)
    ensures resp.dataLen <= TX_DATA_MAX && resp.Value() == ReplyTo(opcode, status, value)
  {
    if status != Ok {
      ReplyNack(resp, status);
      return;
    }
    ReplyAck(resp, value, width);
  }

  /** The acknowledgement at the end of dispatch_command(). */
  method ReplyAck(resp: ResponseFrame, value: nat, width: nat)
    requires resp.Valid() && width <= TX_DATA_MAX
    modifies resp, resp.data
    ensures resp.Valid() && resp.data == old(resp.data)
    ensures resp.dataLen == width && resp.Value() == Reply(true, LeBytes(value, width))
  {
    StoreLe(resp.data, value, width);
    resp.dataLen := width;
    resp.ack := true;
  }

  /** reply_nack(). */
  method ReplyNack(resp: ResponseFrame, reason: Status)
    requires resp.Valid()
    modifies resp, resp.data
    ensures resp.Valid() && resp.data == old(resp.data)
    ensures resp.dataLen == 1 && resp.Value() == Reply(false, [reason.Code()])
  {
    resp.ack := false;
    resp.data[0] := reason.Code();
    resp.dataLen := 1;
  }
}

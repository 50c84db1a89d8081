/** Runs of the whole command machine between two resets: commands in any order, interrupts on
    any line and input changes in between. The state stays a function of the commands the host
    saw acknowledged, so a host can know it without asking. */
module MachineRuns {
  import opened Words
  import opened Status
  import opened Gpio
  import opened Timebase
  import opened TimerRegisters
  import opened Timer
  import opened TimerDriver
  import opened TimerRuns
  import opened PwmController
  import opened PwmView
  import opened GpioController
  import opened CommandDispatcher

  /** A command, an edge on a line that the hardware notes as pending, the processor taking a
      vector, or new input levels. */
  datatype Event =
    | Request(opcode: byte, payload: seq<byte>)
    | Edge(line: nat)
    | Interrupt(vector: nat)
    | InputsChange(levels: seq<bool>)

  predicate Possible(e: Event) {
    match e
    case Request(_, _) => true
    case Edge(n) => n < MAX_GPIO_INTERRUPTS
    case Interrupt(v) => v < VECTORS
    case InputsChange(levels) => |levels| == PINS
  }

  /** The hardware has seen an edge on a line. */
  function Noted(x: Lines, n: nat): (y: Lines)
    requires n < MAX_GPIO_INTERRUPTS
  {
    x.(pending := x.pending[n := true])
  }

  function Next(clkHz: uint32, m: Machine, e: Event): (r: Machine)
    requires Possible(e)
  {
    match e
    case Request(opcode, payload) => Execute(clkHz, m, opcode, payload).0
    case Edge(n) => m.(pwm := m.pwm.(pins := m.pwm.pins.(lines := Noted(m.pwm.pins.lines, n))))
    case Interrupt(v) => m.WithIo(VectorServed(m.Io(), v))
    case InputsChange(levels) => m.(pwm := m.pwm.(pins := m.pwm.pins.(inputs := levels)))
  }

  function Run(clkHz: uint32, boot: Machine, events: seq<Event>): (m: Machine)
    requires forall k :: 0 <= k < |events| ==> Possible(events[k])
  {
    if events == [] then boot
    else Next(clkHz, Run(clkHz, boot, events[..|events| - 1]), events[|events| - 1])
  }

  /** The logger's transmit pin, and the command link's two. */
  predicate IsSerialPin(p: PinId) {
    p == PinId(0, 9) || p == PinId(0, 2) || p == PinId(0, 3)
  }

  /** The mode of each pin when the main loop starts. */
  function BootMode(p: PinId): nat {
    if IsReserved(p) || IsSerialPin(p) then MODE_AF else MODE_ANALOG
  }

  /** As the main loop finds it: only the debug port and the serial links hold pins. */
  ghost predicate Booted(m: Machine) {
    && (forall p: PinId :: InRange(p) ==> m.pwm.pins.IsMode(p, BootMode(p)))
    && (forall n :: 0 <= n < MAX_GPIO_INTERRUPTS ==> IdleLine(m.pwm.pins, n) && m.bindings[n] == UNBOUND)
    && (forall v :: 0 <= v < VECTORS ==> !m.pwm.pins.lines.vectors[v])
    && m.pwm.groups == ALL_OFF && !m.resetRequested
  }

  /** A command the host saw acknowledged. */
  datatype Ack = Ack(command: Command, payload: seq<byte>)

  predicate IsAck(a: Ack) {
    match a.command
    case GPIO(k) => |a.payload| == IoLength(k)
    case PWM(k) => |a.payload| == PayloadLength(k)
    case _ => |a.payload| == 0
  }

  function Acks(clkHz: uint32, boot: Machine, events: seq<Event>): (acks: seq<Ack>)
    requires forall k :: 0 <= k < |events| ==> Possible(events[k])
    ensures forall k :: 0 <= k < |acks| ==> IsAck(acks[k])
  {
    if events == [] then []
    else
      var before, e := events[..|events| - 1], events[|events| - 1];
      var earlier := Acks(clkHz, boot, before);
      if e.Request? && Execute(clkHz, Run(clkHz, boot, before), e.opcode, e.payload).1 == Ok
      then
        OnlyWellFormedSucceed(clkHz, Run(clkHz, boot, before), e.opcode, e.payload);
        earlier + [Ack(CommandOf(e.opcode).value, e.payload)]
      else earlier
  }

  lemma OnlyWellFormedSucceed(clkHz: uint32, m: Machine, opcode: byte, payload: seq<byte>)
    requires Execute(clkHz, m, opcode, payload).1 == Ok
    ensures CommandOf(opcode).Some? && IsAck(Ack(CommandOf(opcode).value, payload))
  {
  }

  // ----- the host's view of a pin

  datatype PinView = PinView(mode: nat, duty: Option<nat>)

  function PinAfter(a: Ack, p: PinId, v: PinView): PinView
    requires IsAck(a)
  {
    match a.command
    case GPIO(IO_CFG) => if Subject(IO_CFG, a.payload) == p then v.(mode := a.payload[0]) else v
    case PWM(k) =>
      PinView(ModeAfterAck(k, a.payload, p, v.duty, v.mode),
              if ChannelOf(p).None? then None else DutyAfterAck(k, a.payload, p, v.duty))
    case _ => v
  }

  function ViewOfPin(acks: seq<Ack>, p: PinId): PinView
    requires forall k :: 0 <= k < |acks| ==> IsAck(acks[k])
  {
    if acks == [] then PinView(BootMode(p), None)
    else PinAfter(acks[|acks| - 1], p, ViewOfPin(acks[..|acks| - 1], p))
  }

  ghost predicate PinShown(m: Machine, p: PinId, v: PinView)
    requires InRange(p)
  {
    m.pwm.pins.IsMode(p, v.mode) && DutyOf(m.pwm, p) == v.duty
  }

  lemma PinStep(clkHz: uint32, m: Machine, c: Command, payload: seq<byte>, p: PinId, v: PinView)
    requires InRange(p) && PinShown(m, p, v) && Obey(clkHz, m, c, payload).1 == Ok
    ensures IsAck(Ack(c, payload)) && PinShown(Obey(clkHz, m, c, payload).0, p, PinAfter(Ack(c, payload), p, v))
  {
    match c
    case GPIO(k) => AtIsInjective(Subject(k, payload), p);
    case PWM(k) =>
      DutyStep(clkHz, m.pwm, k, payload, p);
      ModeStep(clkHz, m.pwm, k, payload, p);
    case _ =>
  }

  /** Every pin's mode and duty after every run. */
  lemma {:induction false} PinsAsAcknowledged(clkHz: uint32, boot: Machine, events: seq<Event>, p: PinId)
    requires Booted(boot) && InRange(p) && forall k :: 0 <= k < |events| ==> Possible(events[k])
    ensures PinShown(Run(clkHz, boot, events), p, ViewOfPin(Acks(clkHz, boot, events), p))
  {
    if events == [] {
      if ChannelOf(p).Some? { ChannelOfIsInverse(p, 0, 0); }
    } else {
      var before, e := events[..|events| - 1], events[|events| - 1];
      PinsAsAcknowledged(clkHz, boot, before, p);
      var m, acks := Run(clkHz, boot, before), Acks(clkHz, boot, before);
      if e.Interrupt? { VectorKeeps(m.Io(), e.vector); }
      if e.Request? {
        if Execute(clkHz, m, e.opcode, e.payload).1 == Ok {
          PinStep(clkHz, m, CommandOf(e.opcode).value, e.payload, p, ViewOfPin(acks, p));
          assert (acks + [Ack(CommandOf(e.opcode).value, e.payload)])[..|acks|] == acks;
        } else {
          RefusedChangesNothing(clkHz, m, e.opcode, e.payload);
        }
      }
    }
  }

  // ----- the host's view of a group

  function FrequencyAfter(a: Ack, group: nat, f: Option<nat>): Option<nat>
    requires IsAck(a)
  {
    if a.command.PWM? then FrequencyAfterAck(a.command.pwm, a.payload, group, f) else f
  }

  function ViewOfGroup(acks: seq<Ack>, group: nat): Option<nat>
    requires forall k :: 0 <= k < |acks| ==> IsAck(acks[k])
  {
    if acks == [] then None else FrequencyAfter(acks[|acks| - 1], group, ViewOfGroup(acks[..|acks| - 1], group))
  }

  /** Every group's frequency after every run: set up exactly if its counter runs. */
  lemma {:induction false} GroupsAsAcknowledged(clkHz: uint32, boot: Machine, events: seq<Event>, group: nat)
    requires Booted(boot) && group < INSTANCES && forall k :: 0 <= k < |events| ==> Possible(events[k])
    ensures TunedTo(clkHz, Run(clkHz, boot, events).pwm.groups[group], ViewOfGroup(Acks(clkHz, boot, events), group))
  {
    if events != [] {
      var before, e := events[..|events| - 1], events[|events| - 1];
      GroupsAsAcknowledged(clkHz, boot, before, group);
      var m, acks := Run(clkHz, boot, before), Acks(clkHz, boot, before);
      if e.Request? {
        if Execute(clkHz, m, e.opcode, e.payload).1 == Ok {
          GroupStep(clkHz, m, CommandOf(e.opcode).value, e.payload, group, ViewOfGroup(acks, group));
          assert (acks + [Ack(CommandOf(e.opcode).value, e.payload)])[..|acks|] == acks;
        } else {
          RefusedChangesNothing(clkHz, m, e.opcode, e.payload);
        }
      }
    }
  }

  lemma GroupStep(clkHz: uint32, m: Machine, c: Command, payload: seq<byte>, group: nat, f: Option<nat>)
    requires group < INSTANCES && TunedTo(clkHz, m.pwm.groups[group], f) && Obey(clkHz, m, c, payload).1 == Ok
    ensures IsAck(Ack(c, payload))
    ensures TunedTo(clkHz, Obey(clkHz, m, c, payload).0.pwm.groups[group], FrequencyAfter(Ack(c, payload), group, f))
  {
    if c.PWM? { FrequencyStep(clkHz, m.pwm, c.pwm, payload, group, f); }
  }

  // ----- the host's view of an interrupt line

  datatype Arming = Arming(port: nat, trigger: Trigger)

  datatype Bond = Bond(armed: Arming, action: Action, output: PinId)

  datatype LineView = LineView(armed: Option<Arming>, bond: Option<Bond>)

  function LineAfter(k: IoCommand, payload: seq<byte>, n: nat, v: LineView): LineView
    requires |payload| == IoLength(k)
  {
    match k
    case IRQ_CFG =>
      if payload[2] != n then v
      else LineView(if WireEdge(payload[0]).None? then None else Some(Arming(payload[1], WireEdge(payload[0]).value)), None)
    case IRQ_BIND =>
      if payload[2] != n || WireEdge(payload[0]).None? || WireAction(payload[3]).None? then v
      else v.(bond := Some(Bond(Arming(payload[1], WireEdge(payload[0]).value), WireAction(payload[3]).value,
                                PinId(payload[4], payload[5]))))
    case IRQ_UNBIND => if payload[1] != n then v else v.(bond := None)
    case _ => v
  }

  function LineAfterAck(a: Ack, n: nat, v: LineView): LineView
    requires IsAck(a)
  {
    if a.command.GPIO? then LineAfter(a.command.io, a.payload, n, v) else v
  }

  function ViewOfLine(acks: seq<Ack>, n: nat): LineView
    requires forall k :: 0 <= k < |acks| ==> IsAck(acks[k])
  {
    if acks == [] then LineView(None, None) else LineAfterAck(acks[|acks| - 1], n, ViewOfLine(acks[..|acks| - 1], n))
  }

  /** A line as the host believes it to be. If it is armed it is unmasked, routed to the port
      asked for, reacts to exactly the edges asked for and runs its own dispatch entry; if it
      is not, nothing of it is set. A binding stands only on the very arming it was made for. */
  predicate LineShown(s: IoState, n: nat, v: LineView)
    requires n < MAX_GPIO_INTERRUPTS
  {
    && (match v.armed
        case None => IdleLine(s.pins, n)
        case Some(a) =>
          && IsValidPin(PinId(a.port, n))
          && s.pins.lines.unmasked[n] && s.pins.lines.owner[n] == a.port
          && s.pins.lines.rising[n] == (a.trigger != FALLING) && s.pins.lines.falling[n] == (a.trigger != RISING)
          && s.pins.lines.callbacks[n] == Some(n))
    && (match v.bond
        case None => s.bindings[n] == UNBOUND
        case Some(b) =>
          && v.armed == Some(b.armed)
          && s.bindings[n] == Binding(PinId(b.armed.port, n), b.output, b.action, true))
  }

  lemma LineStep(s: IoState, k: IoCommand, payload: seq<byte>, n: nat, v: LineView)
    requires n < MAX_GPIO_INTERRUPTS && LineShown(s, n, v) && IoStatus(s, k, payload) == Ok
    ensures LineShown(IoAfter(s, k, payload), n, LineAfter(k, payload, n, v))
  {
  }

  lemma LinesUntouched(s: IoState, pins: GpioState, n: nat, v: LineView)
    requires n < MAX_GPIO_INTERRUPTS && LineShown(s, n, v)
    requires pins.lines == s.pins.lines.(pending := pins.lines.pending, vectors := pins.lines.vectors)
    ensures LineShown(s.(pins := pins), n, v)
  {
  }

  lemma PwmLineStep(clkHz: uint32, s: PwmState, bindings: Bindings, k: PwmCommand, payload: seq<byte>, n: nat, v: LineView)
    requires n < MAX_GPIO_INTERRUPTS && LineShown(IoState(s.pins, bindings), n, v)
    requires PwmExecute(clkHz, s, k, payload).1 == Ok
    ensures LineShown(IoState(PwmExecute(clkHz, s, k, payload).0.pins, bindings), n, v)
  {
    var t := PwmExecute(clkHz, s, k, payload).0.pins;
    assert SameLines(s.pins, t) by { ModeStep(clkHz, s, k, payload, PinId(0, 0)); }
    LinesUntouched(IoState(s.pins, bindings), t, n, v);
  }

  lemma CommandLineStep(clkHz: uint32, m: Machine, c: Command, payload: seq<byte>, n: nat, v: LineView)
    requires n < MAX_GPIO_INTERRUPTS && LineShown(m.Io(), n, v) && Obey(clkHz, m, c, payload).1 == Ok
    ensures IsAck(Ack(c, payload)) && LineShown(Obey(clkHz, m, c, payload).0.Io(), n, LineAfterAck(Ack(c, payload), n, v))
  {
    match c
    case GPIO(k) => LineStep(m.Io(), k, payload, n, v);
    case PWM(k) => PwmLineStep(clkHz, m.pwm, m.bindings, k, payload, n, v);
    case _ =>
  }

  lemma OtherEventLineStep(clkHz: uint32, m: Machine, e: Event, n: nat, v: LineView)
    requires n < MAX_GPIO_INTERRUPTS && LineShown(m.Io(), n, v) && Possible(e) && !e.Request?
    ensures LineShown(Next(clkHz, m, e).Io(), n, v)
  {
    if e.Interrupt? { VectorKeeps(m.Io(), e.vector); }
    LinesUntouched(m.Io(), Next(clkHz, m, e).pwm.pins, n, v);
  }

  // ----- the host's view of a vector

  /** Lines 0 to 4 have a vector each, 5 to 9 share one, and 10 to 15. */
  predicate VectorServes(v: nat, n: nat) {
    (v <= 4 && n == v) || (v == 5 && 5 <= n <= 9) || (v == 6 && 10 <= n <= 15)
  }

  /** Arming a line turns its vector on, disarming one turns it off, whatever its other lines. */
  function VectorAfterAck(a: Ack, v: nat, on: bool): bool
    requires IsAck(a)
  {
    if a.command == GPIO(IRQ_CFG) && VectorServes(v, a.payload[2]) then WireEdge(a.payload[0]).Some? else on
  }

  function ViewOfVector(acks: seq<Ack>, v: nat): bool
    requires forall k :: 0 <= k < |acks| ==> IsAck(acks[k])
  {
    acks != [] && VectorAfterAck(acks[|acks| - 1], v, ViewOfVector(acks[..|acks| - 1], v))
  }

  lemma VectorStep(clkHz: uint32, m: Machine, c: Command, payload: seq<byte>, v: nat)
    requires v < VECTORS && Obey(clkHz, m, c, payload).1 == Ok
    ensures IsAck(Ack(c, payload))
    ensures Obey(clkHz, m, c, payload).0.pwm.pins.lines.vectors[v]
      == VectorAfterAck(Ack(c, payload), v, m.pwm.pins.lines.vectors[v])
  {
    match c
    case GPIO(k) => IoVectorStep(m.Io(), k, payload, v);
    case PWM(k) => PwmVectorStep(clkHz, m.pwm, k, payload);
    case _ =>
  }

  lemma IoVectorStep(s: IoState, k: IoCommand, payload: seq<byte>, v: nat)
    requires v < VECTORS && IoStatus(s, k, payload) == Ok
    ensures |payload| == IoLength(k)
    ensures IoAfter(s, k, payload).pins.lines.vectors[v] == VectorAfterAck(Ack(GPIO(k), payload), v, s.pins.lines.vectors[v])
  {
  }

  lemma PwmVectorStep(clkHz: uint32, s: PwmState, k: PwmCommand, payload: seq<byte>)
    requires PwmExecute(clkHz, s, k, payload).1 == Ok
    ensures |payload| == PayloadLength(k) && PwmExecute(clkHz, s, k, payload).0.pins.lines == s.pins.lines
  {
    ModeStep(clkHz, s, k, payload, PinId(0, 0));
  }

  /** After every run the processor takes a vector if and only if the last acknowledged GPIO_IRQ_CFG
      on any of its lines armed one. */
  lemma {:induction false} VectorsAsAcknowledged(clkHz: uint32, boot: Machine, events: seq<Event>, v: nat)
    requires Booted(boot) && v < VECTORS && forall k :: 0 <= k < |events| ==> Possible(events[k])
    ensures Run(clkHz, boot, events).pwm.pins.lines.vectors[v] == ViewOfVector(Acks(clkHz, boot, events), v)
  {
    if events != [] {
      var before, e := events[..|events| - 1], events[|events| - 1];
      VectorsAsAcknowledged(clkHz, boot, before, v);
      var m, acks := Run(clkHz, boot, before), Acks(clkHz, boot, before);
      if e.Request? {
        if Execute(clkHz, m, e.opcode, e.payload).1 == Ok {
          VectorStep(clkHz, m, CommandOf(e.opcode).value, e.payload, v);
          assert (acks + [Ack(CommandOf(e.opcode).value, e.payload)])[..|acks|] == acks;
        } else {
          RefusedChangesNothing(clkHz, m, e.opcode, e.payload);
        }
      } else if e.Interrupt? {
        VectorKeeps(m.Io(), e.vector);
      }
    }
  }

  // ----- lines over whole runs

  /** Every line and its binding after every run of commands and interrupts. */
  lemma {:induction false} LinesAsAcknowledged(clkHz: uint32, boot: Machine, events: seq<Event>, n: nat)
    requires Booted(boot) && n < MAX_GPIO_INTERRUPTS && forall k :: 0 <= k < |events| ==> Possible(events[k])
    ensures LineShown(Run(clkHz, boot, events).Io(), n, ViewOfLine(Acks(clkHz, boot, events), n))
  {
    if events != [] {
      var before, e := events[..|events| - 1], events[|events| - 1];
      LinesAsAcknowledged(clkHz, boot, before, n);
      var m, acks := Run(clkHz, boot, before), Acks(clkHz, boot, before);
      if e.Request? {
        if Execute(clkHz, m, e.opcode, e.payload).1 == Ok {
          CommandLineStep(clkHz, m, CommandOf(e.opcode).value, e.payload, n, ViewOfLine(acks, n));
          assert (acks + [Ack(CommandOf(e.opcode).value, e.payload)])[..|acks|] == acks;
        } else {
          RefusedChangesNothing(clkHz, m, e.opcode, e.payload);
        }
      } else {
        OtherEventLineStep(clkHz, m, e, n, ViewOfLine(acks, n));
      }
    }
  }
}

/** The GPIO command handlers (src/gpio_controller.c) and the interrupt-to-output bindings they
    maintain (src/gpio_irq_bindings.c). */
module GpioController {
  import opened Words
  import opened Status
  import opened Gpio

  datatype Action = LOW | HIGH | TOGGLE

  /** What an armed line does to an output pin; the zeroed entry stands for none. */
  datatype Binding = Binding(input: PinId, output: PinId, action: Action, active: bool)

  const UNBOUND: Binding := Binding(PinId(0, 0), PinId(0, 0), LOW, false)

  type Bindings = b: seq<Binding> | |b| == MAX_GPIO_INTERRUPTS
    witness seq(MAX_GPIO_INTERRUPTS, _ => UNBOUND)

  const NO_BINDINGS: Bindings := seq(MAX_GPIO_INTERRUPTS, _ => UNBOUND)

  datatype IoState = IoState(pins: GpioState, bindings: Bindings)

  datatype IoCommand = IO_CFG | IO_WRITE | IO_READ | IO_TOGGLE | IRQ_CFG | IRQ_BIND | IRQ_UNBIND

  const IRQ_EDGE_OFF: nat := 0

  // ----- meaning of the handlers

  function IoLength(k: IoCommand): nat {
    match k
    case IO_CFG => 3
    case IO_WRITE => 3
    case IO_READ => 2
    case IO_TOGGLE => 2
    case IRQ_CFG => 3
    case IRQ_BIND => 6
    case IRQ_UNBIND => 2
  }

  /** The pin a command works on: its last two bytes, or the input pin of a bind. */
  function Subject(k: IoCommand, payload: seq<byte>): PinId
    requires |payload| == IoLength(k)
  {
    if k == IRQ_BIND then PinId(payload[1], payload[2])
    else PinId(payload[|payload| - 2], payload[|payload| - 1])
  }

  /** wire_edge_to_trigger(). */
  function WireEdge(edge: nat): Option<Trigger> {
    if edge == 1 then Some(RISING) else if edge == 2 then Some(FALLING) else if edge == 3 then Some(BOTH) else None
  }

  function WireAction(action: nat): Option<Action> {
    if action == 0 then Some(LOW) else if action == 1 then Some(HIGH) else if action == 2 then Some(TOGGLE) else None
  }

  function IoStatus(s: IoState, k: IoCommand, payload: seq<byte>): Status
  {
    if |payload| != IoLength(k) then InvalidArg
    else
      var p := Subject(k, payload);
      match k
      case IO_CFG =>
        if payload[0] > 1 then InvalidArg else if !IsValidPin(p) then InvalidPin else Ok
      case IO_WRITE =>
        if payload[0] > 1 then InvalidArg else DriveStatus(s.pins, p)
      case IO_READ =>
        if !IsValidPin(p) then InvalidPin else if !s.pins.IsMode(p, MODE_INPUT) then InvalidState else Ok
      case IO_TOGGLE => DriveStatus(s.pins, p)
      case IRQ_CFG => EdgeStatus(s, payload[0], p)
      case IRQ_BIND => BindStatus(s, payload[0], p, payload[3], PinId(payload[4], payload[5]))
      case IRQ_UNBIND =>
        if !InRange(p) then InvalidPin
        else if !s.bindings[p.num].active || s.bindings[p.num].input.port != p.port then InvalidState
        else Ok
  }

  /** Every refusal of the driver comes back as the plain error status. */
  function EdgeStatus(s: IoState, edge: nat, p: PinId): Status
  {
    if !InRange(p) then InvalidPin
    else if edge == IRQ_EDGE_OFF then (if IsValidPin(p) then Ok else Err)
    else if WireEdge(edge).None? then InvalidArg
    else if ArmStatus(s.pins, p) != Ok then Err
    else Ok
  }

  function BindStatus(s: IoState, edge: nat, input: PinId, action: nat, output: PinId): Status
  {
    if !InRange(input) || !InRange(output) then InvalidPin
    else if WireEdge(edge).None? || WireAction(action).None? then InvalidArg
    else if !s.pins.IsMode(input, MODE_INPUT) || !s.pins.IsMode(output, MODE_OUTPUT) then InvalidState
    else if ArmedTrigger(s.pins, input) != Success(WireEdge(edge).value) then InvalidState
    else if s.bindings[input.num].active then Busy
    else Ok
  }

  /** The state an accepted command leaves. */
  function IoAfter(s: IoState, k: IoCommand, payload: seq<byte>): (t: IoState)
    requires IoStatus(s, k, payload) == Ok
  {
    var p := Subject(k, payload);
    match k
    case IO_CFG => s.(pins := Configured(s.pins, p, Config(payload[0], 0, 0, 0)))
    case IO_WRITE => s.(pins := Driven(s.pins, p, payload[0] == 1))
    case IO_READ => s
    case IO_TOGGLE => s.(pins := Driven(s.pins, p, !s.pins.levels[At(p)]))
    case IRQ_CFG =>
      IoState(if payload[0] == IRQ_EDGE_OFF then Disarmed(s.pins, p)
              else Armed(s.pins, p, WireEdge(payload[0]).value, Some(p.num)),
              s.bindings[p.num := UNBOUND])
    case IRQ_BIND =>
      s.(bindings := s.bindings[p.num := Binding(p, PinId(payload[4], payload[5]), WireAction(payload[3]).value, true)])
    case IRQ_UNBIND => s.(bindings := s.bindings[p.num := UNBOUND])
  }

  function LevelCode(level: bool): nat { if level then 1 else 0 }

  /** A whole GPIO command: new state, status, value read. */
  function IoExecute(s: IoState, k: IoCommand, payload: seq<byte>): (r: (IoState, Status, nat))
  {
    var status := IoStatus(s, k, payload);
    if status != Ok then (s, status, 0)
    else
      var p := Subject(k, payload);
      (IoAfter(s, k, payload), Ok,
       if k == IO_READ then LevelCode(s.pins.inputs[At(p)])
       else if k == IO_TOGGLE then LevelCode(!s.pins.levels[At(p)])
       else 0)
  }

  /** irq_action_dispatch(): the bound action, if there is one and its pin is an output. */
  function Dispatched(s: IoState, line: nat): (t: IoState)
    requires line < MAX_GPIO_INTERRUPTS
  {
    var b := s.bindings[line];
    if !b.active || DriveStatus(s.pins, b.output) != Ok then s
    else
      s.(pins := Driven(s.pins, b.output, match b.action
                                          case LOW => false
                                          case HIGH => true
                                          case TOGGLE => !s.pins.levels[At(b.output)]))
  }

  /** The handler installed on a line runs; entry `m` of the dispatch table serves line `m`. */
  function Fired(s: IoState, n: nat): (t: IoState)
    requires n < MAX_GPIO_INTERRUPTS
  {
    match s.pins.lines.callbacks[n]
    case None => s
    case Some(m) => if m < MAX_GPIO_INTERRUPTS then Dispatched(s, m) else s
  }

  /** A handler's turn for one line: nothing unless the line is pending; then every pending bit is
      cleared and the line's handler runs. */
  function Served(s: IoState, n: nat): (t: IoState)
    requires n < MAX_GPIO_INTERRUPTS
  {
    if !s.pins.lines.pending[n] then s else Fired(s.(pins := NothingPending(s.pins)), n)
  }

  /** The lines from `lo` below `hi`, one after the other. */
  function ServedLines(s: IoState, lo: nat, hi: nat): (t: IoState)
    requires hi <= MAX_GPIO_INTERRUPTS
    decreases hi
  {
    if hi <= lo then s else Served(ServedLines(s, lo, hi - 1), hi - 1)
  }

  function FirstLine(v: nat): nat { if v <= 4 then v else if v == 5 then 5 else 10 }

  function LastLine(v: nat): (n: nat)
    requires v < VECTORS
    ensures FirstLine(v) <= n < MAX_GPIO_INTERRUPTS
  {
    if v <= 4 then v else if v == 5 then 9 else 15
  }

  /** A vector's handler, if the processor takes the vector at all. */
  function VectorServed(s: IoState, v: nat): (t: IoState)
    requires v < VECTORS
  {
    if s.pins.lines.vectors[v] then ServedLines(s, FirstLine(v), LastLine(v) + 1) else s
  }

  /** The first pending line from `lo` below `hi`. */
  function FirstPending(pending: seq<bool>, lo: nat, hi: nat): (n: Option<nat>)
    requires hi <= |pending|
    ensures n.Some? ==> lo <= n.value < hi && pending[n.value] && forall k :: lo <= k < n.value ==> !pending[k]
    ensures n.None? ==> forall k :: lo <= k < hi ==> !pending[k]
    decreases hi - lo
  {
    if hi <= lo then None else if pending[lo] then Some(lo) else FirstPending(pending, lo + 1, hi)
  }

  lemma LonePending(pending: seq<bool>, lo: nat, hi: nat, n: nat)
    requires lo <= n < hi <= |pending| && forall k: nat :: k < |pending| ==> (pending[k] <==> k == n)
    ensures FirstPending(pending, lo, hi) == Some(n)
  {
    assert pending[n];
  }

  lemma FirstPendingGrows(pending: seq<bool>, lo: nat, hi: nat)
    requires lo < hi <= |pending|
    ensures FirstPending(pending, lo, hi) ==
      var first := FirstPending(pending, lo, hi - 1);
      if first.None? && pending[hi - 1] then Some(hi - 1) else first
  {
  }

  lemma FiredKeepsPending(s: IoState, n: nat)
    requires n < MAX_GPIO_INTERRUPTS
    ensures Fired(s, n).pins.lines.pending == s.pins.lines.pending
  {
  }

  /** Serving several lines runs one handler at most, that of the first pending line: taking its
      turn wipes out the pending bit of every other line. */
  lemma {:induction false} OnlyFirstIsServed(s: IoState, lo: nat, hi: nat)
    requires hi <= MAX_GPIO_INTERRUPTS
    ensures ServedLines(s, lo, hi) ==
      match FirstPending(s.pins.lines.pending, lo, hi)
      case None => s
      case Some(n) => Fired(s.(pins := NothingPending(s.pins)), n)
    decreases hi
  {
    if lo < hi {
      OnlyFirstIsServed(s, lo, hi - 1);
      FirstPendingGrows(s.pins.lines.pending, lo, hi);
      var first := FirstPending(s.pins.lines.pending, lo, hi - 1);
      if first.Some? { FiredKeepsPending(s.(pins := NothingPending(s.pins)), first.value); }
    }
  }

  /** Handlers move output levels and pending bits only. */
  lemma VectorKeeps(s: IoState, v: nat)
    requires v < VECTORS
    ensures var t := VectorServed(s, v);
      && t.bindings == s.bindings
      && t.pins == s.pins.(levels := t.pins.levels, lines := s.pins.lines.(pending := t.pins.lines.pending))
  {
    OnlyFirstIsServed(s, FirstLine(v), LastLine(v) + 1);
  }

  // ----- the handlers

  class GpioController {
    const gpio: GpioDriver
    var bindings: Bindings

    ghost predicate Valid()
      reads gpio
    {
      gpio.Valid()
    }

    ghost function State(): (s: IoState)
      requires Valid()
      reads this, gpio
    {
      IoState(gpio.State(), bindings)
    }

    constructor (g: GpioDriver)
      requires g.Valid()
      ensures Valid() && gpio == g && State() == IoState(g.State(), NO_BINDINGS)
    {
      gpio := g;
      bindings := NO_BINDINGS;
    }

    /** gpio_controller_io_cfg(): push-pull, low speed, no pull; no test of who owns the pin. */
    method IoCfg(payload: seq<byte>) returns (status: Status)
      requires Valid()
      modifies gpio
      ensures Valid() && (State(), status, 0) == IoExecute(old(State()), IO_CFG, payload)
      ensures status != Ok ==> unchanged(gpio)
    {
      if |payload| != 3 {
        return InvalidArg;
      }
      var dir, port, pin := payload[0], payload[1], payload[2];
      if dir != MODE_INPUT && dir != MODE_OUTPUT {
        return InvalidArg;
      }
      if port >= GPIO_NUM_OF_PORTS {
        return InvalidPin;
      }
      if pin > MAX_PIN_COUNT {
        return InvalidPin;
      }
      status := gpio.Init(PinId(port, pin), Config(dir, 0, 0, 0));
    }

    /** gpio_controller_write(). */
    method Write(payload: seq<byte>) returns (status: Status)
      requires Valid()
      modifies gpio
      ensures Valid() && (State(), status, 0) == IoExecute(old(State()), IO_WRITE, payload)
      ensures status != Ok ==> unchanged(gpio)
    {
      if |payload| != 3 {
        return InvalidArg;
      }
      var level, port, pin := payload[0], payload[1], payload[2];
      if level != 0 && level != 1 {
        return InvalidArg;
      }
      if port >= GPIO_NUM_OF_PORTS {
        return InvalidPin;
      }
      if pin > MAX_PIN_COUNT {
        return InvalidPin;
      }
      status := gpio.SetState(PinId(port, pin), level == 1);
    }

    /** gpio_controller_read(). */
    method Read(payload: seq<byte>) returns (status: Status, level: bool)
      requires Valid()
      ensures var (_, s, v) := IoExecute(State(), IO_READ, payload);
        status == s && (s == Ok ==> v == LevelCode(level))
    {
      level := false;
      if |payload| != 2 {
        return InvalidArg, level;
      }
      var port, pin := payload[0], payload[1];
      if port >= GPIO_NUM_OF_PORTS {
        return InvalidPin, level;
      }
      if pin > MAX_PIN_COUNT {
        return InvalidPin, level;
      }
      status, level := gpio.Read(PinId(port, pin));
    }

    /** gpio_controller_toggle(). */
    method Toggle(payload: seq<byte>) returns (status: Status, level: bool)
      requires Valid()
      modifies gpio
      ensures Valid() && State() == IoExecute(old(State()), IO_TOGGLE, payload).0
      ensures status == IoExecute(old(State()), IO_TOGGLE, payload).1
      ensures status == Ok ==> LevelCode(level) == IoExecute(old(State()), IO_TOGGLE, payload).2
      ensures status != Ok ==> unchanged(gpio)
    {
      level := false;
      if |payload| != 2 {
        return InvalidArg, level;
      }
      var port, pin := payload[0], payload[1];
      if port >= GPIO_NUM_OF_PORTS {
        return InvalidPin, level;
      }
      if pin > MAX_PIN_COUNT {
        return InvalidPin, level;
      }
      status, level := gpio.Toggle(PinId(port, pin));
    }

    /** gpio_controller_irq_cfg(): arms or disarms a line, and drops its binding either way. */
    method IrqCfg(payload: seq<byte>) returns (status: Status)
      requires Valid()
      modifies this, gpio
      ensures Valid() && (State(), status, 0) == IoExecute(old(State()), IRQ_CFG, payload)
      ensures status != Ok ==> unchanged(this, gpio)
    {
      if |payload| != 3 {
        return InvalidArg;
      }
      var edge, port, pin := payload[0], payload[1], payload[2];
      if port >= GPIO_NUM_OF_PORTS {
        return InvalidPin;
      }
      if pin > MAX_PIN_COUNT {
        return InvalidPin;
      }
      var p := PinId(port, pin);
      if edge == IRQ_EDGE_OFF {
        status := DisarmUnbound(p);
        return status;
      }
      var trigger := WireEdge(edge);
      if trigger.None? {
        return InvalidArg;
      }
      status := ArmUnbound(p, trigger.value);
    }

    /** The disarming half of gpio_controller_irq_cfg(). */
    method DisarmUnbound(p: PinId) returns (status: Status)
      requires Valid() && InRange(p)
      modifies this, gpio
      ensures Valid() && status == if IsValidPin(p) then Ok else Err
      ensures status != Ok ==> unchanged(this, gpio)
      ensures State() == if status == Ok then IoState(Disarmed(old(State()).pins, p), old(bindings)[p.num := UNBOUND])
                         else old(State())
    {
      var driver := gpio.DeinitInterrupt(p);
      if driver != Ok {
        return Err;
      }
      bindings := bindings[p.num := UNBOUND];
      return Ok;
    }

    /** The arming half: the line's own dispatch entry is installed. */
    method ArmUnbound(p: PinId, trigger: Trigger) returns (status: Status)
      requires Valid() && InRange(p)
      modifies this, gpio
      ensures Valid() && status == if ArmStatus(old(State()).pins, p) == Ok then Ok else Err
      ensures status != Ok ==> unchanged(this, gpio)
      ensures State() == if status == Ok
                         then IoState(Armed(old(State()).pins, p, trigger, Some(p.num)), old(bindings)[p.num := UNBOUND])
                         else old(State())
    {
      var driver := gpio.InitInterrupt(p, trigger, Some(p.num));
      if driver != Ok {
        return Err;
      }
      bindings := bindings[p.num := UNBOUND];
      return Ok;
    }

    /** gpio_controller_irq_bind(): only the exact armed edge, and never over a binding. */
    method IrqBind(payload: seq<byte>) returns (status: Status)
      requires Valid()
      modifies this
      ensures Valid() && (State(), status, 0) == IoExecute(old(State()), IRQ_BIND, payload)
      ensures status != Ok ==> unchanged(this)
    {
      if |payload| != 6 {
        return InvalidArg;
      }
      var input, output := PinId(payload[1], payload[2]), PinId(payload[4], payload[5]);
      status := TestBind(payload[0], input, payload[3], output);
      if status == Ok {
        bindings := bindings[input.num := Binding(input, output, WireAction(payload[3]).value, true)];
      }
    }

    /** The tests of gpio_controller_irq_bind(), in its order. */
    method TestBind(edge: byte, input: PinId, action: byte, output: PinId) returns (status: Status)
      requires Valid()
      ensures status == BindStatus(State(), edge, input, action, output)
    {
      if input.port >= GPIO_NUM_OF_PORTS || input.num > MAX_PIN_COUNT || output.port >= GPIO_NUM_OF_PORTS
         || output.num > MAX_PIN_COUNT {
        return InvalidPin;
      }
      var requested := WireEdge(edge);
      if requested.None? {
        return InvalidArg;
      }
      if WireAction(action).None? {
        return InvalidArg;
      }
      var inMode := gpio.ReadMode(input);
      var outMode := gpio.ReadMode(output);
      if inMode != MODE_INPUT || outMode != MODE_OUTPUT {
        return InvalidState;
      }
      var armed := gpio.GetInterruptTrigger(input);
      if armed.Failure? {
        return InvalidState;
      }
      if armed.value != requested.value {
        return InvalidState;
      }
      if bindings[input.num].active {
        return Busy;
      }
      return Ok;
    }

    /** gpio_controller_irq_unbind(): the line stays armed. */
    method IrqUnbind(payload: seq<byte>) returns (status: Status)
      requires Valid()
      modifies this
      ensures Valid() && (State(), status, 0) == IoExecute(old(State()), IRQ_UNBIND, payload)
      ensures status != Ok ==> unchanged(this)
    {
      if |payload| != 2 {
        return InvalidArg;
      }
      var port, pin := payload[0], payload[1];
      if port >= GPIO_NUM_OF_PORTS {
        return InvalidPin;
      }
      if pin > MAX_PIN_COUNT {
        return InvalidPin;
      }
      if !bindings[pin].active || bindings[pin].input.port != port {
        return InvalidState;
      }
      bindings := bindings[pin := UNBOUND];
      return Ok;
    }

    /** irq_action_dispatch(). */
    method Dispatch(line: nat)
      requires Valid() && line < MAX_GPIO_INTERRUPTS
      modifies gpio
      ensures Valid() && State() == Dispatched(old(State()), line)
    {
      if !bindings[line].active {
        return;
      }
      match bindings[line].action
      case LOW =>
        var _ := gpio.SetState(bindings[line].output, false);
      case HIGH =>
        var _ := gpio.SetState(bindings[line].output, true);
      case TOGGLE =>
        var _, _ := gpio.Toggle(bindings[line].output);
    }

    /** EXTI0_IRQHandler() to EXTI15_10_IRQHandler(), for a vector the processor takes. */
    method Interrupt(v: nat)
      requires Valid() && v < VECTORS && gpio.nvic[v]
      modifies gpio
      ensures Valid() && State() == VectorServed(old(State()), v)
    {
      if v <= 4 {
        assert ServedLines(State(), v, v) == State();
        ServeLine(v);
        return;
      }
      var n := if v == 5 then 5 else 10;
      var last := if v == 5 then 9 else 15;
      while n <= last
        invariant FirstLine(v) <= n <= last + 1 == LastLine(v) + 1
        invariant Valid() && State() == ServedLines(old(State()), FirstLine(v), n)
      {
        ServeLine(n);
        n := n + 1;
      }
    }

    /** One line: its pending bit, its installed handler. */
    method ServeLine(n: nat)
      requires Valid() && n < MAX_GPIO_INTERRUPTS
      modifies gpio
      ensures Valid() && State() == Served(old(State()), n)
    {
      BitTest(gpio.pr, n);
      if And(gpio.pr, Shl(1, n)) == 0 {
        return;
      }
      gpio.ClearPending(n);
      if gpio.callbacks[n].None? {
        return;
      }
      if gpio.callbacks[n].value < MAX_GPIO_INTERRUPTS {
        Dispatch(gpio.callbacks[n].value);
      }
    }

    /** The handler the command table holds for a GPIO command; a level is widened to a number. */
    method Handle(kind: IoCommand, payload: seq<byte>) returns (status: Status, value: nat)
      requires Valid()
      modifies this, gpio
      ensures Valid() && (State(), status, value) == IoExecute(old(State()), kind, payload)
      ensures status != Ok ==> unchanged(this, gpio)
    {
      value := 0;
      match kind
      case IO_CFG => status := IoCfg(payload);
      case IO_WRITE => status := Write(payload);
      case IO_READ =>
        var level;
        status, level := Read(payload);
        if status == Ok { value := LevelCode(level); }
      case IO_TOGGLE =>
        var level;
        status, level := Toggle(payload);
        if status == Ok { value := LevelCode(level); }
      case IRQ_CFG => status := IrqCfg(payload);
      case IRQ_BIND => status := IrqBind(payload);
      case IRQ_UNBIND => status := IrqUnbind(payload);
    }
  }
}

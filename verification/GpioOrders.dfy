/** Every GPIO order the host can send does on the firmware what the reference device says. */
module GpioOrders {
  import opened Words
  import opened Status
  import opened Gpio
  import opened TimerDriver
  import opened PwmController
  import opened PwmView
  import opened GpioController
  import opened CommandDispatcher
  import opened DeviceRelation
  import C = HostClient
  import R = ReferenceDevice

  /** The firmware obeys an order as the reference device does; only a reset is left to the loop. */
  ghost predicate ServedAlike(start: R.Device, m: Machine, d: R.Device, o: C.Order) {
    var (t, status, value) := Execute(170_000_000, m, C.Opcode(o), C.Payload(o));
    var (e, a) := R.Serve(start, d, o);
    Gives(C.Opcode(o), status, value, a) && if o.Reset? then t.resetRequested else StandsFor(t, e)
  }

  /** What the reference device knows of pins and lines. */
  ghost predicate IoStands(s: IoState, groups: Groups, d: R.Device) {
    && PinsStand(s.pins, groups, d.pins)
    && LinesStand(s.pins.lines, s.bindings, d.lines)
    && VectorsStand(s.pins.lines.vectors, d.live)
    && s.pins.inputs == d.samples
  }

  /** A GPIO command on pins and bindings alone gives the answer and the device `r`. */
  ghost predicate IoGives(s: IoState, groups: Groups, d: R.Device, k: IoCommand, payload: seq<byte>, width: nat,
                          r: (R.Device, R.Answer))
  {
    var (t, status, value) := IoExecute(s, k, payload);
    && IoStands(t, groups, r.0) && r.0.groups == d.groups
    && Matches(status, value, width, r.1)
  }

  lemma Lift(start: R.Device, m: Machine, d: R.Device, k: IoCommand, o: C.Order)
    requires CommandOf(C.Opcode(o)) == Some(GPIO(k)) && !o.Reset? && StandsFor(m, d)
    requires IoGives(m.Io(), m.pwm.groups, d, k, C.Payload(o), WidthOf(GPIO(k)), R.Serve(start, d, o))
    ensures ServedAlike(start, m, d, o)
  {
  }

  lemma ConfigureGives(s: IoState, groups: Groups, d: R.Device, dir: C.Dir, p: PinId, payload: seq<byte>)
    requires IoStands(s, groups, d) && payload == [dir.Code(), p.port, p.num]
    ensures IoGives(s, groups, d, IO_CFG, payload, 0, R.Configure(d, dir, p))
  {
    SamePins(p);
    if R.Usable(p) { CfgOrder(s, groups, d, dir, p); }
  }

  /** A level driven leaves the lines and samples alone. */
  lemma DriveStands(s: IoState, groups: Groups, d: R.Device, p: PinId, high: bool)
    requires IoStands(s, groups, d) && InRange(p)
    ensures R.Exists(p) && IoStands(s.(pins := Driven(s.pins, p, high)), groups, R.Drive(d, p, high))
  {
    DriveOrder(s, groups, d, p, high);
  }

  /** The driver's refusals on an output are the reference device's. */
  lemma OutputRefusal(s: IoState, groups: Groups, d: R.Device, p: PinId)
    requires PinsStand(s.pins, groups, d.pins)
    ensures match R.RoleRefusal(d, p, R.AsOutput)
            case None => DriveStatus(s.pins, p) == Ok && InRange(p)
            case Some(reason) => DriveStatus(s.pins, p) != Ok && DriveStatus(s.pins, p).Code() == reason
  {
    SamePins(p);
    if R.Usable(p) { RoleIsMode(s.pins, groups, d, p); }
  }

  lemma SetGives(s: IoState, groups: Groups, d: R.Device, level: C.Level, p: PinId, payload: seq<byte>)
    requires IoStands(s, groups, d) && payload == [level.Code(), p.port, p.num]
    ensures IoGives(s, groups, d, IO_WRITE, payload, 0, R.Set(d, level == C.HIGH, p))
  {
    OutputRefusal(s, groups, d, p);
    if R.RoleRefusal(d, p, R.AsOutput).None? { DriveStands(s, groups, d, p, level == C.HIGH); }
  }

  lemma ToggleGives(s: IoState, groups: Groups, d: R.Device, p: PinId, payload: seq<byte>)
    requires IoStands(s, groups, d) && payload == [p.port, p.num]
    ensures IoGives(s, groups, d, IO_TOGGLE, payload, 1, R.Toggle(d, p))
  {
    OutputRefusal(s, groups, d, p);
    if R.RoleRefusal(d, p, R.AsOutput).None? {
      RoleIsMode(s.pins, groups, d, p);
      DriveStands(s, groups, d, p, !s.pins.levels[At(p)]);
    }
  }

  lemma GetGives(s: IoState, groups: Groups, d: R.Device, p: PinId, payload: seq<byte>)
    requires IoStands(s, groups, d) && payload == [p.port, p.num]
    ensures IoGives(s, groups, d, IO_READ, payload, 1, R.Get(d, p))
  {
    SamePins(p);
    if R.Usable(p) { RoleIsMode(s.pins, groups, d, p); }
  }

  // ----- interrupt lines

  lemma SameVector(v: R.Vector, n: nat)
    requires n < 16
    ensures Number(v) == VectorOf(n) <==> R.VectorServing(n) == v
  {
  }

  predicate SameLine(s: IoState, t: IoState, k: nat)
    requires k < 16
  {
    var a, b := s.pins.lines, t.pins.lines;
    && a.pending[k] == b.pending[k] && a.unmasked[k] == b.unmasked[k] && a.owner[k] == b.owner[k]
    && a.callbacks[k] == b.callbacks[k] && a.rising[k] == b.rising[k] && a.falling[k] == b.falling[k]
    && s.bindings[k] == t.bindings[k]
  }

  /** One line and its vector change. */
  lemma OneLineChanges(s: IoState, t: IoState, d: R.Device, n: nat, x: R.Line, on: bool)
    requires n < 16 && LinesStand(s.pins.lines, s.bindings, d.lines) && VectorsStand(s.pins.lines.vectors, d.live)
    requires LineStands(t.pins.lines, t.bindings, n, x)
    requires forall k: nat :: k < 16 && k != n ==> SameLine(s, t, k)
    requires t.pins.lines.vectors == s.pins.lines.vectors[VectorOf(n) := on]
    ensures LinesStand(t.pins.lines, t.bindings, d.lines[n := x])
    ensures VectorsStand(t.pins.lines.vectors,
      if on then d.live + {R.VectorServing(n)} else d.live - {R.VectorServing(n)})
  {
    var ys := d.lines[n := x];
    forall k: nat | k < 16 ensures LineStands(t.pins.lines, t.bindings, k, ys[k]) {
      assert k != n ==> SameLine(s, t, k);
      assert LineStands(s.pins.lines, s.bindings, k, d.lines[k]);
    }
    forall v: R.Vector ensures Number(v) == VectorOf(n) <==> R.VectorServing(n) == v { SameVector(v, n); }
  }

  lemma OneBindingChanges(s: IoState, t: IoState, d: R.Device, n: nat, x: R.Line)
    requires n < 16 && LinesStand(s.pins.lines, s.bindings, d.lines)
    requires t.pins == s.pins && LineStands(t.pins.lines, t.bindings, n, x)
    requires forall k: nat :: k < 16 && k != n ==> SameLine(s, t, k)
    ensures LinesStand(t.pins.lines, t.bindings, d.lines[n := x])
  {
    var ys := d.lines[n := x];
    forall k: nat | k < 16 ensures LineStands(t.pins.lines, t.bindings, k, ys[k]) {
      assert k != n ==> SameLine(s, t, k);
      assert LineStands(s.pins.lines, s.bindings, k, d.lines[k]);
    }
  }

  function TriggerOf(edge: C.Edge): Trigger
    requires edge != C.OFF
  {
    match edge case RISING => RISING case FALLING => FALLING case BOTH => BOTH
  }

  lemma ArmAnswer(s: IoState, d: R.Device, edge: C.Edge, p: PinId)
    requires LinesStand(s.pins.lines, s.bindings, d.lines)
    ensures var status, a := EdgeStatus(s, edge.Code(), p), R.Arm(d, edge, p).1;
      if a.Refused? then status != Ok && status.Code() == a.reason else status == Ok && a == R.Done
    ensures R.Arm(d, edge, p).1 == R.Done ==> IsValidPin(p)
  {
    SamePins(p);
    if R.Exists(p) { assert LineStands(s.pins.lines, s.bindings, p.num, d.lines[p.num]); }
  }

  lemma ArmEffect(s: IoState, groups: Groups, d: R.Device, edge: C.Edge, p: PinId)
    requires IoStands(s, groups, d) && R.Arm(d, edge, p).1 == R.Done && IsValidPin(p)
    ensures WireEdge(edge.Code()).Some? <==> edge != C.OFF
    ensures var pins := if edge == C.OFF then Disarmed(s.pins, p) else Armed(s.pins, p, WireEdge(edge.Code()).value, Some(p.num));
      IoStands(IoState(pins, s.bindings[p.num := UNBOUND]), groups, R.Arm(d, edge, p).0)
  {
    var pins := if edge == C.OFF then Disarmed(s.pins, p) else Armed(s.pins, p, WireEdge(edge.Code()).value, Some(p.num));
    var t := IoState(pins, s.bindings[p.num := UNBOUND]);
    var x := d.lines[p.num].(armed := if edge == C.OFF then None else Some(R.Armed(p.port, edge)), bound := None);
    SamePins(p);
    assert LineStands(s.pins.lines, s.bindings, p.num, d.lines[p.num]);
    OneLineChanges(s, t, d, p.num, x, edge != C.OFF);
    PinsKept(s.pins, t.pins, groups, d.pins);
  }

  /** Pins stand as they are whatever happens to the lines. */
  lemma PinsKept(g: GpioState, h: GpioState, groups: Groups, xs: seq<R.Pin>)
    requires |xs| == PINS && PinsStand(g, groups, xs) && h == g.(lines := h.lines)
    ensures PinsStand(h, groups, xs)
  {
    forall p: PinId | InRange(p) ensures PinStands(h, groups, p, xs[At(p)]) {
      assert PinStands(g, groups, p, xs[At(p)]);
    }
  }

  lemma IrqCfgExecutes(s: IoState, edge: C.Edge, p: PinId, payload: seq<byte>)
    requires payload == [edge.Code(), p.port, p.num] && InRange(p)
    ensures EdgeStatus(s, edge.Code(), p) != Ok ==> IoExecute(s, IRQ_CFG, payload) == (s, EdgeStatus(s, edge.Code(), p), 0)
    ensures edge != C.OFF ==> WireEdge(edge.Code()).Some?
    ensures EdgeStatus(s, edge.Code(), p) == Ok ==> (
      var pins := if edge == C.OFF then Disarmed(s.pins, p) else Armed(s.pins, p, WireEdge(edge.Code()).value, Some(p.num));
      IoExecute(s, IRQ_CFG, payload) == (IoState(pins, s.bindings[p.num := UNBOUND]), Ok, 0))
  {
  }

  lemma ArmGives(s: IoState, groups: Groups, d: R.Device, edge: C.Edge, p: PinId, payload: seq<byte>)
    requires IoStands(s, groups, d) && payload == [edge.Code(), p.port, p.num]
    ensures IoGives(s, groups, d, IRQ_CFG, payload, 0, R.Arm(d, edge, p))
  {
    ArmAnswer(s, d, edge, p);
    SamePins(p);
    if InRange(p) { IrqCfgExecutes(s, edge, p, payload); }
    if R.Arm(d, edge, p).1 == R.Done { ArmEffect(s, groups, d, edge, p); }
  }

  /** The line is armed as the bind says. */
  lemma ArmingTest(s: IoState, d: R.Device, edge: C.Edge, input: PinId)
    requires LinesStand(s.pins.lines, s.bindings, d.lines) && edge != C.OFF && IsValidPin(input)
    ensures WireEdge(edge.Code()).Some?
    ensures d.lines[input.num].armed == Some(R.Armed(input.port, edge)) <==>
      ArmedTrigger(s.pins, input) == Success(WireEdge(edge.Code()).value)
    ensures d.lines[input.num].bound.Some? <==> s.bindings[input.num].active
  {
    assert LineStands(s.pins.lines, s.bindings, input.num, d.lines[input.num]);
  }

  /** A pin in a role a host can give it is not the debug port's. */
  lemma RolesAreValid(pins: GpioState, groups: Groups, d: R.Device, p: PinId)
    requires PinsStand(pins, groups, d.pins) && InRange(p)
    ensures R.Exists(p) && (R.PinAt(d, p).role == R.AsInput || R.PinAt(d, p).role == R.AsOutput ==> IsValidPin(p))
  {
    SamePins(p);
    assert PinStands(pins, groups, p, d.pins[At(p)]);
  }

  lemma BindAnswer(s: IoState, groups: Groups, d: R.Device, edge: C.Edge, input: PinId, reaction: C.Reaction, output: PinId)
    requires PinsStand(s.pins, groups, d.pins) && LinesStand(s.pins.lines, s.bindings, d.lines)
    ensures var status, a := BindStatus(s, edge.Code(), input, reaction.Code(), output), R.Bind(d, edge, input, reaction, output).1;
      if a.Refused? then status != Ok && status.Code() == a.reason else status == Ok && a == R.Done
    ensures R.Bind(d, edge, input, reaction, output).1 == R.Done ==> InRange(input) && InRange(output)
  {
    SamePins(input);
    SamePins(output);
    if InRange(input) && InRange(output) {
      RoleIsMode(s.pins, groups, d, input);
      RoleIsMode(s.pins, groups, d, output);
      RolesAreValid(s.pins, groups, d, input);
      if edge != C.OFF && IsValidPin(input) { ArmingTest(s, d, edge, input); }
    }
  }

  lemma BindEffect(s: IoState, groups: Groups, d: R.Device, input: PinId, reaction: C.Reaction, output: PinId, b: Binding)
    requires IoStands(s, groups, d) && InRange(input) && R.Exists(output)
    requires d.lines[input.num].armed.Some? && d.lines[input.num].armed.value.port == input.port
    requires b == Binding(input, output, ActionOf(reaction), true)
    ensures LinesStand(s.pins.lines, s.bindings[input.num := b],
      d.lines[input.num := d.lines[input.num].(bound := Some(R.Bound(reaction, output)))])
  {
    var n := input.num;
    assert LineStands(s.pins.lines, s.bindings, n, d.lines[n]);
    OneBindingChanges(s, s.(bindings := s.bindings[n := b]), d, n, d.lines[n].(bound := Some(R.Bound(reaction, output))));
  }

  lemma IrqBindExecutes(s: IoState, edge: C.Edge, input: PinId, reaction: C.Reaction, output: PinId, payload: seq<byte>)
    requires payload == [edge.Code(), input.port, input.num, reaction.Code(), output.port, output.num]
    ensures var status := BindStatus(s, edge.Code(), input, reaction.Code(), output);
      IoExecute(s, IRQ_BIND, payload) ==
        if status != Ok then (s, status, 0)
        else (s.(bindings := s.bindings[input.num := Binding(input, output, ActionOf(reaction), true)]), Ok, 0)
  {
  }

  lemma BindGives(s: IoState, groups: Groups, d: R.Device, edge: C.Edge, input: PinId, reaction: C.Reaction, output: PinId,
                  payload: seq<byte>)
    requires IoStands(s, groups, d)
    requires payload == [edge.Code(), input.port, input.num, reaction.Code(), output.port, output.num]
    ensures IoGives(s, groups, d, IRQ_BIND, payload, 0, R.Bind(d, edge, input, reaction, output))
  {
    BindAnswer(s, groups, d, edge, input, reaction, output);
    IrqBindExecutes(s, edge, input, reaction, output, payload);
    if R.Bind(d, edge, input, reaction, output).1 == R.Done {
      SamePins(output);
      BindEffect(s, groups, d, input, reaction, output, Binding(input, output, ActionOf(reaction), true));
    }
  }

  lemma UnbindAnswer(s: IoState, d: R.Device, p: PinId, payload: seq<byte>)
    requires LinesStand(s.pins.lines, s.bindings, d.lines) && |payload| == 2 && p == PinId(payload[0], payload[1])
    ensures var status, a := IoStatus(s, IRQ_UNBIND, payload), R.Unbind(d, p).1;
      if a.Refused? then status != Ok && status.Code() == a.reason else status == Ok && a == R.Done
    ensures R.Unbind(d, p).1 == R.Done ==> p.num < 16
  {
    SamePins(p);
    if R.Exists(p) { assert LineStands(s.pins.lines, s.bindings, p.num, d.lines[p.num]); }
  }

  lemma UnbindEffect(s: IoState, d: R.Device, n: nat)
    requires LinesStand(s.pins.lines, s.bindings, d.lines) && n < 16
    ensures LinesStand(s.pins.lines, s.bindings[n := UNBOUND], d.lines[n := d.lines[n].(bound := None)])
  {
    assert LineStands(s.pins.lines, s.bindings, n, d.lines[n]);
    OneBindingChanges(s, s.(bindings := s.bindings[n := UNBOUND]), d, n, d.lines[n].(bound := None));
  }

  lemma UnbindGives(s: IoState, groups: Groups, d: R.Device, p: PinId, payload: seq<byte>)
    requires IoStands(s, groups, d) && payload == [p.port, p.num]
    ensures IoGives(s, groups, d, IRQ_UNBIND, payload, 0, R.Unbind(d, p))
  {
    UnbindAnswer(s, d, p, payload);
    if R.Unbind(d, p).1 == R.Done { UnbindEffect(s, d, p.num); }
  }

  // ----- all of them

  predicate IsGpio(o: C.Order) {
    o.GpioCfg? || o.GpioSet? || o.GpioGet? || o.GpioToggle? || o.IrqCfg? || o.IrqBind? || o.IrqUnbind?
  }

  lemma PinOrderServed(start: R.Device, m: Machine, d: R.Device, o: C.Order)
    requires StandsFor(m, d) && (o.GpioCfg? || o.GpioSet? || o.GpioGet? || o.GpioToggle?)
    ensures ServedAlike(start, m, d, o)
  {
    var s, groups, payload, p := m.Io(), m.pwm.groups, C.Payload(o), PinId(o.port, o.pin);
    match o
    case GpioCfg(dir, _, _) =>
      ConfigureGives(s, groups, d, dir, p, payload);
      Lift(start, m, d, IO_CFG, o);
    case GpioSet(level, _, _) =>
      SetGives(s, groups, d, level, p, payload);
      Lift(start, m, d, IO_WRITE, o);
    case GpioGet(_, _) =>
      GetGives(s, groups, d, p, payload);
      Lift(start, m, d, IO_READ, o);
    case GpioToggle(_, _) =>
      ToggleGives(s, groups, d, p, payload);
      Lift(start, m, d, IO_TOGGLE, o);
  }

  lemma LineOrderServed(start: R.Device, m: Machine, d: R.Device, o: C.Order)
    requires StandsFor(m, d) && (o.IrqCfg? || o.IrqUnbind?)
    ensures ServedAlike(start, m, d, o)
  {
    match o
    case IrqCfg(edge, port, pin) =>
      ArmGives(m.Io(), m.pwm.groups, d, edge, PinId(port, pin), C.Payload(o));
      Lift(start, m, d, IRQ_CFG, o);
    case IrqUnbind(port, pin) =>
      UnbindGives(m.Io(), m.pwm.groups, d, PinId(port, pin), C.Payload(o));
      Lift(start, m, d, IRQ_UNBIND, o);
  }

  lemma BindOrderServed(start: R.Device, m: Machine, d: R.Device, o: C.Order)
    requires StandsFor(m, d) && o.IrqBind?
    ensures ServedAlike(start, m, d, o)
  {
    BindGives(m.Io(), m.pwm.groups, d, o.edge, PinId(o.inPort, o.inPin), o.reaction, PinId(o.outPort, o.outPin), C.Payload(o));
    Lift(start, m, d, IRQ_BIND, o);
  }

  lemma GpioServedAlike(start: R.Device, m: Machine, d: R.Device, o: C.Order)
    requires StandsFor(m, d) && IsGpio(o)
    ensures ServedAlike(start, m, d, o)
  {
    if o.IrqBind? {
      BindOrderServed(start, m, d, o);
    } else if o.IrqCfg? || o.IrqUnbind? {
      LineOrderServed(start, m, d, o);
    } else {
      PinOrderServed(start, m, d, o);
    }
  }
}

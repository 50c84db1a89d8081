/** How the firmware's state stands for the reference device, and the GPIO orders step by step. */
module DeviceRelation {
  import opened Words
  import opened Status
  import opened Gpio
  import opened Timebase
  import opened TimerRegisters
  import opened Timer
  import opened TimerDriver
  import opened PwmController
  import opened PwmView
  import opened GpioController
  import opened CommandDispatcher
  import C = HostClient
  import R = ReferenceDevice

  // ----- the relation

  predicate RoleShown(role: R.Role, mode: nat) {
    match role
    case AsInput => mode == 0
    case AsOutput => mode == 1
    case AsAnalog => mode == 3
    case Alternate => mode == 2
    case Debug => mode == 2
  }

  predicate DutyShown(groups: Groups, p: PinId, duty: Option<R.Duty>) {
    match R.Wired(p)
    case None => duty.None?
    case Some(gc) =>
      var g := groups[gc.0];
      match duty
      case None => g.Off? || g.channels[gc.1].Free?
      case Some(x) => g.On? && g.channels[gc.1] == Claimed(x.permille, x.polarity == C.ACTIVE_LOW) && x.permille <= 1000
  }

  predicate PinStands(pins: GpioState, groups: Groups, p: PinId, x: R.Pin)
    requires InRange(p)
  {
    var i := At(p);
    && RoleShown(x.role, pins.mode[i]) && (x.role.Debug? <==> !R.Usable(p))
    && (R.Usable(p) ==> pins.levels[i] == x.high && pins.af[i] == x.number && pins.otype[i] == 0 && pins.pull[i] == 0 && pins.speed[i] == if x.fast then 2 else 0)
    && DutyShown(groups, p, x.duty)
  }

  ghost predicate PinsStand(pins: GpioState, groups: Groups, xs: seq<R.Pin>)
    requires |xs| == PINS
  {
    forall p: PinId | InRange(p) :: PinStands(pins, groups, p, xs[At(p)])
  }

  function ActionOf(r: C.Reaction): Action {
    match r case DRIVE_LOW => LOW case DRIVE_HIGH => HIGH case TOGGLE => TOGGLE
  }

  predicate LineStands(lines: Lines, bindings: Bindings, n: nat, x: R.Line)
    requires n < 16
  {
    && lines.pending[n] == x.pending
    && (match x.armed
        case None => !lines.unmasked[n] && lines.callbacks[n] == None && x.bound.None?
        case Some(a) =>
          && R.Usable(PinId(a.port, n)) && a.edge != C.OFF
          && lines.unmasked[n] && lines.owner[n] == a.port && lines.callbacks[n] == Some(n)
          && lines.rising[n] == (a.edge != C.FALLING) && lines.falling[n] == (a.edge != C.RISING))
    && (match x.bound
        case None => !bindings[n].active
        case Some(b) =>
          x.armed.Some? && R.Exists(b.output) &&
          bindings[n] == Binding(PinId(x.armed.value.port, n), b.output, ActionOf(b.reaction), true))
  }

  ghost predicate LinesStand(lines: Lines, bindings: Bindings, xs: seq<R.Line>)
    requires |xs| == 16
  {
    forall n: nat | n < 16 :: LineStands(lines, bindings, n, xs[n])
  }

  function Number(v: R.Vector): (n: nat)
    ensures n < VECTORS
  {
    match v
    case EXTI0 => 0
    case EXTI1 => 1
    case EXTI2 => 2
    case EXTI3 => 3
    case EXTI4 => 4
    case EXTI9_5 => 5
    case EXTI15_10 => 6
  }

  ghost predicate VectorsStand(vectors: seq<bool>, live: set<R.Vector>)
    requires |vectors| == VECTORS
  {
    forall v: R.Vector :: v in live <==> vectors[Number(v)]
  }

  predicate GroupStands(g: Group, hz: Option<nat>) {
    TunedTo(170_000_000, g, hz) && (hz.Some? ==> 1 <= hz.value <= 1_000_000)
  }

  ghost predicate GroupsStand(groups: Groups, xs: seq<Option<nat>>)
    requires |xs| == 3
  {
    forall i: nat | i < 3 :: GroupStands(groups[i], xs[i])
  }

  /** The machine is in a state that stands for the device. */
  ghost predicate StandsFor(m: Machine, d: R.Device) {
    && !m.resetRequested
    && PinsStand(m.pwm.pins, m.pwm.groups, d.pins)
    && LinesStand(m.pwm.pins.lines, m.bindings, d.lines)
    && VectorsStand(m.pwm.pins.lines.vectors, d.live)
    && GroupsStand(m.pwm.groups, d.groups)
    && m.pwm.pins.inputs == d.samples
  }

  /** An outcome and the width of its reply are the answer. */
  predicate Matches(status: Status, value: nat, width: nat, a: R.Answer) {
    match a
    case Refused(reason) => status != Ok && status.Code() == reason
    case Done => status == Ok && width == 0
    case Value(n, w) => status == Ok && value == n && w == width
    case Near(hz) => status == Ok && width == 4 && hz <= value && 170 * value < 171 * hz
  }

  predicate Gives(opcode: byte, status: Status, value: nat, a: R.Answer) {
    CommandOf(opcode).Some? && Matches(status, value, WidthOf(CommandOf(opcode).value), a)
  }

  lemma SamePins(p: PinId)
    ensures R.Exists(p) <==> InRange(p)
    ensures R.Usable(p) <==> IsValidPin(p)
  {
  }

  lemma SameWiring(p: PinId)
    ensures R.Wired(p) == ChannelOf(p)
    ensures R.Wired(p).Some? ==> PinOf(R.Wired(p).value.0, R.Wired(p).value.1) == p
    ensures forall i, c :: 0 <= i < 3 && 0 <= c < 4 && PinOf(i, c) == p ==> R.Wired(p) == Some((i, c))
  {
  }

  // ----- GPIO orders

  /** One pin's fields change and everything else about the pins stays. */
  lemma OnePinChanges(s: IoState, t: GpioState, groups: Groups, d: R.Device, p: PinId, x: R.Pin)
    requires InRange(p) && PinsStand(s.pins, groups, d.pins) && PinStands(t, groups, p, x)
    requires forall i: nat :: i < PINS && i != At(p) ==>
      t.mode[i] == s.pins.mode[i] && t.af[i] == s.pins.af[i] && t.levels[i] == s.pins.levels[i] &&
      t.otype[i] == s.pins.otype[i] && t.pull[i] == s.pins.pull[i] && t.speed[i] == s.pins.speed[i]
    ensures R.Exists(p) && PinsStand(t, groups, R.WithPin(d, p, x).pins)
  {
    forall q: PinId | InRange(q) ensures PinStands(t, groups, q, R.WithPin(d, p, x).pins[At(q)]) {
      AtIsInjective(p, q);
      assert PinStands(s.pins, groups, q, d.pins[At(q)]);
    }
  }

  lemma CfgOrder(s: IoState, groups: Groups, d: R.Device, dir: C.Dir, p: PinId)
    requires PinsStand(s.pins, groups, d.pins) && R.Usable(p)
    ensures IsValidPin(p)
    ensures PinsStand(Configured(s.pins, p, Config(dir.Code(), 0, 0, 0)), groups,
      R.WithPin(d, p, R.PinAt(d, p).(role := if dir == C.INPUT then R.AsInput else R.AsOutput, fast := false)).pins)
  {
    SamePins(p);
    assert PinStands(s.pins, groups, p, d.pins[At(p)]);
    OnePinChanges(s, Configured(s.pins, p, Config(dir.Code(), 0, 0, 0)), groups, d, p,
                  R.PinAt(d, p).(role := if dir == C.INPUT then R.AsInput else R.AsOutput, fast := false));
  }

  lemma DriveOrder(s: IoState, groups: Groups, d: R.Device, p: PinId, high: bool)
    requires PinsStand(s.pins, groups, d.pins) && InRange(p)
    ensures R.Exists(p) && PinsStand(Driven(s.pins, p, high), groups, R.Drive(d, p, high).pins)
  {
    SamePins(p);
    assert PinStands(s.pins, groups, p, d.pins[At(p)]);
    OnePinChanges(s, Driven(s.pins, p, high), groups, d, p, R.PinAt(d, p).(high := high));
  }

  /** The driver's test of a pin's mode is the reference device's test of its role. */
  lemma RoleIsMode(pins: GpioState, groups: Groups, d: R.Device, p: PinId)
    requires PinsStand(pins, groups, d.pins) && InRange(p)
    ensures R.Exists(p) && (R.PinAt(d, p).role == R.AsOutput <==> pins.IsMode(p, MODE_OUTPUT))
    ensures R.PinAt(d, p).role == R.AsInput <==> pins.IsMode(p, MODE_INPUT)
    ensures R.PinAt(d, p).role == R.AsAnalog <==> pins.IsMode(p, MODE_ANALOG)
    ensures R.Usable(p) ==> R.PinAt(d, p).high == pins.levels[At(p)]
  {
    SamePins(p);
    assert PinStands(pins, groups, p, d.pins[At(p)]);
  }
}

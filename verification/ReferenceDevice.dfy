/** The device as its host may think of it, in the terms of mcu-co_Protocol.md: pins with a role, lines
    armed and bound, groups with a frequency. No registers, opcodes, driver calls or status names.
    Where the document and the firmware part ways this follows the firmware. */
module ReferenceDevice {
  import opened Words
  import opened Status
  import opened Gpio
  import opened HostClient

  /** What a pin is used for. */
  datatype Role = AsInput | AsOutput | AsAnalog | Alternate | Debug

  datatype Duty = Duty(permille: nat, polarity: Polarity)

  /** A pin: its role, the alternate function it is connected to when in that role, the level it is
      driven to, how fast its edges are, and the duty of its channel if it is claimed. */
  datatype Pin = Pin(role: Role, number: nat, high: bool, fast: bool, duty: Option<Duty>)

  datatype Armed = Armed(port: nat, edge: Edge)

  datatype Bound = Bound(reaction: Reaction, output: PinId)

  datatype Line = Line(armed: Option<Armed>, bound: Option<Bound>, pending: bool)

  /** The processor's interrupt vectors for the sixteen lines. */
  datatype Vector = EXTI0 | EXTI1 | EXTI2 | EXTI3 | EXTI4 | EXTI9_5 | EXTI15_10

  predicate Serves(v: Vector, n: nat) {
    match v
    case EXTI0 => n == 0
    case EXTI1 => n == 1
    case EXTI2 => n == 2
    case EXTI3 => n == 3
    case EXTI4 => n == 4
    case EXTI9_5 => 5 <= n <= 9
    case EXTI15_10 => 10 <= n <= 15
  }

  datatype DeviceFields = DeviceFields(
    pins: seq<Pin>, lines: seq<Line>, live: set<Vector>, groups: seq<Option<nat>>, samples: seq<bool>)
  {
    predicate Fits() { |pins| == |samples| == PINS && |lines| == 16 && |groups| == 3 }
  }

  const NO_PIN: Pin := Pin(AsAnalog, 0, false, false, None)
  const NO_LINE: Line := Line(None, None, false)

  type Device = d: DeviceFields | d.Fits()
    witness DeviceFields(seq(PINS, _ => NO_PIN), seq(16, _ => NO_LINE), {}, [None, None, None], seq(PINS, _ => false))

  /** One of the 112 pins. */
  predicate Exists(p: PinId) { p.port <= 6 && p.num <= 15 }

  /** PA13 to PA15, PB3 and PB4 belong to the debug port. */
  predicate Usable(p: PinId) {
    Exists(p) && p !in {PinId(0, 13), PinId(0, 14), PinId(0, 15), PinId(1, 3), PinId(1, 4)}
  }

  function PinAt(d: Device, p: PinId): Pin
    requires Exists(p)
  {
    d.pins[At(p)]
  }

  function WithPin(d: Device, p: PinId, x: Pin): (e: Device)
    requires Exists(p)
  {
    d.(pins := d.pins[At(p) := x])
  }

  /** The group and channel a pin is wired to: the table of PWM groups. */
  function Wired(p: PinId): (gc: Option<(nat, nat)>)
    ensures gc.Some? ==> gc.value.0 < 3 && gc.value.1 < 4 && Usable(p)
  {
    if p == PinId(0, 5) then Some((0, 0)) else if p == PinId(0, 1) then Some((0, 1))
    else if p == PinId(1, 10) then Some((0, 2)) else if p == PinId(1, 11) then Some((0, 3))
    else if p == PinId(2, 6) then Some((1, 0)) else if p == PinId(2, 7) then Some((1, 1))
    else if p == PinId(2, 8) then Some((1, 2)) else if p == PinId(2, 9) then Some((1, 3))
    else if p == PinId(1, 6) then Some((2, 0)) else if p == PinId(1, 7) then Some((2, 1))
    else if p == PinId(1, 8) then Some((2, 2)) else if p == PinId(1, 9) then Some((2, 3))
    else None
  }

  /** Alternate function 1 connects a pin to TIM2, 2 to TIM3 and TIM4. */
  function TimerFunction(group: nat): nat { if group == 0 then 1 else 2 }

  // ----- replies

  /** Done, a number of `width` bytes, a frequency near the one asked for, or a refusal with its
      reason code. */
  datatype Answer = Done | Value(n: nat, width: nat) | Near(hz: nat) | Refused(reason: nat)

  const PLAIN: nat := 1
  const INVALID_ARG: nat := 2
  const INVALID_PIN: nat := 3
  const INVALID_STATE: nat := 4
  const NOT_INIT: nat := 5
  const BUSY: nat := 6
  const UNSUPPORTED: nat := 8

  /** "MCUO", first character lowest. */
  const MAGIC: nat := 0x4D + 0x100 * 0x43 + 0x1_0000 * 0x55 + 0x100_0000 * 0x4F

  function AsNumber(high: bool): nat { if high then 1 else 0 }

  // ----- what each order does

  function Released(x: Pin): Pin { x.(role := AsInput, number := 0, fast := false, duty := None) }

  /** Every pin of the group that was claimed is handed back. */
  function TornDown(d: Device, group: nat): (e: Device)
    requires group < 3
  {
    var gone := seq(PINS, i requires 0 <= i < PINS =>
      var x: Pin := d.pins[i];
      var w := Wired(PinId(i / 16, i % 16));
      if w.Some? && w.value.0 == group && x.duty.Some? then Released(x) else x);
    d.(pins := gone, groups := d.groups[group := None])
  }

  function VectorServing(n: nat): (v: Vector)
    requires n < 16
    ensures Serves(v, n)
  {
    if n == 0 then EXTI0 else if n == 1 then EXTI1 else if n == 2 then EXTI2 else if n == 3 then EXTI3
    else if n == 4 then EXTI4 else if n <= 9 then EXTI9_5 else EXTI15_10
  }

  function Arm(d: Device, edge: Edge, p: PinId): (r: (Device, Answer)) {
    if !Exists(p) then (d, Refused(INVALID_PIN))
    else if !Usable(p) then (d, Refused(PLAIN))
    else
      var n := p.num;
      var v := VectorServing(n);
      var line := d.lines[n];
      if edge == OFF then
        (d.(lines := d.lines[n := line.(armed := None, bound := None)], live := d.live - {v}), Done)
      else if line.armed.Some? && line.armed.value.port != p.port then (d, Refused(PLAIN))
      else (d.(lines := d.lines[n := line.(armed := Some(Armed(p.port, edge)), bound := None)], live := d.live + {v}), Done)
  }

  function Bind(d: Device, edge: Edge, input: PinId, reaction: Reaction, output: PinId): (r: (Device, Answer)) {
    if !Exists(input) || !Exists(output) then (d, Refused(INVALID_PIN))
    else if edge == OFF then (d, Refused(INVALID_ARG))
    else if PinAt(d, input).role != AsInput || PinAt(d, output).role != AsOutput then (d, Refused(INVALID_STATE))
    else
      var line := d.lines[input.num];
      if line.armed != Some(Armed(input.port, edge)) then (d, Refused(INVALID_STATE))
      else if line.bound.Some? then (d, Refused(BUSY))
      else (d.(lines := d.lines[input.num := line.(bound := Some(Bound(reaction, output)))]), Done)
  }

  function Unbind(d: Device, p: PinId): (r: (Device, Answer)) {
    if !Exists(p) then (d, Refused(INVALID_PIN))
    else
      var line := d.lines[p.num];
      if line.bound.None? || line.armed.None? || line.armed.value.port != p.port then (d, Refused(INVALID_STATE))
      else (d.(lines := d.lines[p.num := line.(bound := None)]), Done)
  }

  /** Why an order on a pin in a given role is refused, if it is. */
  function RoleRefusal(d: Device, p: PinId, role: Role): Option<nat> {
    if !Usable(p) then Some(INVALID_PIN) else if PinAt(d, p).role != role then Some(INVALID_STATE) else None
  }

  function Drive(d: Device, p: PinId, high: bool): (e: Device)
    requires Exists(p)
  {
    WithPin(d, p, PinAt(d, p).(high := high))
  }

  function SetUpGroup(d: Device, hz: nat, group: nat): (r: (Device, Answer)) {
    if group > 2 || !(1 <= hz <= 1_000_000) then (d, Refused(INVALID_ARG))
    else if d.groups[group].Some? then (d, Refused(BUSY))
    else (d.(groups := d.groups[group := Some(hz)]), Done)
  }

  function Claim(d: Device, polarity: Polarity, p: PinId): (r: (Device, Answer)) {
    if !Exists(p) then (d, Refused(INVALID_PIN))
    else if Wired(p).None? then (d, Refused(UNSUPPORTED))
    else
      var group := Wired(p).value.0;
      var x := PinAt(d, p);
      if d.groups[group].None? then (d, Refused(NOT_INIT))
      else if x.duty.Some? || x.role != AsAnalog then (d, Refused(BUSY))
      else (WithPin(d, p, Pin(Alternate, TimerFunction(group), x.high, true, Some(Duty(0, polarity)))), Done)
  }

  /** Why an order on a claimed pin is refused, if it is. */
  function ClaimRefusal(d: Device, p: PinId): Option<nat> {
    if !Exists(p) then Some(INVALID_PIN)
    else if Wired(p).None? then Some(UNSUPPORTED)
    else if PinAt(d, p).duty.None? then Some(NOT_INIT)
    else None
  }

  function SetDuty(d: Device, duty: nat, p: PinId): (r: (Device, Answer)) {
    if !Exists(p) then (d, Refused(INVALID_PIN))
    else if Wired(p).None? then (d, Refused(UNSUPPORTED))
    else if duty > 1000 then (d, Refused(INVALID_ARG))
    else
      var x := PinAt(d, p);
      if x.duty.None? then (d, Refused(NOT_INIT))
      else (WithPin(d, p, x.(duty := Some(Duty(duty, x.duty.value.polarity)))), Done)
  }

  /** A device that has just started, on inputs sampled as given. */
  function Fresh(samples: seq<bool>): (d: Device)
    requires |samples| == PINS
  {
    DeviceFields(seq(PINS, i requires 0 <= i < PINS => FreshPin(PinId(i / 16, i % 16))), seq(16, _ => NO_LINE), {},
                 [None, None, None], samples)
  }

  /** Analog but for the debug port's pins, the logger's PA9 and the link's PA2 and PA3. */
  function FreshPin(p: PinId): Pin {
    if !Usable(p) then Pin(Debug, 0, false, false, None)
    else if p in {PinId(0, 9), PinId(0, 2), PinId(0, 3)} then Pin(Alternate, 7, false, true, None)
    else NO_PIN
  }

  function Configure(d: Device, dir: Dir, p: PinId): (r: (Device, Answer)) {
    if !Usable(p) then (d, Refused(INVALID_PIN))
    else (WithPin(d, p, PinAt(d, p).(role := if dir == INPUT then AsInput else AsOutput, fast := false)), Done)
  }

  function Set(d: Device, high: bool, p: PinId): (r: (Device, Answer)) {
    match RoleRefusal(d, p, AsOutput)
    case Some(reason) => (d, Refused(reason))
    case None => (Drive(d, p, high), Done)
  }

  function Get(d: Device, p: PinId): (r: (Device, Answer)) {
    match RoleRefusal(d, p, AsInput)
    case Some(reason) => (d, Refused(reason))
    case None => (d, Value(AsNumber(d.samples[At(p)]), 1))
  }

  function Toggle(d: Device, p: PinId): (r: (Device, Answer)) {
    match RoleRefusal(d, p, AsOutput)
    case Some(reason) => (d, Refused(reason))
    case None => (Drive(d, p, !PinAt(d, p).high), Value(AsNumber(!PinAt(d, p).high), 1))
  }

  /** Why an order on a group that is set up is refused, if it is. */
  function GroupRefusal(d: Device, group: nat): Option<nat> {
    if group > 2 then Some(INVALID_ARG) else if d.groups[group].None? then Some(NOT_INIT) else None
  }

  function TearDown(d: Device, group: nat): (r: (Device, Answer)) {
    match GroupRefusal(d, group)
    case Some(reason) => (d, Refused(reason))
    case None => (TornDown(d, group), Done)
  }

  function ReadFrequency(d: Device, group: nat): (r: (Device, Answer)) {
    match GroupRefusal(d, group)
    case Some(reason) => (d, Refused(reason))
    case None => (d, Near(d.groups[group].value))
  }

  function Release(d: Device, p: PinId): (r: (Device, Answer)) {
    match ClaimRefusal(d, p)
    case Some(reason) => (d, Refused(reason))
    case None => (WithPin(d, p, Released(PinAt(d, p))), Done)
  }

  function ReadDuty(d: Device, p: PinId): (r: (Device, Answer)) {
    match ClaimRefusal(d, p)
    case Some(reason) => (d, Refused(reason))
    case None => (d, Value(PinAt(d, p).duty.value.permille, 2))
  }

  /** One order; a reset starts again from `start`. */
  function Serve(start: Device, d: Device, o: Order): (r: (Device, Answer)) {
    match o
    case Probe => (d, Value(MAGIC, 4))
    case Reset => (start, Done)
    case GpioCfg(dir, port, pin) => Configure(d, dir, PinId(port, pin))
    case GpioSet(level, port, pin) => Set(d, level == HIGH, PinId(port, pin))
    case GpioGet(port, pin) => Get(d, PinId(port, pin))
    case GpioToggle(port, pin) => Toggle(d, PinId(port, pin))
    case IrqCfg(edge, port, pin) => Arm(d, edge, PinId(port, pin))
    case IrqBind(edge, inPort, inPin, reaction, outPort, outPin) =>
      Bind(d, edge, PinId(inPort, inPin), reaction, PinId(outPort, outPin))
    case IrqUnbind(port, pin) => Unbind(d, PinId(port, pin))
    case GroupCfg(hz, group) => SetUpGroup(d, hz, group)
    case GroupRelease(group) => TearDown(d, group)
    case GroupGet(group) => ReadFrequency(d, group)
    case ChannelCfg(polarity, port, pin) => Claim(d, polarity, PinId(port, pin))
    case ChannelSet(duty, port, pin) => SetDuty(d, duty, PinId(port, pin))
    case ChannelRelease(port, pin) => Release(d, PinId(port, pin))
    case ChannelGet(port, pin) => ReadDuty(d, PinId(port, pin))
  }

  // ----- what happens without the host

  function SeeEdge(d: Device, n: nat): (e: Device)
    requires n < 16
  {
    d.(lines := d.lines[n := d.lines[n].(pending := true)])
  }

  function NothingPending(d: Device): (e: Device) {
    d.(lines := seq(16, n requires 0 <= n < 16 => var x: Line := d.lines[n]; x.(pending := false)))
  }

  function React(d: Device, b: Bound): (e: Device)
  {
    if !Usable(b.output) || PinAt(d, b.output).role != AsOutput then d
    else Drive(d, b.output, match b.reaction
                            case DRIVE_LOW => false
                            case DRIVE_HIGH => true
                            case TOGGLE => !PinAt(d, b.output).high)
  }

  /** The first line from `n` up that waits for the vector. */
  function FirstWaiting(d: Device, v: Vector, n: nat): (r: Option<nat>)
    ensures r.Some? ==> n <= r.value < 16 && Serves(v, r.value) && d.lines[r.value].pending
    ensures forall k: nat :: n <= k < (if r.Some? then r.value else 16) && Serves(v, k) ==> !d.lines[k].pending
    decreases 16 - n
  {
    if n >= 16 then None else if Serves(v, n) && d.lines[n].pending then Some(n) else FirstWaiting(d, v, n + 1)
  }

  /** The processor takes a vector. Only the first waiting line's reaction happens, and everything
      else that waited, on this vector or another, is forgotten. */
  function TakeVector(d: Device, v: Vector): (e: Device) {
    if v !in d.live then d
    else
      match FirstWaiting(d, v, 0)
      case None => d
      case Some(n) =>
        if d.lines[n].bound.Some? then React(NothingPending(d), d.lines[n].bound.value) else NothingPending(d)
  }

  function NewSamples(d: Device, samples: seq<bool>): (e: Device)
    requires |samples| == PINS
  {
    d.(samples := samples)
  }
}

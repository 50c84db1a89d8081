/** What main() sets up before its loop (src/main.c), as far as the command machine sees it:
    reset registers, the serial pins, and empty controllers. */
module Boot {
  import opened Words
  import opened Status
  import opened Gpio
  import opened TimerDriver
  import opened TimerRuns
  import opened PwmController
  import opened GpioController
  import opened CommandDispatcher
  import opened MachineRuns
  import opened MainLoop
  import opened DeviceRelation
  import C = HostClient
  import R = ReferenceDevice

  const SERIAL_PIN: Config := Config(MODE_AF, 0, 2, 0)
  const SERIAL_AF: nat := 7

  function SerialPin(g: GpioState, p: PinId): (h: GpioState)
    requires InRange(p)
  {
    WithAf(Configured(g, p, SERIAL_PIN), p, SERIAL_AF)
  }

  /** A serial port's two pins. */
  datatype UartPins = UartPins(tx: PinId, rx: PinId)

  const LOGGER_PORT: UartPins := UartPins(PinId(0, 9), PinId(0, 10))
  const COMMAND_PORT: UartPins := UartPins(PinId(0, 2), PinId(0, 3))

  function PortPins(g: GpioState, u: UartPins, receives: bool): (h: GpioState)
    requires InRange(u.tx) && InRange(u.rx)
  {
    if receives then SerialPin(SerialPin(g, u.tx), u.rx) else SerialPin(g, u.tx)
  }

  /** The logger only sends. */
  function SerialPins(g: GpioState): (h: GpioState)
  {
    PortPins(PortPins(g, LOGGER_PORT, false), COMMAND_PORT, true)
  }

  lemma ReadyForTheLoop(g: GpioState, m: Machine)
    requires AtReset(g) && m == Machine(PwmState(SerialPins(g), ALL_OFF), NO_BINDINGS, false)
    ensures Booted(m)
  {
    forall p: PinId | InRange(p) ensures m.pwm.pins.IsMode(p, BootMode(p)) {
      assert g.IsMode(p, ResetMode(p));
    }
    forall n | 0 <= n < MAX_GPIO_INTERRUPTS ensures IdleLine(m.pwm.pins, n) && m.bindings[n] == UNBOUND {
      assert IdleLine(g, n);
    }
  }

  lemma SerialPinFields(g: GpioState, q: PinId, p: PinId)
    requires InRange(q) && InRange(p)
    ensures var h, i := SerialPin(g, q), At(p);
      && h.levels == g.levels
      && (p != q ==> h.mode[i] == g.mode[i] && h.otype[i] == g.otype[i] && h.speed[i] == g.speed[i] &&
                     h.pull[i] == g.pull[i] && h.af[i] == g.af[i])
      && (p == q ==> h.mode[i] == 2 && h.otype[i] == 0 && h.speed[i] == 2 && h.pull[i] == 0 && h.af[i] == 7)
  {
  }

  /** One pin after the serial ports are up. */
  lemma FreshPinStands(g: GpioState, p: PinId)
    requires AtReset(g) && InRange(p)
    ensures PinStands(SerialPins(g), ALL_OFF, p, R.FreshPin(p))
  {
    SamePins(p);
    assert g.IsMode(p, ResetMode(p));
    if IsValidPin(p) { assert SettingsCleared(g, At(p)); }
    var a, b := SerialPin(g, PinId(0, 9)), SerialPin(SerialPin(g, PinId(0, 9)), PinId(0, 2));
    SerialPinFields(g, PinId(0, 9), p);
    SerialPinFields(a, PinId(0, 2), p);
    SerialPinFields(b, PinId(0, 3), p);
  }

  /** The machine as the loop finds it stands for the reference device as it starts. */
  lemma BootsFresh(g: GpioState, m: Machine)
    requires AtReset(g) && m == Machine(PwmState(SerialPins(g), ALL_OFF), NO_BINDINGS, false)
    ensures StandsFor(m, R.Fresh(m.pwm.pins.inputs))
  {
    var d := R.Fresh(m.pwm.pins.inputs);
    forall p: PinId | InRange(p) ensures PinStands(m.pwm.pins, m.pwm.groups, p, d.pins[At(p)]) {
      FreshPinStands(g, p);
      assert PinId(At(p) / 16, At(p) % 16) == p;
    }
    forall n: nat | n < 16 ensures LineStands(m.pwm.pins.lines, m.bindings, n, d.lines[n]) {
      assert IdleLine(g, n);
    }
  }

  /** uart_gpio_config() for one pin; it cannot fail on a serial pin. */
  method ClaimSerialPin(gpio: GpioDriver, p: PinId)
    requires gpio.Valid() && IsValidPin(p)
    modifies gpio
    ensures gpio.Valid() && gpio.State() == SerialPin(old(gpio.State()), p)
  {
    var _ := gpio.Init(p, SERIAL_PIN);
    var _ := gpio.SetAf(p, SERIAL_AF);
  }

  /** A port can be had only while both its pins are analog, one it does not use included. */
  predicate IsFree(g: GpioState, u: UartPins)
    requires InRange(u.tx) && InRange(u.rx)
  {
    g.IsMode(u.tx, MODE_ANALOG) && g.IsMode(u.rx, MODE_ANALOG)
  }

  /** is_gpio_pin_being_used() for one pin: input, output or alternate function. */
  method PinInUse(gpio: GpioDriver, p: PinId) returns (used: bool)
    requires gpio.Valid() && InRange(p)
    ensures used <==> !gpio.State().IsMode(p, MODE_ANALOG)
  {
    var mode := gpio.ReadMode(p);
    gpio.ModesAreTwoBits(p);
    used := mode == MODE_INPUT || mode == MODE_OUTPUT || mode == MODE_AF;
  }

  /** The pins' part of uart_init(): refused, with nothing touched, if either pin is in use. */
  method ClaimPort(gpio: GpioDriver, u: UartPins, receives: bool) returns (status: Status)
    requires gpio.Valid() && IsValidPin(u.tx) && IsValidPin(u.rx)
    modifies gpio
    ensures gpio.Valid() && status == if IsFree(old(gpio.State()), u) then Ok else Busy
    ensures status != Ok ==> unchanged(gpio)
    ensures status == Ok ==> gpio.State() == PortPins(old(gpio.State()), u, receives)
  {
    var rx := PinInUse(gpio, u.rx);
    if rx {
      return Busy;
    }
    var tx := PinInUse(gpio, u.tx);
    if tx {
      return Busy;
    }
    ClaimSerialPin(gpio, u.tx);
    if receives {
      ClaimSerialPin(gpio, u.rx);
    }
    return Ok;
  }

  lemma AnalogAtReset(g: GpioState, p: PinId)
    requires AtReset(g) && IsValidPin(p)
    ensures g.IsMode(p, MODE_ANALOG)
  {
    assert g.IsMode(p, ResetMode(p));
  }

  /** The logger's port comes up first, then the command link's; neither finds a pin in use. */
  method ClaimPorts(gpio: GpioDriver)
    requires gpio.Valid() && AtReset(gpio.State())
    modifies gpio
    ensures gpio.Valid() && gpio.State() == SerialPins(old(gpio.State()))
  {
    AnalogAtReset(gpio.State(), LOGGER_PORT.tx);
    AnalogAtReset(gpio.State(), LOGGER_PORT.rx);
    AnalogAtReset(gpio.State(), COMMAND_PORT.tx);
    AnalogAtReset(gpio.State(), COMMAND_PORT.rx);
    var logger := ClaimPort(gpio, LOGGER_PORT, false);
    var link := ClaimPort(gpio, COMMAND_PORT, true);
    assert logger == Ok && link == Ok;
  }

  /** From a hardware reset to the top of the main loop. */
  method PowerUp(clkHz: uint32) returns (d: Device)
    ensures fresh(d) && d.Valid() && d.dispatcher.pwm.driver.clkHz == clkHz
    ensures d.State().held == [] && Booted(d.State().machine)
    ensures StandsFor(d.State().machine, R.Fresh(d.State().machine.pwm.pins.inputs))
  {
    var gpio := new GpioDriver();
    ghost var reset := gpio.State();
    ClaimPorts(gpio);
    var timers := new TimerDriver(gpio, clkHz);
    var pwm := new PwmController(timers);
    var io := new GpioController(gpio);
    var dispatcher := new Dispatcher(pwm, io);
    d := new Device(dispatcher);
    ReadyForTheLoop(reset, d.State().machine);
    BootsFresh(reset, d.State().machine);
  }
}

/** The PWM timer driver as its callers see it (peripherals/timer.c): every call on any of the
    three timers, and what each does to the pins and the groups. */
module TimerDriver {
  import opened Words
  import opened Status
  import opened Gpio
  import opened Timebase
  import opened TimerRegisters
  import opened Timer

  type Groups = g: seq<Group> | |g| == INSTANCES && forall i :: 0 <= i < INSTANCES ==> WellFormed(g[i])
    witness [Off, Off, Off]

  datatype PwmState = PwmState(pins: GpioState, groups: Groups)

  /** A driver call, or anything else in the firmware changing the pins. */
  datatype Call =
    | Init(i: nat, f: uint32)
    | Start(i: nat)
    | Stop(i: nat)
    | Deinit(i: nat)
    | Retune(i: nat, f: uint32)
    | Claim(i: nat, c: nat, duty: uint16, polarity: nat)
    | Release(i: nat, c: nat)
    | SetDuty(i: nat, c: nat, duty: uint16)
    | OtherPinUse(pins: GpioState)

  /** What one driver call does. */
  function Step(clkHz: uint32, s: PwmState, op: Call): (r: (PwmState, Status))
  {
    match op
    case OtherPinUse(pins) => (s.(pins := pins), Ok)
    case _ =>
      if op.i >= INSTANCES then (s, InvalidArg)
      else
        var g := s.groups[op.i];
        var status := StepStatus(clkHz, s.pins, g, op);
        if status != Ok then (s, status)
        else (PwmState(PinsAfter(s.pins, g, op), s.groups[op.i := GroupAfter(clkHz, s.pins, g, op)]), Ok)
  }

  function StepStatus(clkHz: uint32, pins: GpioState, g: Group, op: Call): Status
    requires WellFormed(g) && !op.OtherPinUse? && op.i < INSTANCES
  {
    match op
    case Init(_, f) => InitStatus(clkHz, g, f)
    case Retune(_, f) => RetuneStatus(clkHz, g, f)
    case Claim(i, c, duty, polarity) => ClaimStatus(g, pins, i, c, duty, polarity)
    case Release(_, c) => ChannelStatus(g, c)
    case SetDuty(_, c, duty) => SetDutyStatus(g, c, duty)
    case _ => GroupStatus(g)
  }

  function GroupAfter(clkHz: uint32, pins: GpioState, g: Group, op: Call): (h: Group)
    requires WellFormed(g) && !op.OtherPinUse? && op.i < INSTANCES
    requires StepStatus(clkHz, pins, g, op) == Ok
    ensures WellFormed(h)
  {
    match op
    case Init(_, f) => SetUp(clkHz, f)
    case Start(_) => g.(running := true)
    case Stop(_) => g.(running := false)
    case Deinit(_) => Off
    case Retune(_, f) => Tuned(clkHz, f, g.running, g.channels)
    case Claim(_, c, duty, polarity) => WithChannel(g, c, Claimed(duty, polarity == 1))
    case Release(_, c) => WithChannel(g, c, Free)
    case SetDuty(_, c, duty) => WithChannel(g, c, g.channels[c].(duty := duty))
  }

  function PinsAfter(pins: GpioState, g: Group, op: Call): (h: GpioState)
    requires WellFormed(g) && !op.OtherPinUse? && op.i < INSTANCES
  {
    match op
    case Deinit(i) => if g.On? then PinsReleased(pins, i, g.channels, CHANNELS) else pins
    case Claim(i, c, _, _) => if c < CHANNELS then PinClaimed(pins, i, c) else pins
    case Release(i, c) => if c < CHANNELS then Reset(pins, PinOf(i, c)) else pins
    case _ => pins
  }

  /** A call judged on its own group amounts to a step of the whole driver. */
  lemma StepEffect(clkHz: uint32, s: PwmState, call: Call, status: Status, t: PwmState)
    requires !call.OtherPinUse? && call.i < INSTANCES
    requires status == StepStatus(clkHz, s.pins, s.groups[call.i], call)
    requires forall k :: 0 <= k < INSTANCES && k != call.i ==> t.groups[k] == s.groups[k]
    requires status != Ok ==> t.pins == s.pins && t.groups[call.i] == s.groups[call.i]
    requires status == Ok ==> t.pins == PinsAfter(s.pins, s.groups[call.i], call)
    requires status == Ok ==> t.groups[call.i] == GroupAfter(clkHz, s.pins, s.groups[call.i], call)
    ensures (t, status) == Step(clkHz, s, call)
  {
    if status != Ok {
      assert t.groups == s.groups;
    } else {
      assert t.groups == s.groups[call.i := t.groups[call.i]];
    }
  }

  // ----- the driver

  /** One call on one timer. */
  method Perform(t: TimerInstance, gpio: GpioDriver, clkHz: uint32, call: Call) returns (status: Status)
    requires t.Valid() && gpio.Valid() && !call.OtherPinUse? && call.i == t.index
    modifies t, gpio
    ensures t.Valid() && gpio.Valid()
    ensures status == StepStatus(clkHz, old(gpio.State()), old(t.group), call)
    ensures status == Ok ==> t.group == GroupAfter(clkHz, old(gpio.State()), old(t.group), call)
    ensures status == Ok ==> gpio.State() == PinsAfter(old(gpio.State()), old(t.group), call)
    ensures status != Ok ==> unchanged(t) && unchanged(gpio)
  {
    match call
    case Init(_, f) => status := t.Init(clkHz, f);
    case Start(_) => status := t.SetRunning(true);
    case Stop(_) => status := t.SetRunning(false);
    case Deinit(_) => status := t.Deinit(gpio);
    case Retune(_, f) => status := t.SetFrequency(clkHz, f);
    case Claim(_, c, duty, polarity) => status := t.ChannelInit(gpio, c, duty, polarity);
    case Release(_, c) => status := t.ChannelDeinit(gpio, c);
    case SetDuty(_, c, duty) => status := t.SetDuty(c, duty);
  }

  class TimerDriver {
    const gpio: GpioDriver
    const tim2: TimerInstance
    const tim3: TimerInstance
    const tim4: TimerInstance
    /** rcc_get_timer_clk_hz(): 0 until the clock tree is up, then 170 MHz. */
    const clkHz: uint32

    /** The instance table. */
    function Timer(i: nat): TimerInstance
      requires i < INSTANCES
    {
      if i == 0 then tim2 else if i == 1 then tim3 else tim4
    }

    ghost predicate Distinct() {
      && tim2 != tim3 && tim2 != tim4 && tim3 != tim4
    }

    ghost predicate Valid()
      reads gpio, tim2, tim3, tim4
    {
      && gpio.Valid() && Distinct()
      && tim2.Valid() && tim3.Valid() && tim4.Valid()
      && tim2.index == 0 && tim3.index == 1 && tim4.index == 2
    }

    ghost function State(): (s: PwmState)
      requires Valid()
      reads gpio, tim2, tim3, tim4
    {
      PwmState(gpio.State(), [tim2.group, tim3.group, tim4.group])
    }

    constructor (g: GpioDriver, clock: uint32)
      requires g.Valid()
      ensures Valid() && gpio == g && clkHz == clock
      ensures fresh(tim2) && fresh(tim3) && fresh(tim4)
      ensures State() == PwmState(g.State(), [Off, Off, Off])
    {
      gpio := g;
      clkHz := clock;
      tim2 := new TimerInstance(0, 0xFFFF_FFFF);
      tim3 := new TimerInstance(1, 0xFFFF);
      tim4 := new TimerInstance(2, 0xFFFF);
    }

    method DoTim2(call: Call) returns (status: Status)
      requires Valid() && !call.OtherPinUse? && call.i == 0
      modifies gpio, tim2
      ensures Valid() && (State(), status) == Step(clkHz, old(State()), call)
      ensures status != Ok ==> unchanged(gpio, tim2)
    {
      ghost var s := State();
      status := Perform(tim2, gpio, clkHz, call);
      StepEffect(clkHz, s, call, status, State());
    }

    method DoTim3(call: Call) returns (status: Status)
      requires Valid() && !call.OtherPinUse? && call.i == 1
      modifies gpio, tim3
      ensures Valid() && (State(), status) == Step(clkHz, old(State()), call)
      ensures status != Ok ==> unchanged(gpio, tim3)
    {
      ghost var s := State();
      status := Perform(tim3, gpio, clkHz, call);
      StepEffect(clkHz, s, call, status, State());
    }

    method DoTim4(call: Call) returns (status: Status)
      requires Valid() && !call.OtherPinUse? && call.i == 2
      modifies gpio, tim4
      ensures Valid() && (State(), status) == Step(clkHz, old(State()), call)
      ensures status != Ok ==> unchanged(gpio, tim4)
    {
      ghost var s := State();
      status := Perform(tim4, gpio, clkHz, call);
      StepEffect(clkHz, s, call, status, State());
    }

    /** Any of the driver's calls: the range check on the instance, then the table look-up. */
    method Do(call: Call) returns (status: Status)
      requires Valid() && !call.OtherPinUse?
      modifies gpio, tim2, tim3, tim4
      ensures Valid() && (State(), status) == Step(clkHz, old(State()), call)
      ensures status != Ok ==> unchanged(gpio, tim2, tim3, tim4)
    {
      if call.i >= INSTANCES {
        return InvalidArg;
      }
      if call.i == 0 {
        status := DoTim2(call);
      } else if call.i == 1 {
        status := DoTim3(call);
      } else {
        status := DoTim4(call);
      }
    }

    /** timer_get_frequency(). */
    method GetFrequency(i: nat) returns (status: Status, frequencyHz: nat)
      requires Valid()
      ensures i >= INSTANCES ==> status == InvalidArg
      ensures i < INSTANCES ==> status == if Timer(i).group.Off? || clkHz == 0 then NotInit else Ok
      ensures status == Ok ==> frequencyHz == ReadBack(clkHz, Timer(i).group.psc, Timer(i).group.arr)
    {
      frequencyHz := 0;
      if i >= INSTANCES {
        return InvalidArg, frequencyHz;
      }
      status, frequencyHz := Timer(i).GetFrequency(clkHz);
    }

    /** timer_pwm_get_duty(). */
    method GetDuty(i: nat, c: nat) returns (status: Status, duty: uint16)
      requires Valid()
      ensures i >= INSTANCES ==> status == InvalidArg
      ensures i < INSTANCES ==> status == ChannelStatus(Timer(i).group, c)
      ensures status == Ok ==> duty == Timer(i).group.channels[c].duty
    {
      duty := 0;
      if i >= INSTANCES {
        return InvalidArg, duty;
      }
      status, duty := Timer(i).GetDuty(c);
    }
  }
}

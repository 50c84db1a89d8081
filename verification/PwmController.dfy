/** The PWM command handlers (src/pwm_controller.c) over the timer driver. */
module PwmController {
  import opened Words
  import opened Status
  import opened Gpio
  import opened Timebase
  import opened TimerRegisters
  import opened Timer
  import opened TimerDriver

  // ----- decoding

  function ByteAt(b: seq<byte>, i: nat): nat
    requires i < |b|
  {
    b[i]
  }

  function Le16(b: seq<byte>): (n: uint16)
    requires |b| == 2
  {
    ByteAt(b, 0) + 0x100 * ByteAt(b, 1)
  }

  function Le32(b: seq<byte>): (n: uint32)
    requires |b| == 4
  {
    ByteAt(b, 0) + 0x100 * ByteAt(b, 1) + 0x1_0000 * ByteAt(b, 2) + 0x100_0000 * ByteAt(b, 3)
  }

  /** read_uint16_le(). */
  method ReadUint16Le(b: seq<byte>) returns (number: uint16)
    requires |b| == 2
    ensures number == Le16(b)
  {
    BytePowers();
    OrShiftIsSum(b[0], b[1], 8);
    var n := Or(b[0], Shl(b[1], 8));
    return n;
  }

  /** read_uint32_le(). */
  method ReadUint32Le(b: seq<byte>) returns (number: uint32)
    requires |b| == 4
    ensures number == Le32(b)
  {
    BytePowers();
    var n: nat := b[0];
    OrShiftIsSum(n, b[1], 8);
    n := Or(n, Shl(b[1], 8));
    OrShiftIsSum(n, b[2], 16);
    n := Or(n, Shl(b[2], 16));
    OrShiftIsSum(n, b[3], 24);
    n := Or(n, Shl(b[3], 24));
    return n;
  }

  lemma BytePowers()
    ensures Pow2(8) == 0x100 && Pow2(16) == 0x1_0000 && Pow2(24) == 0x100_0000
  {
    assert Pow2(4) == 0x10;
    assert Pow2(8) == 0x100 by { assert Pow2(6) == 0x40; }
    assert Pow2(12) == 0x1000 by { assert Pow2(10) == 0x400; }
    assert Pow2(16) == 0x1_0000 by { assert Pow2(14) == 0x4000; }
    assert Pow2(20) == 0x10_0000 by { assert Pow2(18) == 0x4_0000; }
    assert Pow2(24) == 0x100_0000 by { assert Pow2(22) == 0x40_0000; }
  }

  /** resolve_channel(): range first, then the pin map. */
  function Resolve(port: nat, pin: nat): Result<(nat, nat), Status> {
    if port >= GPIO_NUM_OF_PORTS || pin > MAX_PIN_COUNT then Failure(InvalidPin)
    else if ChannelOf(PinId(port, pin)).None? then Failure(Unsupported)
    else Success(ChannelOf(PinId(port, pin)).value)
  }

  datatype PwmCommand = GROUP_CFG | CHANNEL_CFG | CHANNEL_SET | CHANNEL_RELEASE | CHANNEL_GET | GROUP_GET | GROUP_RELEASE

  function PayloadLength(k: PwmCommand): nat {
    match k
    case GROUP_CFG => 5
    case CHANNEL_CFG => 3
    case CHANNEL_SET => 4
    case CHANNEL_RELEASE => 2
    case CHANNEL_GET => 2
    case GROUP_GET => 1
    case GROUP_RELEASE => 1
  }

  /** The driver calls a well-formed command makes, in order; or why it makes none. */
  function CallsOf(k: PwmCommand, payload: seq<byte>): Result<seq<Call>, Status> {
    if |payload| != PayloadLength(k) then Failure(InvalidArg)
    else
      match k
      case GROUP_CFG =>
        if payload[4] >= INSTANCES then Failure(InvalidArg)
        else Success([Call.Init(payload[4], Le32(payload[..4])), Call.Start(payload[4])])
      case GROUP_RELEASE =>
        if payload[0] >= INSTANCES then Failure(InvalidArg) else Success([Call.Deinit(payload[0])])
      case CHANNEL_CFG =>
        if payload[0] > 1 then Failure(InvalidArg)
        else
          (match Resolve(payload[1], payload[2])
           case Failure(e) => Failure(e)
           case Success(ic) => Success([Call.Claim(ic.0, ic.1, 0, payload[0])]))
      case CHANNEL_SET =>
        (match Resolve(payload[2], payload[3])
         case Failure(e) => Failure(e)
         case Success(ic) => Success([Call.SetDuty(ic.0, ic.1, Le16(payload[..2]))]))
      case CHANNEL_RELEASE =>
        (match Resolve(payload[0], payload[1])
         case Failure(e) => Failure(e)
         case Success(ic) => Success([Call.Release(ic.0, ic.1)]))
      case CHANNEL_GET => Success([])
      case GROUP_GET => Success([])
  }

  /** Calls in order, stopping at the first refusal. */
  function PerformAll(clkHz: uint32, s: PwmState, ops: seq<Call>): (r: (PwmState, Status))
    decreases |ops|
  {
    if ops == [] then (s, Ok)
    else
      var (t, status) := Step(clkHz, s, ops[0]);
      if status != Ok then (t, status) else PerformAll(clkHz, t, ops[1..])
  }

  /** What a read command reports. */
  function ReadResult(clkHz: uint32, s: PwmState, k: PwmCommand, payload: seq<byte>): Result<nat, Status> {
    if |payload| != PayloadLength(k) then Failure(InvalidArg)
    else
      match k
      case CHANNEL_GET =>
        (match Resolve(payload[0], payload[1])
         case Failure(e) => Failure(e)
         case Success(ic) =>
           ChannelOfIsInverse(PinId(payload[0], payload[1]), 0, 0);
           if !IsClaimed(s.groups[ic.0], ic.1) then Failure(NotInit)
           else Success(s.groups[ic.0].channels[ic.1].duty))
      case GROUP_GET =>
        if payload[0] >= INSTANCES then Failure(InvalidArg)
        else
          var g := s.groups[payload[0]];
          if g.Off? || clkHz == 0 then Failure(NotInit) else Success(ReadBack(clkHz, g.psc, g.arr))
      case _ => Success(0)
  }

  /** A whole PWM command: new state, status, value read. */
  function PwmExecute(clkHz: uint32, s: PwmState, k: PwmCommand, payload: seq<byte>): (r: (PwmState, Status, nat))
  {
    if k == CHANNEL_GET || k == GROUP_GET then
      (match ReadResult(clkHz, s, k, payload)
       case Failure(e) => (s, e, 0)
       case Success(v) => (s, Ok, v))
    else
      (match CallsOf(k, payload)
       case Failure(e) => (s, e, 0)
       case Success(ops) =>
         var (t, status) := PerformAll(clkHz, s, ops);
         (t, status, 0))
  }

  lemma PerformOne(clkHz: uint32, s: PwmState, op: Call)
    ensures PerformAll(clkHz, s, [op]) == Step(clkHz, s, op)
  {
    assert [op][1..] == [];
  }

  /** A group that could be set up can be started. */
  lemma PerformSetup(clkHz: uint32, s: PwmState, i: nat, f: uint32)
    ensures var (t, status) := Step(clkHz, s, Call.Init(i, f));
      && (status != Ok ==> PerformAll(clkHz, s, [Call.Init(i, f), Call.Start(i)]) == (s, status) && t == s)
      && (status == Ok ==> PerformAll(clkHz, s, [Call.Init(i, f), Call.Start(i)]) == Step(clkHz, t, Call.Start(i)))
      && (status == Ok ==> Step(clkHz, t, Call.Start(i)).1 == Ok)
  {
    var ops := [Call.Init(i, f), Call.Start(i)];
    var t := Step(clkHz, s, ops[0]).0;
    assert ops[1..] == [Call.Start(i)];
    PerformOne(clkHz, t, Call.Start(i));
  }

  lemma StepKeepsCounting(clkHz: uint32, s: PwmState, op: Call)
    requires !op.Init? && !op.Stop? && AllCounting(s.groups)
    ensures AllCounting(Step(clkHz, s, op).0.groups)
  {
  }

  /** Every group is either off or counting. */
  predicate AllCounting(groups: Groups) {
    forall i :: 0 <= i < INSTANCES ==> groups[i].On? ==> groups[i].running
  }

  /** A command that is not acknowledged has changed nothing, and no command leaves a
      configured group with its counter stopped. */
  lemma CommandsAreAtomic(clkHz: uint32, s: PwmState, k: PwmCommand, payload: seq<byte>)
    ensures PwmExecute(clkHz, s, k, payload).1 != Ok ==> PwmExecute(clkHz, s, k, payload).0 == s
    ensures AllCounting(s.groups) ==> AllCounting(PwmExecute(clkHz, s, k, payload).0.groups)
  {
    if k != CHANNEL_GET && k != GROUP_GET && CallsOf(k, payload).Success? {
      var ops := CallsOf(k, payload).value;
      if k == GROUP_CFG {
        PerformSetup(clkHz, s, ops[0].i, ops[0].f);
      } else {
        assert ops == [ops[0]];
        PerformOne(clkHz, s, ops[0]);
        if AllCounting(s.groups) { StepKeepsCounting(clkHz, s, ops[0]); }
      }
    }
  }

  /** A command that makes one driver call is that call. */
  lemma OneCall(clkHz: uint32, s: PwmState, k: PwmCommand, payload: seq<byte>, call: Call)
    requires k != CHANNEL_GET && k != GROUP_GET && CallsOf(k, payload) == Success([call])
    ensures PwmExecute(clkHz, s, k, payload) == (Step(clkHz, s, call).0, Step(clkHz, s, call).1, 0)
  {
    PerformOne(clkHz, s, call);
  }

  /** Reading the duty of a mapped pin. */
  lemma ReadDuty(clkHz: uint32, s: PwmState, payload: seq<byte>, i: nat, c: nat)
    requires |payload| == 2 && Resolve(payload[0], payload[1]) == Success((i, c))
    ensures i < INSTANCES && c < CHANNELS
    ensures PwmExecute(clkHz, s, CHANNEL_GET, payload) ==
      if IsClaimed(s.groups[i], c) then (s, Ok, s.groups[i].channels[c].duty) else (s, NotInit, 0)
  {
    ChannelOfIsInverse(PinId(payload[0], payload[1]), 0, 0);
  }

  // ----- the handlers

  class PwmController {
    const driver: TimerDriver

    ghost predicate Valid()
      reads driver.gpio, driver.tim2, driver.tim3, driver.tim4
    {
      driver.Valid()
    }

    ghost function State(): (s: PwmState)
      requires Valid()
      reads driver.gpio, driver.tim2, driver.tim3, driver.tim4
    {
      driver.State()
    }

    constructor (d: TimerDriver)
      requires d.Valid()
      ensures Valid() && driver == d && State() == d.State()
    {
      driver := d;
    }

    /** resolve_channel(). */
    method ResolveChannel(port: byte, pin: byte) returns (status: Status, instance: nat, channel: nat)
      ensures Resolve(port, pin).Failure? ==> status == Resolve(port, pin).error && status != Ok
      ensures Resolve(port, pin).Success? ==> status == Ok && (instance, channel) == Resolve(port, pin).value
      ensures status == Ok ==> instance < INSTANCES && channel < CHANNELS
    {
      if port >= GPIO_NUM_OF_PORTS {
        return InvalidPin, 0, 0;
      }
      if pin > MAX_PIN_COUNT {
        return InvalidPin, 0, 0;
      }
      status, instance, channel := LookupPin(PinId(port, pin));
    }

    /** pwm_controller_group_cfg(): set up, then start. */
    method GroupCfg(payload: seq<byte>) returns (status: Status)
      requires Valid()
      modifies driver.gpio, driver.tim2, driver.tim3, driver.tim4
      ensures Valid() && (State(), status, 0) == PwmExecute(driver.clkHz, old(State()), GROUP_CFG, payload)
      ensures status != Ok ==> unchanged(driver.gpio, driver.tim2, driver.tim3, driver.tim4)
    {
      if |payload| != 5 {
        return InvalidArg;
      }
      var group := payload[4];
      if group >= INSTANCES {
        return InvalidArg;
      }
      var frequency := ReadUint32Le(payload[..4]);
      PerformSetup(driver.clkHz, State(), group, frequency);
      status := driver.Do(Call.Init(group, frequency));
      if status != Ok {
        return status;
      }
      status := driver.Do(Call.Start(group));
      // The source tears the group down again if the start fails; it cannot.
      assert status == Ok;
    }

    /** pwm_controller_group_release(). */
    method GroupRelease(payload: seq<byte>) returns (status: Status)
      requires Valid()
      modifies driver.gpio, driver.tim2, driver.tim3, driver.tim4
      ensures Valid() && (State(), status, 0) == PwmExecute(driver.clkHz, old(State()), GROUP_RELEASE, payload)
      ensures status != Ok ==> unchanged(driver.gpio, driver.tim2, driver.tim3, driver.tim4)
    {
      if |payload| != 1 {
        return InvalidArg;
      }
      var group := payload[0];
      if group >= INSTANCES {
        return InvalidArg;
      }
      OneCall(driver.clkHz, State(), GROUP_RELEASE, payload, Call.Deinit(group));
      status := driver.Do(Call.Deinit(group));
    }

    /** pwm_controller_channel_cfg(): claims a pin at duty 0. */
    method ChannelCfg(payload: seq<byte>) returns (status: Status)
      requires Valid()
      modifies driver.gpio, driver.tim2, driver.tim3, driver.tim4
      ensures Valid() && (State(), status, 0) == PwmExecute(driver.clkHz, old(State()), CHANNEL_CFG, payload)
      ensures status != Ok ==> unchanged(driver.gpio, driver.tim2, driver.tim3, driver.tim4)
    {
      if |payload| != 3 {
        return InvalidArg;
      }
      var polarity := payload[0];
      if polarity != 1 && polarity != 0 {
        return InvalidArg;
      }
      var instance, channel;
      status, instance, channel := ResolveChannel(payload[1], payload[2]);
      if status != Ok {
        return status;
      }
      OneCall(driver.clkHz, State(), CHANNEL_CFG, payload, Call.Claim(instance, channel, 0, polarity));
      status := driver.Do(Call.Claim(instance, channel, 0, polarity));
    }

    /** pwm_controller_channel_set(). */
    method ChannelSet(payload: seq<byte>) returns (status: Status)
      requires Valid()
      modifies driver.gpio, driver.tim2, driver.tim3, driver.tim4
      ensures Valid() && (State(), status, 0) == PwmExecute(driver.clkHz, old(State()), CHANNEL_SET, payload)
      ensures status != Ok ==> unchanged(driver.gpio, driver.tim2, driver.tim3, driver.tim4)
    {
      if |payload| != 4 {
        return InvalidArg;
      }
      var instance, channel;
      status, instance, channel := ResolveChannel(payload[2], payload[3]);
      if status != Ok {
        return status;
      }
      var duty := ReadUint16Le(payload[..2]);
      OneCall(driver.clkHz, State(), CHANNEL_SET, payload, Call.SetDuty(instance, channel, duty));
      status := driver.Do(Call.SetDuty(instance, channel, duty));
    }

    /** pwm_controller_channel_release(). */
    method ChannelRelease(payload: seq<byte>) returns (status: Status)
      requires Valid()
      modifies driver.gpio, driver.tim2, driver.tim3, driver.tim4
      ensures Valid() && (State(), status, 0) == PwmExecute(driver.clkHz, old(State()), CHANNEL_RELEASE, payload)
      ensures status != Ok ==> unchanged(driver.gpio, driver.tim2, driver.tim3, driver.tim4)
    {
      if |payload| != 2 {
        return InvalidArg;
      }
      var instance, channel;
      status, instance, channel := ResolveChannel(payload[0], payload[1]);
      if status != Ok {
        return status;
      }
      OneCall(driver.clkHz, State(), CHANNEL_RELEASE, payload, Call.Release(instance, channel));
      status := driver.Do(Call.Release(instance, channel));
    }

    /** pwm_controller_channel_get(). */
    method ChannelGet(payload: seq<byte>) returns (status: Status, duty: nat)
      requires Valid()
      ensures var (_, s, v) := PwmExecute(driver.clkHz, State(), CHANNEL_GET, payload); status == s && duty == v
    {
      duty := 0;
      if |payload| != 2 {
        return InvalidArg, duty;
      }
      var instance, channel;
      status, instance, channel := ResolveChannel(payload[0], payload[1]);
      if status != Ok {
        return status, duty;
      }
      ReadDuty(driver.clkHz, State(), payload, instance, channel);
      var d;
      status, d := driver.GetDuty(instance, channel);
      if status == Ok {
        duty := d;
      }
    }

    /** pwm_controller_group_get(). */
    method GroupGet(payload: seq<byte>) returns (status: Status, frequencyHz: nat)
      requires Valid()
      ensures var (_, s, v) := PwmExecute(driver.clkHz, State(), GROUP_GET, payload); status == s && frequencyHz == v
    {
      frequencyHz := 0;
      if |payload| != 1 {
        return InvalidArg, frequencyHz;
      }
      var group := payload[0];
      if group >= INSTANCES {
        return InvalidArg, frequencyHz;
      }
      var f;
      status, f := driver.GetFrequency(group);
      if status == Ok {
        frequencyHz := f;
      }
    }

    /** The handler the command table holds for a PWM command. */
    method Handle(kind: PwmCommand, payload: seq<byte>) returns (status: Status, value: nat)
      requires Valid()
      modifies driver.gpio, driver.tim2, driver.tim3, driver.tim4
      ensures Valid() && (State(), status, value) == PwmExecute(driver.clkHz, old(State()), kind, payload)
      ensures status != Ok ==> unchanged(driver.gpio, driver.tim2, driver.tim3, driver.tim4)
    {
      value := 0;
      match kind
      case GROUP_CFG => status := GroupCfg(payload);
      case CHANNEL_CFG => status := ChannelCfg(payload);
      case CHANNEL_SET => status := ChannelSet(payload);
      case CHANNEL_RELEASE => status := ChannelRelease(payload);
      case CHANNEL_GET => status, value := ChannelGet(payload);
      case GROUP_GET => status, value := GroupGet(payload);
      case GROUP_RELEASE => status := GroupRelease(payload);
    }
  }
}

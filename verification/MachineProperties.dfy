/** What the host's view of the machine predicts: which commands will be accepted, what reads
    will return, and what an interrupt will do, after every run since the last reset. */
module MachineProperties {
  import opened Words
  import opened Status
  import opened Gpio
  import opened Timebase
  import opened TimerRegisters
  import opened Timer
  import opened TimerDriver
  import opened PwmController
  import opened PwmView
  import opened GpioController
  import opened CommandDispatcher
  import opened MachineRuns

  // ----- reads

  /** Reading a pin's duty gives the last duty acknowledged since its last acknowledged claim,
      0 if there was none, fails exactly on pins not claimed, and changes nothing. */
  lemma DutyReadBack(clkHz: uint32, boot: Machine, events: seq<Event>, port: byte, pin: byte)
    requires Booted(boot) && forall k :: 0 <= k < |events| ==> Possible(events[k])
    ensures var m, p := Run(clkHz, boot, events), PinId(port, pin);
      Execute(clkHz, m, 0x44, [port, pin]) ==
        if !InRange(p) then (m, InvalidPin, 0)
        else if ChannelOf(p).None? then (m, Unsupported, 0)
        else
          match ViewOfPin(Acks(clkHz, boot, events), p).duty
          case None => (m, NotInit, 0)
          case Some(duty) => (m, Ok, duty)
  {
    var m, p := Run(clkHz, boot, events), PinId(port, pin);
    DutyRead(clkHz, m, port, pin);
    if InRange(p) { PinsAsAcknowledged(clkHz, boot, events, p); }
  }

  lemma DutyRead(clkHz: uint32, m: Machine, port: byte, pin: byte)
    ensures var p := PinId(port, pin);
      Execute(clkHz, m, 0x44, [port, pin]) ==
        if !InRange(p) then (m, InvalidPin, 0)
        else if ChannelOf(p).None? then (m, Unsupported, 0)
        else if DutyOf(m.pwm, p).None? then (m, NotInit, 0)
        else (m, Ok, DutyOf(m.pwm, p).value)
  {
    if ChannelOf(PinId(port, pin)).Some? { ChannelOfIsInverse(PinId(port, pin), 0, 0); }
  }

  /** A read-back within one part in 170 above the frequency asked. */
  predicate CloseTo(f: nat, read: nat) { f <= read && 170 * read < 171 * f }

  /** A group and what reading its frequency reports, for the frequency asked of it. */
  predicate ReadsBack(g: Group, f: Option<nat>, status: Status, read: nat) {
    && (g.On? <==> f.Some?) && (g.On? ==> g.running)
    && status == (if f.Some? then Ok else NotInit)
    && (f.Some? ==> CloseTo(f.value, read))
  }

  lemma FrequencyRead(m: Machine, group: byte, f: Option<nat>)
    requires group < INSTANCES && TunedTo(TIMER_CLOCK_HZ, m.pwm.groups[group], f)
    ensures var (t, status, read) := Execute(TIMER_CLOCK_HZ, m, 0x45, [group]);
      t == m && ReadsBack(m.pwm.groups[group], f, status, read)
  {
    if f.Some? { AchievedFrequency(f.value); }
    assert ReadResult(TIMER_CLOCK_HZ, m.pwm, PwmCommand.GROUP_GET, [group]).Success? == f.Some?;
  }

  /** At the 170 MHz clock a group's counter runs exactly while the group is set up, and its
      frequency reads back within one part in 170 above the one last acknowledged. */
  lemma FrequencyReadBack(boot: Machine, events: seq<Event>, group: byte)
    requires Booted(boot) && group < INSTANCES && forall k :: 0 <= k < |events| ==> Possible(events[k])
    ensures var m, acks := Run(TIMER_CLOCK_HZ, boot, events), Acks(TIMER_CLOCK_HZ, boot, events);
      var (t, status, read) := Execute(TIMER_CLOCK_HZ, m, 0x45, [group]);
      t == m && ReadsBack(m.pwm.groups[group], ViewOfGroup(acks, group), status, read)
  {
    GroupsAsAcknowledged(TIMER_CLOCK_HZ, boot, events, group);
    FrequencyRead(Run(TIMER_CLOCK_HZ, boot, events), group, ViewOfGroup(Acks(TIMER_CLOCK_HZ, boot, events), group));
  }

  /** Setting a group up, at the 170 MHz clock, fails only for a malformed request, a frequency
      out of range or a group already set up: no frequency in range is ever unreachable. */
  lemma SetupAnswer(m: Machine, payload: seq<byte>)
    ensures var status := Execute(TIMER_CLOCK_HZ, m, 0x40, payload).1;
      status ==
        if |payload| != 5 || payload[4] >= INSTANCES || !InFrequencyRange(Le32(payload[..4])) then InvalidArg
        else if m.pwm.groups[payload[4]].On? then Busy
        else Ok
  {
    if |payload| == 5 && payload[4] < INSTANCES {
      var f := Le32(payload[..4]);
      PerformSetup(TIMER_CLOCK_HZ, m.pwm, payload[4], f);
      if InFrequencyRange(f) { AchievedFrequency(f); }
    }
  }

  /** A refusal other than busy does not mean the group is off: it is still running exactly if
      it was set up and the request was out of range. */
  lemma RefusedSetupLeavesGroup(m: Machine, payload: seq<byte>)
    requires |payload| == 5 && payload[4] < INSTANCES
    ensures var (t, status, _) := Execute(TIMER_CLOCK_HZ, m, 0x40, payload);
      status != Ok && status != Busy && t.pwm.groups[payload[4]].On? <==>
        m.pwm.groups[payload[4]].On? && !InFrequencyRange(Le32(payload[..4]))
  {
    SetupAnswer(m, payload);
    if Execute(TIMER_CLOCK_HZ, m, 0x40, payload).1 != Ok { RefusedChangesNothing(TIMER_CLOCK_HZ, m, 0x40, payload); }
  }

  /** On a machine whose group 0 runs at 1 kHz, asking for 0 Hz is refused as out of range and
      the group goes on as before. */
  lemma OutOfRangeLeavesGroupOn(boot: Machine)
    requires Booted(boot)
    ensures var a := After(TIMER_CLOCK_HZ, boot, 0x40, [0xE8, 0x03, 0, 0, 0]);
      var (t, status, _) := Execute(TIMER_CLOCK_HZ, a, 0x40, [0, 0, 0, 0, 0]);
      && Execute(TIMER_CLOCK_HZ, boot, 0x40, [0xE8, 0x03, 0, 0, 0]).1 == Ok
      && status == InvalidArg && t == a && t.pwm.groups[0].On? && t.pwm.groups[0].running
  {
    var payload: seq<byte> := [0xE8, 0x03, 0, 0, 0];
    SetupAccepted(boot);
    GroupStep(TIMER_CLOCK_HZ, boot, PWM(GROUP_CFG), payload, 0, None);
    var a := After(TIMER_CLOCK_HZ, boot, 0x40, payload);
    SetupAnswer(a, [0, 0, 0, 0, 0]);
    RefusedChangesNothing(TIMER_CLOCK_HZ, a, 0x40, [0, 0, 0, 0, 0]);
  }

  // ----- claims

  /** The machine after one command. */
  function After(clkHz: uint32, m: Machine, opcode: byte, payload: seq<byte>): (r: Machine)
  {
    Execute(clkHz, m, opcode, payload).0
  }

  /** The command reconfigures the pin, or claims it for PWM. */
  predicate Touches(a: Ack, p: PinId)
    requires IsAck(a)
  {
    match a.command
    case GPIO(IO_CFG) => Subject(IO_CFG, a.payload) == p
    case PWM(CHANNEL_CFG) => PinNamed(a.payload) == p
    case _ => false
  }

  predicate Touched(acks: seq<Ack>, p: PinId)
    requires forall k :: 0 <= k < |acks| ==> IsAck(acks[k])
  {
    acks != [] && (Touches(acks[|acks| - 1], p) || Touched(acks[..|acks| - 1], p))
  }

  /** A pin is still analog, as at boot, exactly if no acknowledged command touched it;
      and only touched pins are claimed. */
  predicate AnalogIffUntouched(m: Machine, p: PinId, touched: bool)
    requires InRange(p)
  {
    (m.pwm.pins.IsMode(p, MODE_ANALOG) <==> !touched) && (DutyOf(m.pwm, p).Some? ==> touched)
  }

  lemma TouchStep(clkHz: uint32, m: Machine, c: Command, payload: seq<byte>, p: PinId, touched: bool)
    requires IsValidPin(p) && AnalogIffUntouched(m, p, touched) && Obey(clkHz, m, c, payload).1 == Ok
    ensures IsAck(Ack(c, payload))
    ensures AnalogIffUntouched(Obey(clkHz, m, c, payload).0, p, Touches(Ack(c, payload), p) || touched)
  {
    var v := PinView(m.pwm.pins.mode[At(p)], DutyOf(m.pwm, p));
    PinStep(clkHz, m, c, payload, p, v);
    if c == PWM(CHANNEL_RELEASE) && PinNamed(payload) == p {
      ReleasedWasClaimed(clkHz, m.pwm, payload);
    }
    if c.PWM? && ChannelOf(p).None? { ClaimsNeedChannels(clkHz, m.pwm, c.pwm, payload, p); }
  }

  lemma ReleasedWasClaimed(clkHz: uint32, s: PwmState, payload: seq<byte>)
    requires PwmExecute(clkHz, s, CHANNEL_RELEASE, payload).1 == Ok
    ensures |payload| == 2 && DutyOf(s, PinNamed(payload)).Some?
  {
    var _ := OnlyCall(clkHz, s, CHANNEL_RELEASE, payload);
  }

  lemma ClaimsNeedChannels(clkHz: uint32, s: PwmState, k: PwmCommand, payload: seq<byte>, p: PinId)
    requires PwmExecute(clkHz, s, k, payload).1 == Ok && ChannelOf(p).None?
    ensures |payload| == PayloadLength(k)
    ensures k == CHANNEL_CFG || k == CHANNEL_RELEASE ==> PinNamed(payload) != p
  {
  }

  lemma {:induction false} AnalogUntilTouched(clkHz: uint32, boot: Machine, events: seq<Event>, p: PinId)
    requires Booted(boot) && IsValidPin(p) && !IsSerialPin(p) && forall k :: 0 <= k < |events| ==> Possible(events[k])
    ensures AnalogIffUntouched(Run(clkHz, boot, events), p, Touched(Acks(clkHz, boot, events), p))
  {
    if events == [] {
      if ChannelOf(p).Some? { ChannelOfIsInverse(p, 0, 0); }
    } else {
      var before, e := events[..|events| - 1], events[|events| - 1];
      AnalogUntilTouched(clkHz, boot, before, p);
      var m, acks := Run(clkHz, boot, before), Acks(clkHz, boot, before);
      if e.Interrupt? { VectorKeeps(m.Io(), e.vector); }
      if e.Request? {
        if Execute(clkHz, m, e.opcode, e.payload).1 == Ok {
          TouchStep(clkHz, m, CommandOf(e.opcode).value, e.payload, p, Touched(acks, p));
          assert (acks + [Ack(CommandOf(e.opcode).value, e.payload)])[..|acks|] == acks;
        } else {
          RefusedChangesNothing(clkHz, m, e.opcode, e.payload);
        }
      }
    }
  }

  /** Whether a pin can be claimed now. */
  predicate Claimable(m: Machine, p: PinId)
  {
    ChannelOf(p).Some? && InRange(p) &&
    (ChannelOfIsInverse(p, 0, 0);
     m.pwm.groups[ChannelOf(p).value.0].On? && DutyOf(m.pwm, p).None? && m.pwm.pins.IsMode(p, MODE_ANALOG))
  }

  lemma ClaimNow(clkHz: uint32, m: Machine, polarity: byte, port: byte, pin: byte)
    ensures Execute(clkHz, m, 0x41, [polarity, port, pin]).1 == Ok <==> polarity <= 1 && Claimable(m, PinId(port, pin))
  {
    var p, payload := PinId(port, pin), [polarity, port, pin];
    assert CallsOf(CHANNEL_CFG, payload).Success? <==> polarity <= 1 && ChannelOf(p).Some?;
    if CallsOf(CHANNEL_CFG, payload).Success? {
      var (i, c) := ChannelOf(p).value;
      ChannelOfIsInverse(p, 0, 0);
      ChannelOfIsInverse(p, i, c);
      PerformOne(clkHz, m.pwm, Call.Claim(i, c, 0, polarity));
    }
  }

  /** A claim succeeds exactly on a pin of the PWM map whose group is set up and which no
      acknowledged command has configured or claimed since reset. In particular a pin can be
      claimed at most once per reset, and releasing it does not make it claimable again. */
  lemma ClaimAcceptedIff(clkHz: uint32, boot: Machine, events: seq<Event>, polarity: byte, port: byte, pin: byte)
    requires Booted(boot) && forall k :: 0 <= k < |events| ==> Possible(events[k])
    ensures var p, acks := PinId(port, pin), Acks(clkHz, boot, events);
      Execute(clkHz, Run(clkHz, boot, events), 0x41, [polarity, port, pin]).1 == Ok <==>
        polarity <= 1 && ChannelOf(p).Some? && ViewOfGroup(acks, ChannelOf(p).value.0).Some? && !Touched(acks, p)
  {
    var p := PinId(port, pin);
    ClaimNow(clkHz, Run(clkHz, boot, events), polarity, port, pin);
    if ChannelOf(p).Some? {
      ChannelOfIsInverse(p, 0, 0);
      AnalogUntilTouched(clkHz, boot, events, p);
      GroupsAsAcknowledged(clkHz, boot, events, ChannelOf(p).value.0);
    }
  }

  lemma ReleaseLeavesInput(clkHz: uint32, m: Machine, port: byte, pin: byte)
    requires Execute(clkHz, m, 0x43, [port, pin]).1 == Ok
    ensures var t, p := After(clkHz, m, 0x43, [port, pin]), PinId(port, pin);
      DutyOf(t.pwm, p).None? && InRange(p) && t.pwm.pins.IsMode(p, MODE_INPUT)
  {
    var p := PinId(port, pin);
    assert PinNamed([port, pin]) == p;
    ReleasedWasClaimed(clkHz, m.pwm, [port, pin]);
    DutyStep(clkHz, m.pwm, CHANNEL_RELEASE, [port, pin], p);
    ModeStep(clkHz, m.pwm, CHANNEL_RELEASE, [port, pin], p);
  }

  /** Right after an acknowledged release the pin is unclaimed, yet claiming it again is
      refused. */
  lemma ReleasedPinIsNotReclaimed(clkHz: uint32, m: Machine, port: byte, pin: byte, polarity: byte)
    requires Execute(clkHz, m, 0x43, [port, pin]).1 == Ok
    ensures var t := After(clkHz, m, 0x43, [port, pin]);
      DutyOf(t.pwm, PinId(port, pin)).None? && Execute(clkHz, t, 0x41, [polarity, port, pin]).1 != Ok
  {
    ReleaseLeavesInput(clkHz, m, port, pin);
    ClaimNow(clkHz, After(clkHz, m, 0x43, [port, pin]), polarity, port, pin);
  }

  /** The protocol's own recipe for changing a group's claims, on PA5 of a freshly booted
      machine: 1 kHz on group 0, claim, release, claim again. The last step is refused. */
  lemma ReclaimingFails(boot: Machine)
    requires Booted(boot)
    ensures var clk := TIMER_CLOCK_HZ;
      var a := After(clk, boot, 0x40, [0xE8, 0x03, 0, 0, 0]);
      var b := After(clk, a, 0x41, [0, 0, 5]);
      && Execute(clk, boot, 0x40, [0xE8, 0x03, 0, 0, 0]).1 == Ok
      && Execute(clk, a, 0x41, [0, 0, 5]).1 == Ok
      && Execute(clk, b, 0x43, [0, 5]).1 == Ok
      && Execute(clk, After(clk, b, 0x43, [0, 5]), 0x41, [0, 0, 5]).1 != Ok
  {
    var clk := TIMER_CLOCK_HZ;
    SetupAccepted(boot);
    SetupMakesClaimable(boot);
    var a := After(clk, boot, 0x40, [0xE8, 0x03, 0, 0, 0]);
    ClaimNow(clk, a, 0, 0, 5);
    var b := After(clk, a, 0x41, [0, 0, 5]);
    ClaimedHasDuty(clk, a, 0, 0, 5);
    ReleaseNow(clk, b, 0, 5);
    ReleasedPinIsNotReclaimed(clk, b, 0, 5, 0);
  }

  lemma BootsAnalog(boot: Machine, p: PinId)
    requires Booted(boot) && IsValidPin(p) && !IsSerialPin(p)
    ensures PinShown(boot, p, PinView(MODE_ANALOG, None))
  {
    if ChannelOf(p).Some? { ChannelOfIsInverse(p, 0, 0); }
  }

  lemma SetupAccepted(boot: Machine)
    requires Booted(boot)
    ensures Execute(TIMER_CLOCK_HZ, boot, 0x40, [0xE8, 0x03, 0, 0, 0]).1 == Ok
  {
    var payload: seq<byte> := [0xE8, 0x03, 0, 0, 0];
    assert payload[..4] == [0xE8, 0x03, 0, 0] && Le32(payload[..4]) == 1000;
    SetupAnswer(boot, payload);
  }

  lemma SetupMakesClaimable(boot: Machine)
    requires Booted(boot)
    ensures Claimable(After(TIMER_CLOCK_HZ, boot, 0x40, [0xE8, 0x03, 0, 0, 0]), PinId(0, 5))
  {
    SetupAccepted(boot);
    SetupLeavesClaimable(boot, 0x40, [0xE8, 0x03, 0, 0, 0]);
  }

  lemma SetupLeavesClaimable(boot: Machine, opcode: byte, payload: seq<byte>)
    requires Booted(boot) && opcode == 0x40 && |payload| == 5 && payload[4] == 0
    requires Execute(TIMER_CLOCK_HZ, boot, opcode, payload).1 == Ok
    ensures Claimable(After(TIMER_CLOCK_HZ, boot, opcode, payload), PinId(0, 5))
  {
    BootsAnalog(boot, PinId(0, 5));
    PinStep(TIMER_CLOCK_HZ, boot, PWM(GROUP_CFG), payload, PinId(0, 5), PinView(MODE_ANALOG, None));
    GroupStep(TIMER_CLOCK_HZ, boot, PWM(GROUP_CFG), payload, 0, None);
  }

  lemma ClaimedHasDuty(clkHz: uint32, m: Machine, polarity: byte, port: byte, pin: byte)
    requires InRange(PinId(port, pin)) && Execute(clkHz, m, 0x41, [polarity, port, pin]).1 == Ok
    ensures DutyOf(After(clkHz, m, 0x41, [polarity, port, pin]).pwm, PinId(port, pin)) == Some(0)
  {
    var p := PinId(port, pin);
    DutyStep(clkHz, m.pwm, CHANNEL_CFG, [polarity, port, pin], p);
    if ChannelOf(p).None? { ClaimsNeedChannels(clkHz, m.pwm, CHANNEL_CFG, [polarity, port, pin], p); }
  }

  lemma ReleaseNow(clkHz: uint32, m: Machine, port: byte, pin: byte)
    requires InRange(PinId(port, pin)) && DutyOf(m.pwm, PinId(port, pin)).Some?
    ensures Execute(clkHz, m, 0x43, [port, pin]).1 == Ok
  {
    var (i, c) := ChannelOf(PinId(port, pin)).value;
    ChannelOfIsInverse(PinId(port, pin), i, c);
    PerformOne(clkHz, m.pwm, Call.Release(i, c));
  }

  /** Whether the pin was reconfigured as plain input or output after its last claim. */
  predicate TakenAway(acks: seq<Ack>, p: PinId)
    requires forall k :: 0 <= k < |acks| ==> IsAck(acks[k])
  {
    acks != [] && TakenAfter(acks[|acks| - 1], p, TakenAway(acks[..|acks| - 1], p))
  }

  predicate TakenAfter(a: Ack, p: PinId, earlier: bool)
    requires IsAck(a)
  {
    if a.command == GPIO(IO_CFG) && Subject(IO_CFG, a.payload) == p then true
    else if a.command == PWM(CHANNEL_CFG) && PinNamed(a.payload) == p then false
    else earlier
  }

  /** If the pin is claimed, it is routed to its timer unless it was taken away. */
  predicate RoutedUnlessTaken(m: Machine, p: PinId, taken: bool)
    requires InRange(p)
  {
    DutyOf(m.pwm, p).Some? ==> (m.pwm.pins.IsMode(p, MODE_AF) <==> !taken)
  }

  lemma TakenStep(clkHz: uint32, m: Machine, c: Command, payload: seq<byte>, p: PinId, taken: bool)
    requires IsValidPin(p) && Obey(clkHz, m, c, payload).1 == Ok
    requires RoutedUnlessTaken(m, p, taken)
    ensures IsAck(Ack(c, payload))
    ensures RoutedUnlessTaken(Obey(clkHz, m, c, payload).0, p, TakenAfter(Ack(c, payload), p, taken))
  {
    PinStep(clkHz, m, c, payload, p, PinView(m.pwm.pins.mode[At(p)], DutyOf(m.pwm, p)));
    if c == PWM(CHANNEL_SET) && PinNamed(payload) == p { SetNeedsClaim(clkHz, m.pwm, payload); }
  }

  lemma SetNeedsClaim(clkHz: uint32, s: PwmState, payload: seq<byte>)
    requires PwmExecute(clkHz, s, CHANNEL_SET, payload).1 == Ok
    ensures |payload| == 4 && DutyOf(s, PinNamed(payload)).Some?
  {
    var _ := OnlyCall(clkHz, s, CHANNEL_SET, payload);
  }

  /** A claimed pin is still routed to its timer exactly if no GPIO_CFG took it away since the
      claim: the driver does not defend its ownership. */
  lemma {:induction false} ClaimedPinIsRouted(clkHz: uint32, boot: Machine, events: seq<Event>, p: PinId)
    requires Booted(boot) && IsValidPin(p) && forall k :: 0 <= k < |events| ==> Possible(events[k])
    ensures RoutedUnlessTaken(Run(clkHz, boot, events), p, TakenAway(Acks(clkHz, boot, events), p))
  {
    if events == [] {
      if ChannelOf(p).Some? { ChannelOfIsInverse(p, 0, 0); }
    } else {
      var before, e := events[..|events| - 1], events[|events| - 1];
      ClaimedPinIsRouted(clkHz, boot, before, p);
      var m, acks := Run(clkHz, boot, before), Acks(clkHz, boot, before);
      if e.Interrupt? { VectorKeeps(m.Io(), e.vector); }
      if e.Request? {
        if Execute(clkHz, m, e.opcode, e.payload).1 == Ok {
          TakenStep(clkHz, m, CommandOf(e.opcode).value, e.payload, p, TakenAway(acks, p));
          assert (acks + [Ack(CommandOf(e.opcode).value, e.payload)])[..|acks|] == acks;
        } else {
          RefusedChangesNothing(clkHz, m, e.opcode, e.payload);
        }
      }
    }
  }

  /** A claimed pin's alternate function is its timer's: 1 in group 0, 2 in groups 1 and 2. */
  predicate OnItsTimer(m: Machine, p: PinId)
    requires InRange(p)
  {
    DutyOf(m.pwm, p).Some? ==> m.pwm.pins.af[At(p)] == if ChannelOf(p).value.0 == 0 then 1 else 2
  }

  lemma FunctionKept(clkHz: uint32, m: Machine, c: Command, payload: seq<byte>, p: PinId)
    requires InRange(p) && ChannelOf(p).Some? && Obey(clkHz, m, c, payload).1 == Ok && OnItsTimer(m, p)
    ensures OnItsTimer(Obey(clkHz, m, c, payload).0, p)
  {
    match c
    case PWM(k) =>
      DutyStep(clkHz, m.pwm, k, payload, p);
      FunctionStep(clkHz, m.pwm, k, payload, p);
      if k == CHANNEL_SET && PinNamed(payload) == p { SetNeedsClaim(clkHz, m.pwm, payload); }
    case _ =>
  }

  /** After every run a claimed pin is connected to its own timer, whatever GPIO_CFG did to its mode. */
  lemma {:induction false} ClaimedPinIsOnItsTimer(clkHz: uint32, boot: Machine, events: seq<Event>, p: PinId)
    requires Booted(boot) && InRange(p) && forall k :: 0 <= k < |events| ==> Possible(events[k])
    ensures OnItsTimer(Run(clkHz, boot, events), p)
  {
    if ChannelOf(p).Some? {
      if events == [] {
        ChannelOfIsInverse(p, 0, 0);
      } else {
        var before, e := events[..|events| - 1], events[|events| - 1];
        ClaimedPinIsOnItsTimer(clkHz, boot, before, p);
        var m := Run(clkHz, boot, before);
        if e.Interrupt? {
          VectorKeeps(m.Io(), e.vector);
        } else if e.Request? {
          if Execute(clkHz, m, e.opcode, e.payload).1 == Ok {
            FunctionKept(clkHz, m, CommandOf(e.opcode).value, e.payload, p);
          } else {
            RefusedChangesNothing(clkHz, m, e.opcode, e.payload);
          }
        }
      }
    }
  }

  /** Configuring a pin asks only that it exists: a claimed pin is handed over and its channel
      keeps its duty. */
  lemma ConfiguringIgnoresClaims(clkHz: uint32, m: Machine, dir: byte, port: byte, pin: byte)
    ensures var (t, status, _) := Execute(clkHz, m, 0x30, [dir, port, pin]);
      && (status == Ok <==> dir <= 1 && IsValidPin(PinId(port, pin)))
      && (status == Ok ==> t.pwm.pins.IsMode(PinId(port, pin), dir) && t.pwm.groups == m.pwm.groups)
  {
  }

  /** A claimed pin taken away on a concrete run: 1 kHz on group 0, claim PA5, configure PA5 as an
      output. All three are acknowledged; the pin has left its timer and its duty is still there. */
  lemma ConfiguringTakesClaimedPin(boot: Machine)
    requires Booted(boot)
    ensures var clk, p := TIMER_CLOCK_HZ, PinId(0, 5);
      var a := After(clk, boot, 0x40, [0xE8, 0x03, 0, 0, 0]);
      var b := After(clk, a, 0x41, [0, 0, 5]);
      var (t, status, _) := Execute(clk, b, 0x30, [1, 0, 5]);
      && Execute(clk, boot, 0x40, [0xE8, 0x03, 0, 0, 0]).1 == Ok
      && Execute(clk, a, 0x41, [0, 0, 5]).1 == Ok && b.pwm.pins.IsMode(p, MODE_AF)
      && status == Ok && t.pwm.pins.IsMode(p, MODE_OUTPUT) && DutyOf(t.pwm, p) == Some(0)
  {
    var clk := TIMER_CLOCK_HZ;
    SetupAccepted(boot);
    SetupMakesClaimable(boot);
    var a := After(clk, boot, 0x40, [0xE8, 0x03, 0, 0, 0]);
    ClaimNow(clk, a, 0, 0, 5);
    ClaimedHasDuty(clk, a, 0, 0, 5);
    ModeStep(clk, a.pwm, CHANNEL_CFG, [0, 0, 5], PinId(0, 5));
    ConfiguringIgnoresClaims(clk, After(clk, a, 0x41, [0, 0, 5]), 1, 0, 5);
  }

  // ----- interrupt lines

  /** An active binding's line is set up for it in every state commands and interrupts can reach: it
      is unmasked, routed to the binding's own input pin, runs the line's own dispatch entry, and
      reacts to exactly the edges the acknowledged bind asked for. Whether the processor still
      takes its vector depends on the commands to all lines of the vector. */
  lemma BindingsAreLive(clkHz: uint32, boot: Machine, events: seq<Event>, n: nat)
    requires Booted(boot) && n < MAX_GPIO_INTERRUPTS && forall k :: 0 <= k < |events| ==> Possible(events[k])
    ensures var s, v := Run(clkHz, boot, events).Io(), ViewOfLine(Acks(clkHz, boot, events), n);
      && (s.bindings[n].active <==> v.bond.Some?)
      && (s.bindings[n].active ==>
            && s.bindings[n].input == PinId(v.bond.value.armed.port, n)
            && s.pins.lines.unmasked[n] && s.pins.lines.owner[n] == s.bindings[n].input.port
            && s.pins.lines.callbacks[n] == Some(n)
            && ArmedTrigger(s.pins, s.bindings[n].input) == Success(v.bond.value.armed.trigger))
      && s.pins.lines.vectors[VectorOf(n)] == ViewOfVector(Acks(clkHz, boot, events), VectorOf(n))
  {
    LinesAsAcknowledged(clkHz, boot, events, n);
    VectorsAsAcknowledged(clkHz, boot, events, VectorOf(n));
  }

  /** A line can be armed exactly if it is idle or already the same port's; a refusal comes
      back as the plain error status, not as the busy the protocol promises. */
  lemma ArmAcceptedIff(clkHz: uint32, boot: Machine, events: seq<Event>, edge: byte, port: byte, pin: byte)
    requires Booted(boot) && forall k :: 0 <= k < |events| ==> Possible(events[k])
    requires IsValidPin(PinId(port, pin)) && 1 <= edge <= 3
    ensures var v := ViewOfLine(Acks(clkHz, boot, events), pin);
      Execute(clkHz, Run(clkHz, boot, events), 0x34, [edge, port, pin]).1 ==
        if v.armed.Some? && v.armed.value.port != port then Err else Ok
  {
    LinesAsAcknowledged(clkHz, boot, events, pin);
  }

  /** Arming PB5 while PA5 holds line 5 is refused with the plain error code, on a machine that
      has just booted. */
  lemma ArmingHeldLineIsPlainError(clkHz: uint32, boot: Machine)
    requires Booted(boot)
    ensures Execute(clkHz, boot, 0x34, [1, 0, 5]).1 == Ok
    ensures Execute(clkHz, After(clkHz, boot, 0x34, [1, 0, 5]), 0x34, [1, 1, 5]).1 == Err
  {
    ArmAcceptedIff(clkHz, boot, [], 1, 0, 5);
    var events := [Request(0x34, [1, 0, 5])];
    assert events[..0] == [];
    var acks := Acks(clkHz, boot, events);
    assert acks == [Ack(GPIO(IRQ_CFG), [1, 0, 5])] && acks[..0] == [];
    ArmAcceptedIff(clkHz, boot, events, 1, 1, 5);
  }

  /** Disarming asks only that the pin exists: whichever port armed the line, it ends idle and
      unbound. */
  lemma DisarmingIgnoresOwner(clkHz: uint32, m: Machine, port: byte, pin: byte)
    ensures var (t, status, _) := Execute(clkHz, m, 0x34, [0, port, pin]);
      && (status == Ok <==> IsValidPin(PinId(port, pin)))
      && (status == Ok ==> IdleLine(t.pwm.pins, pin) && t.bindings[pin] == UNBOUND)
  {
  }

  lemma BindNow(s: IoState, edge: nat, input: PinId, action: nat, output: PinId, v: LineView)
    requires InRange(input) && InRange(output) && LineShown(s, input.num, v)
    ensures BindStatus(s, edge, input, action, output) == Ok <==>
      && 1 <= edge <= 3 && action <= 2
      && s.pins.IsMode(input, MODE_INPUT) && s.pins.IsMode(output, MODE_OUTPUT)
      && v == LineView(Some(Arming(input.port, WireEdge(edge).value)), None)
  {
    assert v.armed.Some? ==> IsValidPin(PinId(v.armed.value.port, input.num));
  }

  /** A bind is accepted exactly if both pins are set up for it, the input's line was last
      armed from that very pin for that very edge, and nothing is bound to it. */
  lemma BindAcceptedIff(clkHz: uint32, boot: Machine, events: seq<Event>, edge: byte, input: PinId, action: byte, output: PinId)
    requires Booted(boot) && forall k :: 0 <= k < |events| ==> Possible(events[k])
    requires InRange(input) && InRange(output)
    ensures var acks := Acks(clkHz, boot, events);
      Execute(clkHz, Run(clkHz, boot, events), 0x33, [edge, input.port, input.num, action, output.port, output.num]).1 == Ok <==>
        && 1 <= edge <= 3 && action <= 2
        && ViewOfPin(acks, input).mode == MODE_INPUT && ViewOfPin(acks, output).mode == MODE_OUTPUT
        && ViewOfLine(acks, input.num) == LineView(Some(Arming(input.port, WireEdge(edge).value)), None)
  {
    var m := Run(clkHz, boot, events);
    BindCommand(clkHz, m, edge, input, action, output);
    LinesAsAcknowledged(clkHz, boot, events, input.num);
    PinsAsAcknowledged(clkHz, boot, events, input);
    PinsAsAcknowledged(clkHz, boot, events, output);
    BindNow(m.Io(), edge, input, action, output, ViewOfLine(Acks(clkHz, boot, events), input.num));
  }

  lemma BindCommand(clkHz: uint32, m: Machine, edge: byte, input: PinId, action: byte, output: PinId)
    requires InRange(input) && InRange(output)
    ensures Execute(clkHz, m, 0x33, [edge, input.port, input.num, action, output.port, output.num]).1
      == BindStatus(m.Io(), edge, input, action, output)
  {
    var payload: seq<byte> := [edge, input.port, input.num, action, output.port, output.num];
    assert IoStatus(m.Io(), IRQ_BIND, payload) == BindStatus(m.Io(), edge, input, action, output);
  }

  function Driving(a: Action, level: bool): bool {
    match a
    case LOW => false
    case HIGH => true
    case TOGGLE => !level
  }

  /** What the host expects of one line's handler: the action of the last acknowledged bind of the
      line, on its output pin alone and only while that pin is in output mode. */
  function Acted(s: IoState, acks: seq<Ack>, n: nat): (t: IoState)
    requires forall k :: 0 <= k < |acks| ==> IsAck(acks[k])
  {
    match ViewOfLine(acks, n).bond
    case None => s
    case Some(b) =>
      if !IsValidPin(b.output) || ViewOfPin(acks, b.output).mode != MODE_OUTPUT then s
      else s.(pins := Driven(s.pins, b.output, Driving(b.action, s.pins.levels[At(b.output)])))
  }

  lemma HandlerEffect(clkHz: uint32, boot: Machine, events: seq<Event>, n: nat)
    requires Booted(boot) && n < MAX_GPIO_INTERRUPTS && forall k :: 0 <= k < |events| ==> Possible(events[k])
    ensures var s := Run(clkHz, boot, events).Io().(pins := NothingPending(Run(clkHz, boot, events).pwm.pins));
      Fired(s, n) == Acted(s, Acks(clkHz, boot, events), n)
  {
    LinesAsAcknowledged(clkHz, boot, events, n);
    var v := ViewOfLine(Acks(clkHz, boot, events), n);
    if v.bond.Some? && IsValidPin(v.bond.value.output) { PinsAsAcknowledged(clkHz, boot, events, v.bond.value.output); }
  }

  /** An interrupt runs one handler at most, that of the first pending line of a vector whose last
      acknowledged configuration was an arming; every other pending edge, on this vector or
      another, is lost with it. Otherwise nothing happens. */
  lemma FiringEffect(clkHz: uint32, boot: Machine, events: seq<Event>, v: nat)
    requires Booted(boot) && v < VECTORS && forall k :: 0 <= k < |events| ==> Possible(events[k])
    ensures var s, acks := Run(clkHz, boot, events).Io(), Acks(clkHz, boot, events);
      VectorServed(s, v) ==
        if !ViewOfVector(acks, v) then s
        else
          match FirstPending(s.pins.lines.pending, FirstLine(v), LastLine(v) + 1)
          case None => s
          case Some(n) => Acted(s.(pins := NothingPending(s.pins)), acks, n)
  {
    var s := Run(clkHz, boot, events).Io();
    VectorsAsAcknowledged(clkHz, boot, events, v);
    OnlyFirstIsServed(s, FirstLine(v), LastLine(v) + 1);
    var first := FirstPending(s.pins.lines.pending, FirstLine(v), LastLine(v) + 1);
    if first.Some? { HandlerEffect(clkHz, boot, events, first.value); }
  }

  /** Whichever line it is: while its vector is live and nothing else is pending, its interrupt
      performs the action last acknowledged for it. */
  lemma LonePendingLineIsServed(clkHz: uint32, boot: Machine, events: seq<Event>, v: nat, n: nat)
    requires Booted(boot) && n < 16 && v < 7 && VectorServes(v, n) && forall k :: 0 <= k < |events| ==> Possible(events[k])
    requires ViewOfVector(Acks(clkHz, boot, events), v)
    requires forall k: nat :: k < 16 ==> (Run(clkHz, boot, events).pwm.pins.lines.pending[k] <==> k == n)
    ensures var s := Run(clkHz, boot, events).Io();
      Next(clkHz, Run(clkHz, boot, events), Interrupt(v)).Io() ==
        Acted(s.(pins := NothingPending(s.pins)), Acks(clkHz, boot, events), n)
  {
    FiringEffect(clkHz, boot, events, v);
    LonePending(Run(clkHz, boot, events).pwm.pins.lines.pending, FirstLine(v), LastLine(v) + 1, n);
  }

  /** A line with a vector of its own is served whenever it is armed. The others need not be. */
  lemma {:induction false} LoneVectorFollowsItsLine(acks: seq<Ack>, v: nat)
    requires v <= 4 && forall k :: 0 <= k < |acks| ==> IsAck(acks[k])
    ensures ViewOfVector(acks, v) <==> ViewOfLine(acks, v).armed.Some?
  {
    if acks != [] { LoneVectorFollowsItsLine(acks[..|acks| - 1], v); }
  }
}

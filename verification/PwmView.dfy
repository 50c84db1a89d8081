/** PWM commands as the host sees them: a map from pins to the last duty acknowledged, and
    from groups to the last frequency acknowledged. */
module PwmView {
  import opened Words
  import opened Status
  import opened Gpio
  import opened Timebase
  import opened TimerRegisters
  import opened Timer
  import opened TimerDriver
  import opened TimerRuns
  import opened PwmController

  /** The pin a channel command names in its last two bytes. */
  function PinNamed(payload: seq<byte>): PinId
    requires |payload| >= 2
  {
    PinId(payload[|payload| - 2], payload[|payload| - 1])
  }

  /** The group a pin belongs to: PA5, PA1, PB10, PB11 to 0; PC6-9 to 1; PB6-9 to 2. */
  function GroupOf(p: PinId): Option<nat> {
    if ChannelOf(p).None? then None else Some(ChannelOf(p).value.0)
  }

  /** What an acknowledged command makes of a pin's duty: 0 on the claim, then the duty set,
      none after the release of the pin or of its group. */
  function DutyAfterAck(k: PwmCommand, payload: seq<byte>, p: PinId, earlier: Option<nat>): Option<nat>
    requires |payload| == PayloadLength(k)
  {
    match k
    case CHANNEL_CFG => if PinNamed(payload) == p then Some(0) else earlier
    case CHANNEL_SET => if PinNamed(payload) == p then Some(Le16(payload[..2])) else earlier
    case CHANNEL_RELEASE => if PinNamed(payload) == p then None else earlier
    case GROUP_RELEASE => if GroupOf(p) == Some(ByteAt(payload, 0)) then None else earlier
    case _ => earlier
  }

  /** What an acknowledged command makes of a group's frequency. */
  function FrequencyAfterAck(k: PwmCommand, payload: seq<byte>, group: nat, earlier: Option<nat>): Option<nat>
    requires |payload| == PayloadLength(k)
  {
    if k == GROUP_CFG && payload[4] == group then Some(Le32(payload[..4]))
    else if k == GROUP_RELEASE && payload[0] == group then None
    else earlier
  }

  /** The duty a pin's channel remembers; none if it is not claimed or the pin has no channel. */
  function DutyOf(s: PwmState, p: PinId): Option<nat> {
    if ChannelOf(p).None? then None
    else
      ChannelOfIsInverse(p, 0, 0);
      var (i, c) := ChannelOf(p).value;
      if IsClaimed(s.groups[i], c) then Some(s.groups[i].channels[c].duty) else None
  }

  lemma DutyCall(clkHz: uint32, s: PwmState, call: Call, p: PinId)
    requires Step(clkHz, s, call).1 == Ok && ChannelOf(p).Some?
    ensures DutyOf(Step(clkHz, s, call).0, p) == DutyAfterCall(call, ChannelOf(p).value.0, ChannelOf(p).value.1, DutyOf(s, p))
  {
    ChannelOfIsInverse(p, 0, 0);
  }

  /** Two pins of the map drive one channel only if they are one pin. */
  lemma PinsAreApart(p: PinId, q: PinId)
    requires ChannelOf(p).Some? && ChannelOf(p) == ChannelOf(q)
    ensures p == q
  {
    var (i, c) := ChannelOf(p).value;
    ChannelOfIsInverse(p, 0, 0);
    ChannelOfIsInverse(p, i, c);
    ChannelOfIsInverse(q, i, c);
  }

  /** The call a channel command makes means for a pin's channel what the command means for
      the pin. */
  lemma ChannelCommand(k: PwmCommand, payload: seq<byte>, p: PinId, earlier: Option<nat>)
    requires k == CHANNEL_CFG || k == CHANNEL_SET || k == CHANNEL_RELEASE
    requires CallsOf(k, payload).Success? && ChannelOf(p).Some?
    ensures |payload| == PayloadLength(k) && |CallsOf(k, payload).value| == 1
    ensures DutyAfterCall(CallsOf(k, payload).value[0], ChannelOf(p).value.0, ChannelOf(p).value.1, earlier)
      == DutyAfterAck(k, payload, p, earlier)
  {
    if ChannelOf(PinNamed(payload)) == ChannelOf(p) { PinsAreApart(PinNamed(payload), p); }
  }

  lemma SetupKeepsDuties(clkHz: uint32, s: PwmState, group: nat, f: uint32, p: PinId)
    requires ChannelOf(p).Some?
    requires PerformAll(clkHz, s, [Call.Init(group, f), Call.Start(group)]).1 == Ok
    ensures DutyOf(PerformAll(clkHz, s, [Call.Init(group, f), Call.Start(group)]).0, p) == DutyOf(s, p)
  {
    PerformSetup(clkHz, s, group, f);
    var t := Step(clkHz, s, Call.Init(group, f)).0;
    DutyCall(clkHz, s, Call.Init(group, f), p);
    DutyCall(clkHz, t, Call.Start(group), p);
  }

  /** The driver's duties move as the host's view of them does. */
  lemma DutyStep(clkHz: uint32, s: PwmState, k: PwmCommand, payload: seq<byte>, p: PinId)
    requires PwmExecute(clkHz, s, k, payload).1 == Ok
    ensures |payload| == PayloadLength(k)
    ensures DutyOf(PwmExecute(clkHz, s, k, payload).0, p) ==
      if ChannelOf(p).None? then None else DutyAfterAck(k, payload, p, DutyOf(s, p))
  {
    if ChannelOf(p).None? || k == CHANNEL_GET || k == GROUP_GET {
    } else if k == GROUP_CFG {
      SetupKeepsDuties(clkHz, s, payload[4], Le32(payload[..4]), p);
    } else {
      var call := OnlyCall(clkHz, s, k, payload);
      DutyCall(clkHz, s, call, p);
      if k != GROUP_RELEASE { ChannelCommand(k, payload, p, DutyOf(s, p)); }
    }
  }

  /** The one driver call of an accepted command other than a set-up or a read. */
  lemma OnlyCall(clkHz: uint32, s: PwmState, k: PwmCommand, payload: seq<byte>) returns (call: Call)
    requires PwmExecute(clkHz, s, k, payload).1 == Ok
    requires k != GROUP_CFG && k != GROUP_GET && k != CHANNEL_GET
    ensures CallsOf(k, payload) == Success([call])
    ensures Step(clkHz, s, call) == (PwmExecute(clkHz, s, k, payload).0, Ok)
  {
    call := CallsOf(k, payload).value[0];
    assert CallsOf(k, payload).value == [call];
    PerformOne(clkHz, s, call);
  }

  // ----- frequencies

  /** A group is off, or tuned to the frequency asked and counting. */
  predicate TunedTo(clkHz: uint32, g: Group, f: Option<nat>) {
    match f
    case None => g.Off?
    case Some(hz) =>
      && g.On? && g.running && InFrequencyRange(hz) && clkHz / hz >= 2
      && g.psc == PrescalerFor(clkHz / hz) && g.arr == ReloadFor(clkHz / hz)
  }

  /** The driver's frequencies move as the host's view of them does. */
  lemma FrequencyStep(clkHz: uint32, s: PwmState, k: PwmCommand, payload: seq<byte>, group: nat, f: Option<nat>)
    requires PwmExecute(clkHz, s, k, payload).1 == Ok && group < INSTANCES
    requires TunedTo(clkHz, s.groups[group], f)
    ensures |payload| == PayloadLength(k)
    ensures TunedTo(clkHz, PwmExecute(clkHz, s, k, payload).0.groups[group], FrequencyAfterAck(k, payload, group, f))
  {
    if k == GROUP_CFG {
      SetupTunes(clkHz, s, payload[4], Le32(payload[..4]), group, f);
    } else if k != CHANNEL_GET && k != GROUP_GET {
      var call := OnlyCall(clkHz, s, k, payload);
      OtherCallsKeepTuning(clkHz, s, call, group, f);
    }
  }

  lemma SetupTunes(clkHz: uint32, s: PwmState, i: nat, hz: uint32, group: nat, f: Option<nat>)
    requires group < INSTANCES && TunedTo(clkHz, s.groups[group], f)
    requires PerformAll(clkHz, s, [Call.Init(i, hz), Call.Start(i)]).1 == Ok
    ensures TunedTo(clkHz, PerformAll(clkHz, s, [Call.Init(i, hz), Call.Start(i)]).0.groups[group],
                    if i == group then Some(hz) else f)
  {
    PerformSetup(clkHz, s, i, hz);
  }

  lemma OtherCallsKeepTuning(clkHz: uint32, s: PwmState, call: Call, group: nat, f: Option<nat>)
    requires group < INSTANCES && TunedTo(clkHz, s.groups[group], f)
    requires Step(clkHz, s, call).1 == Ok && (call.Claim? || call.Release? || call.SetDuty? || call.Deinit?)
    ensures TunedTo(clkHz, Step(clkHz, s, call).0.groups[group], if call.Deinit? && call.i == group then None else f)
  {
  }

  // ----- pins

  /** What an acknowledged command makes of a pin's mode: a claim routes it to the timer, a
      release of the pin or of a group that had claimed it leaves it an input. */
  function ModeAfterAck(k: PwmCommand, payload: seq<byte>, p: PinId, duty: Option<nat>, earlier: nat): nat
    requires |payload| == PayloadLength(k)
  {
    match k
    case CHANNEL_CFG => if PinNamed(payload) == p then MODE_AF else earlier
    case CHANNEL_RELEASE => if PinNamed(payload) == p then MODE_INPUT else earlier
    case GROUP_RELEASE => if GroupOf(p) == Some(ByteAt(payload, 0)) && duty.Some? then MODE_INPUT else earlier
    case _ => earlier
  }

  /** Everything of the pins but their configuration fields. */
  predicate SameLines(g: GpioState, h: GpioState) {
    g.levels == h.levels && g.inputs == h.inputs && g.lines == h.lines
  }

  lemma AtIsInjective(p: PinId, q: PinId)
    requires InRange(p) && InRange(q)
    ensures At(p) == At(q) <==> p == q
  {
  }

  /** Handing pins back makes an input of each whose channel was claimed. */
  lemma {:induction false} PinsReleasedModes(g: GpioState, i: nat, channels: seq<Channel>, n: nat, p: PinId)
    requires i < INSTANCES && |channels| == CHANNELS && n <= CHANNELS && InRange(p)
    ensures var h := PinsReleased(g, i, channels, n);
      && SameLines(g, h)
      && h.mode[At(p)] == if exists c :: 0 <= c < n && channels[c].Claimed? && PinOf(i, c) == p then MODE_INPUT else g.mode[At(p)]
  {
    if n > 0 {
      PinsReleasedModes(g, i, channels, n - 1, p);
      AtIsInjective(p, PinOf(i, n - 1));
    }
  }

  lemma ModeCall(clkHz: uint32, s: PwmState, call: Call, p: PinId)
    requires !call.OtherPinUse? && Step(clkHz, s, call).1 == Ok && InRange(p)
    ensures SameLines(s.pins, Step(clkHz, s, call).0.pins)
    ensures Step(clkHz, s, call).0.pins.mode[At(p)] ==
      match call
      case Claim(i, c, _, _) => if ChannelOf(p) == Some((i, c)) then MODE_AF else s.pins.mode[At(p)]
      case Release(i, c) => if ChannelOf(p) == Some((i, c)) then MODE_INPUT else s.pins.mode[At(p)]
      case Deinit(i) => if GroupOf(p) == Some(i) && DutyOf(s, p).Some? then MODE_INPUT else s.pins.mode[At(p)]
      case _ => s.pins.mode[At(p)]
  {
    if call.Claim? || call.Release? {
      ChannelOfIsInverse(p, call.i, call.c);
      AtIsInjective(p, PinOf(call.i, call.c));
    } else if call.Deinit? {
      DeinitModes(s, call.i, p);
    }
  }

  lemma DeinitModes(s: PwmState, i: nat, p: PinId)
    requires i < INSTANCES && s.groups[i].On? && InRange(p)
    ensures var h := PinsReleased(s.pins, i, s.groups[i].channels, CHANNELS);
      && SameLines(s.pins, h)
      && h.mode[At(p)] == if GroupOf(p) == Some(i) && DutyOf(s, p).Some? then MODE_INPUT else s.pins.mode[At(p)]
  {
    var channels := s.groups[i].channels;
    PinsReleasedModes(s.pins, i, channels, CHANNELS, p);
    forall c | 0 <= c < CHANNELS ensures PinOf(i, c) == p <==> ChannelOf(p) == Some((i, c)) {
      ChannelOfIsInverse(p, i, c);
    }
    if GroupOf(p) == Some(i) { ChannelOfIsInverse(p, 0, 0); }
  }

  /** Pin modes move as the host's view of them does, and nothing else of the pins moves. */
  lemma ModeStep(clkHz: uint32, s: PwmState, k: PwmCommand, payload: seq<byte>, p: PinId)
    requires PwmExecute(clkHz, s, k, payload).1 == Ok && InRange(p)
    ensures |payload| == PayloadLength(k) && SameLines(s.pins, PwmExecute(clkHz, s, k, payload).0.pins)
    ensures PwmExecute(clkHz, s, k, payload).0.pins.mode[At(p)] == ModeAfterAck(k, payload, p, DutyOf(s, p), s.pins.mode[At(p)])
  {
    if k == CHANNEL_GET || k == GROUP_GET {
    } else if k == GROUP_CFG {
      SetupKeepsPins(clkHz, s, payload[4], Le32(payload[..4]));
    } else {
      var call := OnlyCall(clkHz, s, k, payload);
      ModeCall(clkHz, s, call, p);
      if k != GROUP_RELEASE && ChannelOf(PinNamed(payload)) == ChannelOf(p) { PinsAreApart(PinNamed(payload), p); }
    }
  }

  lemma SetupKeepsPins(clkHz: uint32, s: PwmState, i: nat, hz: uint32)
    requires PerformAll(clkHz, s, [Call.Init(i, hz), Call.Start(i)]).1 == Ok
    ensures PerformAll(clkHz, s, [Call.Init(i, hz), Call.Start(i)]).0.pins == s.pins
  {
    PerformSetup(clkHz, s, i, hz);
  }

  // ----- alternate functions

  /** The alternate function that connects a pin of the group to its timer: 1 for TIM2, 2 for TIM3
      and TIM4. */
  function TimerFunction(group: nat): nat { if group == 0 then 1 else 2 }

  /** What an acknowledged command makes of a pin's alternate function. */
  function FunctionAfterAck(k: PwmCommand, payload: seq<byte>, p: PinId, duty: Option<nat>, earlier: nat): nat
    requires |payload| == PayloadLength(k) && ChannelOf(p).Some?
  {
    match k
    case CHANNEL_CFG => if PinNamed(payload) == p then TimerFunction(ChannelOf(p).value.0) else earlier
    case CHANNEL_RELEASE => if PinNamed(payload) == p then 0 else earlier
    case GROUP_RELEASE => if GroupOf(p) == Some(ByteAt(payload, 0)) && duty.Some? then 0 else earlier
    case _ => earlier
  }

  lemma {:induction false} PinsReleasedFunctions(g: GpioState, i: nat, channels: seq<Channel>, n: nat, p: PinId)
    requires i < INSTANCES && |channels| == CHANNELS && n <= CHANNELS && InRange(p)
    ensures PinsReleased(g, i, channels, n).af[At(p)] ==
      if exists c :: 0 <= c < n && channels[c].Claimed? && PinOf(i, c) == p then 0 else g.af[At(p)]
  {
    if n > 0 {
      PinsReleasedFunctions(g, i, channels, n - 1, p);
      AtIsInjective(p, PinOf(i, n - 1));
    }
  }

  lemma DeinitFunctions(s: PwmState, i: nat, p: PinId)
    requires i < INSTANCES && s.groups[i].On? && InRange(p)
    ensures PinsReleased(s.pins, i, s.groups[i].channels, CHANNELS).af[At(p)] ==
      if GroupOf(p) == Some(i) && DutyOf(s, p).Some? then 0 else s.pins.af[At(p)]
  {
    var channels := s.groups[i].channels;
    PinsReleasedFunctions(s.pins, i, channels, CHANNELS, p);
    forall c | 0 <= c < CHANNELS ensures PinOf(i, c) == p <==> ChannelOf(p) == Some((i, c)) {
      ChannelOfIsInverse(p, i, c);
    }
    if GroupOf(p) == Some(i) { ChannelOfIsInverse(p, 0, 0); }
  }

  lemma FunctionCall(clkHz: uint32, s: PwmState, call: Call, p: PinId)
    requires !call.OtherPinUse? && Step(clkHz, s, call).1 == Ok && InRange(p)
    ensures Step(clkHz, s, call).0.pins.af[At(p)] ==
      match call
      case Claim(i, c, _, _) => if ChannelOf(p) == Some((i, c)) then TimerFunction(i) else s.pins.af[At(p)]
      case Release(i, c) => if ChannelOf(p) == Some((i, c)) then 0 else s.pins.af[At(p)]
      case Deinit(i) => if GroupOf(p) == Some(i) && DutyOf(s, p).Some? then 0 else s.pins.af[At(p)]
      case _ => s.pins.af[At(p)]
  {
    if call.Claim? || call.Release? {
      ChannelOfIsInverse(p, call.i, call.c);
      AtIsInjective(p, PinOf(call.i, call.c));
    } else if call.Deinit? {
      DeinitFunctions(s, call.i, p);
    }
  }

  /** Each acknowledged command changes the alternate function of exactly the pins it claims or
      releases. */
  lemma FunctionStep(clkHz: uint32, s: PwmState, k: PwmCommand, payload: seq<byte>, p: PinId)
    requires PwmExecute(clkHz, s, k, payload).1 == Ok && InRange(p) && ChannelOf(p).Some?
    ensures |payload| == PayloadLength(k)
    ensures PwmExecute(clkHz, s, k, payload).0.pins.af[At(p)] == FunctionAfterAck(k, payload, p, DutyOf(s, p), s.pins.af[At(p)])
  {
    if k == CHANNEL_GET || k == GROUP_GET {
    } else if k == GROUP_CFG {
      SetupKeepsPins(clkHz, s, payload[4], Le32(payload[..4]));
    } else {
      var call := OnlyCall(clkHz, s, k, payload);
      FunctionCall(clkHz, s, call, p);
      if k == CHANNEL_CFG || k == CHANNEL_RELEASE { ChannelCommand(k, payload, p, None); }
    }
  }
}

/** Every PWM order the host can send does on the firmware what the reference device says. */
module PwmOrders {
  import opened Words
  import opened Status
  import opened Gpio
  import opened Timebase
  import opened TimerRegisters
  import opened Timer
  import opened TimerDriver
  import opened PwmController
  import opened PwmView
  import opened CommandDispatcher
  import opened DeviceRelation
  import opened GpioOrders
  import C = HostClient
  import R = ReferenceDevice

  const CLOCK: uint32 := 170_000_000

  ghost predicate PwmStands(s: PwmState, d: R.Device) {
    PinsStand(s.pins, s.groups, d.pins) && GroupsStand(s.groups, d.groups)
  }

  /** A PWM command gives the answer and the device `r`, and leaves lines and samples alone. */
  ghost predicate PwmGives(s: PwmState, d: R.Device, k: PwmCommand, payload: seq<byte>, width: nat, r: (R.Device, R.Answer)) {
    var (t, status, value) := PwmExecute(CLOCK, s, k, payload);
    && PwmStands(t, r.0) && t.pins.lines == s.pins.lines && t.pins.inputs == s.pins.inputs
    && r.0.lines == d.lines && r.0.live == d.live && r.0.samples == d.samples
    && Matches(status, value, width, r.1)
  }

  lemma LiftPwm(start: R.Device, m: Machine, d: R.Device, k: PwmCommand, o: C.Order)
    requires CommandOf(C.Opcode(o)) == Some(PWM(k)) && !o.Reset? && StandsFor(m, d)
    requires PwmGives(m.pwm, d, k, C.Payload(o), WidthOf(PWM(k)), R.Serve(start, d, o))
    ensures ServedAlike(start, m, d, o)
  {
  }

  // ----- numbers on the wire

  lemma Digits16(n: uint16)
    ensures Le16(C.TwoBytes(n)) == n
  {
  }

  lemma Digits32(n: uint32)
    ensures Le32(C.FourBytes(n)) == n
  {
    assert n / 0x100 / 0x100 == n / 0x1_0000 && n / 0x1_0000 / 0x100 == n / 0x100_0000;
  }

  // ----- groups

  lemma InRangeIsReachable(hz: uint32)
    requires 1 <= hz <= 1_000_000
    ensures InFrequencyRange(hz) && CLOCK / hz >= 2
  {
    AchievedFrequency(hz);
  }

  /** A group set up and counting. */
  function Going(hz: uint32): (g: Group)
    requires hz > 0 && CLOCK / hz >= 2
    ensures WellFormed(g) && g.On? && g.channels == ALL_FREE && g.running
    ensures g.psc == PrescalerFor(CLOCK / hz) && g.arr == ReloadFor(CLOCK / hz)
  {
    Tuned(CLOCK, hz, true, ALL_FREE)
  }

  lemma SetUpRefused(clkHz: uint32, s: PwmState, hz: uint32, i: nat)
    requires i >= 3 || InitStatus(clkHz, s.groups[i], hz) != Ok
    ensures PerformAll(clkHz, s, [Call.Init(i, hz), Call.Start(i)]) ==
      (s, if i >= 3 then InvalidArg else InitStatus(clkHz, s.groups[i], hz))
  {
    PerformSetup(clkHz, s, i, hz);
  }

  lemma SetUpAccepted(s: PwmState, hz: uint32, i: nat)
    requires i < 3 && InitStatus(CLOCK, s.groups[i], hz) == Ok
    ensures PerformAll(CLOCK, s, [Call.Init(i, hz), Call.Start(i)]) == (s.(groups := s.groups[i := Going(hz)]), Ok)
  {
    PerformSetup(CLOCK, s, i, hz);
    var t := Step(CLOCK, s, Call.Init(i, hz)).0;
    assert t.groups == s.groups[i := SetUp(CLOCK, hz)];
    assert s.groups[i := SetUp(CLOCK, hz)][i := Going(hz)] == s.groups[i := Going(hz)];
  }

  lemma SetUpExecutes(s: PwmState, hz: uint32, group: byte, payload: seq<byte>)
    requires payload == C.FourBytes(hz) + [group]
    ensures PwmExecute(CLOCK, s, GROUP_CFG, payload) ==
      if group >= 3 then (s, InvalidArg, 0)
      else
        var (t, status) := PerformAll(CLOCK, s, [Call.Init(group, hz), Call.Start(group)]);
        (t, status, 0)
  {
    assert payload[..4] == C.FourBytes(hz);
    Digits32(hz);
  }

  /** Setting up a group that is off changes that group alone. */
  lemma SetUpEffect(s: PwmState, d: R.Device, hz: uint32, i: nat)
    requires PwmStands(s, d) && i < 3 && s.groups[i].Off? && 1 <= hz <= 1_000_000 && CLOCK / hz >= 2
    ensures PwmStands(s.(groups := s.groups[i := Going(hz)]), d.(groups := d.groups[i := Some(hz)]))
  {
    var groups, xs := s.groups[i := Going(hz)], d.groups[i := Some(hz)];
    forall p: PinId | InRange(p) ensures PinStands(s.pins, groups, p, d.pins[At(p)]) {
      assert PinStands(s.pins, s.groups, p, d.pins[At(p)]);
    }
    forall k: nat | k < 3 ensures GroupStands(groups[k], xs[k]) {
      assert GroupStands(s.groups[k], d.groups[k]);
    }
  }

  lemma SetUpGives(s: PwmState, d: R.Device, hz: uint32, group: byte, payload: seq<byte>)
    requires PwmStands(s, d) && payload == C.FourBytes(hz) + [group]
    ensures PwmGives(s, d, GROUP_CFG, payload, 0, R.SetUpGroup(d, hz, group))
  {
    SetUpExecutes(s, hz, group, payload);
    if group < 3 {
      assert GroupStands(s.groups[group], d.groups[group]);
      if 1 <= hz <= 1_000_000 { InRangeIsReachable(hz); }
      if InitStatus(CLOCK, s.groups[group], hz) == Ok {
        SetUpAccepted(s, hz, group);
        SetUpEffect(s, d, hz, group);
      } else {
        SetUpRefused(CLOCK, s, hz, group);
      }
    }
  }

  // ----- channels

  /** The configuration fields and the level of one pin are the same. */
  predicate SameAt(g: GpioState, h: GpioState, i: nat)
    requires i < PINS
  {
    && h.mode[i] == g.mode[i] && h.af[i] == g.af[i] && h.levels[i] == g.levels[i]
    && h.otype[i] == g.otype[i] && h.pull[i] == g.pull[i] && h.speed[i] == g.speed[i]
  }

  /** No other pin is wired to that channel. */
  lemma OtherDutyShown(groups: Groups, p: PinId, i: nat, c: nat, k: Channel, q: PinId, duty: Option<R.Duty>)
    requires R.Wired(p) == Some((i, c)) && q != p && groups[i].On? && (k.Claimed? ==> k.duty <= TIMER_DUTY_MAX)
    requires DutyShown(groups, q, duty)
    ensures DutyShown(groups[i := WithChannel(groups[i], c, k)], q, duty)
  {
    SameWiring(p);
    SameWiring(q);
  }

  /** One pin and its channel change. */
  lemma ChannelEffect(s: PwmState, d: R.Device, p: PinId, i: nat, c: nat, t: PwmState, k: Channel, x: R.Pin)
    requires PwmStands(s, d) && InRange(p) && R.Wired(p) == Some((i, c)) && s.groups[i].On?
    requires k.Claimed? ==> k.duty <= TIMER_DUTY_MAX
    requires t.groups == s.groups[i := WithChannel(s.groups[i], c, k)]
    requires forall j: nat :: j < PINS && j != At(p) ==> SameAt(s.pins, t.pins, j)
    requires PinStands(t.pins, t.groups, p, x)
    ensures R.Exists(p) && PwmStands(t, R.WithPin(d, p, x))
  {
    var xs := R.WithPin(d, p, x).pins;
    SamePins(p);
    SameWiring(p);
    forall q: PinId | InRange(q) ensures PinStands(t.pins, t.groups, q, xs[At(q)]) {
      AtIsInjective(p, q);
      if q != p {
        assert SameAt(s.pins, t.pins, At(q)) && PinStands(s.pins, s.groups, q, d.pins[At(q)]);
        OtherDutyShown(s.groups, p, i, c, k, q, d.pins[At(q)].duty);
      }
    }
    forall k: nat | k < 3 ensures GroupStands(t.groups[k], d.groups[k]) {
      assert GroupStands(s.groups[k], d.groups[k]);
    }
  }

  /** The firmware's resolution of a pin is the reference device's wiring. */
  lemma ResolveIsWiring(p: PinId)
    ensures Resolve(p.port, p.num) ==
      if !R.Exists(p) then Failure(InvalidPin) else if R.Wired(p).None? then Failure(Unsupported) else Success(R.Wired(p).value)
  {
    SamePins(p);
    SameWiring(p);
  }

  lemma ClaimExecutes(clkHz: uint32, s: PwmState, polarity: C.Polarity, p: PinId, payload: seq<byte>)
    requires payload == [polarity.Code(), p.port, p.num]
    ensures PwmExecute(clkHz, s, CHANNEL_CFG, payload) ==
      if !R.Exists(p) then (s, InvalidPin, 0)
      else if R.Wired(p).None? then (s, Unsupported, 0)
      else
        var (i, c) := R.Wired(p).value;
        var (t, status) := Step(clkHz, s, Call.Claim(i, c, 0, polarity.Code()));
        (t, status, 0)
  {
    ResolveIsWiring(p);
    if R.Wired(p).Some? {
      var (i, c) := R.Wired(p).value;
      PerformOne(clkHz, s, Call.Claim(i, c, 0, polarity.Code()));
    }
  }

  lemma ClaimStep(s: PwmState, d: R.Device, polarity: C.Polarity, p: PinId, i: nat, c: nat)
    requires PwmStands(s, d) && R.Wired(p) == Some((i, c)) && InRange(p)
    ensures var (t, status) := Step(CLOCK, s, Call.Claim(i, c, 0, polarity.Code()));
      var (e, a) := R.Claim(d, polarity, p);
      && PwmStands(t, e) && t.pins.lines == s.pins.lines && t.pins.inputs == s.pins.inputs
      && e.lines == d.lines && e.live == d.live && e.samples == d.samples && Matches(status, 0, 0, a)
  {
    SamePins(p);
    SameWiring(p);
    RoleIsMode(s.pins, s.groups, d, p);
    assert PinStands(s.pins, s.groups, p, d.pins[At(p)]);
    assert GroupStands(s.groups[i], d.groups[i]);
    var (t, status) := Step(CLOCK, s, Call.Claim(i, c, 0, polarity.Code()));
    if status == Ok {
      ChannelEffect(s, d, p, i, c, t, Claimed(0, polarity == C.ACTIVE_LOW), R.PinAt(R.Claim(d, polarity, p).0, p));
    }
  }

  lemma ClaimGives(s: PwmState, d: R.Device, polarity: C.Polarity, p: PinId, payload: seq<byte>)
    requires PwmStands(s, d) && payload == [polarity.Code(), p.port, p.num]
    ensures PwmGives(s, d, CHANNEL_CFG, payload, 0, R.Claim(d, polarity, p))
  {
    ClaimExecutes(CLOCK, s, polarity, p, payload);
    SamePins(p);
    if R.Wired(p).Some? {
      ClaimStep(s, d, polarity, p, R.Wired(p).value.0, R.Wired(p).value.1);
    }
  }

  lemma SetDutyExecutes(clkHz: uint32, s: PwmState, duty: uint16, p: PinId, payload: seq<byte>, port: byte, pin: byte)
    requires payload == C.TwoBytes(duty) + [port, pin] && p == PinId(port, pin)
    ensures PwmExecute(clkHz, s, CHANNEL_SET, payload) ==
      if !R.Exists(p) then (s, InvalidPin, 0)
      else if R.Wired(p).None? then (s, Unsupported, 0)
      else
        var (i, c) := R.Wired(p).value;
        var (t, status) := Step(clkHz, s, Call.SetDuty(i, c, duty));
        (t, status, 0)
  {
    ResolveIsWiring(p);
    assert payload[..2] == C.TwoBytes(duty);
    Digits16(duty);
    if R.Wired(p).Some? {
      var (i, c) := R.Wired(p).value;
      PerformOne(clkHz, s, Call.SetDuty(i, c, duty));
    }
  }

  lemma SetDutyStep(s: PwmState, d: R.Device, duty: uint16, p: PinId, i: nat, c: nat)
    requires PwmStands(s, d) && R.Wired(p) == Some((i, c)) && InRange(p)
    ensures var (t, status) := Step(CLOCK, s, Call.SetDuty(i, c, duty));
      var (e, a) := R.SetDuty(d, duty, p);
      && PwmStands(t, e) && t.pins == s.pins
      && e.lines == d.lines && e.live == d.live && e.samples == d.samples && Matches(status, 0, 0, a)
  {
    SamePins(p);
    assert PinStands(s.pins, s.groups, p, d.pins[At(p)]);
    var (t, status) := Step(CLOCK, s, Call.SetDuty(i, c, duty));
    if status == Ok {
      ChannelEffect(s, d, p, i, c, t, t.groups[i].channels[c], R.PinAt(R.SetDuty(d, duty, p).0, p));
    }
  }

  lemma SetDutyGives(s: PwmState, d: R.Device, duty: uint16, port: byte, pin: byte, payload: seq<byte>)
    requires PwmStands(s, d) && payload == C.TwoBytes(duty) + [port, pin]
    ensures PwmGives(s, d, CHANNEL_SET, payload, 0, R.SetDuty(d, duty, PinId(port, pin)))
  {
    var p := PinId(port, pin);
    SetDutyExecutes(CLOCK, s, duty, p, payload, port, pin);
    SamePins(p);
    if R.Wired(p).Some? { SetDutyStep(s, d, duty, p, R.Wired(p).value.0, R.Wired(p).value.1); }
  }

  lemma ReleaseExecutes(clkHz: uint32, s: PwmState, p: PinId, payload: seq<byte>)
    requires payload == [p.port, p.num]
    ensures PwmExecute(clkHz, s, CHANNEL_RELEASE, payload) ==
      if !R.Exists(p) then (s, InvalidPin, 0)
      else if R.Wired(p).None? then (s, Unsupported, 0)
      else
        var (i, c) := R.Wired(p).value;
        var (t, status) := Step(clkHz, s, Call.Release(i, c));
        (t, status, 0)
  {
    ResolveIsWiring(p);
    if R.Wired(p).Some? {
      var (i, c) := R.Wired(p).value;
      PerformOne(clkHz, s, Call.Release(i, c));
    }
  }

  lemma ReleaseStep(s: PwmState, d: R.Device, p: PinId, i: nat, c: nat)
    requires PwmStands(s, d) && R.Wired(p) == Some((i, c)) && InRange(p)
    ensures var (t, status) := Step(CLOCK, s, Call.Release(i, c));
      var (e, a) := R.Release(d, p);
      && PwmStands(t, e) && t.pins.lines == s.pins.lines && t.pins.inputs == s.pins.inputs
      && e.lines == d.lines && e.live == d.live && e.samples == d.samples && Matches(status, 0, 0, a)
  {
    SamePins(p);
    SameWiring(p);
    assert PinStands(s.pins, s.groups, p, d.pins[At(p)]);
    var (t, status) := Step(CLOCK, s, Call.Release(i, c));
    if status == Ok { ChannelEffect(s, d, p, i, c, t, Free, R.Released(R.PinAt(d, p))); }
  }

  lemma ReleaseGives(s: PwmState, d: R.Device, p: PinId, payload: seq<byte>)
    requires PwmStands(s, d) && payload == [p.port, p.num]
    ensures PwmGives(s, d, CHANNEL_RELEASE, payload, 0, R.Release(d, p))
  {
    ReleaseExecutes(CLOCK, s, p, payload);
    SamePins(p);
    if R.Wired(p).Some? { ReleaseStep(s, d, p, R.Wired(p).value.0, R.Wired(p).value.1); }
  }

  lemma ReadDutyGives(s: PwmState, d: R.Device, p: PinId, payload: seq<byte>)
    requires PwmStands(s, d) && payload == [p.port, p.num]
    ensures PwmGives(s, d, CHANNEL_GET, payload, 2, R.ReadDuty(d, p))
  {
    ResolveIsWiring(p);
    SamePins(p);
    if R.Wired(p).Some? {
      assert PinStands(s.pins, s.groups, p, d.pins[At(p)]);
      ReadDuty(CLOCK, s, payload, R.Wired(p).value.0, R.Wired(p).value.1);
    }
  }

  lemma ReadFrequencyGives(s: PwmState, d: R.Device, group: byte)
    requires PwmStands(s, d)
    ensures PwmGives(s, d, GROUP_GET, [group], 4, R.ReadFrequency(d, group))
  {
    if group < 3 {
      assert GroupStands(s.groups[group], d.groups[group]);
      if d.groups[group].Some? { AchievedFrequency(d.groups[group].value); }
    }
  }

  // ----- releasing a group

  /** Whether the pin's channel is among the first `n` of timer `i` and claimed. */
  predicate HandedBack(i: nat, channels: seq<Channel>, n: nat, p: PinId)
    requires |channels| == CHANNELS && n <= CHANNELS
  {
    R.Wired(p).Some? && R.Wired(p).value.0 == i && R.Wired(p).value.1 < n && channels[R.Wired(p).value.1].Claimed?
  }

  lemma {:induction false} PinsHandedBack(g: GpioState, i: nat, channels: seq<Channel>, n: nat, p: PinId)
    requires i < INSTANCES && |channels| == CHANNELS && n <= CHANNELS && InRange(p)
    ensures var h, j := PinsReleased(g, i, channels, n), At(p);
      && h.lines == g.lines && h.inputs == g.inputs && h.levels == g.levels
      && if HandedBack(i, channels, n, p) then
           h.mode[j] == 0 && h.af[j] == 0 && h.otype[j] == 0 && h.speed[j] == 0 && h.pull[j] == 0
         else SameAt(g, h, j)
  {
    if n > 0 {
      PinsHandedBack(g, i, channels, n - 1, p);
      SameWiring(p);
      AtIsInjective(p, PinOf(i, n - 1));
    }
  }

  lemma {:induction false} LinesKept(g: GpioState, i: nat, channels: seq<Channel>, n: nat)
    requires i < INSTANCES && |channels| == CHANNELS && n <= CHANNELS
    ensures PinsReleased(g, i, channels, n).lines == g.lines && PinsReleased(g, i, channels, n).inputs == g.inputs
  {
    if n > 0 { LinesKept(g, i, channels, n - 1); }
  }

  lemma TornDownPin(s: PwmState, d: R.Device, i: nat, n: nat, p: PinId)
    requires PwmStands(s, d) && i < 3 && s.groups[i].On? && InRange(p) && n == CHANNELS
    ensures PinStands(PinsReleased(s.pins, i, s.groups[i].channels, n), s.groups[i := Off], p, R.TornDown(d, i).pins[At(p)])
  {
    PinsHandedBack(s.pins, i, s.groups[i].channels, n, p);
    SamePins(p);
    assert PinStands(s.pins, s.groups, p, d.pins[At(p)]);
    assert PinId(At(p) / 16, At(p) % 16) == p;
  }

  lemma TornDownPins(s: PwmState, d: R.Device, i: nat, h: GpioState, n: nat, groups: Groups, xs: seq<R.Pin>)
    requires PwmStands(s, d) && i < 3 && s.groups[i].On?
    requires n == CHANNELS && h == PinsReleased(s.pins, i, s.groups[i].channels, n) && groups == s.groups[i := Off]
    requires xs == R.TornDown(d, i).pins
    ensures PinsStand(h, groups, xs)
  {
    forall p: PinId | InRange(p) ensures PinStands(h, groups, p, xs[At(p)]) { TornDownPin(s, d, i, n, p); }
  }

  lemma TornDownGroups(s: PwmState, d: R.Device, i: nat)
    requires PwmStands(s, d) && i < 3
    ensures GroupsStand(s.groups[i := Off], d.groups[i := None])
  {
    var groups, xs := s.groups[i := Off], d.groups[i := None];
    forall k: nat | k < 3 ensures GroupStands(groups[k], xs[k]) { assert GroupStands(s.groups[k], d.groups[k]); }
  }

  lemma TearDownEffect(s: PwmState, d: R.Device, i: nat, h: GpioState, n: nat, e: R.Device)
    requires PwmStands(s, d) && i < 3 && s.groups[i].On?
    requires n == CHANNELS && h == PinsReleased(s.pins, i, s.groups[i].channels, n) && e == R.TornDown(d, i)
    ensures PwmStands(PwmState(h, s.groups[i := Off]), e) && h.lines == s.pins.lines && h.inputs == s.pins.inputs
  {
    LinesKept(s.pins, i, s.groups[i].channels, n);
    TornDownPins(s, d, i, h, n, s.groups[i := Off], e.pins);
    TornDownGroups(s, d, i);
    BothStand(PwmState(h, s.groups[i := Off]), e, d.groups[i := None]);
  }

  lemma BothStand(t: PwmState, e: R.Device, ys: seq<Option<nat>>)
    requires |ys| == 3 && e.groups == ys && PinsStand(t.pins, t.groups, e.pins) && GroupsStand(t.groups, ys)
    ensures PwmStands(t, e)
  {
  }

  lemma TearDownGives(s: PwmState, d: R.Device, group: byte)
    requires PwmStands(s, d)
    ensures PwmGives(s, d, GROUP_RELEASE, [group], 0, R.TearDown(d, group))
  {
    if group < 3 {
      OneCall(CLOCK, s, GROUP_RELEASE, [group], Call.Deinit(group));
      assert GroupStands(s.groups[group], d.groups[group]);
      if s.groups[group].On? { TearDownEffect(s, d, group, PinsReleased(s.pins, group, s.groups[group].channels, CHANNELS), CHANNELS, R.TornDown(d, group)); }
    }
  }

  // ----- all of them

  predicate IsPwm(o: C.Order) {
    o.GroupCfg? || o.GroupRelease? || o.GroupGet? || o.ChannelCfg? || o.ChannelSet? || o.ChannelRelease? || o.ChannelGet?
  }

  lemma GroupOrderServed(start: R.Device, m: Machine, d: R.Device, o: C.Order)
    requires StandsFor(m, d) && (o.GroupCfg? || o.GroupRelease? || o.GroupGet?)
    ensures ServedAlike(start, m, d, o)
  {
    match o
    case GroupCfg(hz, group) =>
      SetUpGives(m.pwm, d, hz, group, C.Payload(o));
      LiftPwm(start, m, d, GROUP_CFG, o);
    case GroupRelease(group) =>
      TearDownGives(m.pwm, d, group);
      LiftPwm(start, m, d, GROUP_RELEASE, o);
    case GroupGet(group) =>
      ReadFrequencyGives(m.pwm, d, group);
      LiftPwm(start, m, d, GROUP_GET, o);
  }

  lemma ClaimOrderServed(start: R.Device, m: Machine, d: R.Device, o: C.Order)
    requires StandsFor(m, d) && (o.ChannelCfg? || o.ChannelRelease?)
    ensures ServedAlike(start, m, d, o)
  {
    match o
    case ChannelCfg(polarity, port, pin) =>
      ClaimGives(m.pwm, d, polarity, PinId(port, pin), C.Payload(o));
      LiftPwm(start, m, d, CHANNEL_CFG, o);
    case ChannelRelease(port, pin) =>
      ReleaseGives(m.pwm, d, PinId(port, pin), C.Payload(o));
      LiftPwm(start, m, d, CHANNEL_RELEASE, o);
  }

  lemma DutyOrderServed(start: R.Device, m: Machine, d: R.Device, o: C.Order)
    requires StandsFor(m, d) && (o.ChannelSet? || o.ChannelGet?)
    ensures ServedAlike(start, m, d, o)
  {
    match o
    case ChannelSet(duty, port, pin) =>
      SetDutyGives(m.pwm, d, duty, port, pin, C.Payload(o));
      LiftPwm(start, m, d, CHANNEL_SET, o);
    case ChannelGet(port, pin) =>
      ReadDutyGives(m.pwm, d, PinId(port, pin), C.Payload(o));
      LiftPwm(start, m, d, CHANNEL_GET, o);
  }

  lemma PwmServedAlike(start: R.Device, m: Machine, d: R.Device, o: C.Order)
    requires StandsFor(m, d) && IsPwm(o)
    ensures ServedAlike(start, m, d, o)
  {
    if o.GroupCfg? || o.GroupRelease? || o.GroupGet? {
      GroupOrderServed(start, m, d, o);
    } else if o.ChannelCfg? || o.ChannelRelease? {
      ClaimOrderServed(start, m, d, o);
    } else {
      DutyOrderServed(start, m, d, o);
    }
  }
}

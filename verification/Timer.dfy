/** The PWM timer driver (peripherals/timer.c): three timers of four channels, allocated
    pin by pin on top of the GPIO driver. */
module Timer {
  import opened Words
  import opened Status
  import opened Timebase
  import opened TimerRegisters
  import opened Gpio

  const INSTANCES: nat := 3

  /** timer_pins: which pin each channel drives. */
  function PinOf(i: nat, c: nat): (p: PinId)
    requires i < INSTANCES && c < CHANNELS
    ensures IsValidPin(p)
  {
    if i == 0 then
      (if c == 0 then PinId(0, 5) else if c == 1 then PinId(0, 1) else if c == 2 then PinId(1, 10) else PinId(1, 11))
    else if i == 1 then PinId(2, 6 + c)
    else PinId(1, 6 + c)
  }

  function AfOf(i: nat): (af: nat)
    ensures af < 16
  {
    if i == 0 then 1 else 2
  }

  /** The channel a pin belongs to. */
  function ChannelOf(p: PinId): Option<(nat, nat)> {
    if p.port == 0 && p.num == 5 then Some((0, 0))
    else if p.port == 0 && p.num == 1 then Some((0, 1))
    else if p.port == 1 && 10 <= p.num <= 11 then Some((0, p.num - 8))
    else if p.port == 2 && 6 <= p.num <= 9 then Some((1, p.num - 6))
    else if p.port == 1 && 6 <= p.num <= 9 then Some((2, p.num - 6))
    else None
  }

  /** The pin map is one-to-one. */
  lemma ChannelOfIsInverse(p: PinId, i: nat, c: nat)
    requires i < INSTANCES && c < CHANNELS
    ensures ChannelOf(p) == Some((i, c)) <==> PinOf(i, c) == p
    ensures ChannelOf(p).Some? ==> ChannelOf(p).value.0 < INSTANCES && ChannelOf(p).value.1 < CHANNELS
  {
  }

  /** timer_pwm_lookup_pin(): nested search of the table. */
  method LookupPin(p: PinId) returns (status: Status, instance: nat, channel: nat)
    ensures status == if ChannelOf(p).Some? then Ok else Unsupported
    ensures status == Ok ==> (instance, channel) == ChannelOf(p).value && instance < INSTANCES && channel < CHANNELS
  {
    var i := 0;
    while i < INSTANCES
      invariant i <= INSTANCES
      invariant forall k, l :: 0 <= k < i && 0 <= l < CHANNELS ==> PinOf(k, l) != p
    {
      var c := 0;
      while c < CHANNELS
        invariant c <= CHANNELS
        invariant forall l :: 0 <= l < c ==> PinOf(i, l) != p
      {
        if PinOf(i, c) == p {
          ChannelOfIsInverse(p, i, c);
          return Ok, i, c;
        }
        c := c + 1;
      }
      i := i + 1;
    }
    if ChannelOf(p).Some? {
      ChannelOfIsInverse(p, 0, 0);
      ChannelOfIsInverse(p, ChannelOf(p).value.0, ChannelOf(p).value.1);
      assert false;
    }
    return Unsupported, 0, 0;
  }

  // ----- meaning of each driver call

  predicate InFrequencyRange(f: nat) { TIMER_FREQ_MIN_HZ <= f <= TIMER_FREQ_MAX_HZ }

  predicate AreChannels(channels: seq<Channel>) {
    |channels| == CHANNELS &&
    forall c :: 0 <= c < CHANNELS ==> channels[c].Claimed? ==> channels[c].duty <= TIMER_DUTY_MAX
  }

  /** A group tuned to `f`. */
  function Tuned(clkHz: uint32, f: nat, running: bool, channels: seq<Channel>): (g: Group)
    requires f > 0 && clkHz / f >= 2 && AreChannels(channels)
    ensures WellFormed(g) && g.On?
  {
    TotalFits(clkHz, f);
    SplitProperties(clkHz / f);
    On(PrescalerFor(clkHz / f), ReloadFor(clkHz / f), running, channels)
  }

  /** A group just set up: tuned, stopped, every channel free. */
  function SetUp(clkHz: uint32, f: nat): (g: Group)
    requires f > 0 && clkHz / f >= 2
    ensures WellFormed(g) && g.On? && !g.running && g.channels == ALL_FREE
  {
    Tuned(clkHz, f, false, ALL_FREE)
  }

  function InitStatus(clkHz: uint32, g: Group, f: nat): Status {
    if !InFrequencyRange(f) then InvalidArg
    else if g.On? then Busy
    else if clkHz == 0 then NotInit
    else if clkHz / f < 2 then InvalidArg
    else Ok
  }

  function RetuneStatus(clkHz: uint32, g: Group, f: nat): Status {
    if !InFrequencyRange(f) then InvalidArg
    else if g.Off? then NotInit
    else if clkHz == 0 then NotInit
    else if clkHz / f < 2 then InvalidArg
    else Ok
  }

  /** Calls that only need an initialised group. */
  function GroupStatus(g: Group): Status {
    if g.Off? then NotInit else Ok
  }

  predicate IsClaimed(g: Group, c: nat)
    requires WellFormed(g)
  {
    g.On? && c < CHANNELS && g.channels[c].Claimed?
  }

  function ClaimStatus(g: Group, pins: GpioState, i: nat, c: nat, duty: nat, polarity: nat): Status
    requires WellFormed(g) && i < INSTANCES
  {
    if c >= CHANNELS then InvalidArg
    else if duty > TIMER_DUTY_MAX then InvalidArg
    else if polarity > 1 then InvalidArg
    else if g.Off? then NotInit
    else if g.channels[c].Claimed? then Busy
    else if !pins.IsMode(PinOf(i, c), MODE_ANALOG) then Busy
    else Ok
  }

  function ChannelStatus(g: Group, c: nat): Status
    requires WellFormed(g)
  {
    if c >= CHANNELS then InvalidArg else if !IsClaimed(g, c) then NotInit else Ok
  }

  function SetDutyStatus(g: Group, c: nat, duty: nat): Status
    requires WellFormed(g)
  {
    if c >= CHANNELS then InvalidArg else if duty > TIMER_DUTY_MAX then InvalidArg else ChannelStatus(g, c)
  }

  function WithChannel(g: Group, c: nat, k: Channel): (h: Group)
    requires WellFormed(g) && g.On? && c < CHANNELS
    requires k.Claimed? ==> k.duty <= TIMER_DUTY_MAX
    ensures WellFormed(h)
  {
    g.(channels := g.channels[c := k])
  }

  const PWM_PIN: Config := Config(MODE_AF, 0, 2, 0)

  function PinClaimed(g: GpioState, i: nat, c: nat): (h: GpioState)
    requires i < INSTANCES && c < CHANNELS
  {
    WithAf(Configured(g, PinOf(i, c), PWM_PIN), PinOf(i, c), AfOf(i))
  }

  /** Pins of the claimed channels below `n` handed back, in channel order. */
  function PinsReleased(g: GpioState, i: nat, channels: seq<Channel>, n: nat): (h: GpioState)
    requires i < INSTANCES && |channels| == CHANNELS && n <= CHANNELS
  {
    if n == 0 then g
    else
      var h := PinsReleased(g, i, channels, n - 1);
      if channels[n - 1].Claimed? then Reset(h, PinOf(i, n - 1)) else h
  }

  /** Channels with those below `n` freed. */
  function FreedBelow(channels: seq<Channel>, n: nat): (s: seq<Channel>)
    requires |channels| == CHANNELS && n <= CHANNELS
    ensures |s| == CHANNELS
    ensures forall c :: 0 <= c < CHANNELS ==> s[c] == if c < n then Free else channels[c]
  {
    seq(CHANNELS, c requires 0 <= c < CHANNELS => if c < n then Free else channels[c])
  }

  /** One timer: its registers, and its row of the driver's static arrays. */
  class TimerInstance {
    const index: nat
    var regs: TimRegs
    var initialized: bool
    var configured: seq<bool>
    var dutyPermille: seq<uint16>
    ghost var group: Group

    ghost predicate Valid()
      reads this
    {
      && index < INSTANCES
      && Shows(regs, group)
      && initialized == group.On?
      && |configured| == |dutyPermille| == CHANNELS
      && Row(configured, dutyPermille, if group.On? then group.channels else ALL_FREE)
    }

    constructor (i: nat, resetArr: uint32)
      requires i < INSTANCES
      ensures Valid() && index == i && group == Off
    {
      index := i;
      regs := TimRegs(0, 0, 0, resetArr, 0, 0, [0, 0], [0, 0, 0, 0]);
      initialized := false;
      configured := [false, false, false, false];
      dutyPermille := [0, 0, 0, 0];
      group := Off;
      new;
      forall j: nat ensures !Bit(0, j) { ZeroBit(j); }
    }

    // ----- register writes

    /** timer_load_shadow_if_stopped(): a stopped counter is updated by force, which also
        restarts it from zero. */
    method LoadShadowIfStopped()
      modifies this`regs
      ensures regs == if Counting(old(regs)) then old(regs) else old(regs).(cnt := 0, sr := 0)
    {
      if And(regs.cr1, Shl(1, CR1_CEN)) == 0 {
        regs := regs.(cnt := 0);
        regs := regs.(sr := 0);
      }
    }

    /** The register writes of timer_init(). */
    method ProgramTimebase(prescaler: nat, reload: nat)
      requires Shows(regs, Off) && IsTimebase(prescaler, reload)
      modifies this`regs
      ensures Shows(regs, On(prescaler, reload, false, ALL_FREE)) && regs.cnt == 0 && regs.sr == 0
    {
      CounterBit(CR1_ARPE);
      regs := regs.(cr1 := CR1_ARPE);
      regs := regs.(ccer := 0);
      regs := regs.(psc := prescaler);
      regs := regs.(arr := reload);
      regs := regs.(cnt := 0);
      LoadShadowIfStopped();
      forall i: nat ensures !Bit(0, i) { ZeroBit(i); }
    }

    /** The register writes of timer_deinit(), after every channel has been released. */
    method Shutdown(ghost g: Group)
      requires Shows(regs, g) && g.On? && g.channels == ALL_FREE
      modifies this`regs
      ensures Shows(regs, Off)
      ensures regs.psc == 0 && regs.arr == TIMER_RELOAD_MAX && regs.cnt == 0 && regs.sr == 0
    {
      regs := regs.(cr1 := 0);
      regs := regs.(ccer := 0);
      regs := regs.(psc := 0);
      regs := regs.(arr := TIMER_RELOAD_MAX);
      regs := regs.(cnt := 0);
      regs := regs.(sr := 0);
      forall i: nat ensures !Bit(0, i) { ZeroBit(i); }
    }

    /** timer_start() and timer_stop(). */
    method WriteCounterEnable(on: bool, ghost g: Group)
      requires Shows(regs, g) && g.On?
      modifies this`regs
      ensures Shows(regs, g.(running := on)) && regs == old(regs).(cr1 := regs.cr1)
    {
      CounterBit(regs.cr1);
      regs := regs.(cr1 := if on then SetBit(regs.cr1, CR1_CEN) else ClearBit(regs.cr1, CR1_CEN));
    }

    /** The register writes of timer_pwm_channel_init(). */
    method WriteClaim(c: nat, duty: uint16, activeLow: bool, ghost g: Group)
      requires Shows(regs, g) && g.On? && c < CHANNELS && g.channels[c].Free? && duty <= TIMER_DUTY_MAX
      modifies this`regs
      ensures Shows(regs, g.(channels := g.channels[c := Claimed(duty, activeLow)]))
      ensures CounterKept(g, old(regs), regs)
    {
      CountingIsRunning(regs, g);
      var compare := DutyToCompare(regs.arr, duty);
      ClaimShows(regs.ccer, regs.ccmr, regs.ccr, g.arr, g.channels, c, duty, activeLow, compare);
      var pos := OcmPos(c);
      var mode := AndNot(regs.ccmr[ModeHalf(c)], Or(Shl(OCM_FIELD, pos), Shl(CCS_FIELD, pos - 4)));
      mode := Or(mode, Shl(OCM_PWM_MODE1, pos));
      mode := Or(mode, Shl(1, pos - 1));
      regs := regs.(ccmr := regs.ccmr[ModeHalf(c) := mode]);
      regs := regs.(ccr := regs.ccr[c := compare]);
      var enable, polarity := Shl(1, 4 * c), Shl(1, 4 * c + 1);
      var e := AndNot(regs.ccer, Or(enable, polarity));
      if activeLow {
        e := Or(e, polarity);
      }
      e := Or(e, enable);
      regs := regs.(ccer := e);
      LoadShadowIfStopped();
    }

    /** The register writes of timer_pwm_channel_deinit(). */
    method WriteRelease(c: nat, ghost g: Group)
      requires Shows(regs, g) && g.On? && c < CHANNELS
      modifies this`regs
      ensures Shows(regs, g.(channels := g.channels[c := Free])) && regs.cnt == old(regs.cnt) && regs.sr == old(regs.sr)
    {
      ReleaseShows(regs.ccer, regs.ccmr, regs.ccr, g.arr, g.channels, c);
      var pos := OcmPos(c);
      regs := regs.(ccer := AndNot(regs.ccer, Or(Shl(1, 4 * c), Shl(1, 4 * c + 1))));
      regs := regs.(ccmr := regs.ccmr[ModeHalf(c) := AndNot(regs.ccmr[ModeHalf(c)], Or(Shl(OCM_FIELD, pos), Shl(1, pos - 1)))]);
      regs := regs.(ccr := regs.ccr[c := 0]);
    }

    /** The register writes of timer_pwm_set_duty(): the reload register already holds a
        retune that is still pending. */
    method WriteDuty(c: nat, duty: uint16, ghost g: Group)
      requires Shows(regs, g) && g.On? && c < CHANNELS && g.channels[c].Claimed? && duty <= TIMER_DUTY_MAX
      modifies this`regs
      ensures Shows(regs, g.(channels := g.channels[c := g.channels[c].(duty := duty)]))
      ensures CounterKept(g, old(regs), regs)
    {
      CountingIsRunning(regs, g);
      var compare := DutyToCompare(regs.arr, duty);
      regs := regs.(ccr := regs.ccr[c := compare]);
      LoadShadowIfStopped();
      ghost var after := g.channels[c := g.channels[c].(duty := duty)];
      assert forall i: nat :: EnableBit(after, i) == EnableBit(g.channels, i);
      assert forall i: nat :: ModeBit(after, 0, i) == ModeBit(g.channels, 0, i);
      assert forall i: nat :: ModeBit(after, 1, i) == ModeBit(g.channels, 1, i);
    }

    /** The register writes of timer_set_frequency(): each configured channel's compare
        value is computed afresh from its remembered duty. */
    method WriteRetune(prescaler: nat, reload: nat, configured: seq<bool>, duties: seq<uint16>, ghost g: Group)
      requires Shows(regs, g) && g.On? && IsTimebase(prescaler, reload)
      requires |configured| == |duties| == CHANNELS
      requires forall c :: 0 <= c < CHANNELS ==> configured[c] == g.channels[c].Claimed?
      requires forall c :: 0 <= c < CHANNELS ==> configured[c] ==> duties[c] == g.channels[c].duty
      modifies this`regs
      ensures Shows(regs, g.(psc := prescaler, arr := reload))
      ensures CounterKept(g, old(regs), regs)
    {
      CountingIsRunning(regs, g);
      regs := regs.(psc := prescaler);
      regs := regs.(arr := reload);
      ghost var before := regs;
      var c := 0;
      while c < CHANNELS
        invariant 0 <= c <= CHANNELS && |regs.ccr| == CHANNELS
        invariant regs == before.(ccr := regs.ccr)
        invariant forall k :: 0 <= k < CHANNELS ==> regs.ccr[k] == CompareOf(if k < c then reload else g.arr, g.channels[k])
      {
        if configured[c] {
          var compare := DutyToCompare(reload, duties[c]);
          regs := regs.(ccr := regs.ccr[c := compare]);
        }
        c := c + 1;
      }
      LoadShadowIfStopped();
    }

    // ----- driver calls

    /** timer_init(). */
    method Init(clkHz: uint32, frequencyHz: uint32) returns (status: Status)
      requires Valid()
      modifies this`initialized, this`group, this`regs
      ensures Valid()
      ensures status == InitStatus(clkHz, old(group), frequencyHz)
      ensures status == Ok ==> group == SetUp(clkHz, frequencyHz) && regs.cnt == 0 && regs.sr == 0
      ensures status != Ok ==> unchanged(this)
    {
      if frequencyHz < TIMER_FREQ_MIN_HZ || frequencyHz > TIMER_FREQ_MAX_HZ {
        return InvalidArg;
      }
      if initialized {
        return Busy;
      }
      if clkHz == 0 {
        return NotInit;
      }
      var psc, arr;
      status, psc, arr := ComputeTimebase(clkHz, frequencyHz);
      if status != Ok {
        return status;
      }
      ProgramTimebase(psc, arr);
      initialized := true;
      group := On(psc, arr, false, ALL_FREE);
      return Ok;
    }

    /** timer_start() and timer_stop(). */
    method SetRunning(on: bool) returns (status: Status)
      requires Valid()
      modifies this`group, this`regs
      ensures Valid()
      ensures status == GroupStatus(old(group))
      ensures status == Ok ==> group == old(group).(running := on) && regs == old(regs).(cr1 := regs.cr1)
      ensures status != Ok ==> unchanged(this)
    {
      if !initialized {
        return NotInit;
      }
      WriteCounterEnable(on, group);
      group := group.(running := on);
      return Ok;
    }

    /** timer_get_frequency(): a wrapping 32-bit product of the two registers. */
    method GetFrequency(clkHz: uint32) returns (status: Status, frequencyHz: nat)
      requires Valid()
      ensures status == if group.Off? || clkHz == 0 then NotInit else Ok
      ensures status == Ok ==> frequencyHz == ReadBack(clkHz, group.psc, group.arr)
    {
      frequencyHz := 0;
      if !initialized {
        return NotInit, frequencyHz;
      }
      if clkHz == 0 {
        return NotInit, frequencyHz;
      }
      frequencyHz := ComputeReadBack(clkHz, regs.psc, regs.arr);
      return Ok, frequencyHz;
    }

    /** timer_set_frequency(): the duties stay, every compare value is recomputed. */
    method SetFrequency(clkHz: uint32, frequencyHz: uint32) returns (status: Status)
      requires Valid()
      modifies this`group, this`regs
      ensures Valid()
      ensures status == RetuneStatus(clkHz, old(group), frequencyHz)
      ensures status == Ok ==> group == Tuned(clkHz, frequencyHz, old(group).running, old(group).channels)
      ensures status == Ok ==> CounterKept(old(group), old(regs), regs)
      ensures status != Ok ==> unchanged(this)
    {
      if frequencyHz < TIMER_FREQ_MIN_HZ || frequencyHz > TIMER_FREQ_MAX_HZ {
        return InvalidArg;
      }
      if !initialized {
        return NotInit;
      }
      if clkHz == 0 {
        return NotInit;
      }
      var psc, arr;
      status, psc, arr := ComputeTimebase(clkHz, frequencyHz);
      if status != Ok {
        return status;
      }
      WriteRetune(psc, arr, configured, dutyPermille, group);
      group := group.(psc := psc, arr := arr);
      return Ok;
    }

    /** timer_pwm_channel_init(): claims the pin only from analog mode. */
    method ChannelInit(gpio: GpioDriver, c: nat, duty: uint16, polarity: nat) returns (status: Status)
      requires Valid() && gpio.Valid()
      modifies this`configured, this`dutyPermille, this`group, this`regs, gpio
      ensures Valid() && gpio.Valid()
      ensures status == ClaimStatus(old(group), old(gpio.State()), index, c, duty, polarity)
      ensures status == Ok ==> group == WithChannel(old(group), c, Claimed(duty, polarity == 1))
      ensures status == Ok ==> gpio.State() == PinClaimed(old(gpio.State()), index, c)
      ensures status == Ok ==> CounterKept(old(group), old(regs), regs)
      ensures status != Ok ==> unchanged(this) && unchanged(gpio)
    {
      if c >= CHANNELS {
        return InvalidArg;
      }
      if duty > TIMER_DUTY_MAX {
        return InvalidArg;
      }
      if polarity != 0 && polarity != 1 {
        return InvalidArg;
      }
      if !initialized {
        return NotInit;
      }
      if configured[c] {
        return Busy;
      }
      var mode := gpio.ReadMode(PinOf(index, c));
      if mode == MODE_INPUT || mode == MODE_OUTPUT || mode == MODE_AF {
        return Busy;
      }
      gpio.ModesAreTwoBits(PinOf(index, c));
      ClaimPin(gpio, c);
      ClaimChannel(c, duty, polarity == 1);
      return Ok;
    }

    /** The register writes of a claim and the static arrays that remember it. */
    method ClaimChannel(c: nat, duty: uint16, activeLow: bool)
      requires Valid() && group.On? && c < CHANNELS && group.channels[c].Free? && duty <= TIMER_DUTY_MAX
      modifies this`configured, this`dutyPermille, this`group, this`regs
      ensures Valid() && group == WithChannel(old(group), c, Claimed(duty, activeLow))
      ensures CounterKept(old(group), old(regs), regs)
    {
      WriteClaim(c, duty, activeLow, group);
      dutyPermille := dutyPermille[c := duty];
      configured := configured[c := true];
      group := WithChannel(group, c, Claimed(duty, activeLow));
    }

    /** The two GPIO calls of a claim; neither can fail on a mapped pin. */
    method ClaimPin(gpio: GpioDriver, c: nat)
      requires index < INSTANCES && c < CHANNELS && gpio.Valid()
      modifies gpio
      ensures gpio.Valid() && gpio.State() == PinClaimed(old(gpio.State()), index, c)
    {
      var status := gpio.Init(PinOf(index, c), PWM_PIN);
      status := gpio.SetAf(PinOf(index, c), AfOf(index));
    }

    /** timer_pwm_channel_deinit(): leaves the pin an input. */
    method ChannelDeinit(gpio: GpioDriver, c: nat) returns (status: Status)
      requires Valid() && gpio.Valid()
      modifies this`configured, this`dutyPermille, this`group, this`regs, gpio
      ensures Valid() && gpio.Valid()
      ensures status == ChannelStatus(old(group), c)
      ensures status == Ok ==> group == WithChannel(old(group), c, Free)
      ensures status == Ok ==> gpio.State() == Reset(old(gpio.State()), PinOf(index, c))
      ensures status != Ok ==> unchanged(this) && unchanged(gpio)
    {
      if c >= CHANNELS {
        return InvalidArg;
      }
      if !configured[c] {
        return NotInit;
      }
      ReleaseChannel(c);
      status := gpio.Deinit(PinOf(index, c));
      return Ok;
    }

    method ReleaseChannel(c: nat)
      requires Valid() && group.On? && c < CHANNELS
      modifies this`configured, this`dutyPermille, this`group, this`regs
      ensures Valid() && group == WithChannel(old(group), c, Free)
    {
      WriteRelease(c, group);
      dutyPermille := dutyPermille[c := 0];
      configured := configured[c := false];
      group := WithChannel(group, c, Free);
    }

    /** timer_deinit(): releases every configured channel and its pin, then the timer. */
    method Deinit(gpio: GpioDriver) returns (status: Status)
      requires Valid() && gpio.Valid()
      modifies this, gpio
      ensures Valid() && gpio.Valid()
      ensures status == GroupStatus(old(group))
      ensures status == Ok ==> group == Off
      ensures status == Ok ==> regs.psc == 0 && regs.arr == TIMER_RELOAD_MAX && regs.cnt == 0 && regs.sr == 0
      ensures status == Ok ==> gpio.State() == PinsReleased(old(gpio.State()), index, old(group).channels, CHANNELS)
      ensures status != Ok ==> unchanged(this) && unchanged(gpio)
    {
      if !initialized {
        return NotInit;
      }
      ReleaseAll(gpio);
      Shutdown(group);
      initialized := false;
      group := Off;
      return Ok;
    }

    /** The release loop: channels own pins, so they go before the timer. */
    method ReleaseAll(gpio: GpioDriver)
      requires Valid() && gpio.Valid() && group.On?
      modifies this`configured, this`dutyPermille, this`group, this`regs, gpio
      ensures Valid() && gpio.Valid()
      ensures group == old(group).(channels := ALL_FREE)
      ensures gpio.State() == PinsReleased(old(gpio.State()), index, old(group).channels, CHANNELS)
    {
      ghost var channels := group.channels;
      var c := 0;
      while c < CHANNELS
        invariant 0 <= c <= CHANNELS && Valid() && gpio.Valid() && initialized
        invariant group == old(group).(channels := FreedBelow(channels, c))
        invariant gpio.State() == PinsReleased(old(gpio.State()), index, channels, c)
      {
        if configured[c] {
          var _ := ChannelDeinit(gpio, c);
        }
        assert group.channels == FreedBelow(channels, c + 1);
        c := c + 1;
      }
      assert group.channels == ALL_FREE;
    }

    /** timer_pwm_set_duty(). */
    method SetDuty(c: nat, duty: uint16) returns (status: Status)
      requires Valid()
      modifies this`dutyPermille, this`group, this`regs
      ensures Valid()
      ensures status == SetDutyStatus(old(group), c, duty)
      ensures status == Ok ==> group == WithChannel(old(group), c, old(group).channels[c].(duty := duty))
      ensures status == Ok ==> CounterKept(old(group), old(regs), regs)
      ensures status != Ok ==> unchanged(this)
    {
      if c >= CHANNELS {
        return InvalidArg;
      }
      if duty > TIMER_DUTY_MAX {
        return InvalidArg;
      }
      if !configured[c] {
        return NotInit;
      }
      WriteDuty(c, duty, group);
      dutyPermille := dutyPermille[c := duty];
      group := WithChannel(group, c, group.channels[c].(duty := duty));
      return Ok;
    }

    /** timer_pwm_get_duty(): the remembered request, not the compare register. */
    method GetDuty(c: nat) returns (status: Status, duty: uint16)
      requires Valid()
      ensures status == ChannelStatus(group, c)
      ensures status == Ok ==> duty == group.channels[c].duty
    {
      duty := 0;
      if c >= CHANNELS {
        return InvalidArg, duty;
      }
      if !configured[c] {
        return NotInit, duty;
      }
      return Ok, dutyPermille[c];
    }
  }

  ghost predicate Row(configured: seq<bool>, duties: seq<uint16>, channels: seq<Channel>)
    requires |configured| == |duties| == |channels| == CHANNELS
  {
    forall c :: 0 <= c < CHANNELS ==>
      configured[c] == channels[c].Claimed? && duties[c] == if channels[c].Claimed? then channels[c].duty else 0
  }
}

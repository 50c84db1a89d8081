/** Whole runs of the PWM timer driver: the state of a timer is a function of the last requests
    the driver accepted, whatever happened before them. */
module TimerRuns {
  import opened Words
  import opened Status
  import opened Gpio
  import opened Timebase
  import opened TimerRegisters
  import opened Timer
  import opened TimerDriver

  /** A call and the status its caller was given. */
  datatype Request = Request(call: Call, status: Status)

  const ALL_OFF: Groups := [Off, Off, Off]

  /** The state after calls made one by one, starting with every timer off. */
  function Run(clkHz: uint32, pins: GpioState, calls: seq<Call>): (s: PwmState)
  {
    if calls == [] then PwmState(pins, ALL_OFF)
    else Step(clkHz, Run(clkHz, pins, calls[..|calls| - 1]), calls[|calls| - 1]).0
  }

  /** What the callers saw. */
  function Log(clkHz: uint32, pins: GpioState, calls: seq<Call>): (log: seq<Request>)
    ensures |log| == |calls|
  {
    if calls == [] then []
    else
      var before := calls[..|calls| - 1];
      var last := calls[|calls| - 1];
      Log(clkHz, pins, before) + [Request(last, Step(clkHz, Run(clkHz, pins, before), last).1)]
  }

  // ----- the last accepted requests

  /** The frequency last asked of timer `i`; none while it is released. */
  function LastFrequency(log: seq<Request>, i: nat): Option<nat> {
    if log == [] then None
    else
      var r := log[|log| - 1];
      var earlier := LastFrequency(log[..|log| - 1], i);
      if r.status != Ok then earlier
      else
        match r.call
        case Init(j, f) => if j == i then Some(f) else earlier
        case Retune(j, f) => if j == i then Some(f) else earlier
        case Deinit(j) => if j == i then None else earlier
        case _ => earlier
  }

  /** Whether timer `i` was last started or stopped. */
  function LastRunning(log: seq<Request>, i: nat): bool {
    if log == [] then false
    else
      var r := log[|log| - 1];
      var earlier := LastRunning(log[..|log| - 1], i);
      if r.status != Ok then earlier
      else
        match r.call
        case Init(j, _) => j != i && earlier
        case Start(j) => j == i || earlier
        case Stop(j) => j != i && earlier
        case _ => earlier
  }

  /** What one accepted call makes of the duty of channel `c` of timer `i`. */
  function DutyAfterCall(call: Call, i: nat, c: nat, earlier: Option<nat>): Option<nat> {
    match call
    case Claim(j, d, duty, _) => if (j, d) == (i, c) then Some(duty) else earlier
    case SetDuty(j, d, duty) => if (j, d) == (i, c) then Some(duty) else earlier
    case Release(j, d) => if (j, d) == (i, c) then None else earlier
    case Deinit(j) => if j == i then None else earlier
    case _ => earlier
  }

  /** The duty last asked of channel `c` of timer `i`; none unless it is claimed. */
  function LastDuty(log: seq<Request>, i: nat, c: nat): Option<nat> {
    if log == [] then None
    else
      var r := log[|log| - 1];
      var earlier := LastDuty(log[..|log| - 1], i, c);
      if r.status != Ok then earlier else DutyAfterCall(r.call, i, c, earlier)
  }

  /** Whether the last claim of the channel asked for active-low polarity. */
  function LastActiveLow(log: seq<Request>, i: nat, c: nat): bool {
    if log == [] then false
    else
      var r := log[|log| - 1];
      if r.status == Ok && r.call.Claim? && (r.call.i, r.call.c) == (i, c) then r.call.polarity == 1
      else LastActiveLow(log[..|log| - 1], i, c)
  }

  function ChannelAsked(log: seq<Request>, i: nat, c: nat): Channel {
    match LastDuty(log, i, c)
    case None => Free
    case Some(duty) => Claimed(duty, LastActiveLow(log, i, c))
  }

  /** `g` is what the requests asked for: nothing else about the run shows. */
  predicate AsAsked(clkHz: uint32, log: seq<Request>, i: nat, g: Group)
    requires WellFormed(g)
  {
    match LastFrequency(log, i)
    case None => g == Off && forall c :: 0 <= c < CHANNELS ==> LastDuty(log, i, c).None?
    case Some(f) =>
      && InFrequencyRange(f) && clkHz / f >= 2 && g.On?
      && g.psc == PrescalerFor(clkHz / f) && g.arr == ReloadFor(clkHz / f)
      && g.running == LastRunning(log, i)
      && forall c :: 0 <= c < CHANNELS ==> g.channels[c] == ChannelAsked(log, i, c)
  }

  /** A step that leaves timer `i` alone. */
  lemma ElsewhereAsAsked(clkHz: uint32, log: seq<Request>, r: Request, i: nat, g: Group)
    requires WellFormed(g) && AsAsked(clkHz, log, i, g)
    requires r.status != Ok || r.call.OtherPinUse? || r.call.i != i
    ensures AsAsked(clkHz, log + [r], i, g)
  {
    assert (log + [r])[..|log|] == log;
  }

  /** An accepted step of timer `i` itself. */
  lemma HereAsAsked(clkHz: uint32, pins: GpioState, log: seq<Request>, call: Call, g: Group)
    requires WellFormed(g) && !call.OtherPinUse? && call.i < INSTANCES
    requires AsAsked(clkHz, log, call.i, g) && StepStatus(clkHz, pins, g, call) == Ok
    ensures AsAsked(clkHz, log + [Request(call, Ok)], call.i, GroupAfter(clkHz, pins, g, call))
  {
    var i, after := call.i, log + [Request(call, Ok)];
    assert after[..|log|] == log;
    if call.Claim? || call.SetDuty? || call.Release? {
      assert forall c :: 0 <= c < CHANNELS && c != call.c ==> ChannelAsked(after, i, c) == ChannelAsked(log, i, c);
      assert call.SetDuty? ==> ChannelAsked(log, i, call.c).Claimed?;
    } else {
      assert forall c :: 0 <= c < CHANNELS ==>
        ChannelAsked(after, i, c) == if call.Deinit? then Free else ChannelAsked(log, i, c);
    }
  }

  lemma StepAsAsked(clkHz: uint32, s: PwmState, log: seq<Request>, call: Call, i: nat)
    requires i < INSTANCES && AsAsked(clkHz, log, i, s.groups[i])
    ensures var (t, status) := Step(clkHz, s, call); AsAsked(clkHz, log + [Request(call, status)], i, t.groups[i])
  {
    var r := Request(call, Step(clkHz, s, call).1);
    if r.status != Ok || call.OtherPinUse? || call.i != i {
      ElsewhereAsAsked(clkHz, log, r, i, s.groups[i]);
    } else {
      HereAsAsked(clkHz, s.pins, log, call, s.groups[i]);
    }
  }

  /** After every run each timer is exactly what its last accepted requests ask for: retunes,
      refused calls and earlier allocations leave no trace. */
  lemma {:induction false} StateIsAsAsked(clkHz: uint32, pins: GpioState, calls: seq<Call>, i: nat)
    requires i < INSTANCES
    ensures AsAsked(clkHz, Log(clkHz, pins, calls), i, Run(clkHz, pins, calls).groups[i])
  {
    if calls != [] {
      var before, call := calls[..|calls| - 1], calls[|calls| - 1];
      StateIsAsAsked(clkHz, pins, before, i);
      StepAsAsked(clkHz, Run(clkHz, pins, before), Log(clkHz, pins, before), call, i);
    }
  }

  // ----- what that says about the registers

  /** The compare register of a channel whose timer was last asked for frequency `f`. */
  predicate ExactCompare(f: Option<nat>, duty: Option<nat>, arr: nat, compare: nat) {
    if duty.None? then compare == 0
    else
      && f.Some? && InFrequencyRange(f.value) && TIMER_CLOCK_HZ / f.value >= 2
      && arr == ReloadFor(TIMER_CLOCK_HZ / f.value) <= 65534
      && duty.value <= TIMER_DUTY_MAX
      && 1000 * compare <= (arr + 1) * duty.value < 1000 * compare + 1000
      && compare <= 65535
  }

  lemma AskedCompareIsExact(log: seq<Request>, i: nat, c: nat, g: Group, regs: TimRegs)
    requires c < CHANNELS && Shows(regs, g) && AsAsked(TIMER_CLOCK_HZ, log, i, g)
    ensures ExactCompare(LastFrequency(log, i), LastDuty(log, i, c), regs.arr, regs.ccr[c])
  {
    if LastDuty(log, i, c).Some? {
      assert g.channels[c] == ChannelAsked(log, i, c);
      FullDutyFits(LastFrequency(log, i).value, LastDuty(log, i, c).value);
      CompareBounds(g.arr, LastDuty(log, i, c).value);
    }
  }

  /** After every run, at the 170 MHz clock, a claimed channel's compare register is the
      current period times the duty last asked for, rounded down once however many retunes
      came between, and it fits 16 bits; a channel that is not claimed holds 0. */
  lemma CompareRegisterIsExact(pins: GpioState, calls: seq<Call>, i: nat, c: nat, regs: TimRegs)
    requires i < INSTANCES && c < CHANNELS
    requires Shows(regs, Run(TIMER_CLOCK_HZ, pins, calls).groups[i])
    ensures var log := Log(TIMER_CLOCK_HZ, pins, calls);
      ExactCompare(LastFrequency(log, i), LastDuty(log, i, c), regs.arr, regs.ccr[c])
  {
    StateIsAsAsked(TIMER_CLOCK_HZ, pins, calls, i);
    AskedCompareIsExact(Log(TIMER_CLOCK_HZ, pins, calls), i, c, Run(TIMER_CLOCK_HZ, pins, calls).groups[i], regs);
  }

  lemma AskedOnce(clkHz: uint32, log: seq<Request>, other: seq<Request>, i: nat, g: Group, h: Group)
    requires WellFormed(g) && WellFormed(h) && AsAsked(clkHz, log, i, g) && AsAsked(clkHz, other, i, h)
    requires SameRequests(log, other, i)
    ensures g == h
  {
    if g.On? { assert g.channels == h.channels; }
  }

  /** The last accepted requests on timer `i` agree. */
  predicate SameRequests(log: seq<Request>, other: seq<Request>, i: nat) {
    && LastFrequency(log, i) == LastFrequency(other, i)
    && LastRunning(log, i) == LastRunning(other, i)
    && forall c :: 0 <= c < CHANNELS ==> ChannelAsked(log, i, c) == ChannelAsked(other, i, c)
  }

  /** Two runs that end with the same accepted requests leave the same registers. */
  lemma OnlyLastRequestsMatter(clkHz: uint32, pins: GpioState, calls: seq<Call>, otherPins: GpioState, others: seq<Call>,
                               i: nat, regs: TimRegs, otherRegs: TimRegs)
    requires i < INSTANCES
    requires SameRequests(Log(clkHz, pins, calls), Log(clkHz, otherPins, others), i)
    requires Shows(regs, Run(clkHz, pins, calls).groups[i])
    requires Shows(otherRegs, Run(clkHz, otherPins, others).groups[i])
    ensures regs.cr1 == otherRegs.cr1 && regs.ccer == otherRegs.ccer
    ensures regs.ccmr == otherRegs.ccmr && regs.ccr == otherRegs.ccr
    ensures LastFrequency(Log(clkHz, pins, calls), i).Some? ==> regs.psc == otherRegs.psc && regs.arr == otherRegs.arr
  {
    StateIsAsAsked(clkHz, pins, calls, i);
    StateIsAsAsked(clkHz, otherPins, others, i);
    var g, h := Run(clkHz, pins, calls).groups[i], Run(clkHz, otherPins, others).groups[i];
    AskedOnce(clkHz, Log(clkHz, pins, calls), Log(clkHz, otherPins, others), i, g, h);
    RegistersDetermined(regs, otherRegs, g);
  }

  /** A call on one channel leaves every other channel alone, on its timer and on the others:
      same remembered duty, same compare register, same enable, polarity and mode bits. */
  lemma ChannelsAreIndependent(clkHz: uint32, s: PwmState, call: Call, i: nat, c: nat, regs: TimRegs, after: TimRegs)
    requires i < INSTANCES && c < CHANNELS && s.groups[i].On?
    requires call.Claim? || call.Release? || call.SetDuty? ==> (call.i, call.c) != (i, c)
    requires call.Deinit? || call.Retune? ==> call.i != i
    requires Shows(regs, s.groups[i]) && Shows(after, Step(clkHz, s, call).0.groups[i])
    ensures var g := Step(clkHz, s, call).0.groups[i]; g.On? && g.channels[c] == s.groups[i].channels[c]
    ensures after.ccr[c] == regs.ccr[c]
    ensures forall b: nat :: b < 16 && b / 4 == c ==> Bit(after.ccer, b) == Bit(regs.ccer, b)
    ensures forall b: nat :: b < 16 && 2 * ModeHalf(c) + b / 8 == c ==>
      Bit(after.ccmr[ModeHalf(c)], b) == Bit(regs.ccmr[ModeHalf(c)], b)
  {
    var g, h := s.groups[i], Step(clkHz, s, call).0.groups[i];
    assert h.On? && h.channels[c] == g.channels[c] && h.arr == g.arr;
    SameChannelSameBits(g, h, c, regs, after);
  }

  lemma SameChannelSameBits(g: Group, h: Group, c: nat, regs: TimRegs, after: TimRegs)
    requires c < CHANNELS && g.On? && h.On? && Shows(regs, g) && Shows(after, h)
    requires h.channels[c] == g.channels[c] && h.arr == g.arr
    ensures after.ccr[c] == regs.ccr[c]
    ensures forall b: nat :: b < 16 && b / 4 == c ==> Bit(after.ccer, b) == Bit(regs.ccer, b)
    ensures forall b: nat :: b < 16 && 2 * ModeHalf(c) + b / 8 == c ==>
      Bit(after.ccmr[ModeHalf(c)], b) == Bit(regs.ccmr[ModeHalf(c)], b)
  {
    forall b: nat | b < 16 && b / 4 == c ensures Bit(after.ccer, b) == Bit(regs.ccer, b) {
      assert EnableBit(h.channels, b) == EnableBit(g.channels, b);
    }
    forall b: nat | b < 16 && 2 * ModeHalf(c) + b / 8 == c
      ensures Bit(after.ccmr[ModeHalf(c)], b) == Bit(regs.ccmr[ModeHalf(c)], b)
    {
      assert ModeBit(h.channels, ModeHalf(c), b) == ModeBit(g.channels, ModeHalf(c), b);
    }
  }
}

/** Two interrupt lines that share a vector, on runs from boot: an edge on one is lost to an edge on
    the other, and disarming one silences the other. */
module SharedVectors {
  import opened Words
  import opened Status
  import opened Gpio
  import opened PwmController
  import opened GpioController
  import opened CommandDispatcher
  import opened MachineRuns

  const CONFIGURE: seq<Event> := [Request(0x30, [0, 0, 6])] + [Request(0x30, [1, 1, 0])]

  const ARM: seq<Event> := CONFIGURE + [Request(0x34, [1, 0, 5])] + [Request(0x34, [1, 0, 6])]

  /** PA6 becomes an input and PB0 an output, PA5 and PA6 are armed for rising edges, and PA6 is
      bound to drive PB0 high. */
  const TWO_LINES: seq<Event> := ARM + [Request(0x33, [1, 0, 6, 1, 1, 0])]

  const DISARM: Event := Request(0x34, [0, 0, 5])

  lemma RunGrows(clkHz: uint32, boot: Machine, events: seq<Event>, e: Event)
    requires forall k :: 0 <= k < |events| ==> Possible(events[k])
    requires Possible(e)
    ensures forall k :: 0 <= k < |events + [e]| ==> Possible((events + [e])[k])
    ensures Run(clkHz, boot, events + [e]) == Next(clkHz, Run(clkHz, boot, events), e)
  {
    assert (events + [e])[..|events|] == events;
  }

  lemma IoRequest(clkHz: uint32, m: Machine, opcode: byte, k: IoCommand, payload: seq<byte>)
    requires CommandOf(opcode) == Some(GPIO(k)) && IoStatus(m.Io(), k, payload) == Ok
    ensures Execute(clkHz, m, opcode, payload).1 == Ok
    ensures Next(clkHz, m, Request(opcode, payload)).Io() == IoAfter(m.Io(), k, payload)
  {
  }

  /** Two accepted GPIO commands of one opcode. */
  lemma TwoRequests(clkHz: uint32, boot: Machine, events: seq<Event>, opcode: byte, k: IoCommand, p: seq<byte>, q: seq<byte>)
    requires (forall i :: 0 <= i < |events| ==> Possible(events[i])) && CommandOf(opcode) == Some(GPIO(k))
    requires var s := Run(clkHz, boot, events).Io();
      IoStatus(s, k, p) == Ok && IoStatus(IoAfter(s, k, p), k, q) == Ok
    ensures var all := events + [Request(opcode, p)] + [Request(opcode, q)];
      && (forall i :: 0 <= i < |all| ==> Possible(all[i]))
      && Run(clkHz, boot, all).Io() == IoAfter(IoAfter(Run(clkHz, boot, events).Io(), k, p), k, q)
  {
    RunGrows(clkHz, boot, events, Request(opcode, p));
    IoRequest(clkHz, Run(clkHz, boot, events), opcode, k, p);
    RunGrows(clkHz, boot, events + [Request(opcode, p)], Request(opcode, q));
    IoRequest(clkHz, Run(clkHz, boot, events + [Request(opcode, p)]), opcode, k, q);
  }

  // ----- the five commands

  /** The two pins configured, the two lines idle. */
  predicate PinsReady(s: IoState) {
    && s.pins.IsMode(PinId(0, 6), MODE_INPUT) && s.pins.IsMode(PinId(1, 0), MODE_OUTPUT)
    && IdleLine(s.pins, 5) && IdleLine(s.pins, 6) && s.bindings[5] == UNBOUND && s.bindings[6] == UNBOUND
    && s.pins.lines.pending == NONE_PENDING
  }

  lemma ConfigurePins(s: IoState)
    requires IdleLine(s.pins, 5) && IdleLine(s.pins, 6) && s.bindings[5] == UNBOUND && s.bindings[6] == UNBOUND
    requires s.pins.lines.pending == NONE_PENDING
    ensures IoStatus(s, IO_CFG, [0, 0, 6]) == Ok
    ensures var t := IoAfter(s, IO_CFG, [0, 0, 6]);
      && IoStatus(t, IO_CFG, [1, 1, 0]) == Ok
      && PinsReady(IoAfter(t, IO_CFG, [1, 1, 0])) && IoAfter(t, IO_CFG, [1, 1, 0]).pins.levels == s.pins.levels
  {
  }

  /** Both lines of a vector armed, no edge seen yet. */
  predicate LinesReady(s: IoState) {
    && s.pins.IsMode(PinId(0, 6), MODE_INPUT) && s.pins.IsMode(PinId(1, 0), MODE_OUTPUT) && s.bindings[5] == UNBOUND
    && s.pins.lines.callbacks[5] == Some(5) && s.pins.lines.callbacks[6] == Some(6)
    && s.pins.lines.vectors[5] && s.pins.lines.pending == NONE_PENDING
    && ArmedTrigger(s.pins, PinId(0, 6)) == Success(RISING)
  }

  /** The second is bound. */
  predicate Ready(s: IoState) {
    LinesReady(s) && s.bindings[6] == Binding(PinId(0, 6), PinId(1, 0), HIGH, true)
  }

  lemma ArmLines(s: IoState)
    requires PinsReady(s)
    ensures IoStatus(s, IRQ_CFG, [1, 0, 5]) == Ok
    ensures var t := IoAfter(s, IRQ_CFG, [1, 0, 5]);
      && IoStatus(t, IRQ_CFG, [1, 0, 6]) == Ok
      && var u := IoAfter(t, IRQ_CFG, [1, 0, 6]);
         LinesReady(u) && u.bindings[6] == UNBOUND && u.pins.levels == s.pins.levels
  {
  }

  lemma BindLine(s: IoState)
    requires LinesReady(s) && s.bindings[6] == UNBOUND
    ensures IoStatus(s, IRQ_BIND, [1, 0, 6, 1, 1, 0]) == Ok
    ensures Ready(IoAfter(s, IRQ_BIND, [1, 0, 6, 1, 1, 0]))
    ensures IoAfter(s, IRQ_BIND, [1, 0, 6, 1, 1, 0]).pins.levels == s.pins.levels
  {
  }

  lemma ConfigureRun(clkHz: uint32, boot: Machine)
    requires Booted(boot) && boot.pwm.pins.lines.pending == NONE_PENDING
    ensures forall k :: 0 <= k < |CONFIGURE| ==> Possible(CONFIGURE[k])
    ensures var m := Run(clkHz, boot, CONFIGURE); PinsReady(m.Io()) && m.pwm.pins.levels == boot.pwm.pins.levels
  {
    assert IdleLine(boot.pwm.pins, 5) && IdleLine(boot.pwm.pins, 6);
    ConfigurePins(boot.Io());
    TwoRequests(clkHz, boot, [], 0x30, IO_CFG, [0, 0, 6], [1, 1, 0]);
    assert [] + [Request(0x30, [0, 0, 6])] == [Request(0x30, [0, 0, 6])];
  }

  lemma ArmRun(clkHz: uint32, boot: Machine)
    requires Booted(boot) && boot.pwm.pins.lines.pending == NONE_PENDING
    ensures forall k :: 0 <= k < |ARM| ==> Possible(ARM[k])
    ensures var m := Run(clkHz, boot, ARM);
      LinesReady(m.Io()) && m.bindings[6] == UNBOUND && m.pwm.pins.levels == boot.pwm.pins.levels
  {
    ConfigureRun(clkHz, boot);
    ArmLines(Run(clkHz, boot, CONFIGURE).Io());
    TwoRequests(clkHz, boot, CONFIGURE, 0x34, IRQ_CFG, [1, 0, 5], [1, 0, 6]);
  }

  lemma TwoLinesRun(clkHz: uint32, boot: Machine)
    requires Booted(boot) && boot.pwm.pins.lines.pending == NONE_PENDING
    ensures forall k :: 0 <= k < |TWO_LINES| ==> Possible(TWO_LINES[k])
    ensures var m := Run(clkHz, boot, TWO_LINES); Ready(m.Io()) && m.pwm.pins.levels == boot.pwm.pins.levels
  {
    ArmRun(clkHz, boot);
    var a := Run(clkHz, boot, ARM);
    BindLine(a.Io());
    RunGrows(clkHz, boot, ARM, Request(0x33, [1, 0, 6, 1, 1, 0]));
    IoRequest(clkHz, a, 0x33, IRQ_BIND, [1, 0, 6, 1, 1, 0]);
  }

  // ----- what edges then do

  function Noticed(s: IoState, n: nat): (t: IoState)
    requires n < MAX_GPIO_INTERRUPTS
  {
    s.(pins := s.pins.(lines := Noted(s.pins.lines, n)))
  }

  lemma AloneFires(s: IoState)
    requires Ready(s)
    ensures VectorServed(Noticed(s, 6), 5).pins.levels == s.pins.levels[At(PinId(1, 0)) := true]
  {
    OnlyFirstIsServed(Noticed(s, 6), 5, 10);
    assert FirstPending(Noticed(s, 6).pins.lines.pending, 5, 10) == Some(6);
  }

  lemma TogetherLost(s: IoState)
    requires Ready(s)
    ensures var t := VectorServed(Noticed(Noticed(s, 5), 6), 5).pins;
      t.levels == s.pins.levels && t.lines.pending == NONE_PENDING
  {
    OnlyFirstIsServed(Noticed(Noticed(s, 5), 6), 5, 10);
    assert FirstPending(Noticed(Noticed(s, 5), 6).pins.lines.pending, 5, 10) == Some(5);
  }

  /** An edge on PA6 alone drives PB0 high. Let PA5 have an edge before the interrupt is taken, and
      PB0 stays as it was for good: the edge on PA6 is no longer pending. */
  lemma PendingNeighbourLosesEdge(clkHz: uint32, boot: Machine)
    requires Booted(boot) && boot.pwm.pins.lines.pending == NONE_PENDING
    ensures forall k :: 0 <= k < |TWO_LINES| ==> Possible(TWO_LINES[k])
    ensures var m := Run(clkHz, boot, TWO_LINES);
      var alone := Next(clkHz, Next(clkHz, m, Edge(6)), Interrupt(5)).pwm.pins;
      var both := Next(clkHz, Next(clkHz, Next(clkHz, m, Edge(5)), Edge(6)), Interrupt(5)).pwm.pins;
      && alone.levels == boot.pwm.pins.levels[At(PinId(1, 0)) := true]
      && both.levels == boot.pwm.pins.levels && both.lines.pending == NONE_PENDING
  {
    TwoLinesRun(clkHz, boot);
    AloneFires(Run(clkHz, boot, TWO_LINES).Io());
    TogetherLost(Run(clkHz, boot, TWO_LINES).Io());
  }

  lemma SilencedLine(s: IoState)
    requires Ready(s)
    ensures IoStatus(s, IRQ_CFG, [0, 0, 5]) == Ok
    ensures var t := IoAfter(s, IRQ_CFG, [0, 0, 5]);
      && t.bindings == s.bindings && t.pins.levels == s.pins.levels && !t.pins.lines.vectors[5]
      && ArmedTrigger(t.pins, PinId(0, 6)) == Success(RISING)
  {
    assert s.bindings[5 := UNBOUND] == s.bindings;
  }

  /** Disarming PA5 is acknowledged and leaves PA6 armed and bound, but its vector is off: edges on
      PA6 do nothing any more. */
  lemma DisarmingSilencesNeighbour(clkHz: uint32, boot: Machine)
    requires Booted(boot) && boot.pwm.pins.lines.pending == NONE_PENDING
    ensures forall k :: 0 <= k < |TWO_LINES| ==> Possible(TWO_LINES[k])
    ensures var m := Run(clkHz, boot, TWO_LINES);
      var t := Next(clkHz, m, DISARM);
      && Execute(clkHz, m, DISARM.opcode, DISARM.payload).1 == Ok
      && t.bindings[6] == Binding(PinId(0, 6), PinId(1, 0), HIGH, true)
      && ArmedTrigger(t.pwm.pins, PinId(0, 6)) == Success(RISING)
      && Next(clkHz, Next(clkHz, t, Edge(6)), Interrupt(5)).pwm.pins.levels == boot.pwm.pins.levels
  {
    TwoLinesRun(clkHz, boot);
    var m := Run(clkHz, boot, TWO_LINES);
    SilencedLine(m.Io());
    IoRequest(clkHz, m, 0x34, IRQ_CFG, [0, 0, 5]);
  }
}

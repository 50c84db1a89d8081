/** Host and device together: a host that waits for each reply, a wire that damages nothing, bytes
    that arrive one interrupt at a time, a main loop that drains the receive queue, and GPIO
    interrupts in between, in every interleaving. Bytes pass the device's two link pins only
    while those are routed to the serial port. */
module Exchange {
  import opened Words
  import opened Status
  import opened Gpio
  import opened FrameGrammar
  import opened FrameParser
  import opened CommandDispatcher
  import opened MachineRuns
  import opened LinkPins
  import opened MainLoop
  import opened HostProtocol

  /** COMMAND_TRANSPORT_RX_BUFFER_SIZE, less the slot a ring buffer keeps free. */
  const QUEUE_CAPACITY: nat := 127

  datatype HostCommand = HostCommand(opcode: byte, payload: seq<byte>)

  type Decoded = Result<Response, ProtocolError>

  /** Everything between the host's calls and the device's state. `issued`, `decoded` and
      `trace` only record what has happened. */
  datatype World = World(
    issued: seq<HostCommand>,
    onWire: seq<byte>,
    queue: seq<byte>,
    refused: nat,
    device: Firmware,
    reply: seq<byte>,
    decoded: seq<Decoded>,
    trace: seq<Event>)

  datatype Action =
    | Issue(command: HostCommand)
    | Arrive
    | Drain
    | Collect
    | Disturb(event: Event)

  /** The host waits from issuing a command until it has decoded its reply. */
  predicate Waiting(w: World) { |w.decoded| < |w.issued| }

  function CommandWire(c: HostCommand): seq<byte>
    requires |c.payload| <= MAX_PAYLOAD
  {
    BuildCommand(c.opcode, c.payload).value
  }

  predicate Alive(w: World) { Partial(w.device.held) }

  /** One step; an action that is not enabled changes nothing. */
  function Act(clkHz: uint32, boot: Machine, w: World, a: Action): (r: World)
    requires Alive(w)
    ensures Alive(r)
  {
    match a
    case Issue(c) =>
      if Waiting(w) || |c.payload| > MAX_PAYLOAD then w
      else w.(issued := w.issued + [c], onWire := w.onWire + CommandWire(c))
    case Arrive =>
      if w.onWire == [] then w
      else if !Hears(w.device.machine) then w.(onWire := w.onWire[1..])
      else if |w.queue| == QUEUE_CAPACITY then w.(onWire := w.onWire[1..], refused := w.refused + 1)
      else w.(onWire := w.onWire[1..], queue := w.queue + [w.onWire[0]])
    case Drain => if w.queue == [] then w else Drained(clkHz, boot, w)
    case Collect =>
      if w.reply == [] || !Waiting(w) then w
      else w.(reply := [], decoded := w.decoded + [ParseResponse(w.reply)])
    case Disturb(e) =>
      if e.Request? || !Possible(e) then w
      else w.(device := w.device.(machine := Next(clkHz, w.device.machine, e)), trace := w.trace + [e])
  }

  /** The main loop takes one byte. What it sends leaves by a pin that may no longer be routed. A
      reset empties the queue with the rest of the memory. */
  function Drained(clkHz: uint32, boot: Machine, w: World): (r: World)
    requires Alive(w) && w.queue != []
    ensures Alive(r)
  {
    var wire := w.device.held + [w.queue[0]];
    var o := OnByte(clkHz, w.device, w.queue[0]);
    if o.reply.None? then w.(device := o.after, queue := w.queue[1..])
    else
      w.(device := Rebooted(boot, o), queue := if o.reset then [] else w.queue[1..],
         reply := if Speaks(o.after.machine) then w.reply + o.reply.value else w.reply, trace := w.trace + [ObeyedEvent(wire)])
  }

  /** The command a completed frame carries. */
  function ObeyedEvent(wire: seq<byte>): Event {
    if IsFrame(wire) then Request(wire[1], Payload(wire)) else InputsChange([])
  }

  function Start(boot: Machine): World {
    World([], [], [], 0, Firmware([], boot), [], [], [])
  }

  function RunWorld(clkHz: uint32, boot: Machine, actions: seq<Action>): (w: World)
    ensures Alive(w)
  {
    if actions == [] then Start(boot)
    else Act(clkHz, boot, RunWorld(clkHz, boot, actions[..|actions| - 1]), actions[|actions| - 1])
  }

  // ----- what should come out

  predicate Credible(trace: seq<Event>) { forall k :: 0 <= k < |trace| ==> Possible(trace[k]) }

  /** The machine after whole commands and disturbances, one at a time. */
  function Replay(clkHz: uint32, boot: Machine, trace: seq<Event>): (m: Machine)
    requires Credible(trace)
  {
    if trace == [] then boot
    else
      var m := Next(clkHz, Replay(clkHz, boot, trace[..|trace| - 1]), trace[|trace| - 1]);
      if m.resetRequested then boot else m
  }

  /** The response a host should decode for a command obeyed by machine `m`. */
  function Expected(clkHz: uint32, m: Machine, opcode: byte, payload: seq<byte>): Decoded
  {
    var (_, status, value) := Execute(clkHz, m, opcode, payload);
    Success(Response(ReplyTo(opcode, status, value).ack, ReplyTo(opcode, status, value).data))
  }

  /** The responses to the commands of a trace, each at the state it was obeyed in. */
  function Outcomes(clkHz: uint32, boot: Machine, trace: seq<Event>): seq<Decoded>
    requires Credible(trace)
  {
    if trace == [] then []
    else
      var before, e := trace[..|trace| - 1], trace[|trace| - 1];
      Outcomes(clkHz, boot, before) +
      if e.Request? then [Expected(clkHz, Replay(clkHz, boot, before), e.opcode, e.payload)] else []
  }

  /** The commands of a trace. */
  function Obeyed(trace: seq<Event>): seq<HostCommand> {
    if trace == [] then []
    else
      var e := trace[|trace| - 1];
      Obeyed(trace[..|trace| - 1]) + if e.Request? then [HostCommand(e.opcode, e.payload)] else []
  }

  // ----- commands that cut the link

  predicate CutsReplies(c: HostCommand) { Reroutes(c.opcode, c.payload, LINK_TX) }

  predicate CutsCommands(c: HostCommand) { Reroutes(c.opcode, c.payload, LINK_RX) }

  predicate Cuts(c: HostCommand) { CutsReplies(c) || CutsCommands(c) }

  /** No command takes the device's transmit pin, and only the last may take its receive pin. */
  predicate Answerable(cs: seq<HostCommand>) {
    forall k :: 0 <= k < |cs| ==> !CutsReplies(cs[k]) && (CutsCommands(cs[k]) ==> k == |cs| - 1)
  }

  /** Which pins are routed after the commands obeyed; none was obeyed after one that cuts. */
  ghost predicate Links(m: Machine, obeyed: seq<HostCommand>) {
    && (Hears(m) <==> obeyed == [] || !CutsCommands(obeyed[|obeyed| - 1]))
    && (Speaks(m) <==> obeyed == [] || !CutsReplies(obeyed[|obeyed| - 1]))
    && forall k :: 0 <= k < |obeyed| - 1 ==> !Cuts(obeyed[k])
  }

  // ----- the invariant

  /** The bytes of the command under way, wherever they are. */
  function InFlight(w: World): seq<byte> { w.device.held + w.queue + w.onWire }

  ghost predicate Inv(clkHz: uint32, boot: Machine, w: World) {
    && Alive(w) && Credible(w.trace) && w.refused == 0
    && !boot.resetRequested && Hears(boot) && Speaks(boot)
    && w.device.machine == Replay(clkHz, boot, w.trace)
    && Links(w.device.machine, Obeyed(w.trace)) && Phase(w) && Results(clkHz, boot, w)
  }

  ghost predicate Phase(w: World) {
    if Waiting(w) then |w.decoded| == |w.issued| - 1 && Underway(w, Obeyed(w.trace), w.issued[|w.issued| - 1])
    else Idle(w, Obeyed(w.trace))
  }

  ghost predicate Idle(w: World, obeyed: seq<HostCommand>) {
    && |w.decoded| == |w.issued| && obeyed == w.issued
    && InFlight(w) == [] && w.reply == []
    && (obeyed != [] ==> !CutsReplies(obeyed[|obeyed| - 1]))
  }

  /** A command under way, its reply under way, its reply lost at a pin that is no longer routed,
      or the command itself being lost there. */
  ghost predicate Underway(w: World, obeyed: seq<HostCommand>, c: HostCommand)
    requires Waiting(w)
  {
    if obeyed == w.issued then InFlight(w) == [] && (w.reply == [] <==> CutsReplies(c))
    else
      && obeyed == w.issued[..|w.issued| - 1] && w.reply == [] && |c.payload| <= MAX_PAYLOAD
      && (obeyed != [] ==> !CutsReplies(obeyed[|obeyed| - 1]))
      && if obeyed != [] && CutsCommands(obeyed[|obeyed| - 1]) then w.device.held == [] && w.queue == []
         else InFlight(w) == CommandWire(c) && |w.device.held| < |CommandWire(c)|
  }

  ghost predicate Results(clkHz: uint32, boot: Machine, w: World)
    requires Credible(w.trace)
  {
    w.decoded + (if w.reply == [] then [] else [ParseResponse(w.reply)]) <= Outcomes(clkHz, boot, w.trace)
  }

  lemma TraceGrows(clkHz: uint32, boot: Machine, trace: seq<Event>, e: Event)
    requires Credible(trace) && Possible(e)
    ensures Credible(trace + [e])
    ensures var m := Next(clkHz, Replay(clkHz, boot, trace), e);
      Replay(clkHz, boot, trace + [e]) == if m.resetRequested then boot else m
    ensures Obeyed(trace + [e]) == Obeyed(trace) + if e.Request? then [HostCommand(e.opcode, e.payload)] else []
    ensures Outcomes(clkHz, boot, trace + [e]) == Outcomes(clkHz, boot, trace) +
      if e.Request? then [Expected(clkHz, Replay(clkHz, boot, trace), e.opcode, e.payload)] else []
  {
    assert (trace + [e])[..|trace|] == trace;
  }

  /** One outcome per command, and never a reset left pending. */
  lemma {:induction false} TraceCounts(clkHz: uint32, boot: Machine, trace: seq<Event>)
    requires Credible(trace) && !boot.resetRequested
    ensures |Outcomes(clkHz, boot, trace)| == |Obeyed(trace)|
    ensures !Replay(clkHz, boot, trace).resetRequested
  {
    if trace != [] { TraceCounts(clkHz, boot, trace[..|trace| - 1]); }
  }

  lemma IssueKeepsInv(clkHz: uint32, boot: Machine, w: World, c: HostCommand)
    requires Inv(clkHz, boot, w) && !Waiting(w) && |c.payload| <= MAX_PAYLOAD
    ensures Inv(clkHz, boot, Act(clkHz, boot, w, Issue(c)))
  {
    var r := Act(clkHz, boot, w, Issue(c));
    assert r.issued[..|r.issued| - 1] == w.issued;
    assert w.device.held == [] && w.queue == [] && w.onWire == [];
    assert InFlight(r) == CommandWire(c);
    assert Underway(r, Obeyed(r.trace), c);
  }

  lemma ArrivalMovesAByte(clkHz: uint32, boot: Machine, w: World)
    requires Alive(w) && w.onWire != [] && |w.queue| < QUEUE_CAPACITY && Hears(w.device.machine)
    ensures InFlight(Act(clkHz, boot, w, Arrive)) == InFlight(w)
  {
    assert w.onWire == [w.onWire[0]] + w.onWire[1..];
  }

  /** Never more than one command's bytes are at the device. */
  lemma FewInFlight(w: World)
    requires Phase(w)
    ensures |w.device.held| + |w.queue| <= 37
  {
    if Waiting(w) {
      var c := w.issued[|w.issued| - 1];
      if |c.payload| <= MAX_PAYLOAD { BuiltCommand(c.opcode, c.payload); }
    }
  }

  lemma ArriveKeepsInv(clkHz: uint32, boot: Machine, w: World)
    requires Inv(clkHz, boot, w)
    ensures Inv(clkHz, boot, Act(clkHz, boot, w, Arrive))
  {
    if w.onWire != [] {
      FewInFlight(w);
      var r := Act(clkHz, boot, w, Arrive);
      assert InFlight(w) != [];
      var c := w.issued[|w.issued| - 1];
      if Hears(w.device.machine) { ArrivalMovesAByte(clkHz, boot, w); }
      assert Underway(r, Obeyed(r.trace), c);
    }
  }

  lemma CollectKeepsInv(clkHz: uint32, boot: Machine, w: World)
    requires Inv(clkHz, boot, w) && w.reply != [] && Waiting(w)
    ensures Inv(clkHz, boot, Act(clkHz, boot, w, Collect))
  {
    var r := Act(clkHz, boot, w, Collect);
    assert r.decoded + [] == r.decoded;
  }

  lemma DisturbKeepsInv(clkHz: uint32, boot: Machine, w: World, e: Event)
    requires Inv(clkHz, boot, w) && !e.Request? && Possible(e)
    ensures Inv(clkHz, boot, Act(clkHz, boot, w, Disturb(e)))
  {
    TraceCounts(clkHz, boot, w.trace);
    TraceGrows(clkHz, boot, w.trace, e);
    OtherEventsKeepModes(clkHz, w.device.machine, e);
    assert Obeyed(w.trace) + [] == Obeyed(w.trace);
    assert Outcomes(clkHz, boot, w.trace) + [] == Outcomes(clkHz, boot, w.trace);
    SameCommands(clkHz, boot, w, Next(clkHz, w.device.machine, e), w.trace + [e]);
  }

  /** The invariant reads the machine and the trace through the pins' modes and the commands. */
  lemma SameCommands(clkHz: uint32, boot: Machine, w: World, m: Machine, trace: seq<Event>)
    requires Inv(clkHz, boot, w) && Credible(trace) && m == Replay(clkHz, boot, trace)
    requires m.pwm.pins.mode == w.device.machine.pwm.pins.mode
    requires Obeyed(trace) == Obeyed(w.trace) && Outcomes(clkHz, boot, trace) == Outcomes(clkHz, boot, w.trace)
    ensures Inv(clkHz, boot, w.(device := w.device.(machine := m), trace := trace))
  {
    var r := w.(device := w.device.(machine := m), trace := trace);
    SamePhase(w, r);
    SameResults(clkHz, boot, w, r);
  }

  lemma SamePhase(w: World, r: World)
    requires Phase(w) && Obeyed(r.trace) == Obeyed(w.trace)
    requires r == w.(device := w.device.(machine := r.device.machine), trace := r.trace)
    ensures Phase(r)
  {
  }

  lemma SameResults(clkHz: uint32, boot: Machine, w: World, r: World)
    requires Credible(w.trace) && Credible(r.trace) && Results(clkHz, boot, w)
    requires r.decoded == w.decoded && r.reply == w.reply
    requires Outcomes(clkHz, boot, r.trace) == Outcomes(clkHz, boot, w.trace)
    ensures Results(clkHz, boot, r)
  {
  }

  lemma HeldAreFirst(w: World)
    requires w.queue != []
    ensures InFlight(w)[..|w.device.held|] == w.device.held
    ensures InFlight(w)[|w.device.held|] == w.queue[0]
  {
  }

  /** Taking a byte in the middle of a frame only moves it from the queue to the parser. */
  lemma MiddleByte(clkHz: uint32, boot: Machine, w: World)
    requires Alive(w) && w.queue != []
    requires IsFrame(InFlight(w)) && |w.device.held| + 1 < |InFlight(w)|
    ensures var held := w.device.held + [w.queue[0]];
      Drained(clkHz, boot, w) == w.(device := Firmware(held, w.device.machine), queue := w.queue[1..])
    ensures InFlight(Drained(clkHz, boot, w)) == InFlight(w)
  {
    HeldAreFirst(w);
    FrameStep(InFlight(w), |w.device.held|);
    assert InFlight(w)[..|w.device.held| + 1] == w.device.held + [w.queue[0]];
    assert w.queue == [w.queue[0]] + w.queue[1..];
  }

  /** What obeying a command makes of the world: it is answered, and the answer is on its way if
      the transmit pin is still routed. */
  function AfterObeying(clkHz: uint32, boot: Machine, w: World, c: HostCommand): World {
    var (t, status, value) := Execute(clkHz, w.device.machine, c.opcode, c.payload);
    w.(device := Firmware([], if t.resetRequested then boot else t), queue := [],
       reply := if Speaks(t) then ReplyWire(ReplyTo(c.opcode, status, value)) else [],
       trace := w.trace + [Request(c.opcode, c.payload)])
  }

  /** Taking the last byte of an intact frame has its command obeyed and answered. */
  lemma LastByte(clkHz: uint32, boot: Machine, w: World)
    requires Alive(w) && w.queue != []
    requires IsFrame(InFlight(w)) && IsIntact(InFlight(w)) && |w.device.held| + 1 == |InFlight(w)| && w.reply == []
    ensures var wire := InFlight(w);
      Drained(clkHz, boot, w) == AfterObeying(clkHz, boot, w, HostCommand(wire[1], Payload(wire))) && w.onWire == []
  {
    HeldAreFirst(w);
    FrameStep(InFlight(w), |w.device.held|);
    assert w.device.held + [w.queue[0]] == InFlight(w);
    assert w.queue[1..] == [] && w.onWire == [];
    var (_, status, value) := Execute(clkHz, w.device.machine, InFlight(w)[1], Payload(InFlight(w)));
    assert [] + ReplyWire(ReplyTo(InFlight(w)[1], status, value)) == ReplyWire(ReplyTo(InFlight(w)[1], status, value));
  }

  /** Bytes are taken from the queue only while a command is under way. */
  lemma QueueMeansCommand(w: World, m: Machine)
    requires Phase(w) && w.queue != [] && Links(m, Obeyed(w.trace))
    ensures Waiting(w) && w.reply == [] && Hears(m) && Speaks(m)
    ensures Obeyed(w.trace) == w.issued[..|w.issued| - 1]
    ensures var c := w.issued[|w.issued| - 1];
      |c.payload| <= MAX_PAYLOAD && InFlight(w) == CommandWire(c) && |w.device.held| < |CommandWire(c)|
  {
    assert |InFlight(w)| >= |w.queue| > 0;
  }

  lemma MiddleKeepsInv(clkHz: uint32, boot: Machine, w: World)
    requires Inv(clkHz, boot, w) && w.queue != [] && |w.device.held| + 1 < |InFlight(w)|
    ensures Inv(clkHz, boot, Drained(clkHz, boot, w))
  {
    QueueMeansCommand(w, w.device.machine);
    var c := w.issued[|w.issued| - 1];
    BuiltCommand(c.opcode, c.payload);
    MiddleByte(clkHz, boot, w);
    var r := Drained(clkHz, boot, w);
    assert Underway(r, Obeyed(r.trace), c);
  }

  lemma LastKeepsInv(clkHz: uint32, boot: Machine, w: World)
    requires Inv(clkHz, boot, w) && w.queue != [] && |w.device.held| + 1 == |InFlight(w)|
    ensures Inv(clkHz, boot, Drained(clkHz, boot, w))
  {
    QueueMeansCommand(w, w.device.machine);
    var c := w.issued[|w.issued| - 1];
    BuiltCommand(c.opcode, c.payload);
    LastByte(clkHz, boot, w);
    TraceCounts(clkHz, boot, w.trace);
    TraceGrows(clkHz, boot, w.trace, Request(c.opcode, c.payload));
    var r := AfterObeying(clkHz, boot, w, c);
    LinksAfter(clkHz, boot, w.device.machine, Obeyed(w.trace), c);
    LastPhase(clkHz, boot, w, c);
    LastResults(clkHz, boot, w, r, c);
  }

  /** The command just obeyed decides which pins stay routed. */
  lemma LinksAfter(clkHz: uint32, boot: Machine, m: Machine, obeyed: seq<HostCommand>, c: HostCommand)
    requires Links(m, obeyed) && Hears(m) && Speaks(m) && !m.resetRequested && Hears(boot) && Speaks(boot)
    ensures var t := Execute(clkHz, m, c.opcode, c.payload).0;
      Links(if t.resetRequested then boot else t, obeyed + [c]) && (Speaks(t) <==> !CutsReplies(c))
  {
    SerialPinStep(clkHz, m, c.opcode, c.payload, LINK_TX);
    SerialPinStep(clkHz, m, c.opcode, c.payload, LINK_RX);
    if Execute(clkHz, m, c.opcode, c.payload).0.resetRequested { OnlyResetAsks(clkHz, m, c.opcode, c.payload); }
  }

  lemma LastPhase(clkHz: uint32, boot: Machine, w: World, c: HostCommand)
    requires Phase(w) && Waiting(w) && c == w.issued[|w.issued| - 1] && w.onWire == []
    requires Obeyed(w.trace) == w.issued[..|w.issued| - 1]
    requires Speaks(Execute(clkHz, w.device.machine, c.opcode, c.payload).0) <==> !CutsReplies(c)
    requires Obeyed(w.trace + [Request(c.opcode, c.payload)]) == Obeyed(w.trace) + [c]
    ensures Phase(AfterObeying(clkHz, boot, w, c))
  {
    var r := AfterObeying(clkHz, boot, w, c);
    assert w.issued[..|w.issued| - 1] + [c] == w.issued;
    assert Underway(r, Obeyed(r.trace), c);
  }

  lemma LastResults(clkHz: uint32, boot: Machine, w: World, r: World, c: HostCommand)
    requires Credible(w.trace) && Credible(r.trace) && Results(clkHz, boot, w) && w.reply == []
    requires r.decoded == w.decoded && |w.decoded| == |Outcomes(clkHz, boot, w.trace)|
    requires Outcomes(clkHz, boot, r.trace)
      == Outcomes(clkHz, boot, w.trace) + [Expected(clkHz, w.device.machine, c.opcode, c.payload)]
    requires r == AfterObeying(clkHz, boot, w, c)
    ensures Results(clkHz, boot, r)
  {
    var (_, status, value) := Execute(clkHz, w.device.machine, c.opcode, c.payload);
    var reply := ReplyWire(ReplyTo(c.opcode, status, value));
    ReplyRoundTrip(ReplyTo(c.opcode, status, value), []);
    assert reply + [] == reply;
    assert w.decoded + [] == w.decoded == Outcomes(clkHz, boot, w.trace);
  }

  lemma {:induction false} InvHolds(clkHz: uint32, boot: Machine, actions: seq<Action>)
    requires !boot.resetRequested && Hears(boot) && Speaks(boot)
    ensures Inv(clkHz, boot, RunWorld(clkHz, boot, actions))
  {
    if actions == [] {
      assert Start(boot).issued == [];
    } else {
      var w, a := RunWorld(clkHz, boot, actions[..|actions| - 1]), actions[|actions| - 1];
      InvHolds(clkHz, boot, actions[..|actions| - 1]);
      ActKeepsInv(clkHz, boot, w, a);
    }
  }

  lemma ActKeepsInv(clkHz: uint32, boot: Machine, w: World, a: Action)
    requires Inv(clkHz, boot, w)
    ensures Inv(clkHz, boot, Act(clkHz, boot, w, a))
  {
    match a
    case Issue(c) => if !Waiting(w) && |c.payload| <= MAX_PAYLOAD { IssueKeepsInv(clkHz, boot, w, c); }
    case Arrive => ArriveKeepsInv(clkHz, boot, w);
    case Drain =>
      if w.queue != [] {
        QueueMeansCommand(w, w.device.machine);
        if |w.device.held| + 1 < |InFlight(w)| {
          MiddleKeepsInv(clkHz, boot, w);
        } else {
          LastKeepsInv(clkHz, boot, w);
        }
      }
    case Collect => if w.reply != [] && Waiting(w) { CollectKeepsInv(clkHz, boot, w); }
    case Disturb(e) => if !e.Request? && Possible(e) { DisturbKeepsInv(clkHz, boot, w, e); }
  }

  // ----- the result

  /** The device obeys the host's commands once each and in order, at most the last one not yet;
      the k-th response the host decodes is the outcome of its k-th command, at the state the
      device was in when it obeyed it; and a host that is not waiting has all its responses. */
  ghost predicate AllAnswered(clkHz: uint32, boot: Machine, w: World) {
    && Credible(w.trace)
    && Obeyed(w.trace) <= w.issued && |w.issued| <= |Obeyed(w.trace)| + 1
    && w.decoded <= Outcomes(clkHz, boot, w.trace) && |w.issued| <= |w.decoded| + 1
    && (!Waiting(w) ==> Obeyed(w.trace) == w.issued && w.decoded == Outcomes(clkHz, boot, w.trace))
    && w.device.machine == Replay(clkHz, boot, w.trace)
  }

  /** In every interleaving, whatever the host sends, the receive queue never refuses a byte, and
      all commands are answered as they should be. */
  lemma EveryCommandAnswered(clkHz: uint32, boot: Machine, actions: seq<Action>)
    requires !boot.resetRequested && Hears(boot) && Speaks(boot)
    ensures var w := RunWorld(clkHz, boot, actions); w.refused == 0 && AllAnswered(clkHz, boot, w)
  {
    InvHolds(clkHz, boot, actions);
    TraceCounts(clkHz, boot, RunWorld(clkHz, boot, actions).trace);
  }

  /** Steps still needed before the host has its response. */
  function Work(w: World): nat {
    if !Waiting(w) then 0 else if w.reply != [] then 1 else 2 + 2 * |w.onWire| + |w.queue|
  }

  /** A step that moves a byte or a reply. */
  function Useful(w: World): Action {
    if w.reply != [] then Collect else if w.queue != [] then Drain else Arrive
  }

  /** A host whose commands leave the link alone is never stuck: while it waits, something is
      under way, and moving it leaves strictly less to do. */
  lemma UsefulStep(clkHz: uint32, boot: Machine, w: World)
    requires Inv(clkHz, boot, w) && Waiting(w) && Answerable(w.issued)
    ensures var r := Act(clkHz, boot, w, Useful(w)); Work(r) < Work(w) && r.issued == w.issued
  {
    var c, obeyed := w.issued[|w.issued| - 1], Obeyed(w.trace);
    assert !CutsReplies(c);
    if obeyed != w.issued && obeyed != [] { assert obeyed[|obeyed| - 1] == w.issued[|obeyed| - 1]; }
    if w.reply == [] && w.queue != [] {
      DrainProgress(clkHz, boot, w);
    } else if w.reply == [] {
      BuiltCommand(c.opcode, c.payload);
      assert w.onWire != [];
    }
  }

  lemma DrainProgress(clkHz: uint32, boot: Machine, w: World)
    requires Inv(clkHz, boot, w) && w.queue != [] && Answerable(w.issued)
    ensures var r := Drained(clkHz, boot, w); Work(r) < Work(w) && r.issued == w.issued
  {
    QueueMeansCommand(w, w.device.machine);
    var c := w.issued[|w.issued| - 1];
    assert !CutsReplies(c);
    BuiltCommand(c.opcode, c.payload);
    if |w.device.held| + 1 < |InFlight(w)| {
      MiddleByte(clkHz, boot, w);
    } else {
      LastByte(clkHz, boot, w);
      LinksAfter(clkHz, boot, w.device.machine, Obeyed(w.trace), c);
    }
  }

  /** Conversely a host that is done waiting has sent no command that cuts the link, but for its
      very last taking the receive pin. */
  lemma OnlyAnswerableAnswered(clkHz: uint32, boot: Machine, w: World)
    requires Inv(clkHz, boot, w) && !Waiting(w)
    ensures Answerable(w.issued)
  {
  }

  function Continue(clkHz: uint32, boot: Machine, w: World, more: seq<Action>): (r: World)
    requires Alive(w)
    ensures Alive(r)
  {
    if more == [] then w
    else Act(clkHz, boot, Continue(clkHz, boot, w, more[..|more| - 1]), more[|more| - 1])
  }

  lemma {:induction false} ContinueKeepsInv(clkHz: uint32, boot: Machine, w: World, more: seq<Action>)
    requires Inv(clkHz, boot, w)
    ensures Inv(clkHz, boot, Continue(clkHz, boot, w, more))
  {
    if more != [] {
      ContinueKeepsInv(clkHz, boot, w, more[..|more| - 1]);
      ActKeepsInv(clkHz, boot, Continue(clkHz, boot, w, more[..|more| - 1]), more[|more| - 1]);
    }
  }

  lemma ActKeepsIssued(clkHz: uint32, boot: Machine, w: World, a: Action)
    requires Alive(w)
    ensures w.issued <= Act(clkHz, boot, w, a).issued
  {
  }

  lemma {:induction false} ContinueKeepsIssued(clkHz: uint32, boot: Machine, w: World, more: seq<Action>)
    requires Alive(w)
    ensures w.issued <= Continue(clkHz, boot, w, more).issued
  {
    if more != [] {
      ContinueKeepsIssued(clkHz, boot, w, more[..|more| - 1]);
      ActKeepsIssued(clkHz, boot, Continue(clkHz, boot, w, more[..|more| - 1]), more[|more| - 1]);
    }
  }

  lemma {:induction false} RunsToItsAnswer(clkHz: uint32, boot: Machine, w: World) returns (more: seq<Action>)
    requires Inv(clkHz, boot, w) && Answerable(w.issued)
    ensures var r := Continue(clkHz, boot, w, more); !Waiting(r) && r.issued == w.issued
    decreases Work(w)
  {
    if !Waiting(w) {
      more := [];
    } else {
      UsefulStep(clkHz, boot, w);
      var a := Useful(w);
      ActKeepsInv(clkHz, boot, w, a);
      var rest := RunsToItsAnswer(clkHz, boot, Act(clkHz, boot, w, a));
      more := [a] + rest;
      ContinueAfter(clkHz, boot, w, a, rest);
    }
  }

  lemma {:induction false} ContinueAfter(clkHz: uint32, boot: Machine, w: World, a: Action, rest: seq<Action>)
    requires Alive(w)
    ensures Continue(clkHz, boot, w, [a] + rest) == Continue(clkHz, boot, Act(clkHz, boot, w, a), rest)
  {
    if rest == [] {
      assert [a] + rest == [a] && [a][..0] == [];
    } else {
      var all := [a] + rest;
      assert all[..|all| - 1] == [a] + rest[..|rest| - 1] && all[|all| - 1] == rest[|rest| - 1];
      ContinueAfter(clkHz, boot, w, a, rest[..|rest| - 1]);
    }
  }

  lemma UnanswerableStays(cs: seq<HostCommand>, more: seq<HostCommand>)
    requires cs <= more && Answerable(more)
    ensures Answerable(cs)
  {
    forall k | 0 <= k < |cs| ensures !CutsReplies(cs[k]) && (CutsCommands(cs[k]) ==> k == |cs| - 1) {
      assert cs[k] == more[k];
    }
  }

  /** From every reachable state the host can still get all its answers if and only if its
      commands leave the link alone: none is a GPIO_CFG the device accepts for PA2, and none but
      the last for PA3. Otherwise it waits for ever, whatever happens. */
  lemma AnsweredIff(clkHz: uint32, boot: Machine, actions: seq<Action>)
    requires !boot.resetRequested && Hears(boot) && Speaks(boot)
    ensures var w := RunWorld(clkHz, boot, actions);
      Answerable(w.issued) <==> exists more :: !Waiting(Continue(clkHz, boot, w, more))
  {
    var w := RunWorld(clkHz, boot, actions);
    InvHolds(clkHz, boot, actions);
    if Answerable(w.issued) {
      var more := RunsToItsAnswer(clkHz, boot, w);
      assert !Waiting(Continue(clkHz, boot, w, more));
    }
    forall more | !Waiting(Continue(clkHz, boot, w, more)) ensures Answerable(w.issued) {
      ContinueKeepsInv(clkHz, boot, w, more);
      ContinueKeepsIssued(clkHz, boot, w, more);
      OnlyAnswerableAnswered(clkHz, boot, Continue(clkHz, boot, w, more));
      UnanswerableStays(w.issued, Continue(clkHz, boot, w, more).issued);
    }
  }

  /** Nothing is issued after a command that took the transmit pin. */
  lemma OnlyTheLastCuts(clkHz: uint32, boot: Machine, w: World, k: nat)
    requires Inv(clkHz, boot, w) && k < |w.issued| - 1
    ensures !CutsReplies(w.issued[k])
  {
    assert Obeyed(w.trace)[k] == w.issued[k];
  }

  /** On a booted device a host whose first command makes PA2 an output never gets an answer. */
  lemma CuttingHostWaitsForEver(clkHz: uint32, boot: Machine, actions: seq<Action>)
    requires Booted(boot) && RunWorld(clkHz, boot, actions).issued != []
    requires RunWorld(clkHz, boot, actions).issued[0] == HostCommand(0x30, [1, 0, 2])
    ensures var w := RunWorld(clkHz, boot, actions);
      |w.issued| == 1 && w.decoded == [] && forall more :: Waiting(Continue(clkHz, boot, w, more))
  {
    var w := RunWorld(clkHz, boot, actions);
    ConfiguringCutsTheLink(clkHz, boot);
    AnsweredIff(clkHz, boot, actions);
    InvHolds(clkHz, boot, actions);
    assert CutsReplies(w.issued[0]);
    assert !Answerable(w.issued);
    if |w.issued| > 1 { OnlyTheLastCuts(clkHz, boot, w, 0); }
  }
}

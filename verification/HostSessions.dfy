/** Whole sessions. Whatever a host orders through its client, and whatever edges, interrupts and inputs
    come in between, the firmware's replies decode to the reference device's answers and its state goes on
    standing for the reference device. */
module HostSessions {
  import opened Words
  import opened Status
  import opened Gpio
  import opened TimerDriver
  import opened PwmController
  import opened PwmView
  import opened GpioController
  import opened FrameParser
  import opened CommandDispatcher
  import opened MachineRuns
  import opened MainLoop
  import opened HostProtocol
  import opened DeviceRelation
  import opened GpioOrders
  import opened PwmOrders
  import C = HostClient
  import R = ReferenceDevice

  // ----- orders

  lemma SystemOrderServed(start: R.Device, m: Machine, d: R.Device, o: C.Order)
    requires StandsFor(m, d) && (o.Probe? || o.Reset?)
    ensures ServedAlike(start, m, d, o)
  {
  }

  lemma OrderServed(start: R.Device, m: Machine, d: R.Device, o: C.Order)
    requires StandsFor(m, d)
    ensures ServedAlike(start, m, d, o)
  {
    if IsGpio(o) {
      GpioServedAlike(start, m, d, o);
    } else if IsPwm(o) {
      PwmServedAlike(start, m, d, o);
    } else {
      SystemOrderServed(start, m, d, o);
    }
  }

  // ----- edges, interrupts, inputs

  lemma EdgeSeen(m: Machine, d: R.Device, n: nat)
    requires StandsFor(m, d) && n < 16
    ensures StandsFor(Next(CLOCK, m, Edge(n)), R.SeeEdge(d, n))
  {
    var t := Next(CLOCK, m, Edge(n));
    var xs := R.SeeEdge(d, n).lines;
    forall k: nat | k < 16 ensures LineStands(t.pwm.pins.lines, t.bindings, k, xs[k]) {
      assert LineStands(m.pwm.pins.lines, m.bindings, k, d.lines[k]);
    }
    PinsKept(m.pwm.pins, t.pwm.pins, m.pwm.groups, d.pins);
  }

  lemma InputsSampled(m: Machine, d: R.Device, samples: seq<bool>)
    requires StandsFor(m, d) && |samples| == PINS
    ensures StandsFor(Next(CLOCK, m, InputsChange(samples)), R.NewSamples(d, samples))
  {
    var t := Next(CLOCK, m, InputsChange(samples));
    forall p: PinId | InRange(p) ensures PinStands(t.pwm.pins, t.pwm.groups, p, d.pins[At(p)]) {
      assert PinStands(m.pwm.pins, m.pwm.groups, p, d.pins[At(p)]);
    }
  }

  lemma SameServed(v: R.Vector, n: nat)
    requires n < 16
    ensures R.Serves(v, n) <==> FirstLine(Number(v)) <= n <= LastLine(Number(v))
  {
  }

  lemma SamePending(m: Machine, d: R.Device)
    requires StandsFor(m, d)
    ensures forall n: nat :: n < 16 ==> m.pwm.pins.lines.pending[n] == d.lines[n].pending
  {
    forall n: nat | n < 16 ensures m.pwm.pins.lines.pending[n] == d.lines[n].pending {
      assert LineStands(m.pwm.pins.lines, m.bindings, n, d.lines[n]);
    }
  }

  lemma SameFirst(pending: seq<bool>, d: R.Device, v: R.Vector)
    requires |pending| == 16 && forall n: nat :: n < 16 ==> pending[n] == d.lines[n].pending
    ensures R.FirstWaiting(d, v, 0) == FirstPending(pending, FirstLine(Number(v)), LastLine(Number(v)) + 1)
  {
    var a, b := R.FirstWaiting(d, v, 0), FirstPending(pending, FirstLine(Number(v)), LastLine(Number(v)) + 1);
    if a.Some? { SameServed(v, a.value); }
    if b.Some? { SameServed(v, b.value); }
  }

  lemma PendingForgotten(s: IoState, groups: Groups, d: R.Device)
    requires IoStands(s, groups, d)
    ensures IoStands(s.(pins := NothingPending(s.pins)), groups, R.NothingPending(d))
  {
    var t, xs := NothingPending(s.pins), R.NothingPending(d).lines;
    forall k: nat | k < 16 ensures LineStands(t.lines, s.bindings, k, xs[k]) {
      assert LineStands(s.pins.lines, s.bindings, k, d.lines[k]);
    }
    PinsKept(s.pins, t, groups, d.pins);
  }

  /** A line's handler does what the line is bound to. */
  lemma HandlerReacts(s: IoState, groups: Groups, d: R.Device, n: nat)
    requires IoStands(s, groups, d) && n < 16
    ensures IoStands(Fired(s, n), groups, if d.lines[n].bound.Some? then R.React(d, d.lines[n].bound.value) else d)
  {
    assert LineStands(s.pins.lines, s.bindings, n, d.lines[n]);
    if d.lines[n].bound.Some? {
      var b := d.lines[n].bound.value;
      SamePins(b.output);
      RoleIsMode(s.pins, groups, d, b.output);
      if s.pins.IsMode(b.output, MODE_OUTPUT) {
        DriveStands(s, groups, d, b.output, match b.reaction
                                            case DRIVE_LOW => false
                                            case DRIVE_HIGH => true
                                            case TOGGLE => !s.pins.levels[At(b.output)]);
      }
    }
  }

  lemma FirstReacts(s: IoState, groups: Groups, d: R.Device, n: nat)
    requires IoStands(s, groups, d) && n < 16
    ensures IoStands(Fired(s.(pins := NothingPending(s.pins)), n), groups,
      if d.lines[n].bound.Some? then R.React(R.NothingPending(d), d.lines[n].bound.value) else R.NothingPending(d))
  {
    PendingForgotten(s, groups, d);
    assert R.NothingPending(d).lines[n].bound == d.lines[n].bound;
    HandlerReacts(s.(pins := NothingPending(s.pins)), groups, R.NothingPending(d), n);
  }

  /** What serving a range of lines makes of the reference device. */
  function AfterServing(d: R.Device, first: Option<nat>): (e: R.Device)
    requires first.Some? ==> first.value < 16
  {
    match first
    case None => d
    case Some(n) => if d.lines[n].bound.Some? then R.React(R.NothingPending(d), d.lines[n].bound.value) else R.NothingPending(d)
  }

  lemma LinesServed(s: IoState, groups: Groups, d: R.Device, lo: nat, hi: nat)
    requires IoStands(s, groups, d) && hi <= MAX_GPIO_INTERRUPTS
    ensures IoStands(ServedLines(s, lo, hi), groups, AfterServing(d, FirstPending(s.pins.lines.pending, lo, hi)))
  {
    OnlyFirstIsServed(s, lo, hi);
    var first := FirstPending(s.pins.lines.pending, lo, hi);
    if first.Some? { FirstReacts(s, groups, d, first.value); }
  }

  lemma IoVectorTaken(s: IoState, groups: Groups, d: R.Device, v: R.Vector)
    requires IoStands(s, groups, d) && R.FirstWaiting(d, v, 0) ==
      FirstPending(s.pins.lines.pending, FirstLine(Number(v)), LastLine(Number(v)) + 1)
    ensures IoStands(VectorServed(s, Number(v)), groups, R.TakeVector(d, v)) && R.TakeVector(d, v).groups == d.groups
  {
    LinesServed(s, groups, d, FirstLine(Number(v)), LastLine(Number(v)) + 1);
    LiveIsEnabled(s.pins.lines.vectors, d.live, v);
    TakenIsServed(d, v);
  }

  lemma LiveIsEnabled(vectors: seq<bool>, live: set<R.Vector>, v: R.Vector)
    requires |vectors| == VECTORS && VectorsStand(vectors, live)
    ensures v in live <==> vectors[Number(v)]
  {
  }

  lemma TakenIsServed(d: R.Device, v: R.Vector)
    ensures R.TakeVector(d, v) == if v in d.live then AfterServing(d, R.FirstWaiting(d, v, 0)) else d
    ensures R.TakeVector(d, v).groups == d.groups
  {
  }

  lemma VectorTaken(m: Machine, d: R.Device, v: R.Vector)
    requires StandsFor(m, d)
    ensures StandsFor(Next(CLOCK, m, Interrupt(Number(v))), R.TakeVector(d, v))
  {
    SamePending(m, d);
    SameFirst(m.pwm.pins.lines.pending, d, v);
    IoVectorTaken(m.Io(), m.pwm.groups, d, v);
  }

  // ----- bytes

  /** A reply on the wire that the host decodes to the answer. */
  predicate Decodes(raw: seq<byte>, a: R.Answer) {
    var r := ParseResponse(raw);
    match a
    case Done => r == Success(Response(true, []))
    case Refused(reason) => reason < 0x100 && r == Success(Response(false, [reason]))
    case Value(n, width) => r.Success? && r.value.ack && |r.value.data| == width && r.value.Value() == Some(n)
    case Near(hz) =>
      && r.Success? && r.value.ack && |r.value.data| == 4 && r.value.Value().Some?
      && hz <= r.value.Value().value && 170 * r.value.Value().value < 171 * hz
  }

  lemma AnswerDecodes(m: Machine, opcode: byte, payload: seq<byte>, a: R.Answer)
    requires var (_, status, value) := Execute(CLOCK, m, opcode, payload); Gives(opcode, status, value, a)
    requires a.Value? ==> a.width > 0
    ensures var (_, status, value) := Execute(CLOCK, m, opcode, payload); Decodes(ReplyWire(ReplyTo(opcode, status, value)), a)
  {
    var (_, status, value) := Execute(CLOCK, m, opcode, payload);
    var raw := ReplyWire(ReplyTo(opcode, status, value));
    ReplyRoundTrip(ReplyTo(opcode, status, value), []);
    ReplyDecodes(CLOCK, m, opcode, payload, []);
    assert raw + [] == raw;
  }

  /** One order as bytes: the frame the client builds, fed to an idle device. */
  function Deliver(boot: Machine, m: Machine, o: C.Order): (r: (Firmware, seq<seq<byte>>)) {
    Consume(CLOCK, boot, Firmware([], m), BuildCommand(C.Opcode(o), C.Payload(o)).value)
  }

  lemma Delivered(boot: Machine, m: Machine, o: C.Order)
    ensures var (t, status, value) := Execute(CLOCK, m, C.Opcode(o), C.Payload(o));
      Deliver(boot, m, o) == (Firmware([], if t.resetRequested then boot else t), [ReplyWire(ReplyTo(C.Opcode(o), status, value))])
  {
    CommandIsObeyed(CLOCK, boot, m, C.Opcode(o), C.Payload(o));
  }

  lemma AnswersHaveWidth(start: R.Device, d: R.Device, o: C.Order)
    ensures var a := R.Serve(start, d, o).1; a.Value? ==> a.width > 0
  {
  }

  /** From the client's bytes to the host's decoded reply: the device answers every order as the
      reference device does, and goes on standing for it. */
  lemma OrderIsAnswered(boot: Machine, start: R.Device, m: Machine, d: R.Device, o: C.Order)
    requires StandsFor(boot, start) && StandsFor(m, d)
    ensures var (f, replies) := Deliver(boot, m, o);
      var (e, a) := R.Serve(start, d, o);
      f.held == [] && StandsFor(f.machine, e) && |replies| == 1 && Decodes(replies[0], a)
  {
    OrderServed(start, m, d, o);
    Delivered(boot, m, o);
    AnswersHaveWidth(start, d, o);
    AnswerDecodes(m, C.Opcode(o), C.Payload(o), R.Serve(start, d, o).1);
  }

  // ----- sessions

  datatype Happening =
    | Ask(order: C.Order)
    | LineEdge(line: nat)
    | Vector(vector: R.Vector)
    | Inputs(samples: seq<bool>)

  predicate CanHappen(h: Happening) {
    match h
    case LineEdge(n) => n < 16
    case Inputs(samples) => |samples| == PINS
    case _ => true
  }

  function EventOf(h: Happening): (e: Event)
    requires !h.Ask? && CanHappen(h)
    ensures Possible(e)
  {
    match h
    case LineEdge(n) => Edge(n)
    case Vector(v) => Interrupt(Number(v))
    case Inputs(samples) => InputsChange(samples)
  }

  /** The firmware's side of a session: its machine, and the replies it sent. */
  function Played(boot: Machine, hs: seq<Happening>): (r: (Machine, seq<seq<byte>>))
    requires forall k :: 0 <= k < |hs| ==> CanHappen(hs[k])
  {
    if hs == [] then (boot, [])
    else
      var (m, replies) := Played(boot, hs[..|hs| - 1]);
      var h := hs[|hs| - 1];
      if h.Ask? then
        var (f, more) := Deliver(boot, m, h.order);
        (f.machine, replies + more)
      else
        assert CanHappen(h);
        (Next(CLOCK, m, EventOf(h)), replies)
  }

  function Imagine(d: R.Device, h: Happening): (e: R.Device)
    requires !h.Ask? && CanHappen(h)
  {
    match h
    case LineEdge(n) => R.SeeEdge(d, n)
    case Vector(v) => R.TakeVector(d, v)
    case Inputs(samples) => R.NewSamples(d, samples)
  }

  /** The reference device's side: its state, and the answers it gave. */
  function Imagined(start: R.Device, hs: seq<Happening>): (r: (R.Device, seq<R.Answer>))
    requires forall k :: 0 <= k < |hs| ==> CanHappen(hs[k])
  {
    if hs == [] then (start, [])
    else
      var (d, answers) := Imagined(start, hs[..|hs| - 1]);
      var h := hs[|hs| - 1];
      assert CanHappen(h);
      if h.Ask? then
        var (e, a) := R.Serve(start, d, h.order);
        (e, answers + [a])
      else (Imagine(d, h), answers)
  }

  ghost predicate AllDecode(replies: seq<seq<byte>>, answers: seq<R.Answer>) {
    |replies| == |answers| && forall k :: 0 <= k < |replies| ==> Decodes(replies[k], answers[k])
  }

  lemma HappeningMatches(m: Machine, d: R.Device, h: Happening)
    requires StandsFor(m, d) && CanHappen(h) && !h.Ask?
    ensures StandsFor(Next(CLOCK, m, EventOf(h)), Imagine(d, h))
  {
    match h
    case LineEdge(n) => EdgeSeen(m, d, n);
    case Vector(v) => VectorTaken(m, d, v);
    case Inputs(samples) => InputsSampled(m, d, samples);
  }

  /** The firmware refines the reference device over every session. */
  lemma {:induction false} SessionsAgree(boot: Machine, start: R.Device, hs: seq<Happening>)
    requires StandsFor(boot, start) && forall k :: 0 <= k < |hs| ==> CanHappen(hs[k])
    ensures var (m, replies) := Played(boot, hs);
      var (d, answers) := Imagined(start, hs);
      StandsFor(m, d) && AllDecode(replies, answers)
  {
    if hs != [] {
      var before, h := hs[..|hs| - 1], hs[|hs| - 1];
      SessionsAgree(boot, start, before);
      var m, d := Played(boot, before).0, Imagined(start, before).0;
      if h.Ask? {
        OrderIsAnswered(boot, start, m, d, h.order);
      } else {
        HappeningMatches(m, d, h);
      }
    }
  }

  /** The client's own checks keep it from ever being told that an argument is invalid. */
  lemma ClientArgumentsAreValid(boot: Machine, start: R.Device, hs: seq<Happening>, k: nat)
    requires StandsFor(boot, start) && (forall j :: 0 <= j < |hs| ==> CanHappen(hs[j]))
    requires forall j :: 0 <= j < |hs| ==> hs[j].Ask? ==> C.LetsThrough(hs[j].order)
    ensures k < |Played(boot, hs).1| ==> ParseResponse(Played(boot, hs).1[k]) != Success(Response(false, [2]))
  {
    SessionsAgree(boot, start, hs);
    AnswersAreValid(start, hs);
  }

  lemma {:induction false} AnswersAreValid(start: R.Device, hs: seq<Happening>)
    requires forall j :: 0 <= j < |hs| ==> CanHappen(hs[j])
    requires forall j :: 0 <= j < |hs| ==> hs[j].Ask? ==> C.LetsThrough(hs[j].order)
    ensures forall k :: 0 <= k < |Imagined(start, hs).1| ==> Imagined(start, hs).1[k] != R.Refused(2)
  {
    if hs != [] {
      AnswersAreValid(start, hs[..|hs| - 1]);
      if hs[|hs| - 1].Ask? { AnswerIsValid(start, Imagined(start, hs[..|hs| - 1]).0, hs[|hs| - 1].order); }
    }
  }

  lemma AnswerIsValid(start: R.Device, d: R.Device, o: C.Order)
    requires C.LetsThrough(o)
    ensures R.Serve(start, d, o).1 != R.Refused(2)
  {
  }
}

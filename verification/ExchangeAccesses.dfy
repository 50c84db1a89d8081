/** The exchange once more, with the receive queue as the firmware has it: a ring buffer shared
    without a lock, the interrupt writing and the main loop reading, one memory access at a time.
    It refines the exchange over whole queue operations, and no byte ever finds the ring full. */
module ExchangeAccesses {
  import opened Words
  import opened Status
  import opened CommandDispatcher
  import opened RingBuffer
  import opened FrameGrammar
  import opened MachineRuns
  import opened LinkPins
  import opened MainLoop
  import opened Exchange
  import S = SpscQueue

  /** COMMAND_TRANSPORT_RX_BUFFER_SIZE. */
  const RX_BUFFER_SIZE: nat := 128

  /** `world.queue` here is the byte the main loop has read and not yet fed to the parser. */
  datatype Shared = Shared(world: World, ring: S.Ring)

  /** A step of the world, or the next memory access of the interrupt or of the main loop. */
  datatype Step = Whole(action: Action) | Access(access: S.Action)

  predicate Sound(f: Shared) {
    Alive(f.world) && f.ring.head < |f.ring.slots| && f.ring.tail < |f.ring.slots|
  }

  function Byte(e: Element): byte { if e == [] then 0 else e[0] }

  /** One step. A received byte interrupts only when the last interrupt is over, the main loop
      reads only when it has dealt with the byte before, and a reset starts from an empty ring. */
  function Take(clkHz: uint32, boot: Machine, f: Shared, a: Step): (r: Shared)
    requires Sound(f)
    ensures Sound(r)
  {
    match a
    case Whole(Arrive) =>
      var w := f.world;
      if w.onWire == [] then f
      else if !Hears(w.device.machine) then f.(world := w.(onWire := w.onWire[1..]))
      else if !f.ring.producer.WriterIdle? then f
      else Shared(w.(onWire := w.onWire[1..]), S.Do(f.ring, S.Offer([w.onWire[0]])))
    case Whole(Drain) =>
      if f.world.queue == [] then f
      else Shared(Drained(clkHz, boot, f.world), if Resets(clkHz, f.world) then S.Start(f.ring.slots) else f.ring)
    case Whole(x) => f.(world := Act(clkHz, boot, f.world, x))
    case Access(x) =>
      if x.Offer? || (x.Poll? && f.world.queue != []) then f
      else if x.Release? && f.ring.consumer.Fetched? then
        Shared(f.world.(queue := f.world.queue + [Byte(f.ring.consumer.value)]), S.Do(f.ring, x))
      else f.(ring := S.Do(f.ring, x))
  }

  /** The byte read last completes a command that asks for a reset. */
  predicate Resets(clkHz: uint32, w: World)
    requires Alive(w) && w.queue != []
  {
    var o := OnByte(clkHz, w.device, w.queue[0]);
    o.reply.Some? && o.reset
  }

  function RunShared(clkHz: uint32, boot: Machine, slots: seq<Element>, steps: seq<Step>): (f: Shared)
    requires slots != []
    ensures Sound(f)
  {
    if steps == [] then Shared(Exchange.Start(boot), S.Start(slots))
    else Take(clkHz, boot, RunShared(clkHz, boot, slots, steps[..|steps| - 1]), steps[|steps| - 1])
  }

  // ----- what the exchange over whole operations sees

  function Bytes(es: seq<Element>): seq<byte> { seq(|es|, i requires 0 <= i < |es| => Byte(es[i])) }

  function Offered(p: S.Producer): seq<Element> { if p.WriterIdle? then [] else [p.item] }

  /** What the ring holds, the byte of an interrupt under way included. */
  function Inside(r: S.Ring): seq<byte>
    requires |r.delivered| <= |r.accepted|
  {
    Bytes(r.accepted[|r.delivered|..]) + Bytes(Offered(r.producer))
  }

  /** A byte is queued from the moment its interrupt begins until the main loop feeds it. */
  function Queued(f: Shared): seq<byte>
    requires |f.ring.delivered| <= |f.ring.accepted|
  {
    f.world.queue + Inside(f.ring)
  }

  function Seen(f: Shared): World
    requires |f.ring.delivered| <= |f.ring.accepted|
  {
    f.world.(queue := Queued(f))
  }

  predicate NoneRefused(verdicts: seq<(Element, bool)>) { forall k :: 0 <= k < |verdicts| ==> verdicts[k].1 }

  ghost predicate RingInv(r: S.Ring) {
    && S.Inv(r) && |r.slots| == RX_BUFFER_SIZE && NoneRefused(r.verdicts)
    && (r.producer.TailSampled? ==> |r.accepted| - r.producer.deliveredThen < QUEUE_CAPACITY)
  }

  ghost predicate SharedInv(clkHz: uint32, boot: Machine, f: Shared) {
    Sound(f) && RingInv(f.ring) && Inv(clkHz, boot, Seen(f))
  }

  /** The step of the exchange a step amounts to, if any. */
  function Meaning(f: Shared, a: Step): Option<Action> {
    match a
    case Whole(Arrive) => if Hears(f.world.device.machine) && !f.ring.producer.WriterIdle? then None else Some(Arrive)
    case Whole(Drain) => if f.world.queue == [] then None else Some(Drain)
    case Whole(x) => Some(x)
    case Access(_) => None
  }

  // ----- accesses change nothing the exchange sees

  lemma AccessKeepsRing(r: S.Ring, x: S.Action)
    requires RingInv(r) && !x.Offer?
    ensures RingInv(S.Do(r, x))
  {
    S.Preserved(r, x);
    if x.TestFull? && r.producer.TailSampled? { S.FullVerdict(r); }
  }

  /** No access but the reader's last moves a byte in or out. */
  lemma AccessKeepsBytes(r: S.Ring, x: S.Action)
    requires RingInv(r) && !x.Offer? && !(x.Release? && r.consumer.Fetched?)
    ensures |S.Do(r, x).delivered| <= |S.Do(r, x).accepted| && Inside(S.Do(r, x)) == Inside(r)
  {
    AccessKeepsRing(r, x);
    if x.TestFull? && r.producer.TailSampled? {
      S.FullVerdict(r);
      assert Offered(S.Do(r, x).producer) == Offered(r.producer);
    }
    if x.Publish? && r.producer.Copied? { PublishKeepsBytes(r); }
  }

  lemma PublishKeepsBytes(r: S.Ring)
    requires RingInv(r) && r.producer.Copied?
    ensures Inside(S.Do(r, S.Publish)) == Inside(r)
  {
    var t := S.Do(r, S.Publish);
    assert t.accepted[|r.delivered|..] == r.accepted[|r.delivered|..] + [r.producer.item];
    assert Bytes(Offered(t.producer)) == [] && Bytes(Offered(r.producer)) == [Byte(r.producer.item)];
  }

  lemma ReleaseTakesFirst(r: S.Ring)
    requires RingInv(r) && r.consumer.Fetched?
    ensures |S.Do(r, S.Release).delivered| <= |S.Do(r, S.Release).accepted|
    ensures Inside(r) == [Byte(r.consumer.value)] + Inside(S.Do(r, S.Release))
  {
    assert r.accepted[|r.delivered|..] == [r.consumer.value] + r.accepted[|r.delivered| + 1..];
  }

  lemma ReleaseIsUnseen(clkHz: uint32, boot: Machine, f: Shared)
    requires Sound(f) && RingInv(f.ring) && f.ring.consumer.Fetched?
    ensures var t := Take(clkHz, boot, f, Access(S.Release));
      |t.ring.delivered| <= |t.ring.accepted| && Seen(t) == Seen(f)
  {
    ReleaseTakesFirst(f.ring);
    var b := Byte(f.ring.consumer.value);
    assert f.world.queue + ([b] + Inside(S.Do(f.ring, S.Release))) == f.world.queue + [b] + Inside(S.Do(f.ring, S.Release));
  }

  lemma AccessIsUnseen(clkHz: uint32, boot: Machine, f: Shared, x: S.Action)
    requires Sound(f) && RingInv(f.ring) && !x.Offer?
    ensures RingInv(Take(clkHz, boot, f, Access(x)).ring)
    ensures Seen(Take(clkHz, boot, f, Access(x))) == Seen(f)
  {
    if !(x.Poll? && f.world.queue != []) {
      AccessKeepsRing(f.ring, x);
      if x.Release? && f.ring.consumer.Fetched? {
        ReleaseIsUnseen(clkHz, boot, f);
      } else {
        AccessKeepsBytes(f.ring, x);
        SameBytes(f, S.Do(f.ring, x));
      }
    }
  }

  lemma SameBytes(f: Shared, r: S.Ring)
    requires |f.ring.delivered| <= |f.ring.accepted| && |r.delivered| <= |r.accepted| && Inside(r) == Inside(f.ring)
    ensures Seen(f.(ring := r)) == Seen(f)
  {
  }

  // ----- the interrupt and the main loop

  lemma OfferIsArrival(clkHz: uint32, boot: Machine, f: Shared)
    requires SharedInv(clkHz, boot, f) && f.world.onWire != [] && Hears(f.world.device.machine)
    requires f.ring.producer.WriterIdle?
    ensures var t := Take(clkHz, boot, f, Whole(Arrive));
      RingInv(t.ring) && Seen(t) == Act(clkHz, boot, Seen(f), Arrive)
  {
    FewInFlight(Seen(f));
    S.Preserved(f.ring, S.Offer([f.world.onWire[0]]));
    assert Queued(Take(clkHz, boot, f, Whole(Arrive))) == Queued(f) + [f.world.onWire[0]];
  }

  /** The main loop's next byte is the queue's first, and what is behind it does not matter. */
  lemma DrainedUnder(clkHz: uint32, boot: Machine, w: World, more: seq<byte>)
    requires Alive(w) && w.queue != []
    ensures var d := Drained(clkHz, boot, w);
      Drained(clkHz, boot, w.(queue := w.queue + more)) ==
        d.(queue := if Resets(clkHz, w) then [] else w.queue[1..] + more)
    ensures Drained(clkHz, boot, w).queue == if Resets(clkHz, w) then [] else w.queue[1..]
  {
    assert (w.queue + more)[1..] == w.queue[1..] + more;
  }

  lemma ResetEmptiesRing(r: S.Ring)
    requires RingInv(r)
    ensures RingInv(S.Start(r.slots)) && Inside(S.Start(r.slots)) == []
  {
  }

  lemma FeedIsDrain(clkHz: uint32, boot: Machine, f: Shared)
    requires Sound(f) && RingInv(f.ring) && f.world.queue != []
    ensures var t := Take(clkHz, boot, f, Whole(Drain));
      RingInv(t.ring) && Seen(t) == Act(clkHz, boot, Seen(f), Drain)
  {
    var more := Inside(f.ring);
    DrainedUnder(clkHz, boot, f.world, more);
    ResetEmptiesRing(f.ring);
    var t := Take(clkHz, boot, f, Whole(Drain));
    assert Queued(t) == if Resets(clkHz, f.world) then [] else f.world.queue[1..] + more;
  }

  lemma OthersAreThemselves(clkHz: uint32, boot: Machine, f: Shared, x: Action)
    requires Sound(f) && RingInv(f.ring) && !x.Arrive? && !x.Drain?
    ensures var t := Take(clkHz, boot, f, Whole(x)); t.ring == f.ring && Seen(t) == Act(clkHz, boot, Seen(f), x)
  {
  }

  /** Every step is a step of the exchange, or one it cannot see. */
  lemma TakeRefinesAct(clkHz: uint32, boot: Machine, f: Shared, a: Step)
    requires SharedInv(clkHz, boot, f)
    ensures RingInv(Take(clkHz, boot, f, a).ring)
    ensures Seen(Take(clkHz, boot, f, a)) ==
      match Meaning(f, a) case None => Seen(f) case Some(x) => Act(clkHz, boot, Seen(f), x)
  {
    match a
    case Whole(Arrive) =>
      if f.world.onWire != [] && Hears(f.world.device.machine) && f.ring.producer.WriterIdle? { OfferIsArrival(clkHz, boot, f); }
    case Whole(Drain) => if f.world.queue != [] { FeedIsDrain(clkHz, boot, f); }
    case Whole(x) => OthersAreThemselves(clkHz, boot, f, x);
    case Access(x) => if !x.Offer? { AccessIsUnseen(clkHz, boot, f, x); }
  }

  lemma TakeKeepsInv(clkHz: uint32, boot: Machine, f: Shared, a: Step)
    requires SharedInv(clkHz, boot, f)
    ensures SharedInv(clkHz, boot, Take(clkHz, boot, f, a))
  {
    TakeRefinesAct(clkHz, boot, f, a);
    if Meaning(f, a).Some? { ActKeepsInv(clkHz, boot, Seen(f), Meaning(f, a).value); }
  }

  /** Every run over single accesses is a run over whole queue operations, and never has the
      interrupt find the ring full. */
  lemma {:induction false} SharedRunRefines(clkHz: uint32, boot: Machine, slots: seq<Element>, steps: seq<Step>)
    returns (actions: seq<Action>)
    requires |slots| == RX_BUFFER_SIZE && !boot.resetRequested && Hears(boot) && Speaks(boot)
    ensures SharedInv(clkHz, boot, RunShared(clkHz, boot, slots, steps))
    ensures Seen(RunShared(clkHz, boot, slots, steps)) == RunWorld(clkHz, boot, actions)
  {
    if steps == [] {
      actions := [];
      InvHolds(clkHz, boot, []);
      assert Queued(Shared(Exchange.Start(boot), S.Start(slots))) == [];
    } else {
      var f, a := RunShared(clkHz, boot, slots, steps[..|steps| - 1]), steps[|steps| - 1];
      var before := SharedRunRefines(clkHz, boot, slots, steps[..|steps| - 1]);
      TakeRefinesAct(clkHz, boot, f, a);
      TakeKeepsInv(clkHz, boot, f, a);
      actions := match Meaning(f, a) case None => before case Some(x) => before + [x];
      assert Meaning(f, a).Some? ==> actions[..|actions| - 1] == before;
    }
  }

  /** With the ring shared access by access the exchange is as sound as before: no byte is
      refused, every command is obeyed once and in order and answered by its own outcome. */
  lemma EveryCommandAnsweredOverSharedRing(clkHz: uint32, boot: Machine, slots: seq<Element>, steps: seq<Step>)
    requires |slots| == 128 && !boot.resetRequested && Hears(boot) && Speaks(boot)
    ensures var f := RunShared(clkHz, boot, slots, steps);
      NoneRefused(f.ring.verdicts) && AllAnswered(clkHz, boot, f.world)
  {
    var actions := SharedRunRefines(clkHz, boot, slots, steps);
    EveryCommandAnswered(clkHz, boot, actions);
  }
}

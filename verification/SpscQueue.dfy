/** The ring buffer shared without a lock by one producer (the UART interrupt) and one
    consumer (the main loop). Each call is split into the memory accesses it makes; any
    interleaving of the two sides is a run. */
module SpscQueue {
  import opened RingBuffer

  /** ring_buffer_write() in progress: full test on a sampled `tail`, copy, publish. The
      last field of a sample records how many elements had been delivered at that time. */
  datatype Producer =
    | WriterIdle
    | TailSampled(item: Element, tailSeen: nat, deliveredThen: nat)
    | HasRoom(item: Element)
    | Copied(item: Element)

  /** ring_buffer_read() in progress: empty test on a sampled `head`, copy, release. */
  datatype Consumer =
    | ReaderIdle
    | HeadSampled(headSeen: nat, acceptedThen: nat)
    | HasElement
    | Fetched(value: Element)

  /** The shared memory, both sides, and the history: the verdict on every offered element,
      the elements published and the elements handed to the reader. */
  datatype Ring = Ring(
    slots: seq<Element>, head: nat, tail: nat, producer: Producer, consumer: Consumer,
    verdicts: seq<(Element, bool)>, accepted: seq<Element>, delivered: seq<Element>)

  datatype Action = Offer(item: Element) | TestFull | CopyIn | Publish | Poll | TestEmpty | CopyOut | Release

  /** One memory access of either side; an access that side is not about to make does nothing. */
  function Do(s: Ring, a: Action): Ring
    requires s.head < |s.slots| && s.tail < |s.slots|
  {
    match a
    case Offer(x) =>
      if s.producer.WriterIdle? then s.(producer := TailSampled(x, s.tail, |s.delivered|)) else s
    case TestFull =>
      if !s.producer.TailSampled? then s
      else if Wrap(s.head + 1, |s.slots|) == s.producer.tailSeen then
        s.(producer := WriterIdle, verdicts := s.verdicts + [(s.producer.item, false)])
      else
        s.(producer := HasRoom(s.producer.item), verdicts := s.verdicts + [(s.producer.item, true)])
    case CopyIn =>
      if !s.producer.HasRoom? then s
      else s.(slots := s.slots[s.head := s.producer.item], producer := Copied(s.producer.item))
    case Publish =>
      if !s.producer.Copied? then s
      else s.(head := Wrap(s.head + 1, |s.slots|), accepted := s.accepted + [s.producer.item], producer := WriterIdle)
    case Poll =>
      if s.consumer.ReaderIdle? then s.(consumer := HeadSampled(s.head, |s.accepted|)) else s
    case TestEmpty =>
      if !s.consumer.HeadSampled? then s
      else if s.consumer.headSeen == s.tail then s.(consumer := ReaderIdle)
      else s.(consumer := HasElement)
    case CopyOut =>
      if s.consumer.HasElement? then s.(consumer := Fetched(s.slots[s.tail])) else s
    case Release =>
      if !s.consumer.Fetched? then s
      else s.(tail := Wrap(s.tail + 1, |s.slots|), delivered := s.delivered + [s.consumer.value], consumer := ReaderIdle)
  }

  /** A ring just initialised; the storage may hold anything. */
  function Start(slots: seq<Element>): Ring {
    Ring(slots, 0, 0, WriterIdle, ReaderIdle, [], [], [])
  }

  // ----- positions

  /** Slot used for the n-th element. */
  function Index(n: nat, capacity: nat): (i: nat)
    requires capacity > 0
    ensures i < capacity
  {
    if n == 0 then 0 else Wrap(Index(n - 1, capacity) + 1, capacity)
  }

  lemma {:induction false} IndexAdvance(n: nat, k: nat, capacity: nat)
    requires k <= capacity && capacity > 0
    ensures Index(n + k, capacity) == Wrap(Index(n, capacity) + k, capacity)
  {
    if k > 0 { IndexAdvance(n, k - 1, capacity); }
  }

  /** Fewer than `capacity` consecutive elements use different slots. */
  lemma IndexDistinct(m: nat, n: nat, capacity: nat)
    requires m < n < m + capacity
    ensures Index(m, capacity) != Index(n, capacity)
  {
    IndexAdvance(m, n - m, capacity);
  }

  // ----- invariant

  function AcceptedOf(verdicts: seq<(Element, bool)>): seq<Element> {
    if verdicts == [] then []
    else AcceptedOf(verdicts[..|verdicts| - 1]) + (if verdicts[|verdicts| - 1].1 then [verdicts[|verdicts| - 1].0] else [])
  }

  function InFlight(p: Producer): seq<Element> {
    if p.HasRoom? || p.Copied? then [p.item] else []
  }

  ghost predicate Inv(s: Ring) {
    var cap, a, d := |s.slots|, |s.accepted|, |s.delivered|;
    && cap > 0
    && d <= a < d + cap
    && s.head == Index(a, cap) && s.tail == Index(d, cap)
    && s.delivered == s.accepted[..d]
    && (forall i :: d <= i < a ==> s.slots[Index(i, cap)] == s.accepted[i])
    && AcceptedOf(s.verdicts) == s.accepted + InFlight(s.producer)
    && ProducerInv(s)
    && ConsumerInv(s)
  }

  ghost predicate ProducerInv(s: Ring)
    requires |s.slots| > 0
  {
    var cap, a, d := |s.slots|, |s.accepted|, |s.delivered|;
    match s.producer
    case WriterIdle => true
    case TailSampled(x, t, then_) => then_ <= d && a < then_ + cap && t == Index(then_, cap)
    case HasRoom(x) => a + 1 < d + cap
    case Copied(x) => a + 1 < d + cap && s.slots[Index(a, cap)] == x
  }

  ghost predicate ConsumerInv(s: Ring)
    requires |s.slots| > 0
  {
    var cap, a, d := |s.slots|, |s.accepted|, |s.delivered|;
    match s.consumer
    case ReaderIdle => true
    case HeadSampled(h, then_) => d <= then_ <= a && h == Index(then_, cap)
    case HasElement => d < a
    case Fetched(v) => d < a && v == s.accepted[d]
  }

  /** The full test compares equal exactly when the sampled count says so. */
  lemma FullTest(a: nat, t: nat, capacity: nat)
    requires t <= a < t + capacity
    ensures Wrap(Index(a, capacity) + 1, capacity) == Index(t, capacity) <==> a + 1 == t + capacity
  {
    IndexAdvance(a, 1, capacity);
    if a + 1 == t + capacity {
      IndexAdvance(t, capacity, capacity);
    } else {
      IndexDistinct(t, a + 1, capacity);
    }
  }

  lemma EmptyTest(h: nat, d: nat, capacity: nat)
    requires d <= h < d + capacity
    ensures Index(h, capacity) == Index(d, capacity) <==> h == d
  {
    if h > d { IndexDistinct(d, h, capacity); }
  }

  lemma AcceptedOfGrows(v: seq<(Element, bool)>, x: Element, ok: bool)
    ensures AcceptedOf(v + [(x, ok)]) == AcceptedOf(v) + (if ok then [x] else [])
  {
    assert (v + [(x, ok)])[..|v|] == v;
  }

  lemma TestFullStep(s: Ring)
    requires Inv(s) && s.producer.TailSampled?
    ensures Inv(Do(s, TestFull))
  {
    var t := Do(s, TestFull);
    var x, room := s.producer.item, t.producer.HasRoom?;
    FullTest(|s.accepted|, s.producer.deliveredThen, |s.slots|);
    AcceptedOfGrows(s.verdicts, x, room);
    assert t.verdicts == s.verdicts + [(x, room)];
    assert AcceptedOf(s.verdicts) == s.accepted + [] == s.accepted;
    assert InFlight(t.producer) == if room then [x] else [];
    assert AcceptedOf(t.verdicts) == t.accepted + InFlight(t.producer);
    SameMemory(s, t);
  }

  lemma SameMemory(s: Ring, t: Ring)
    requires Inv(s) && t == s.(producer := t.producer, verdicts := t.verdicts)
    requires AcceptedOf(t.verdicts) == t.accepted + InFlight(t.producer)
    requires ProducerInv(t)
    ensures Inv(t)
  {
  }

  lemma CopyInStep(s: Ring)
    requires Inv(s) && s.producer.HasRoom?
    ensures Inv(Do(s, CopyIn))
  {
    forall i | |s.delivered| <= i < |s.accepted| ensures Index(i, |s.slots|) != s.head {
      IndexDistinct(i, |s.accepted|, |s.slots|);
    }
  }

  lemma PublishStep(s: Ring)
    requires Inv(s) && s.producer.Copied?
    ensures Inv(Do(s, Publish))
  {
    assert s.accepted + InFlight(s.producer) == Do(s, Publish).accepted;
  }

  lemma ConsumerStep(s: Ring, a: Action)
    requires Inv(s) && (a.Poll? || a.TestEmpty? || a.CopyOut? || a.Release?)
    ensures Inv(Do(s, a))
  {
    if a.TestEmpty? && s.consumer.HeadSampled? {
      EmptyTest(s.consumer.acceptedThen, |s.delivered|, |s.slots|);
    }
  }

  /** Every memory access of either side keeps the invariant. */
  lemma Preserved(s: Ring, a: Action)
    requires Inv(s)
    ensures Inv(Do(s, a)) && |Do(s, a).slots| == |s.slots|
  {
    match a
    case Offer(_) =>
    case TestFull => if s.producer.TailSampled? { TestFullStep(s); }
    case CopyIn => if s.producer.HasRoom? { CopyInStep(s); }
    case Publish => if s.producer.Copied? { PublishStep(s); }
    case _ => ConsumerStep(s, a);
  }

  // ----- what the invariant gives

  lemma FullVerdict(s: Ring)
    requires Inv(s) && s.producer.TailSampled?
    ensures var t := Do(s, TestFull).producer;
      && (t.WriterIdle? <==> |s.accepted| - s.producer.deliveredThen == |s.slots| - 1)
      && (t.HasRoom? ==> |s.accepted| - |s.delivered| < |s.slots| - 1)
  {
    FullTest(|s.accepted|, s.producer.deliveredThen, |s.slots|);
  }

  lemma EmptyVerdict(s: Ring)
    requires Inv(s) && s.consumer.HeadSampled?
    ensures var t := Do(s, TestEmpty).consumer;
      && (t.ReaderIdle? <==> s.consumer.acceptedThen == |s.delivered|)
      && (t.HasElement? ==> |s.delivered| < |s.accepted|)
  {
    EmptyTest(s.consumer.acceptedThen, |s.delivered|, |s.slots|);
  }

  lemma LiveSlotKept(s: Ring, a: Action, i: nat)
    requires Inv(s) && |s.delivered| <= i < |s.accepted|
    ensures |Do(s, a).slots| == |s.slots|
    ensures Do(s, a).slots[Index(i, |s.slots|)] == s.slots[Index(i, |s.slots|)] == s.accepted[i]
  {
    IndexDistinct(i, |s.accepted|, |s.slots|);
  }

  /** What is still waiting is the sequential ring's queue. */
  lemma WaitingIsQueue(s: Ring)
    requires Inv(s)
    ensures Queue(s.slots, s.head, s.tail) == s.accepted[|s.delivered|..]
  {
    var cap, a, d := |s.slots|, |s.accepted|, |s.delivered|;
    var q := Queue(s.slots, s.head, s.tail);
    IndexAdvance(d, a - d, cap);
    assert |q| == a - d;
    forall i | 0 <= i < |q| ensures q[i] == s.accepted[d + i] { IndexAdvance(d, i, cap); }
  }

  // ----- runs

  /** Any interleaving of the two sides. */
  function Run(s: Ring, actions: seq<Action>): (t: Ring)
    requires Inv(s)
    ensures Inv(t) && |t.slots| == |s.slots|
  {
    if actions == [] then s
    else
      var t := Run(s, actions[..|actions| - 1]);
      Preserved(t, actions[|actions| - 1]);
      Do(t, actions[|actions| - 1])
  }

  /** `s` occurs in some run of a ring of `capacity` slots. */
  ghost predicate Reachable(s: Ring, capacity: nat) {
    exists slots: seq<Element>, actions: seq<Action> ::
      |slots| == capacity && Inv(Start(slots)) && s == Run(Start(slots), actions)
  }

  lemma ReachableInv(s: Ring, capacity: nat)
    requires Reachable(s, capacity)
    ensures Inv(s) && |s.slots| == capacity
  {
  }

  /** Under every interleaving: what was read is a prefix of what was accepted, in order;
      what was accepted is exactly what the full test let through; the ring never holds
      more than capacity - 1 elements, and what waits is what the indices delimit. */
  lemma FifoUnderEveryInterleaving(s: Ring, capacity: nat)
    requires Reachable(s, capacity)
    ensures |s.slots| == capacity && IsRing(s.slots, s.head, s.tail)
    ensures s.delivered <= s.accepted
    ensures |s.accepted| - |s.delivered| <= capacity - 1
    ensures AcceptedOf(s.verdicts) == s.accepted + InFlight(s.producer)
    ensures Queue(s.slots, s.head, s.tail) == s.accepted[|s.delivered|..]
  {
    ReachableInv(s, capacity);
    WaitingIsQueue(s);
  }

  /** In every reachable state the next access leaves each waiting element's slot alone. */
  lemma LiveSlotsNeverOverwritten(s: Ring, capacity: nat, a: Action, i: nat)
    requires Reachable(s, capacity) && |s.delivered| <= i < |s.accepted|
    ensures capacity > 0 && Inv(s) && |s.slots| == |Do(s, a).slots| == capacity
    ensures Do(s, a).slots[Index(i, capacity)] == s.slots[Index(i, capacity)] == s.accepted[i]
  {
    ReachableInv(s, capacity);
    LiveSlotKept(s, a, i);
  }

  /** Stale indices only err on the safe side. FULL means the ring was full when `tail` was
      sampled, and room means there is room now; EMPTY means the ring was empty when `head`
      was sampled, and an element means there is one now. */
  lemma StaleIndicesAreConservative(s: Ring, capacity: nat)
    requires Reachable(s, capacity)
    ensures Inv(s) && |s.slots| == capacity
    ensures s.producer.TailSampled? ==>
      var t := Do(s, TestFull).producer;
      && (t.WriterIdle? <==> |s.accepted| - s.producer.deliveredThen == capacity - 1)
      && (t.HasRoom? ==> |s.accepted| - |s.delivered| < capacity - 1)
    ensures s.consumer.HeadSampled? ==>
      var t := Do(s, TestEmpty).consumer;
      && (t.ReaderIdle? <==> s.consumer.acceptedThen == |s.delivered|)
      && (t.HasElement? ==> |s.delivered| < |s.accepted|)
  {
    ReachableInv(s, capacity);
    if s.producer.TailSampled? { FullVerdict(s); }
    if s.consumer.HeadSampled? { EmptyVerdict(s); }
  }

  // ----- uninterrupted calls

  /** A write that nothing interrupts. */
  function WriteAlone(s: Ring, e: Element): (t: Ring)
    requires Inv(s)
    ensures Inv(t)
  {
    Preserved(s, Offer(e));
    var a := Do(s, Offer(e));
    Preserved(a, TestFull);
    var b := Do(a, TestFull);
    Preserved(b, CopyIn);
    var c := Do(b, CopyIn);
    Preserved(c, Publish);
    Do(c, Publish)
  }

  /** A read that nothing interrupts. */
  function ReadAlone(s: Ring): (t: Ring)
    requires Inv(s)
    ensures Inv(t)
  {
    Preserved(s, Poll);
    var a := Do(s, Poll);
    Preserved(a, TestEmpty);
    var b := Do(a, TestEmpty);
    Preserved(b, CopyOut);
    var c := Do(b, CopyOut);
    Preserved(c, Release);
    Do(c, Release)
  }

  lemma WriteAloneHistory(s: Ring, e: Element)
    requires Inv(s) && s.producer.WriterIdle?
    ensures var t, room := WriteAlone(s, e), |s.accepted| - |s.delivered| < |s.slots| - 1;
      && t.verdicts == s.verdicts + [(e, room)] && t.delivered == s.delivered && |t.slots| == |s.slots|
      && t.accepted == if room then s.accepted + [e] else s.accepted
  {
    FullTest(|s.accepted|, |s.delivered|, |s.slots|);
  }

  /** Alone, the sub-steps of a write add up to the sequential one: refused exactly at
      capacity - 1, otherwise appended. */
  lemma WriteAloneIsWrite(s: Ring, e: Element)
    requires Inv(s) && s.producer.WriterIdle?
    ensures var q, t := Queue(s.slots, s.head, s.tail), WriteAlone(s, e);
      && t.verdicts == s.verdicts + [(e, |q| < |s.slots| - 1)]
      && Queue(t.slots, t.head, t.tail) == if |q| < |s.slots| - 1 then q + [e] else q
  {
    WaitingIsQueue(s);
    WaitingIsQueue(WriteAlone(s, e));
    WriteAloneHistory(s, e);
    assert (s.accepted + [e])[|s.delivered|..] == s.accepted[|s.delivered|..] + [e];
  }

  lemma ReadAloneHistory(s: Ring)
    requires Inv(s) && s.consumer.ReaderIdle?
    ensures var t, some := ReadAlone(s), |s.delivered| < |s.accepted|;
      && t.accepted == s.accepted && (!some ==> t == s)
      && (some ==> t.delivered == s.delivered + [s.accepted[|s.delivered|]])
  {
    EmptyTest(|s.accepted|, |s.delivered|, |s.slots|);
  }

  /** Alone, the sub-steps of a read add up to the sequential one. */
  lemma ReadAloneIsRead(s: Ring)
    requires Inv(s) && s.consumer.ReaderIdle?
    ensures var q, t := Queue(s.slots, s.head, s.tail), ReadAlone(s);
      if q == [] then t == s
      else t.delivered == s.delivered + [q[0]] && Queue(t.slots, t.head, t.tail) == q[1..]
  {
    WaitingIsQueue(s);
    WaitingIsQueue(ReadAlone(s));
    ReadAloneHistory(s);
  }
}

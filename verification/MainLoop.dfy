/** The body of the main loop (src/main.c): bytes in, commands obeyed, replies out. */
module MainLoop {
  import opened Words
  import opened Status
  import opened Crc16
  import opened CrcDetection
  import opened CrcBursts
  import opened FrameGrammar
  import opened FrameParser
  import opened CommandDispatcher
  import HostProtocol

  // ----- meaning of one byte and of a stream

  /** The unfinished frame, and everything commands can change. */
  datatype Firmware = Firmware(held: seq<byte>, machine: Machine)

  /** One consumed byte: the state after it, the reply sent if any, and whether the device
      resets once the reply is out. */
  datatype Outcome = Outcome(after: Firmware, reply: Option<seq<byte>>, reset: bool)

  /** The checksum carried by a frame is its own. */
  predicate IsIntact(w: seq<byte>)
    requires IsFrame(w)
  {
    Crc(Body(w)) == CarriedCrc(w)
  }

  function Payload(w: seq<byte>): seq<byte>
    requires IsFrame(w)
  {
    w[3..|w| - 2]
  }

  /** What a complete frame does. */
  function OnFrame(clkHz: uint32, m: Machine, w: seq<byte>): (r: Outcome)
    requires IsFrame(w)
    ensures r.after.held == []
  {
    if !IsIntact(w) then Outcome(Firmware([], m), None, false)
    else
      var (t, status, value) := Execute(clkHz, m, w[1], Payload(w));
      Outcome(Firmware([], t.(resetRequested := false)), Some(ReplyWire(ReplyTo(w[1], status, value))), t.resetRequested)
  }

  function OnByte(clkHz: uint32, f: Firmware, b: byte): (r: Outcome)
    requires Partial(f.held)
    ensures Partial(r.after.held)
  {
    AcceptKeepsPartial(f.held, b);
    var (result, held) := Accept(f.held, b);
    if result == READY then
      assert IsToken(Emit(f.held, b)[0]);
      OnFrame(clkHz, f.machine, f.held + [b])
    else Outcome(Firmware(held, f.machine), None, false)
  }

  /** A reset brings back the booted machine; the parser was hunting anyway. */
  function Rebooted(boot: Machine, o: Outcome): Firmware {
    if o.reset then Firmware([], boot) else o.after
  }

  function Sent(replies: seq<seq<byte>>, reply: Option<seq<byte>>): seq<seq<byte>> {
    if reply.None? then replies else replies + [reply.value]
  }

  /** A whole stream, byte by byte. */
  function Consume(clkHz: uint32, boot: Machine, f: Firmware, s: seq<byte>): (r: (Firmware, seq<seq<byte>>))
    requires Partial(f.held)
    ensures Partial(r.0.held)
  {
    if s == [] then (f, [])
    else
      var (g, replies) := Consume(clkHz, boot, f, s[..|s| - 1]);
      var o := OnByte(clkHz, g, s[|s| - 1]);
      (Rebooted(boot, o), Sent(replies, o.reply))
  }

  /** The same stream served frame by frame: every frame of the grammar in turn. */
  function Serve(clkHz: uint32, boot: Machine, m: Machine, ts: seq<Token>): (r: (Machine, seq<seq<byte>>))
  {
    if ts == [] then (m, [])
    else
      var (t, replies) := Serve(clkHz, boot, m, ts[..|ts| - 1]);
      var last := ts[|ts| - 1];
      if !last.Frame? || !IsFrame(last.wire) then (t, replies)
      else
        var o := OnFrame(clkHz, t, last.wire);
        (Rebooted(boot, o).machine, Sent(replies, o.reply))
  }

  // ----- properties of streams

  lemma ServeOne(clkHz: uint32, boot: Machine, m: Machine, ts: seq<Token>, t: Token)
    ensures var (n, replies) := Serve(clkHz, boot, m, ts);
      Serve(clkHz, boot, m, ts + [t]) ==
        if !t.Frame? || !IsFrame(t.wire) then (n, replies)
        else
          var o := OnFrame(clkHz, n, t.wire);
          (Rebooted(boot, o).machine, Sent(replies, o.reply))
  {
    assert (ts + [t])[..|ts|] == ts;
  }

  /** One byte does what the token it completes, if any, asks. */
  lemma ByteIsServed(clkHz: uint32, boot: Machine, m: Machine, ts: seq<Token>, held: seq<byte>, b: byte)
    requires Partial(held)
    ensures var (t, replies) := Serve(clkHz, boot, m, ts);
      var o := OnByte(clkHz, Firmware(held, t), b);
      && Serve(clkHz, boot, m, ts + Emit(held, b)) == (Rebooted(boot, o).machine, Sent(replies, o.reply))
      && Rebooted(boot, o).held == Accept(held, b).1
  {
    AcceptKeepsPartial(held, b);
    var e := Emit(held, b);
    if e == [] {
      assert ts + e == ts;
    } else {
      assert IsToken(e[0]);
      ServeOne(clkHz, boot, m, ts, e[0]);
    }
  }

  /** The byte-at-a-time loop obeys exactly the frames of the stream's segmentation, in order,
      whatever lies between them. */
  lemma {:induction false} StreamIsServedFrameByFrame(clkHz: uint32, boot: Machine, m: Machine, s: seq<byte>)
    ensures Consume(clkHz, boot, Firmware([], m), s) ==
      var (t, replies) := Serve(clkHz, boot, m, TokensOf([], s));
      (Firmware(HeldAfter([], s), t), replies)
  {
    if s != [] {
      var v := s[..|s| - 1];
      StreamIsServedFrameByFrame(clkHz, boot, m, v);
      HeldIsPartial([], v);
      ByteIsServed(clkHz, boot, m, TokensOf([], v), HeldAfter([], v), s[|s| - 1]);
    }
  }

  /** Frames of a segmentation whose checksum is right. */
  function IntactFrames(ts: seq<Token>): nat {
    if ts == [] then 0
    else
      var t := ts[|ts| - 1];
      IntactFrames(ts[..|ts| - 1]) + if t.Frame? && IsFrame(t.wire) && IsIntact(t.wire) then 1 else 0
  }

  lemma {:induction false} OneReplyEach(clkHz: uint32, boot: Machine, m: Machine, ts: seq<Token>)
    ensures var replies := Serve(clkHz, boot, m, ts).1;
      |replies| == IntactFrames(ts) && forall k :: 0 <= k < |replies| ==> |replies[k]| <= TX_FRAME_MAX
  {
    if ts != [] { OneReplyEach(clkHz, boot, m, ts[..|ts| - 1]); }
  }

  /** Exactly one reply, of at most nine bytes, per frame with a right checksum, and none for
      anything else on the wire. */
  lemma OneReplyPerIntactFrame(clkHz: uint32, boot: Machine, m: Machine, s: seq<byte>)
    ensures var replies := Consume(clkHz, boot, Firmware([], m), s).1;
      && |replies| == IntactFrames(TokensOf([], s))
      && forall k :: 0 <= k < |replies| ==> |replies[k]| <= 9
  {
    StreamIsServedFrameByFrame(clkHz, boot, m, s);
    OneReplyEach(clkHz, boot, m, TokensOf([], s));
  }

  lemma OneFrame(clkHz: uint32, boot: Machine, m: Machine, w: seq<byte>)
    requires IsFrame(w)
    ensures Consume(clkHz, boot, Firmware([], m), w) ==
      var o := OnFrame(clkHz, m, w);
      (Rebooted(boot, o), Sent([], o.reply))
  {
    FrameIsOneToken(w);
    StreamIsServedFrameByFrame(clkHz, boot, m, w);
    ServeOne(clkHz, boot, m, [], Frame(w));
    assert [] + [Frame(w)] == [Frame(w)];
  }

  lemma FrameIsOneToken(w: seq<byte>)
    requires IsFrame(w)
    ensures TokensOf([], w) == [Frame(w)] && HeldAfter([], w) == []
  {
    AcceptsNextFrame([], w);
    assert [] + w == w;
  }

  /** The host's command, over a clean link, to an idle device: obeyed once, and the reply
      decodes to its outcome. */
  lemma CommandIsObeyed(clkHz: uint32, boot: Machine, m: Machine, opcode: byte, payload: seq<byte>)
    requires |payload| <= RX_MAX_PAYLOAD
    ensures var w := HostProtocol.BuildCommand(opcode, payload).value;
      var (f, replies) := Consume(clkHz, boot, Firmware([], m), w);
      var (t, status, value) := Execute(clkHz, m, opcode, payload);
      && f == Firmware([], if t.resetRequested then boot else t)
      && replies == [ReplyWire(ReplyTo(opcode, status, value))]
  {
    BuiltCommand(opcode, payload);
    OneFrame(clkHz, boot, m, HostProtocol.BuildCommand(opcode, payload).value);
  }

  /** A command built by the host is an intact frame that carries it. */
  lemma BuiltCommand(opcode: byte, payload: seq<byte>)
    requires |payload| <= RX_MAX_PAYLOAD
    ensures var w := HostProtocol.BuildCommand(opcode, payload).value;
      IsFrame(w) && IsIntact(w) && w[1] == opcode && Payload(w) == payload && |w| == 5 + |payload|
  {
    var w := HostProtocol.BuildCommand(opcode, payload).value;
    HostProtocol.BuiltFrame(opcode, payload);
    assert w[1] == Body(w)[0] == opcode;
    assert Payload(w) == Body(w)[2..] == payload;
  }

  /** A frame that reaches the device with one to three bits flipped in its opcode, payload or
      checksum is dropped: no reply, and nothing in the machine changes. */
  lemma DamagedFrameIsIgnored(clkHz: uint32, boot: Machine, m: Machine, sent: seq<byte>, received: seq<byte>)
    requires IsFrame(sent) && IsIntact(sent)
    requires |received| == |sent| && received[0] == sent[0] && received[2] == sent[2]
    requires 1 <= Distance(sent, received) <= 3
    ensures IsFrame(received)
    ensures Consume(clkHz, boot, Firmware([], m), received) == (Firmware([], m), [])
  {
    DistanceFromSecondByte(sent, received);
    WireEndsInCrc(sent);
    WireEndsInCrc(received);
    ThreeBitErrorsDetected(Body(sent), Body(received), CarriedCrc(received));
    OneFrame(clkHz, boot, m, received);
  }

  /** Nor does one damaged by a burst, of any pattern: at most fourteen consecutive bits in the
      order of the serial line, or twelve were bytes sent highest bit first. */
  lemma BurstDamagedFrameIsIgnored(clkHz: uint32, boot: Machine, m: Machine, sent: seq<byte>, received: seq<byte>,
                                   highFirst: bool, lo: nat)
    requires IsFrame(sent) && IsIntact(sent)
    requires |received| == |sent| && received[0] == sent[0] && received[2] == sent[2] && received != sent
    requires DifferWithin(sent, received, highFirst, lo, BurstLimit(highFirst))
    ensures IsFrame(received)
    ensures Consume(clkHz, boot, Firmware([], m), received) == (Firmware([], m), [])
  {
    WindowFromSecondByte(sent, received, highFirst, lo, BurstLimit(highFirst));
    WireEndsInCrc(sent);
    WireEndsInCrc(received);
    assert sent == [sent[0]] + sent[1..] && received == [received[0]] + received[1..];
    WireBurstDetected(Body(sent), Body(received), CarriedCrc(received), highFirst, if lo < 8 then 0 else lo - 8);
    OneFrame(clkHz, boot, m, received);
  }

  lemma WireEndsInCrc(w: seq<byte>)
    requires IsFrame(w)
    ensures w[1..] == Body(w) + WireCrc(CarriedCrc(w)) && |Body(w)| <= MAX_BODY
  {
  }

  // ----- the loop body

  /** The reply's checksum covers everything behind the start byte. Neither step can fail. */
  method SendReply(resp: ResponseFrame, buffer: array<byte>) returns (sent: seq<byte>)
    requires resp.Valid() && resp.dataLen <= TX_DATA_MAX && buffer.Length == TX_FRAME_MAX && buffer != resp.data
    modifies buffer
    ensures sent == ReplyWire(resp.Value())
  {
    ghost var reply := resp.Value();
    var length := SerializeResponse(resp, buffer, TX_FRAME_MAX);
    if length < 0 {
      return [];
    }
    assert buffer[1..length] == ReplyHeader(reply)[1..] by { assert buffer[..length][1..] == buffer[1..length]; }
    var crc := Crc16Compute(buffer, 1, length - 1);
    var total := AppendCrc(buffer, length, TX_FRAME_MAX, crc);
    if total < 0 {
      return [];
    }
    return buffer[..total];
  }

  /** Serialise the frame just completed and compare checksums. */
  method IsFrameIntact(frame: CommandFrame, buffer: array<byte>) returns (intact: bool)
    requires frame.Valid() && frame.length <= RX_MAX_PAYLOAD
    requires buffer.Length == 2 + RX_MAX_PAYLOAD && buffer != frame.payload
    modifies buffer
    ensures IsFrame(frame.Wire()) && intact == IsIntact(frame.Wire())
  {
    var size := frame.Serialize(buffer, 2 + RX_MAX_PAYLOAD);
    if size < 0 {
      return false;
    }
    var received := frame.GetCrc();
    var computed := Crc16Compute(buffer, 0, size);
    return computed == received;
  }

  /** Dispatch, reply, and then take the reset request. */
  method Answer(d: Dispatcher, buffer: array<byte>, opcode: byte, payload: seq<byte>) returns (sent: seq<byte>, reset: bool)
    requires d.Valid() && buffer.Length == TX_FRAME_MAX
    modifies buffer, d`resetRequested, d.io, d.pwm.driver.gpio
    modifies d.pwm.driver.tim2, d.pwm.driver.tim3, d.pwm.driver.tim4
    ensures d.Valid()
    ensures var (t, status, value) := Execute(d.pwm.driver.clkHz, old(d.State()), opcode, payload);
      && d.State() == t.(resetRequested := false) && reset == t.resetRequested
      && sent == ReplyWire(ReplyTo(opcode, status, value))
  {
    var resp := new ResponseFrame();
    var _ := d.Dispatch(opcode, payload, resp);
    sent := SendReply(resp, buffer);
    reset := d.TakeResetRequest();
  }

  class Device {
    const frame: CommandFrame
    const serialized: array<byte>
    const response: array<byte>
    const dispatcher: Dispatcher

    ghost predicate Valid()
      reads frame, dispatcher.pwm.driver.gpio
      reads dispatcher.pwm.driver.tim2, dispatcher.pwm.driver.tim3, dispatcher.pwm.driver.tim4
    {
      && frame.Valid() && dispatcher.Valid()
      && serialized.Length == 2 + RX_MAX_PAYLOAD && response.Length == TX_FRAME_MAX
      && serialized != response && frame.payload != serialized && frame.payload != response
    }

    ghost function State(): (f: Firmware)
      requires Valid()
      reads frame, frame.payload, dispatcher, dispatcher.io, dispatcher.pwm.driver.gpio
      reads dispatcher.pwm.driver.tim2, dispatcher.pwm.driver.tim3, dispatcher.pwm.driver.tim4
    {
      Firmware(frame.Held(), dispatcher.State())
    }

    constructor (d: Dispatcher)
      requires d.Valid()
      ensures Valid() && dispatcher == d && State() == Firmware([], d.State())
    {
      frame := new CommandFrame();
      serialized := new byte[2 + RX_MAX_PAYLOAD](_ => 0);
      response := new byte[TX_FRAME_MAX](_ => 0);
      dispatcher := d;
    }

    /** A complete frame: checksum, dispatch, reply, reset request. */
    method ObeyFrame() returns (sent: Option<seq<byte>>, reset: bool)
      requires Valid() && frame.length <= RX_MAX_PAYLOAD && IsFrame(frame.Wire()) && frame.Held() == []
      modifies serialized, response, dispatcher`resetRequested, dispatcher.io, dispatcher.pwm.driver.gpio
      modifies dispatcher.pwm.driver.tim2, dispatcher.pwm.driver.tim3, dispatcher.pwm.driver.tim4
      ensures Valid()
      ensures Outcome(State(), sent, reset) ==
        OnFrame(dispatcher.pwm.driver.clkHz, old(dispatcher.State()), old(frame.Wire()))
    {
      ghost var w, m := frame.Wire(), dispatcher.State();
      var intact := IsFrameIntact(frame, serialized);
      assert dispatcher.State() == m;
      if !intact {
        return None, false;
      }
      var payload := frame.payload[..frame.length];
      assert payload == Payload(w);
      var bytes;
      bytes, reset := Answer(dispatcher, response, frame.opcode, payload);
      sent := Some(bytes);
    }

    /** One received byte. */
    method ProcessByte(b: byte) returns (sent: Option<seq<byte>>, reset: bool)
      requires Valid() && Partial(State().held)
      modifies frame, frame.payload, serialized, response, dispatcher`resetRequested, dispatcher.io
      modifies dispatcher.pwm.driver.gpio
      modifies dispatcher.pwm.driver.tim2, dispatcher.pwm.driver.tim3, dispatcher.pwm.driver.tim4
      ensures Valid()
      ensures Outcome(State(), sent, reset) == OnByte(dispatcher.pwm.driver.clkHz, old(State()), b)
    {
      var result := frame.Feed(b);
      if result == READY {
        sent, reset := ObeyFrame();
      } else {
        sent, reset := None, false;
      }
    }
  }
}

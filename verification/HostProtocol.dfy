/** The host's encoder and decoder (tools/mcu-co-cli/mcuco/protocol.py), and the round
    trips with the firmware. */
module HostProtocol {
  import opened Words
  import opened Status
  import opened FrameGrammar
  import opened FrameParser
  import opened Crc16
  import opened CrcDetection
  import opened CrcBursts

  const MAX_PAYLOAD: nat := 32
  const MAX_RESPONSE_LEN: nat := 5

  /** ValueError of build_command(). */
  datatype PayloadError = PayloadTooLong

  /** ProtocolError of parse_response(), in the order of its tests. */
  datatype ProtocolError = TooShort | BadSof | BadLength | Truncated | CrcMismatch

  /** A decoded reply. */
  datatype Response = Response(ack: bool, data: seq<byte>) {
    /** The number a read returned; none unless a successful read. */
    function Value(): Option<nat> {
      if !ack || data == [] then None else Some(FromLittleEndian(data))
    }

    /** Why the command failed; none on an acknowledgement. */
    function Reason(): Option<byte> {
      if ack || data == [] then None else Some(data[0])
    }
  }

  function FromLittleEndian(data: seq<byte>): nat {
    if data == [] then 0 else data[0] + 0x100 * FromLittleEndian(data[1..])
  }

  /** build_command(). */
  function BuildCommand(opcode: byte, payload: seq<byte>): Result<seq<byte>, PayloadError> {
    if |payload| > MAX_PAYLOAD then Failure(PayloadTooLong)
    else
      var body := CommandBody(opcode, payload);
      Success([SOF_BYTE] + body + [CrcLow(Crc(body)), CrcHigh(Crc(body))])
  }

  function CommandBody(opcode: byte, payload: seq<byte>): seq<byte>
    requires |payload| <= MAX_PAYLOAD
  {
    [opcode, |payload|] + payload
  }

  /** response_frame_len(). */
  function ResponseFrameLen(lengthByte: nat): nat { 1 + 1 + lengthByte + 2 }

  /** parse_response(). */
  function ParseResponse(raw: seq<byte>): Result<Response, ProtocolError> {
    if |raw| < ResponseFrameLen(1) then Failure(TooShort)
    else if raw[0] != SOF_BYTE then Failure(BadSof)
    else
      var length: nat := raw[1];
      if !(1 <= length <= MAX_RESPONSE_LEN) then Failure(BadLength)
      else if |raw| < ResponseFrameLen(length) then Failure(Truncated)
      else if Combine(raw[2 + length], raw[3 + length]) != Crc(raw[1..2 + length]) then Failure(CrcMismatch)
      else Success(Response(raw[2] != 0, raw[3..2 + length]))
  }

  lemma CombineSplit(c: uint16)
    ensures Combine(CrcLow(c), CrcHigh(c)) == c
  {
  }

  // ----- commands

  /** What the host builds is one frame of the grammar that carries its own checksum. */
  lemma BuiltFrame(opcode: byte, payload: seq<byte>)
    requires |payload| <= MAX_PAYLOAD
    ensures var w := BuildCommand(opcode, payload).value;
      IsFrame(w) && Body(w) == CommandBody(opcode, payload) && CarriedCrc(w) == Crc(Body(w))
  {
    var w := BuildCommand(opcode, payload).value;
    var body := CommandBody(opcode, payload);
    assert Body(w) == body;
    CombineSplit(Crc(body));
  }

  /** From hunting, the firmware takes every byte of a built command, whatever bytes the
      payload holds, completes exactly on the last one, and finds the host's body under a
      matching checksum. */
  lemma EncoderParserRoundTrip(opcode: byte, payload: seq<byte>, k: nat)
    requires |payload| <= MAX_PAYLOAD && k < |payload| + 5
    ensures var w := BuildCommand(opcode, payload).value;
      && |w| == |payload| + 5
      && HeldAfter([], w[..k]) == w[..k]
      && Accept(w[..k], w[k]) == (if k + 1 < |w| then (IN_PROGRESS, w[..k + 1]) else (READY, []))
      && IsFrame(w) && Body(w) == [opcode, |payload|] + payload
      && CarriedCrc(w) == Crc(Body(w))
  {
    var w := BuildCommand(opcode, payload).value;
    BuiltFrame(opcode, payload);
    FramePrefix(w, k);
    FrameStep(w, k);
  }

  // ----- replies

  /** The host decodes every reply the firmware can send to the same outcome and data, even
      with other bytes behind it. */
  lemma ReplyRoundTrip(reply: Reply, tail: seq<byte>)
    requires |reply.data| <= TX_DATA_MAX
    ensures ParseResponse(ReplyWire(reply) + tail) == Success(Response(reply.ack, reply.data))
    ensures |ReplyWire(reply)| == ResponseFrameLen(ReplyWire(reply)[1])
  {
    var h, raw := ReplyHeader(reply), ReplyWire(reply) + tail;
    var n := 1 + |reply.data|;
    assert raw[1..2 + n] == h[1..];
    assert raw[3..2 + n] == reply.data;
    CombineSplit(Crc(h[1..]));
  }

  /** Conversely whatever the host decodes is, up to where it ends, a reply as the firmware sends it,
      if only its outcome is one of the two bytes the protocol defines. */
  lemma DecodedIsEncoded(raw: seq<byte>)
    requires ParseResponse(raw).Success? && raw[2] <= 1
    ensures var r := ParseResponse(raw).value;
      |r.data| <= 4 && |raw| >= 5 + |r.data| && raw[..5 + |r.data|] == ReplyWire(Reply(r.ack, r.data))
  {
    var r := ParseResponse(raw).value;
    var h := ReplyHeader(Reply(r.ack, r.data));
    assert raw[..3 + |r.data|] == h;
    assert raw[1..2 + raw[1]] == h[1..];
    CombineDigits(raw[3 + |r.data|], raw[4 + |r.data|]);
  }

  lemma CombineDigits(low: byte, high: byte)
    ensures CrcLow(Combine(low, high)) == low && CrcHigh(Combine(low, high)) == high
  {
  }

  /** A reply that has not all come in is refused, never misread. */
  lemma UnfinishedReply(reply: Reply, k: nat)
    requires |reply.data| <= TX_DATA_MAX && k < |ReplyWire(reply)|
    ensures ParseResponse(ReplyWire(reply)[..k]) == Failure(if k < 5 then TooShort else Truncated)
  {
  }

  /** A reply whose start or length byte has changed, unless to a smaller length, is refused by name. */
  lemma DamagedHead(reply: Reply, received: seq<byte>)
    requires |reply.data| <= TX_DATA_MAX && |received| == |ReplyWire(reply)|
    ensures received[0] != 0xA5 ==> ParseResponse(received) == Failure(BadSof)
    ensures received[0] == 0xA5 && (received[1] == 0 || received[1] > 5) ==> ParseResponse(received) == Failure(BadLength)
    ensures received[0] == 0xA5 && ReplyWire(reply)[1] < received[1] <= 5 ==> ParseResponse(received) == Failure(Truncated)
  {
  }

  // ----- damaged replies

  /** How a reply's bytes behind the start byte divide. */
  lemma ReplyEndsInCrc(raw: seq<byte>)
    requires |raw| >= 5
    ensures raw[1..] == raw[1..|raw| - 2] + WireCrc(Combine(raw[|raw| - 2], raw[|raw| - 1]))
  {
  }

  /** A reply with its start and length intact whose checksum is not its own is refused. */
  lemma WrongChecksumRefused(reply: Reply, received: seq<byte>)
    requires |reply.data| <= TX_DATA_MAX && |received| == |ReplyWire(reply)|
    requires received[..2] == ReplyWire(reply)[..2]
    requires Crc(received[1..|received| - 2]) != Combine(received[|received| - 2], received[|received| - 1])
    ensures ParseResponse(received) == Failure(CrcMismatch)
  {
    assert received[0] == received[..2][0] && received[1] == received[..2][1];
  }

  lemma SentReply(reply: Reply)
    requires |reply.data| <= TX_DATA_MAX
    ensures var raw := ReplyWire(reply);
      var body := raw[1..|raw| - 2];
      |body| <= MAX_BODY && raw[1..] == body + WireCrc(Crc(body))
  {
    var raw, h := ReplyWire(reply), ReplyHeader(reply);
    assert raw[1..|raw| - 2] == h[1..];
    CombineSplit(Crc(h[1..]));
    ReplyEndsInCrc(raw);
  }

  /** A reply that reaches the host with one to three bits flipped in ack, data or checksum is
      refused for its checksum: no outcome and no value is ever misread. */
  lemma DamagedReplyIsRefused(reply: Reply, received: seq<byte>)
    requires |reply.data| <= TX_DATA_MAX && |received| == |ReplyWire(reply)|
    requires received[..2] == ReplyWire(reply)[..2] && 1 <= Distance(ReplyWire(reply), received) <= 3
    ensures ParseResponse(received) == Failure(CrcMismatch)
  {
    var raw := ReplyWire(reply);
    assert received[0] == received[..2][0] == raw[..2][0] == raw[0];
    DistanceFromSecondByte(raw, received);
    SentReply(reply);
    ReplyEndsInCrc(received);
    ThreeBitErrorsDetected(raw[1..|raw| - 2], received[1..|raw| - 2], Combine(received[|raw| - 2], received[|raw| - 1]));
    WrongChecksumRefused(reply, received);
  }

  /** So is one damaged by a burst. */
  lemma BurstDamagedReplyIsRefused(reply: Reply, received: seq<byte>, highFirst: bool, lo: nat)
    requires |reply.data| <= TX_DATA_MAX && |received| == |ReplyWire(reply)| && received != ReplyWire(reply)
    requires received[..2] == ReplyWire(reply)[..2]
    requires DifferWithin(ReplyWire(reply), received, highFirst, lo, BurstLimit(highFirst))
    ensures ParseResponse(received) == Failure(CrcMismatch)
  {
    var raw := ReplyWire(reply);
    assert received[0] == received[..2][0] == raw[..2][0] == raw[0];
    WindowFromSecondByte(raw, received, highFirst, lo, BurstLimit(highFirst));
    SentReply(reply);
    ReplyEndsInCrc(received);
    assert raw == [raw[0]] + raw[1..] && received == [received[0]] + received[1..];
    WireBurstDetected(raw[1..|raw| - 2], received[1..|raw| - 2], Combine(received[|raw| - 2], received[|raw| - 1]), highFirst,
                      if lo < 8 then 0 else lo - 8);
    WrongChecksumRefused(reply, received);
  }
}

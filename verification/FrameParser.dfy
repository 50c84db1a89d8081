/** The firmware's frame parser and reply serialiser (src/frame_parser.c). */
module FrameParser {
  import opened Words
  import opened FrameGrammar
  import opened Crc16

  const TX_DATA_MAX: nat := 4
  const TX_FRAME_MAX: nat := 9

  /** The parser's position: the part of a frame it expects next. */
  datatype FrameState = SOF | OPCODE | LENGTH | PAYLOAD | CRC_LOW | CRC_HIGH

  /** Opcode, length and payload of a frame: the range the checksum covers. */
  function Body(w: seq<byte>): seq<byte>
    requires IsFrame(w)
  {
    w[1..|w| - 2]
  }

  /** The checksum a frame carries, low byte first. */
  function CarriedCrc(w: seq<byte>): uint16
    requires IsFrame(w)
  {
    Combine(w[|w| - 2], w[|w| - 1])
  }

  /** The parser. Its fields hold the frame's parts as they come in; the payload area is reused
      from frame to frame. */
  class CommandFrame {
    var state: FrameState
    var opcode: byte
    var length: byte
    var payload: array<byte>
    var payloadIdx: nat
    var crcLow: byte
    var crcHigh: byte

    /** While payload is collected the index stays below a length of at most 32. */
    ghost predicate Valid()
      reads this
    {
      && payload.Length == RX_MAX_PAYLOAD
      && (state == PAYLOAD ==> payloadIdx < length <= RX_MAX_PAYLOAD)
      && (state == CRC_LOW || state == CRC_HIGH ==> length <= RX_MAX_PAYLOAD)
    }

    /** The bytes of the unfinished frame, start byte first. */
    ghost function Held(): seq<byte>
      requires Valid()
      reads this, payload
    {
      match state
      case SOF => []
      case OPCODE => [SOF_BYTE]
      case LENGTH => [SOF_BYTE, opcode]
      case PAYLOAD => [SOF_BYTE, opcode, length] + payload[..payloadIdx]
      case CRC_LOW => [SOF_BYTE, opcode, length] + payload[..length]
      case CRC_HIGH => [SOF_BYTE, opcode, length] + payload[..length] + [crcLow]
    }

    /** The frame last completed, as it travelled. */
    ghost function Wire(): seq<byte>
      requires Valid() && length <= RX_MAX_PAYLOAD
      reads this, payload
    {
      [SOF_BYTE, opcode, length] + payload[..length] + [crcLow, crcHigh]
    }

    constructor ()
      ensures Valid() && Held() == [] && fresh(payload)
    {
      state := SOF;
      opcode, length, payloadIdx, crcLow, crcHigh := 0, 0, 0, 0, 0;
      payload := new byte[RX_MAX_PAYLOAD](_ => 0);
    }

    /** frame_parser_feed(). */
    method Feed(b: byte) returns (result: FrameResult)
      requires Valid()
      modifies this, payload
      ensures Valid() && payload == old(payload)
      ensures (result, Held()) == Accept(old(Held()), b)
      ensures result == READY ==> length <= RX_MAX_PAYLOAD && Wire() == old(Held()) + [b] && IsFrame(Wire())
    {
      ghost var h := Held();
      match state
      case SOF =>
        if b == SOF_BYTE {
          state := OPCODE;
          assert Held() == h + [b];
          return IN_PROGRESS;
        } else {
          return PENDING;
        }
      case OPCODE =>
        opcode := b;
        state := LENGTH;
        assert Held() == h + [b];
        return IN_PROGRESS;
      case LENGTH =>
        length := b;
        assert h + [b] == [SOF_BYTE, opcode, b];
        if length > RX_MAX_PAYLOAD {
          state := SOF;
          return ERROR;
        } else if length == 0 {
          state := CRC_LOW;
          assert Held() == h + [b];
          return IN_PROGRESS;
        } else {
          payloadIdx := 0;
          state := PAYLOAD;
          assert Held() == h + [b];
          return IN_PROGRESS;
        }
      case PAYLOAD =>
        FeedPayload(b);
        return IN_PROGRESS;
      case CRC_LOW =>
        crcLow := b;
        state := CRC_HIGH;
        assert Held() == h + [b];
        return IN_PROGRESS;
      case CRC_HIGH =>
        crcHigh := b;
        state := SOF;
        assert Wire() == h + [b];
        return READY;
    }

    /** The payload state: store, advance, and leave once the announced length is reached. */
    method FeedPayload(b: byte)
      requires Valid() && state == PAYLOAD
      modifies this`payloadIdx, this`state, payload
      ensures Valid() && Held() == old(Held()) + [b]
    {
      payload[payloadIdx] := b;
      payloadIdx := payloadIdx + 1;
      assert payload[..payloadIdx] == old(payload[..payloadIdx]) + [b];
      if payloadIdx == length {
        payloadIdx := 0;
        state := CRC_LOW;
      }
    }

    /** frame_parser_serialize(): the checksummed bytes, laid out contiguously. */
    method Serialize(buffer: array<byte>, size: byte) returns (written: int)
      requires Valid() && size <= buffer.Length && buffer != payload
      modifies buffer
      ensures written == if size < 2 + length || length > RX_MAX_PAYLOAD then -1 else 2 + length
      ensures written >= 0 ==> buffer[..written] == [opcode, length] + payload[..length]
      ensures written >= 0 ==> IsFrame(Wire()) && buffer[..written] == Body(Wire())
      ensures written < 0 ==> buffer[..] == old(buffer[..])
    {
      if size < 2 + length {
        return -1;
      }
      if length > RX_MAX_PAYLOAD {
        return -1;
      }
      written := 2;
      buffer[0] := opcode;
      buffer[1] := length;
      var i := 0;
      while i < length
        invariant i <= length && written == 2 + i
        invariant buffer[..2 + i] == [opcode, length] + payload[..i]
      {
        buffer[2 + i] := payload[i];
        written := written + 1;
        i := i + 1;
      }
    }

    /** frame_parser_get_crc(). */
    method GetCrc() returns (crc: uint16)
      requires Valid()
      ensures crc == Combine(crcLow, crcHigh)
      ensures length <= RX_MAX_PAYLOAD ==> IsFrame(Wire()) && crc == CarriedCrc(Wire())
    {
      Pow2Values();
      OrShiftIsSum(crcLow, crcHigh, 8);
      crc := Or(Shl(crcHigh, 8), crcLow);
    }
  }

  /** A command's reply: an outcome, and at most four data bytes. */
  datatype Reply = Reply(ack: bool, data: seq<byte>)

  /** A reply's bytes up to but excluding the checksum: LEN counts the ack byte too. */
  function ReplyHeader(reply: Reply): seq<byte>
    requires |reply.data| <= TX_DATA_MAX
  {
    [SOF_BYTE, 1 + |reply.data|, if reply.ack then 1 else 0] + reply.data
  }

  /** A complete reply. The checksum skips the start byte and travels low byte first. */
  function ReplyWire(reply: Reply): (w: seq<byte>)
    requires |reply.data| <= TX_DATA_MAX
    ensures |w| == 5 + |reply.data| <= TX_FRAME_MAX
  {
    var h := ReplyHeader(reply);
    h + [CrcLow(Crc(h[1..])), CrcHigh(Crc(h[1..]))]
  }

  /** The reply under construction: four data bytes of which the first `dataLen` count. */
  class ResponseFrame {
    var ack: bool
    var data: array<byte>
    var dataLen: nat

    ghost predicate Valid()
      reads this
    {
      data.Length == TX_DATA_MAX && dataLen < 0x100
    }

    ghost function Value(): Reply
      requires Valid() && dataLen <= TX_DATA_MAX
      reads this, data
    {
      Reply(ack, data[..dataLen])
    }

    constructor ()
      ensures Valid() && fresh(data) && dataLen == 0 && !ack
    {
      ack, dataLen := false, 0;
      data := new byte[TX_DATA_MAX](_ => 0);
    }
  }

  /** frame_parser_serialize_response(). */
  method SerializeResponse(resp: ResponseFrame, buffer: array<byte>, size: byte) returns (written: int)
    requires resp.Valid() && size <= buffer.Length && buffer != resp.data
    modifies buffer
    ensures written == if resp.dataLen > TX_DATA_MAX || size < 3 + resp.dataLen then -1 else 3 + resp.dataLen
    ensures written >= 0 ==> buffer[..written] == ReplyHeader(resp.Value())
    ensures written < 0 ==> buffer[..] == old(buffer[..])
  {
    if resp.dataLen > TX_DATA_MAX {
      return -1;
    }
    var bodyLen := 1 + resp.dataLen;
    var frameLen := 2 + bodyLen;
    if size < frameLen {
      return -1;
    }
    buffer[0] := SOF_BYTE;
    buffer[1] := bodyLen;
    buffer[2] := if resp.ack then 1 else 0;
    var i := 0;
    while i < resp.dataLen
      invariant i <= resp.dataLen
      invariant buffer[..3 + i] == [SOF_BYTE, bodyLen, if resp.ack then 1 else 0] + resp.data[..i]
    {
      buffer[3 + i] := resp.data[i];
      i := i + 1;
    }
    return frameLen;
  }

  /** frame_parser_append_crc(): refuses exactly when the two bytes do not fit. */
  method AppendCrc(buffer: array<byte>, length: byte, size: byte, crc: uint16) returns (total: int)
    requires size <= buffer.Length
    modifies buffer
    ensures total == if length + 2 > size then -1 else length + 2
    ensures total >= 0 ==> buffer[..total] == old(buffer[..length]) + [CrcLow(crc), CrcHigh(crc)]
    ensures total < 0 ==> buffer[..] == old(buffer[..])
  {
    var wide: nat := length;
    if wide + 2 > size {
      return -1;
    }
    AndMaskIsMod(crc, 8);
    Pow2Values();
    ShrIsDiv(crc, 8);
    buffer[length] := And(crc, Mask(8));
    buffer[wide + 1] := Shr(crc, 8);
    return wide + 2;
  }
}

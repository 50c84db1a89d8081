/** What the host writes is what it reads back, what a reset does, and what becomes of payloads no client
    sends. Opcodes, lengths and codes are those of mcu-co_Protocol.md. */
module RoundTrips {
  import opened Words
  import opened Status
  import opened Gpio
  import opened Timebase
  import opened TimerRegisters
  import opened Timer
  import opened TimerDriver
  import opened TimerRuns
  import opened PwmController
  import opened PwmView
  import opened GpioController
  import opened FrameParser
  import opened CommandDispatcher
  import opened MachineRuns
  import opened MachineProperties
  import opened MainLoop
  import opened HostProtocol
  import opened DeviceRelation
  import opened PwmOrders
  import C = HostClient
  import R = ReferenceDevice

  // ----- duties and frequencies

  lemma TwoDigits(n: uint16)
    ensures LeBytes(n, 2) == C.TwoBytes(n)
  {
    assert LeBytes(n / 0x100, 1) == [n / 0x100 % 0x100] + LeBytes(n / 0x100 / 0x100, 0);
  }

  lemma DutyIsSet(clkHz: uint32, m: Machine, duty: uint16, p: PinId, payload: seq<byte>, port: byte, pin: byte)
    requires duty <= 1000 && InRange(p) && DutyOf(m.pwm, p).Some? && p == PinId(port, pin)
    requires payload == C.TwoBytes(duty) + [port, pin]
    ensures Execute(clkHz, m, 0x42, payload).1 == Ok && DutyOf(Execute(clkHz, m, 0x42, payload).0.pwm, p) == Some(duty)
  {
    SamePins(p);
    SameWiring(p);
    SetDutyExecutes(clkHz, m.pwm, duty, p, payload, port, pin);
  }

  /** On a claimed pin every duty up to 1000 is accepted, and read back as it was sent. */
  lemma DutyRoundTrip(clkHz: uint32, m: Machine, duty: nat, port: byte, pin: byte)
    requires duty <= 1000 && InRange(PinId(port, pin)) && DutyOf(m.pwm, PinId(port, pin)).Some?
    ensures Execute(clkHz, m, 0x42, LeBytes(duty, 2) + [port, pin]).1 == Ok
    ensures var t := Execute(clkHz, m, 0x42, LeBytes(duty, 2) + [port, pin]).0;
      Execute(clkHz, t, 0x44, [port, pin]) == (t, Ok, duty)
  {
    var p, payload := PinId(port, pin), LeBytes(duty, 2) + [port, pin];
    TwoDigits(duty);
    DutyIsSet(clkHz, m, duty, p, payload, port, pin);
    DutyRead(clkHz, Execute(clkHz, m, 0x42, payload).0, port, pin);
  }

  /** At 170 MHz every frequency from 1 Hz to 1 MHz is accepted on a group that is off, and read back
      less than one part in 170 above. */
  lemma FrequencyRoundTrip(m: Machine, hz: nat, group: byte)
    requires 1 <= hz <= 1_000_000 && group < 3 && m.pwm.groups[group].Off?
    ensures Execute(170_000_000, m, 0x40, C.FourBytes(hz) + [group]).1 == Ok
    ensures var t := Execute(170_000_000, m, 0x40, C.FourBytes(hz) + [group]).0;
      var (u, status, read) := Execute(170_000_000, t, 0x45, [group]);
      u == t && status == Ok && hz <= read && 170 * read < 171 * hz
  {
    var payload := C.FourBytes(hz) + [group];
    InRangeIsReachable(hz);
    SetUpExecutes(m.pwm, hz, group, payload);
    SetUpAccepted(m.pwm, hz, group);
    FrequencyRead(Execute(170_000_000, m, 0x40, payload).0, group, Some(hz));
  }

  // ----- reset

  /** A reset request on the wire is acknowledged, once, and leaves the device as it boots. */
  lemma ResetReboots(clkHz: uint32, boot: Machine, m: Machine)
    ensures Consume(clkHz, boot, Firmware([], m), BuildCommand(0x11, []).value) ==
      (Firmware([], boot), [ReplyWire(Reply(true, []))])
  {
    CommandIsObeyed(clkHz, boot, m, 0x11, []);
  }

  /** Nothing else does. */
  lemma OnlyResetReboots(clkHz: uint32, m: Machine, opcode: byte, payload: seq<byte>)
    requires !m.resetRequested
    ensures Execute(clkHz, m, opcode, payload).0.resetRequested <==> opcode == 0x11 && payload == []
  {
  }

  // ----- payloads

  /** Bytes of payload each opcode takes. */
  function TakesBytes(opcode: byte): Option<nat> {
    if opcode == 0x10 || opcode == 0x11 then Some(0)
    else if opcode == 0x45 || opcode == 0x46 then Some(1)
    else if opcode == 0x32 || opcode == 0x35 || opcode == 0x36 || opcode == 0x43 || opcode == 0x44 then Some(2)
    else if opcode == 0x30 || opcode == 0x31 || opcode == 0x34 || opcode == 0x41 then Some(3)
    else if opcode == 0x42 then Some(4)
    else if opcode == 0x40 then Some(5)
    else if opcode == 0x33 then Some(6)
    else None
  }

  /** The qualifiers at the front of a payload of the right length are ones the protocol defines. */
  predicate Qualified(opcode: byte, payload: seq<byte>)
    requires TakesBytes(opcode) == Some(|payload|)
  {
    if opcode == 0x30 || opcode == 0x31 || opcode == 0x41 then payload[0] <= 1
    else if opcode == 0x34 then payload[0] <= 3
    else if opcode == 0x33 then payload[0] <= 3 && payload[3] <= 2
    else true
  }

  lemma UnknownIsUnsupported(clkHz: uint32, m: Machine, opcode: byte, payload: seq<byte>)
    ensures TakesBytes(opcode).None? ==> Execute(clkHz, m, opcode, payload).1.Code() == 8
  {
  }

  lemma WrongLengthIsInvalid(clkHz: uint32, m: Machine, opcode: byte, payload: seq<byte>)
    requires TakesBytes(opcode).Some? && TakesBytes(opcode).value != |payload|
    ensures Execute(clkHz, m, opcode, payload).1.Code() == 2
  {
  }

  lemma UnqualifiedIsInvalid(clkHz: uint32, m: Machine, opcode: byte, payload: seq<byte>)
    requires TakesBytes(opcode) == Some(|payload|) && !Qualified(opcode, payload)
    ensures Execute(clkHz, m, opcode, payload).1.Code() ==
      if opcode == 0x34 && !C.PinExists(payload[1], payload[2]) then 3
      else if opcode == 0x33 && !(C.PinExists(payload[1], payload[2]) && C.PinExists(payload[4], payload[5])) then 3
      else 2
  {
  }

  /** An unknown opcode is refused as unsupported, a payload of the wrong length as an invalid
      argument, and so is one with an undefined qualifier unless the pin it names does not exist. */
  lemma MalformedIsRefused(clkHz: uint32, m: Machine, opcode: byte, payload: seq<byte>)
    requires TakesBytes(opcode) == Some(|payload|) ==> !Qualified(opcode, payload)
    ensures var (t, status, _) := Execute(clkHz, m, opcode, payload);
      t == m && status.Code() ==
        if TakesBytes(opcode).None? then 8
        else if TakesBytes(opcode).value != |payload| then 2
        else if opcode == 0x34 && !C.PinExists(payload[1], payload[2]) then 3
        else if opcode == 0x33 && !(C.PinExists(payload[1], payload[2]) && C.PinExists(payload[4], payload[5])) then 3
        else 2
  {
    if TakesBytes(opcode).None? {
      UnknownIsUnsupported(clkHz, m, opcode, payload);
    } else if TakesBytes(opcode).value != |payload| {
      WrongLengthIsInvalid(clkHz, m, opcode, payload);
    } else {
      UnqualifiedIsInvalid(clkHz, m, opcode, payload);
    }
    RefusedChangesNothing(clkHz, m, opcode, payload);
  }

  function EdgeOf(b: byte): C.Edge
    requires b <= 3
  {
    if b == 0 then C.OFF else if b == 1 then C.RISING else if b == 2 then C.FALLING else C.BOTH
  }

  function ReactionOf(b: byte): C.Reaction
    requires b <= 2
  {
    if b == 0 then C.DRIVE_LOW else if b == 1 then C.DRIVE_HIGH else C.TOGGLE
  }

  function PolarityOf(b: byte): C.Polarity
    requires b <= 1
  {
    if b == 0 then C.ACTIVE_HIGH else C.ACTIVE_LOW
  }

  function Number16(a: nat, b: nat): (n: uint16)
    requires a < 0x100 && b < 0x100
  {
    a + 0x100 * b
  }

  function Number32(a: nat, b: nat, c: nat, d: nat): (n: uint32)
    requires a < 0x100 && b < 0x100 && c < 0x100 && d < 0x100
  {
    a + 0x100 * b + 0x1_0000 * c + 0x100_0000 * d
  }

  lemma LowestByte(a: nat, rest: nat)
    requires a < 0x100
    ensures (a + 0x100 * rest) % 0x100 == a && (a + 0x100 * rest) / 0x100 == rest
  {
  }

  lemma ByteByByte(n: nat)
    ensures n / 0x100 / 0x100 == n / 0x1_0000 && n / 0x1_0000 / 0x100 == n / 0x100_0000
  {
  }

  lemma BytesOfShort(a: byte, b: byte)
    ensures C.TwoBytes(Number16(a, b)) == [a, b]
  {
    LowestByte(a, b);
  }

  lemma BytesOfLong(a: byte, b: byte, c: byte, d: byte, y: nat, z: nat, n: uint32)
    requires y == c + 0x100 * d && z == b + 0x100 * y && n == a + 0x100 * z
    ensures C.FourBytes(n) == [a, b, c, d]
  {
    LowestByte(a, z);
    LowestByte(b, y);
    LowestByte(c, d);
    ByteByByte(n);
  }

  /** The order a payload stands for. */
  function OrderOf(opcode: byte, p: seq<byte>): C.Order
    requires TakesBytes(opcode) == Some(|p|) && Qualified(opcode, p)
  {
    if opcode == 0x10 then C.Probe
    else if opcode == 0x11 then C.Reset
    else if opcode == 0x30 then C.GpioCfg(if p[0] == 0 then C.INPUT else C.OUTPUT, p[1], p[2])
    else if opcode == 0x31 then C.GpioSet(if p[0] == 0 then C.LOW else C.HIGH, p[1], p[2])
    else if opcode == 0x32 then C.GpioGet(p[0], p[1])
    else if opcode == 0x33 then C.IrqBind(EdgeOf(p[0]), p[1], p[2], ReactionOf(p[3]), p[4], p[5])
    else if opcode == 0x34 then C.IrqCfg(EdgeOf(p[0]), p[1], p[2])
    else if opcode == 0x35 then C.IrqUnbind(p[0], p[1])
    else if opcode == 0x36 then C.GpioToggle(p[0], p[1])
    else if opcode == 0x40 then C.GroupCfg(Number32(p[0], p[1], p[2], p[3]), p[4])
    else if opcode == 0x41 then C.ChannelCfg(PolarityOf(p[0]), p[1], p[2])
    else if opcode == 0x42 then C.ChannelSet(Number16(p[0], p[1]), p[2], p[3])
    else if opcode == 0x43 then C.ChannelRelease(p[0], p[1])
    else if opcode == 0x44 then C.ChannelGet(p[0], p[1])
    else if opcode == 0x45 then C.GroupGet(p[0])
    else C.GroupRelease(p[0])
  }

  lemma GroupPayload(payload: seq<byte>)
    requires |payload| == 5
    ensures C.Payload(OrderOf(0x40, payload)) == payload
  {
    var a: nat, b: nat, c: nat, d: nat := payload[0], payload[1], payload[2], payload[3];
    BytesOfLong(a, b, c, d, c + 0x100 * d, b + 0x100 * (c + 0x100 * d), Number32(a, b, c, d));
  }

  lemma DutyPayload(payload: seq<byte>)
    requires |payload| == 4
    ensures C.Payload(OrderOf(0x42, payload)) == payload
  {
    BytesOfShort(payload[0], payload[1]);
  }

  /** Every other payload is that of one order: orders and refusals together are all there is. */
  lemma WellFormedIsAnOrder(opcode: byte, payload: seq<byte>)
    requires TakesBytes(opcode) == Some(|payload|) && Qualified(opcode, payload)
    ensures var o := OrderOf(opcode, payload); C.Opcode(o) == opcode && C.Payload(o) == payload
  {
    if opcode == 0x40 {
      GroupPayload(payload);
    } else if opcode == 0x42 {
      DutyPayload(payload);
    }
  }
}

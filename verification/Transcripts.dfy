/** Exchanges printed in mcu-co_Protocol.md, byte for byte, on the whole firmware loop. */
module Transcripts {
  import opened Words
  import opened Status
  import opened Gpio
  import opened Crc16
  import opened Timebase
  import opened TimerRegisters
  import opened TimerDriver
  import opened PwmController
  import opened PwmView
  import opened PwmOrders
  import opened FrameGrammar
  import opened FrameParser
  import opened CommandDispatcher
  import opened MachineRuns
  import opened MachineProperties
  import opened MainLoop
  import opened HostProtocol
  import opened KnownFrames
  import opened RoundTrips
  import C = HostClient

  lemma SplitCrc(c: uint16, low: byte, high: byte)
    requires c == low + 0x100 * high
    ensures CrcLow(c) == low && CrcHigh(c) == high
  {
  }

  /** A command's frame, given its checksum. */
  lemma FrameOf(opcode: byte, payload: seq<byte>, low: byte, high: byte)
    requires |payload| <= 32 && Crc([opcode, |payload|] + payload) == low + 0x100 * high
    ensures BuildCommand(opcode, payload) == Success([0xA5, opcode, |payload|] + payload + [low, high])
  {
    var body := CommandBody(opcode, payload);
    SplitCrc(Crc(body), low, high);
    assert [SOF_BYTE] + body + [low, high] == [0xA5, opcode, |payload|] + payload + [low, high];
  }

  /** A reply's frame, given its checksum. */
  lemma ReplyOf(reply: Reply, low: byte, high: byte)
    requires |reply.data| <= 4
    requires Crc([1 + |reply.data|, if reply.ack then 1 else 0] + reply.data) == low + 0x100 * high
    ensures ReplyWire(reply) == [0xA5, 1 + |reply.data|, if reply.ack then 1 else 0] + reply.data + [low, high]
  {
    var h := ReplyHeader(reply);
    assert h[1..] == [1 + |reply.data|, if reply.ack then 1 else 0] + reply.data;
    SplitCrc(Crc(h[1..]), low, high);
    assert h == [0xA5, 1 + |reply.data|, if reply.ack then 1 else 0] + reply.data;
    assert ReplyWire(reply) == h + [low, high];
  }

  /** A frame and the reply to it, on the loop. */
  lemma ExchangeOf(clkHz: uint32, boot: Machine, m: Machine, opcode: byte, payload: seq<byte>, wire: seq<byte>,
                   t: Machine, status: Status, value: nat)
    requires |payload| <= 32 && BuildCommand(opcode, payload) == Success(wire)
    requires Execute(clkHz, m, opcode, payload) == (t, status, value) && !t.resetRequested
    ensures Consume(clkHz, boot, Firmware([], m), wire) == (Firmware([], t), [ReplyWire(ReplyTo(opcode, status, value))])
  {
    CommandIsObeyed(clkHz, boot, m, opcode, payload);
  }

  lemma AckFrame(reply: Reply)
    requires reply == Reply(true, [])
    ensures ReplyWire(reply) == [0xA5, 0x01, 0x01, 0x1F, 0x3E]
  {
    AckCrc([1 + |reply.data|, if reply.ack then 1 else 0] + reply.data);
    ReplyOf(reply, 0x1F, 0x3E);
  }

  lemma BusyFrame(reply: Reply)
    requires reply == Reply(false, [6])
    ensures ReplyWire(reply) == [0xA5, 0x02, 0x00, 0x06, 0x3A, 0xC2]
  {
    BusyCrc([1 + |reply.data|, if reply.ack then 1 else 0] + reply.data);
    ReplyOf(reply, 0x3A, 0xC2);
  }

  lemma MagicFrame(reply: Reply)
    requires reply == Reply(true, [0x4D, 0x43, 0x55, 0x4F])
    ensures ReplyWire(reply) == [0xA5, 0x05, 0x01, 0x4D, 0x43, 0x55, 0x4F, 0xC6, 0xBC]
  {
    MagicCrc([1 + |reply.data|, if reply.ack then 1 else 0] + reply.data);
    ReplyOf(reply, 0xC6, 0xBC);
  }

  lemma KilohertzFrame(reply: Reply)
    requires reply == Reply(true, [0xE8, 0x03, 0x00, 0x00])
    ensures ReplyWire(reply) == [0xA5, 0x05, 0x01, 0xE8, 0x03, 0x00, 0x00, 0x39, 0xBF]
  {
    KilohertzCrc([1 + |reply.data|, if reply.ack then 1 else 0] + reply.data);
    ReplyOf(reply, 0x39, 0xBF);
  }

  lemma ProbeFrame(payload: seq<byte>)
    requires payload == []
    ensures BuildCommand(0x10, payload) == Success([0xA5, 0x10, 0x00, 0x7C, 0x1E])
  {
    ProbeCrc([0x10, |payload|] + payload);
    FrameOf(0x10, payload, 0x7C, 0x1E);
    assert [0xA5, 0x10, |payload|] + payload + [0x7C, 0x1E] == [0xA5, 0x10, 0x00, 0x7C, 0x1E];
  }

  lemma ResetFrame(payload: seq<byte>)
    requires payload == []
    ensures BuildCommand(0x11, payload) == Success([0xA5, 0x11, 0x00, 0x4D, 0x2D])
  {
    ResetCrc([0x11, |payload|] + payload);
    FrameOf(0x11, payload, 0x4D, 0x2D);
    assert [0xA5, 0x11, |payload|] + payload + [0x4D, 0x2D] == [0xA5, 0x11, 0x00, 0x4D, 0x2D];
  }

  lemma SetDutyFrame(payload: seq<byte>)
    requires payload == [0xFA, 0x00, 0x00, 0x05]
    ensures BuildCommand(0x42, payload) == Success([0xA5, 0x42, 0x04, 0xFA, 0x00, 0x00, 0x05, 0x05, 0xC1])
  {
    SetDutyCrc([0x42, |payload|] + payload);
    FrameOf(0x42, payload, 0x05, 0xC1);
    assert [0xA5, 0x42, |payload|] + payload + [0x05, 0xC1] == [0xA5, 0x42, 0x04, 0xFA, 0x00, 0x00, 0x05, 0x05, 0xC1];
  }

  lemma MagicBytes(value: nat, width: nat)
    requires value == PROBE_MAGIC && width == 4
    ensures LeBytes(value, width) == [0x4D, 0x43, 0x55, 0x4F]
  {
    assert value / 0x100 / 0x100 / 0x100 == 0x4F;
    assert LeBytes(0x4F, width - 3) == [0x4F] + LeBytes(0x4F / 0x100, width - 4);
    assert LeBytes(0x4F55, width - 2) == [0x55] + LeBytes(0x4F, width - 3);
    assert LeBytes(0x4F_5543, width - 1) == [0x43] + LeBytes(0x4F55, width - 2);
  }

  /** Probe, section 0: the device says "MCUO" and nothing changes. */
  lemma ProbeExchange(clkHz: uint32, boot: Machine, m: Machine, wire: seq<byte>)
    requires !m.resetRequested && wire == [0xA5, 0x10, 0x00, 0x7C, 0x1E]
    ensures Consume(clkHz, boot, Firmware([], m), wire) ==
      (Firmware([], m), [[0xA5, 0x05, 0x01, 0x4D, 0x43, 0x55, 0x4F, 0xC6, 0xBC]])
  {
    ProbeFrame([]);
    CommandIsObeyed(clkHz, boot, m, 0x10, []);
    MagicBytes(PROBE_MAGIC, 4);
    MagicFrame(ReplyTo(0x10, Ok, PROBE_MAGIC));
  }

  /** Reset, section 0.5: acknowledged, and the device is as it boots. */
  lemma ResetExchange(clkHz: uint32, boot: Machine, m: Machine, wire: seq<byte>)
    requires wire == [0xA5, 0x11, 0x00, 0x4D, 0x2D]
    ensures Consume(clkHz, boot, Firmware([], m), wire) == (Firmware([], boot), [[0xA5, 0x01, 0x01, 0x1F, 0x3E]])
  {
    ResetFrame([]);
    ResetReboots(clkHz, boot, m);
    AckFrame(Reply(true, []));
  }

  lemma ReadGroupFrame(payload: seq<byte>)
    requires payload == [0x00]
    ensures BuildCommand(0x45, payload) == Success([0xA5, 0x45, 0x01, 0x00, 0xF0, 0x09])
  {
    ReadGroupCrc([0x45, |payload|] + payload);
    FrameOf(0x45, payload, 0xF0, 0x09);
    assert [0xA5, 0x45, |payload|] + payload + [0xF0, 0x09] == [0xA5, 0x45, 0x01, 0x00, 0xF0, 0x09];
  }

  lemma SetUpGroupFrame(payload: seq<byte>)
    requires payload == [0xE8, 0x03, 0x00, 0x00, 0x00]
    ensures BuildCommand(0x40, payload) == Success([0xA5, 0x40, 0x05, 0xE8, 0x03, 0x00, 0x00, 0x00, 0xDE, 0xCD])
  {
    SetUpGroupCrc([0x40, |payload|] + payload);
    FrameOf(0x40, payload, 0xDE, 0xCD);
    assert [0xA5, 0x40, |payload|] + payload + [0xDE, 0xCD]
      == [0xA5, 0x40, 0x05, 0xE8, 0x03, 0x00, 0x00, 0x00, 0xDE, 0xCD];
  }

  lemma QuarterDuty(clkHz: uint32, m: Machine, payload: seq<byte>)
    requires !m.resetRequested && DutyOf(m.pwm, PinId(0, 5)).Some? && payload == [0xFA, 0x00, 0x00, 0x05]
    ensures var (t, status, _) := Execute(clkHz, m, 0x42, payload);
      status == Ok && DutyOf(t.pwm, PinId(0, 5)) == Some(250) && !t.resetRequested
  {
    TwoDigits(250);
    assert payload == LeBytes(250, 2) + [0, 5];
    DutyRoundTrip(clkHz, m, 250, 0, 5);
    OnlyResetReboots(clkHz, m, 0x42, payload);
    DutyRead(clkHz, Execute(clkHz, m, 0x42, payload).0, 0, 5);
  }

  /** Setting a duty, section 9: PA5, claimed before, is at 25.0 % and the reply is a bare
      acknowledgement. */
  lemma SetDutyExchange(clkHz: uint32, boot: Machine, m: Machine, wire: seq<byte>, payload: seq<byte>)
    requires !m.resetRequested && DutyOf(m.pwm, PinId(0, 5)).Some?
    requires payload == [0xFA, 0x00, 0x00, 0x05]
    requires wire == [0xA5, 0x42, 0x04, 0xFA, 0x00, 0x00, 0x05, 0x05, 0xC1]
    ensures var (f, replies) := Consume(clkHz, boot, Firmware([], m), wire);
      replies == [[0xA5, 0x01, 0x01, 0x1F, 0x3E]] && DutyOf(f.machine.pwm, PinId(0, 5)) == Some(250)
  {
    SetDutyFrame(payload);
    QuarterDuty(clkHz, m, payload);
    var (t, status, value) := Execute(clkHz, m, 0x42, payload);
    ExchangeOf(clkHz, boot, m, 0x42, payload, wire, t, status, value);
    AckFrame(ReplyTo(0x42, Ok, value));
  }

  lemma KilohertzSplit(total: nat)
    requires total == 170_000
    ensures PrescalerFor(total) == 2 && ReloadFor(total) == 56_665
  {
  }

  lemma KilohertzReadBack(psc: nat, arr: nat)
    requires psc == 2 && arr == 56_665
    ensures ReadBack(170_000_000, psc, arr) == 1000
  {
    assert Period(psc, arr) == 169_998;
  }

  lemma KilohertzBytes(value: nat, width: nat)
    requires value == 1000 && width == 4
    ensures LeBytes(value, width) == [0xE8, 0x03, 0x00, 0x00]
  {
    assert LeBytes(0, width - 3) == [0] + LeBytes(0, width - 4);
    assert LeBytes(0, width - 2) == [0] + LeBytes(0, width - 3);
    assert LeBytes(3, width - 1) == [3] + LeBytes(0, width - 2);
  }

  lemma KilohertzIsRead(m: Machine, group: byte)
    requires group < 3 && TunedTo(170_000_000, m.pwm.groups[group], Some(1000))
    ensures Execute(170_000_000, m, 0x45, [group]) == (m, Ok, 1000)
  {
    KilohertzSplit(170_000_000 / 1000);
    KilohertzReadBack(2, 56_665);
  }

  lemma KilohertzReply(status: Status, value: nat)
    requires status == Ok && value == 1000
    ensures ReplyWire(ReplyTo(0x45, status, value)) == [0xA5, 0x05, 0x01, 0xE8, 0x03, 0x00, 0x00, 0x39, 0xBF]
  {
    KilohertzBytes(value, 4);
    KilohertzFrame(ReplyTo(0x45, status, value));
  }

  /** Reading a frequency, section 12: group 0 tuned to 1 kHz reports exactly that. */
  lemma ReadGroupExchange(boot: Machine, m: Machine, wire: seq<byte>, payload: seq<byte>)
    requires !m.resetRequested && TunedTo(170_000_000, m.pwm.groups[0], Some(1000))
    requires payload == [0x00] && wire == [0xA5, 0x45, 0x01, 0x00, 0xF0, 0x09]
    ensures Consume(170_000_000, boot, Firmware([], m), wire) ==
      (Firmware([], m), [[0xA5, 0x05, 0x01, 0xE8, 0x03, 0x00, 0x00, 0x39, 0xBF]])
  {
    ReadGroupFrame(payload);
    KilohertzIsRead(m, 0);
    var (t, status, value) := Execute(170_000_000, m, 0x45, payload);
    ExchangeOf(170_000_000, boot, m, 0x45, payload, wire, t, status, value);
    KilohertzReply(status, value);
  }

  lemma KilohertzSetUp(m: Machine, payload: seq<byte>)
    requires !m.resetRequested && payload == [0xE8, 0x03, 0x00, 0x00, 0x00]
    ensures var (t, status, value) := Execute(170_000_000, m, 0x40, payload);
      !t.resetRequested && value == 0 && if m.pwm.groups[0].On? then t == m && status == Busy else t.pwm.groups[0].On? && status == Ok
  {
    OnlyResetReboots(170_000_000, m, 0x40, payload);
    assert payload == C.FourBytes(1000) + [0];
    SetUpExecutes(m.pwm, 1000, 0, payload);
    InRangeIsReachable(1000);
    if m.pwm.groups[0].On? {
      SetUpRefused(170_000_000, m.pwm, 1000, 0);
    } else {
      SetUpAccepted(m.pwm, 1000, 0);
    }
  }

  /** Setting a group up, section 7: acknowledged on a group that is off, busy on one that is not. */
  lemma SetUpGroupExchange(boot: Machine, m: Machine, wire: seq<byte>, payload: seq<byte>)
    requires !m.resetRequested && payload == [0xE8, 0x03, 0x00, 0x00, 0x00]
    requires wire == [0xA5, 0x40, 0x05, 0xE8, 0x03, 0x00, 0x00, 0x00, 0xDE, 0xCD]
    ensures var (f, replies) := Consume(170_000_000, boot, Firmware([], m), wire);
      if m.pwm.groups[0].On? then f == Firmware([], m) && replies == [[0xA5, 0x02, 0x00, 0x06, 0x3A, 0xC2]]
      else f.machine.pwm.groups[0].On? && replies == [[0xA5, 0x01, 0x01, 0x1F, 0x3E]]
  {
    SetUpGroupFrame(payload);
    KilohertzSetUp(m, payload);
    var (t, status, value) := Execute(170_000_000, m, 0x40, payload);
    ExchangeOf(170_000_000, boot, m, 0x40, payload, wire, t, status, value);
    SetUpReplies(status, value);
  }

  lemma SetUpReplies(status: Status, value: nat)
    ensures status == Busy ==> ReplyWire(ReplyTo(0x40, status, value)) == [0xA5, 0x02, 0x00, 0x06, 0x3A, 0xC2]
    ensures status == Ok ==> ReplyWire(ReplyTo(0x40, status, value)) == [0xA5, 0x01, 0x01, 0x1F, 0x3E]
  {
    if status == Busy { BusyFrame(ReplyTo(0x40, status, value)); }
    if status == Ok { AckFrame(ReplyTo(0x40, status, value)); }
  }
}

/** The two pins that carry the command link. The firmware routes them to the serial port at boot
    and lets any GPIO_CFG take them away again. */
module LinkPins {
  import opened Words
  import opened Status
  import opened Gpio
  import opened Timer
  import opened PwmController
  import opened PwmView
  import opened GpioController
  import opened CommandDispatcher
  import opened MachineRuns
  import opened MachineProperties

  const LINK_TX: PinId := PinId(0, 2)
  const LINK_RX: PinId := PinId(0, 3)

  /** The serial port sees what arrives. */
  predicate Hears(m: Machine) { m.pwm.pins.IsMode(LINK_RX, MODE_AF) }

  /** What the serial port sends reaches the wire. */
  predicate Speaks(m: Machine) { m.pwm.pins.IsMode(LINK_TX, MODE_AF) }

  /** A GPIO_CFG the firmware will accept, naming pin `p`. */
  predicate Reroutes(opcode: byte, payload: seq<byte>, p: PinId) {
    opcode == 0x30 && |payload| == 3 && payload[0] <= 1 && PinId(payload[1], payload[2]) == p
  }

  /** No command but such a GPIO_CFG changes whether a serial pin is routed. */
  lemma SerialPinStep(clkHz: uint32, m: Machine, opcode: byte, payload: seq<byte>, p: PinId)
    requires IsSerialPin(p)
    ensures InRange(p)
    ensures Execute(clkHz, m, opcode, payload).0.pwm.pins.IsMode(p, MODE_AF) <==>
      m.pwm.pins.IsMode(p, MODE_AF) && !Reroutes(opcode, payload, p)
  {
    if Execute(clkHz, m, opcode, payload).1 != Ok {
      RefusedChangesNothing(clkHz, m, opcode, payload);
    } else {
      match CommandOf(opcode).value
      case GPIO(k) => IoSerialStep(m.Io(), k, payload, p);
      case PWM(k) =>
        ModeStep(clkHz, m.pwm, k, payload, p);
        ClaimsNeedChannels(clkHz, m.pwm, k, payload, p);
      case _ =>
    }
  }

  lemma IoSerialStep(s: IoState, k: IoCommand, payload: seq<byte>, p: PinId)
    requires IsSerialPin(p) && IoStatus(s, k, payload) == Ok
    ensures |payload| == IoLength(k)
    ensures IoAfter(s, k, payload).pins.IsMode(p, MODE_AF) <==>
      s.pins.IsMode(p, MODE_AF) && !(k == IO_CFG && Subject(k, payload) == p)
    ensures k == IO_CFG ==> payload[0] <= 1 && Subject(k, payload) == PinId(payload[1], payload[2])
  {
    AtIsInjective(Subject(k, payload), p);
  }

  /** A reset is pending only after a RESET, which leaves the link alone. */
  lemma OnlyResetAsks(clkHz: uint32, m: Machine, opcode: byte, payload: seq<byte>)
    requires Execute(clkHz, m, opcode, payload).0.resetRequested && !m.resetRequested
    ensures forall p :: !Reroutes(opcode, payload, p)
  {
  }

  predicate Rerouted(acks: seq<Ack>, p: PinId)
    requires forall k :: 0 <= k < |acks| ==> IsAck(acks[k])
  {
    acks != [] && (IsConfiguration(acks[|acks| - 1], p) || Rerouted(acks[..|acks| - 1], p))
  }

  predicate IsConfiguration(a: Ack, p: PinId)
    requires IsAck(a)
  {
    a.command == GPIO(IO_CFG) && Subject(IO_CFG, a.payload) == p
  }

  /** After every run a serial pin is still routed to its port if and only if no GPIO_CFG naming
      it was acknowledged since reset. */
  lemma {:induction false} SerialPinIsRouted(clkHz: uint32, boot: Machine, events: seq<Event>, p: PinId)
    requires Booted(boot) && IsSerialPin(p) && forall k :: 0 <= k < |events| ==> Possible(events[k])
    ensures InRange(p)
    ensures Run(clkHz, boot, events).pwm.pins.IsMode(p, MODE_AF) <==> !Rerouted(Acks(clkHz, boot, events), p)
  {
    if events == [] {
      assert boot.pwm.pins.IsMode(p, BootMode(p));
    } else {
      var before, e := events[..|events| - 1], events[|events| - 1];
      SerialPinIsRouted(clkHz, boot, before, p);
      var m, acks := Run(clkHz, boot, before), Acks(clkHz, boot, before);
      if e.Request? {
        SerialPinStep(clkHz, m, e.opcode, e.payload, p);
        AcknowledgedReroute(clkHz, m, e.opcode, e.payload, p);
        if Execute(clkHz, m, e.opcode, e.payload).1 == Ok {
          assert (acks + [Ack(CommandOf(e.opcode).value, e.payload)])[..|acks|] == acks;
          assert Rerouted(Acks(clkHz, boot, events), p) == (Reroutes(e.opcode, e.payload, p) || Rerouted(acks, p));
        }
      } else {
        OtherEventsKeepModes(clkHz, m, e);
      }
    }
  }

  lemma OtherEventsKeepModes(clkHz: uint32, m: Machine, e: Event)
    requires Possible(e) && !e.Request?
    ensures Next(clkHz, m, e).pwm.pins.mode == m.pwm.pins.mode
    ensures Next(clkHz, m, e).resetRequested == m.resetRequested
  {
    if e.Interrupt? { VectorKeeps(m.Io(), e.vector); }
  }

  lemma AcknowledgedReroute(clkHz: uint32, m: Machine, opcode: byte, payload: seq<byte>, p: PinId)
    requires IsSerialPin(p)
    ensures Reroutes(opcode, payload, p) <==>
      Execute(clkHz, m, opcode, payload).1 == Ok && CommandOf(opcode) == Some(GPIO(IO_CFG)) &&
      Subject(IO_CFG, payload) == p
  {
  }

  /** The protocol has no notion of it, but one accepted command cuts the link: on a freshly
      booted device GPIO_CFG of PA2 as an output is acknowledged, and from then on nothing the
      device sends, that acknowledgement included, reaches the host. PA3 likewise for what the
      host sends. */
  lemma ConfiguringCutsTheLink(clkHz: uint32, boot: Machine)
    requires Booted(boot)
    ensures Hears(boot) && Speaks(boot)
    ensures var (t, status, _) := Execute(clkHz, boot, 0x30, [1, 0, 2]); status == Ok && !Speaks(t) && Hears(t)
    ensures var (t, status, _) := Execute(clkHz, boot, 0x30, [1, 0, 3]); status == Ok && Speaks(t) && !Hears(t)
  {
    ConfiguringIgnoresClaims(clkHz, boot, 1, 0, 2);
    ConfiguringIgnoresClaims(clkHz, boot, 1, 0, 3);
    SerialPinStep(clkHz, boot, 0x30, [1, 0, 2], LINK_TX);
    SerialPinStep(clkHz, boot, 0x30, [1, 0, 2], LINK_RX);
    SerialPinStep(clkHz, boot, 0x30, [1, 0, 3], LINK_TX);
    SerialPinStep(clkHz, boot, 0x30, [1, 0, 3], LINK_RX);
  }
}

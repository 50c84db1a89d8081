/** The host's client (tools/mcu-co-cli/mcuco/client.py): one order per method, with the opcode and
    the payload it sends. */
module HostClient {
  import opened Words

  datatype Dir = INPUT | OUTPUT {
    function Code(): byte { match this case INPUT => 0 case OUTPUT => 1 }
  }

  datatype Level = LOW | HIGH {
    function Code(): byte { match this case LOW => 0 case HIGH => 1 }
  }

  datatype Edge = OFF | RISING | FALLING | BOTH {
    function Code(): byte { match this case OFF => 0 case RISING => 1 case FALLING => 2 case BOTH => 3 }
  }

  datatype Reaction = DRIVE_LOW | DRIVE_HIGH | TOGGLE {
    function Code(): byte { match this case DRIVE_LOW => 0 case DRIVE_HIGH => 1 case TOGGLE => 2 }
  }

  datatype Polarity = ACTIVE_HIGH | ACTIVE_LOW {
    function Code(): byte { match this case ACTIVE_HIGH => 0 case ACTIVE_LOW => 1 }
  }

  datatype Order =
    | Probe
    | Reset
    | GpioCfg(dir: Dir, port: byte, pin: byte)
    | GpioSet(level: Level, port: byte, pin: byte)
    | GpioGet(port: byte, pin: byte)
    | IrqCfg(edge: Edge, port: byte, pin: byte)
    | IrqBind(edge: Edge, inPort: byte, inPin: byte, reaction: Reaction, outPort: byte, outPin: byte)
    | IrqUnbind(port: byte, pin: byte)
    | GpioToggle(port: byte, pin: byte)
    | GroupCfg(hz: uint32, group: byte)
    | GroupRelease(group: byte)
    | GroupGet(group: byte)
    | ChannelCfg(polarity: Polarity, port: byte, pin: byte)
    | ChannelSet(duty: uint16, port: byte, pin: byte)
    | ChannelRelease(port: byte, pin: byte)
    | ChannelGet(port: byte, pin: byte)

  function Opcode(o: Order): byte {
    match o
    case Probe => 0x10
    case Reset => 0x11
    case GpioCfg(_, _, _) => 0x30
    case GpioSet(_, _, _) => 0x31
    case GpioGet(_, _) => 0x32
    case IrqBind(_, _, _, _, _, _) => 0x33
    case IrqCfg(_, _, _) => 0x34
    case IrqUnbind(_, _) => 0x35
    case GpioToggle(_, _) => 0x36
    case GroupCfg(_, _) => 0x40
    case ChannelCfg(_, _, _) => 0x41
    case ChannelSet(_, _, _) => 0x42
    case ChannelRelease(_, _) => 0x43
    case ChannelGet(_, _) => 0x44
    case GroupGet(_) => 0x45
    case GroupRelease(_) => 0x46
  }

  /** int.to_bytes(2, "little") and int.to_bytes(4, "little"). */
  function TwoBytes(n: uint16): seq<byte> { [n % 0x100, n / 0x100] }

  function FourBytes(n: uint32): seq<byte> {
    [n % 0x100, n / 0x100 % 0x100, n / 0x1_0000 % 0x100, n / 0x100_0000]
  }

  function Payload(o: Order): (p: seq<byte>)
    ensures |p| <= 6
  {
    match o
    case Probe => []
    case Reset => []
    case GpioCfg(dir, port, pin) => [dir.Code(), port, pin]
    case GpioSet(level, port, pin) => [level.Code(), port, pin]
    case GpioGet(port, pin) => [port, pin]
    case IrqCfg(edge, port, pin) => [edge.Code(), port, pin]
    case IrqBind(edge, inPort, inPin, reaction, outPort, outPin) =>
      [edge.Code(), inPort, inPin, reaction.Code(), outPort, outPin]
    case IrqUnbind(port, pin) => [port, pin]
    case GpioToggle(port, pin) => [port, pin]
    case GroupCfg(hz, group) => FourBytes(hz) + [group]
    case GroupRelease(group) => [group]
    case GroupGet(group) => [group]
    case ChannelCfg(polarity, port, pin) => [polarity.Code(), port, pin]
    case ChannelSet(duty, port, pin) => TwoBytes(duty) + [port, pin]
    case ChannelRelease(port, pin) => [port, pin]
    case ChannelGet(port, pin) => [port, pin]
  }

  predicate PinExists(port: byte, pin: byte) { port <= 6 && pin <= 15 }

  /** What the client lets through: it raises ValueError on anything else. */
  predicate LetsThrough(o: Order) {
    match o
    case Probe => true
    case Reset => true
    case IrqBind(edge, inPort, inPin, _, outPort, outPin) =>
      edge != OFF && PinExists(inPort, inPin) && PinExists(outPort, outPin)
    case GroupCfg(hz, group) => 1 <= hz <= 1_000_000 && group <= 2
    case GroupRelease(group) => group <= 2
    case GroupGet(group) => group <= 2
    case ChannelSet(duty, port, pin) => duty <= 1000 && PinExists(port, pin)
    case _ => PinExists(o.port, o.pin)
  }
}

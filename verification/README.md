# mcu-co, modelled and proved

mcu-co turns a microcontroller into an I/O co-processor. A host sends framed commands over a
serial line; the firmware parses them byte by byte, checks a CRC-16, dispatches to GPIO and PWM
controllers, and answers each with one short reply. Interrupt-to-output bindings run on the device
without the host. This project models that path end to end, from the wire to the packed hardware
registers and back, and proves what the firmware's comments, protocol document and host library
rely on.

## What is where

| layer | files |
|---|---|
| bit-level words, outcomes | `Words.dfy`, `Status.dfy` |
| checksum | `Gf2.dfy`, `Crc16.dfy`, `CrcPowers.dfy`, `CrcDetection.dfy`, `CrcBursts.dfy`, `CrcTightness.dfy`, `KnownFrames.dfy` |
| receive queue | `RingBuffer.dfy`, `SpscQueue.dfy` |
| framing, both ends | `FrameGrammar.dfy`, `FrameParser.dfy`, `HostProtocol.dfy` |
| pins and interrupt lines | `Gpio.dfy`, `GpioController.dfy` |
| PWM timers | `Timebase.dfy`, `TimerRegisters.dfy`, `Timer.dfy`, `TimerDriver.dfy`, `TimerRuns.dfy`, `PwmController.dfy`, `PwmView.dfy` |
| command machine | `CommandDispatcher.dfy`, `MachineRuns.dfy`, `MachineProperties.dfy`, `SharedVectors.dfy`, `LinkPins.dfy` |
| firmware and host together | `MainLoop.dfy`, `Boot.dfy`, `Exchange.dfy`, `ExchangeAccesses.dfy` |
| the host's client and the device it may imagine | `HostClient.dfy`, `ReferenceDevice.dfy` |
| refinement of that device | `DeviceRelation.dfy`, `GpioOrders.dfy`, `PwmOrders.dfy`, `HostSessions.dfy`, `RoundTrips.dfy`, `Transcripts.dfy` |

Code that changes state in place is written that way: classes with the source's fields, arrays and
registers, loops where the source loops. Each such method is tied to a function of the old state,
and the properties are proved about those functions. Machine words are numbers with an explicit
range; shifts, masks and wrap-around are written out, and packed fields have their own small theory
in `Words.dfy`. Register banks are numbers that a specification reads as fields: `State()` of the
GPIO driver and `Shows` of the timers say what the packed bits mean.

`ReferenceDevice.dfy` describes the device independently of all that, in the protocol document's terms:
pins with a role, lines armed and bound, groups with a frequency, answers with a reason code. It knows no
register, opcode, driver call or status name. `HostClient.dfy` holds the client's opcodes and encodings.
What ties the two to the firmware is proved: whatever a host orders through its client, and whatever
edges, interrupts and inputs come in between, each reply decodes to the reference device's answer.

The main results, the overall one first and the others bottom up:

* Over every session the firmware refines the reference device, from the client's bytes to the decoded
  reply, starting from power-up; together with what becomes of payloads no client sends, that covers
  every opcode and payload.
* The CRC loop computes a polynomial remainder. Frames as long as the protocol allows are at
  minimum distance exactly four. A burst inside the body is caught up to sixteen bits. The checksum
  travels low byte first, so a burst that may reach into it is caught only up to fourteen bits in the
  order of the serial line (twelve were bytes sent highest bit first), and not one bit more.
* The ring buffer is a bounded queue, and stays one when an interrupt writes while the main loop
  reads, in every interleaving of their memory accesses.
* The parser divides every byte stream as a declarative grammar does, never loses a byte, recovers
  within 36 bytes, and undoes the host's encoder.
* A timer's registers are a function of the last accepted requests. Retunes never accumulate error,
  and every compare value fits its 16-bit register.
* After every run of commands and interrupts the host can compute pin modes, duties, frequencies,
  armed edges, bindings and live interrupt vectors from the acknowledgements it saw. It can tell in
  advance exactly which claims, binds and armings will succeed, and what an interrupt will do.
* The loop answers every intact frame once and everything else never. A frame with up to three flipped
  bits, or one burst, in its opcode, payload or checksum changes nothing; a reply so damaged in ack, data
  or checksum is refused by the host.
* Host and device together: every command is obeyed once, in order, and answered by its own outcome,
  in every interleaving of the host, the wire, the main loop and the receive interrupt, down to single
  accesses of the shared ring buffer, which never refuses a byte. The host can get all its answers if
  and only if its commands leave the link's own pins alone, but for the last one taking the receive pin.

## Where code and documentation disagree

The model follows the code. Each item names the lemma with the exact condition and the one with a run
that shows the difference:

* `mcu-co_Protocol.md:400-403` has a group's pins released and claimed again. A released pin is left
  an input, and a claim takes only analog pins (`peripherals/gpio.c:164-188`,
  `peripherals/timer.c:441-444`), so each pin can be claimed once per reset. `ClaimAcceptedIff` gives
  the exact condition, `ReclaimingFails` a concrete run.
* `mcu-co_Protocol.md:452-453` says a claim keeps other drivers off the pin. GPIO_CFG does not ask
  (`peripherals/gpio.c:130-162`): `ClaimedPinIsRouted`, and the run `ConfiguringTakesClaimedPin`.
* `mcu-co_Protocol.md:405-408` says every refusal of a group set-up but busy leaves the group off. A
  request out of range is refused before anything else, and leaves a running group running:
  `RefusedSetupLeavesGroup`, and the run `OutOfRangeLeavesGroupOn`. It also expects frequencies in
  range that cannot be reached; at 170 MHz there are none: `SetupAnswer`.
* `mcu-co_Protocol.md:588` shows a busy reason when another port holds an interrupt line. The
  controller replaces it by the plain error (`src/gpio_controller.c:136-140`): `ArmAcceptedIff`, and the run
  `ArmingHeldLineIsPlainError`.
* `mcu-co_Protocol.md:313-314` has a bound output follow every edge. An interrupt handler clears its line's
  pending bit by reading the register and writing it back (`peripherals/gpio.c:537-557`). A one written
  clears a bit, so all other pending edges are lost. `FiringEffect` says exactly what an interrupt does,
  `PendingNeighbourLosesEdge` gives a run.
* `mcu-co_Protocol.md:333-335` has an armed line go on interrupting. Disarming a line disables its vector
  in the interrupt controller (`peripherals/gpio.c:353-355`), which lines 5 to 9, and 10 to 15, share. A
  vector is live if and only if the last acknowledged GPIO_IRQ_CFG on any of its lines armed one:
  `VectorsAsAcknowledged`, and the run `DisarmingSilencesNeighbour`.
* The protocol answers every command whose frame is intact. GPIO_CFG takes any valid pin, PA2 and PA3
  that carry the link included (`peripherals/uart.c:43`), and does so before the reply leaves.
  `AnsweredIff` gives the exact condition, `CuttingHostWaitsForEver` a run.
* `mcu-co_Protocol.md:567` says a NACK carries no reason code, against the rest of that document and
  the code, which sends one byte (`src/command_dispatcher.c:193-200`): `ReplyDecodes`.

## Checking

`dafny verify dfyconfig.toml` checks the whole project with Dafny 4.11.


## Model

| member | source | states |
|---|---|---|
| `Crc16.Crc16Compute` | common/crc16.c:6-33 | The firmware's in-place loop over a byte range returns the checksum function of exactly those bytes |
| `Crc16.Crc16CcittFalse` | tools/mcu-co-cli/mcuco/protocol.py:110-120 | The host's masking loop computes the same function, for every message |
| `Crc16.CrcIsTheRemainder` | common/crc16.c:15-30 | A register is the checksum of a message if and only if, as a polynomial, it is the remainder of (x^15 + ... + 1)·x^(8n) + M(x)·x^16 modulo the generator |
| `Crc16.SeedIsAllOnes` | common/crc16.c:4-8 | The register starts as x^15 + x^14 + ... + 1, which is the checksum of nothing |
| `KnownFrames.CheckValue` | common/crc16.h:10-20 | The variant's check value: the checksum of "123456789" is 0x29B1 |
| `Gf2.RegisterIsRemainder` | common/crc16.c:15-30 | A bit-serial register fed any bits holds the remainder of seed and message |
| `Gf2.RemainderUnique` | common/crc16.c:15-30 | There is only one such remainder |
| `Crc16.GeneratorBits` | common/crc16.h:8 | The constant 0x1021 stands for x^12 + x^5 + 1 under the implicit x^16 |
| `Crc16.CrcComposes` | common/crc16.c:15-30 | The checksum of a concatenation continues from the checksum of the first part |
| `Crc16.CrcAffine` | common/crc16.c:15-30 | XORing a difference into a message XORs that difference's zero-seeded checksum into the result |
| `Crc16.ResidueZeroIffOwnCrc` | common/crc16.c:15-30 | Message followed by high and low checksum byte leaves the register at zero, and only its own checksum does |
| `CrcDetection.BurstDetected` | common/crc16.c:15-30 | Two messages of equal length whose difference lies within 16 consecutive bits of the message have different checksums |
| `CrcDetection.OrderOfX` | common/crc16.c:15-30 | x has order above 287 modulo the generator, so two flipped bits of a frame never cancel |
| `CrcDetection.FeedKeepsParity` | common/crc16.c:15-30 | The register keeps the parity of what it has been fed, so an odd number of flipped bits never cancels |
| `CrcDetection.ThreeBitErrorsDetected` | common/crc16.c:15-30 | A body of at most 34 bytes and checksum, with one to three bits flipped anywhere in both, never match |
| `CrcDetection.MinimumDistanceFour` | common/crc16.c:6-33 | Two different valid body/checksum pairs of one length up to 34 bytes differ in at least four bits, with the wire's low-byte-first order |
| `CrcBursts.WireBurstDetected` | common/crc16.c:6-33 | A valid body and checksum, and anything that differs from them within fourteen consecutive bits in the serial line's order (twelve were bytes sent highest bit first), body and checksum alike, are never both valid; for bodies of every length |
| `CrcTightness.FifteenIsAttained` | common/crc16.c:6-33 | Fourteen cannot be improved: every message has a valid neighbour that differs within fifteen consecutive bits in the serial line's order |
| `CrcTightness.ThirteenIsAttained` | common/crc16.c:6-33 | Nor can twelve, were bytes sent highest bit first |
| `CrcTightness.FourIsAttained` | common/crc16.c:6-33 | Four cannot be improved: for every message there is a four-bit error the checksum misses |
| `Words.PowerOfTwoTest` | data_structures/ring-buffer.c:17-20 | c & (c - 1) is zero exactly for the powers of two |
| `RingBuffer.MaskedIncrement` | data_structures/ring-buffer.c:71 | Masking an advanced index is taking it modulo the capacity |
| `RingBuffer.RingBuffer.Init` | data_structures/ring-buffer.c:5-30 | Accepts exactly non-null storage, non-zero element size and power-of-two capacity, and yields an empty queue |
| `RingBuffer.RingBuffer.IsEmpty` | data_structures/ring-buffer.c:32-40 | Tells whether the queue is empty |
| `RingBuffer.RingBuffer.IsFull` | data_structures/ring-buffer.c:42-50 | Tells whether the queue holds capacity - 1 elements |
| `RingBuffer.RingBuffer.Write` | data_structures/ring-buffer.c:52-74 | Appends; at capacity - 1 refuses, or when overwriting leaves the last capacity - 1 elements of queue ++ [e] |
| `RingBuffer.RingBuffer.Read` | data_structures/ring-buffer.c:76-93 | Delivers and removes the oldest element, or reports an empty queue |
| `RingBuffer.RingBuffer.Flush` | data_structures/ring-buffer.c:95-106 | Empties the queue |
| `RingBuffer.CopyChangesOneSlot` | data_structures/ring-buffer.c:69-70 | A byte copy of one element at head times element size changes that slot of the queue and no other |
| `RingBuffer.Appended` | data_structures/ring-buffer.c:69-71 | Storing at head and advancing it appends to the queue the indices delimit |
| `RingBuffer.LastAfterDrop` | data_structures/ring-buffer.c:66-71 | Dropping the oldest and appending keeps the newest elements in order |
| `RingBuffer.UartReadBuffer` | peripherals/uart.c:507-519 | The read loop delivers the oldest min(length, available) bytes in order and leaves the rest queued |
| `SpscQueue.Preserved` | data_structures/ring-buffer.c:52-93 | Every memory access of either side, at any moment, keeps the shared ring consistent |
| `SpscQueue.FifoUnderEveryInterleaving` | data_structures/ring-buffer.c:52-93 | Under every interleaving what is read is a prefix of what was accepted, occupancy never exceeds capacity - 1, and the verdicts account for every element |
| `SpscQueue.LiveSlotsNeverOverwritten` | data_structures/ring-buffer.c:69-71 | No access ever changes the slot of an element that is still waiting |
| `SpscQueue.StaleIndicesAreConservative` | data_structures/ring-buffer.c:49 | A stale index can only make the ring look fuller to the writer and emptier to the reader than it is |
| `SpscQueue.WaitingIsQueue` | peripherals/uart.c:200-215 | What waits between the interrupt and the main loop is the sequential ring's queue |
| `SpscQueue.WriteAloneIsWrite` | data_structures/ring-buffer.c:52-74 | Uninterrupted, the accesses of a write add up to the sequential write, refusal included |
| `SpscQueue.ReadAloneIsRead` | data_structures/ring-buffer.c:76-93 | Uninterrupted, the accesses of a read add up to the sequential read |
| `FrameParser.CommandFrame.Feed` | src/frame_parser.c:11-91 | Each byte moves the parser's fields exactly as the grammar's acceptor moves the partial frame; on READY the fields are the completed frame. While payload is collected its index stays below a length of at most 32 |
| `FrameGrammar.ParserEqualsGrammar` | src/frame_parser.c:18-88 | The acceptor's output on any stream is the one and only division of it into noise bytes, oversize headers, whole frames and an unfinished rest |
| `FrameGrammar.SegmentationUnique` | src/frame_parser.c:18-88 | The declarative grammar is unambiguous |
| `FrameGrammar.BytesConserved` | src/frame_parser.c:18-88 | Bytes fed are the sum of 5 + LEN over READY, 3 per ERROR, 1 per PENDING and the bytes held |
| `FrameGrammar.ReturnsToHunting` | src/frame_parser.c:18-88 | From every state at most rank-many bytes lead back to waiting for a start byte |
| `FrameGrammar.SelfStabilises` | src/frame_parser.c:18-88 | Any 36 consecutive bytes pass through that state; if none is 0xA5 the parser ends in it and takes the next well-formed frame |
| `FrameGrammar.ThirtyFiveDoNotSuffice` | src/frame_parser.c:18-88 | 36 is the least such number |
| `FrameGrammar.AcceptsNextFrame` | src/frame_parser.c:18-88 | A waiting parser accepts the next well-formed frame, whatever came before |
| `FrameParser.CommandFrame.Serialize` | src/frame_parser.c:93-122 | Writes opcode, length and payload, the checksummed body of the frame, or refuses and writes nothing |
| `FrameParser.CommandFrame.GetCrc` | src/frame_parser.c:124-134 | The checksum the frame carried, low byte first |
| `FrameParser.SerializeResponse` | src/frame_parser.c:136-167 | Writes the reply's start byte, length, ack and data, or refuses exactly when they do not fit |
| `FrameParser.AppendCrc` | src/frame_parser.c:169-190 | Appends low then high checksum byte; refuses exactly when two bytes do not fit, also at length 254 and 255 |
| `HostProtocol.EncoderParserRoundTrip` | tools/mcu-co-cli/mcuco/protocol.py:127-133 | Feeding a built command to a waiting parser is IN_PROGRESS on every byte but the last and READY on the last, whatever the payload holds; the body and a matching checksum come out |
| `HostProtocol.ReplyRoundTrip` | tools/mcu-co-cli/mcuco/protocol.py:186-216 | The host decodes every reply the firmware can send to the same outcome and data, even with bytes behind it |
| `HostProtocol.DecodedIsEncoded` | tools/mcu-co-cli/mcuco/protocol.py:186-216 | Conversely what the host decodes is a reply exactly as the firmware sends it |
| `HostProtocol.UnfinishedReply` | tools/mcu-co-cli/mcuco/protocol.py:186-216 | A reply that has not all come in is refused, as too short below five bytes and as truncated from there |
| `HostProtocol.DamagedReplyIsRefused` | tools/mcu-co-cli/mcuco/protocol.py:186-216 | A reply with one to three bits flipped in ack, data or checksum is refused for its checksum |
| `HostProtocol.BurstDamagedReplyIsRefused` | tools/mcu-co-cli/mcuco/protocol.py:186-216 | So is one damaged there by a burst of at most fourteen consecutive bits of the serial line |
| `Timebase.ComputeTimebase` | peripherals/timer.c:83-111 | Succeeds if and only if a period has at least two ticks; the later range tests never fire |
| `Timebase.SplitProperties` | peripherals/timer.c:93-99 | The prescaler is the least that brings the period within a 16-bit reload, both registers fit, and total - psc <= (psc + 1)(arr + 1) <= total |
| `Timebase.ComputeReadBack` | peripherals/timer.c:340-344 | The read-back from the registers; the 32-bit product neither wraps nor is zero |
| `Timebase.ReadBackNotBelow` | peripherals/timer.c:340-344 | The reported frequency is never below the requested one |
| `Timebase.ReadBackNotMuchAbove` | peripherals/timer.c:340-344 | With at least 170 ticks a period it exceeds the requested one by less than one part in 170 |
| `Timebase.AchievedFrequency` | peripherals/timer.c:315-347 | At 170 MHz every frequency from 1 Hz to 1 MHz is reachable, with f <= g and 170 g < 171 f |
| `Timebase.DutyToCompare` | peripherals/timer.c:159-169 | The wrapping 32-bit computation gives floor((arr + 1) * duty / 1000) for 16-bit reloads |
| `Timebase.CompareBounds` | peripherals/timer.c:159-169 | The compare value stays within the period, reaches it exactly at 100 %, and is off by less than a tick |
| `Timebase.FullDutyFits` | peripherals/timer.c:83-111 | At 170 MHz no admitted frequency gives a reload of 65535, so even the 100 % compare value fits 16 bits |
| `Gpio.PinFieldWritten` | peripherals/gpio.c:130-162 | Clearing and setting one pin's field leaves every other pin's field of the register alone |
| `Gpio.OwnersWritten` | peripherals/gpio.c:282-344 | Writing one line's 4-bit routing field changes that line's owner and no other |
| `Gpio.GpioDriver.Init` | peripherals/gpio.c:130-162 | Rewrites mode, type, speed and pull of a valid pin and nothing else, whoever uses it |
| `Gpio.GpioDriver.Deinit` | peripherals/gpio.c:164-188 | Clears every field of the pin, alternate function included |
| `Gpio.GpioDriver.SetAf` | peripherals/gpio.c:423-446 | Writes the 4-bit alternate function in whichever of the two registers holds the pin |
| `Gpio.GpioDriver.SetState` | peripherals/gpio.c:190-229 | Drives one output level; refuses invalid pins and pins not in output mode |
| `Gpio.GpioDriver.Toggle` | peripherals/gpio.c:231-251 | Inverts one output level and reports the new one |
| `Gpio.GpioDriver.Read` | peripherals/gpio.c:253-280 | Samples one input; refuses pins not in input mode |
| `Gpio.GpioDriver.PinDigits` | peripherals/gpio.c:130-280 | Which digits of which register belong to a pin, in plain arithmetic |
| `Gpio.GpioDriver.LineDigits` | peripherals/gpio.c:282-421 | Which digits of which register belong to a line |
| `Gpio.GpioDriver.InitInterrupt` | peripherals/gpio.c:282-344 | Routes, unmasks, selects exactly the requested edges, installs the handler and enables the line's vector; busy exactly if another port holds the line unmasked |
| `Gpio.GpioDriver.DeinitInterrupt` | peripherals/gpio.c:346-368 | Masks the line, clears its edges, owner and handler, and disables its vector, also for the lines that share it |
| `Gpio.GpioDriver.ClearPending` | peripherals/gpio.c:537-557 | Setting a line's bit in the pending register by read and write-back clears the pending bits of all lines |
| `Gpio.GpioDriver.GetInterruptTrigger` | peripherals/gpio.c:370-421 | Reports the armed edges only of an unmasked line routed to the pin's own port |
| `TimerRegisters.ClaimShows` | peripherals/timer.c:466-488 | Claiming a channel sets exactly its enable, polarity, mode and preload bits and its compare value; the other three channels' bits and values stay |
| `TimerRegisters.ReleaseShows` | peripherals/timer.c:510-516 | Releasing clears exactly those bits and leaves the other channels alone |
| `TimerRegisters.RegistersDetermined` | peripherals/timer.c:466-488 | Nothing in the packed registers depends on how an allocation was reached |
| `TimerRegisters.RegisterNumbers` | peripherals/timer.c:466-488 | A claimed channel's mode byte is 0x68 and its enable digit 1, or 3 if active low, a free one's are zero; control is 0x80, or 0x81 while counting; the compare register is (arr + 1)·duty/1000 |
| `Timer.ChannelOfIsInverse` | peripherals/timer.c:46-59 | The pin map is one-to-one |
| `Timer.LookupPin` | peripherals/timer.c:578-601 | The nested search finds the channel of a pin, or reports that none is mapped |
| `Timer.TimerInstance.Init` | peripherals/timer.c:189-241 | Range, busy, clock and reachability checks in order; then the time base, a stopped counter at zero and four free channels; a refusal changes no register |
| `Timer.TimerInstance.Deinit` | peripherals/timer.c:243-279 | Releases every claimed channel with its pin and leaves the timer off at reset values |
| `Timer.TimerInstance.SetRunning` | peripherals/timer.c:281-313 | Changes the counter-enable bit only |
| `Timer.TimerInstance.GetFrequency` | peripherals/timer.c:315-347 | Reports the frequency of the time base in the registers |
| `Timer.TimerInstance.SetFrequency` | peripherals/timer.c:349-405 | Recomputes every claimed channel's compare value from its remembered duty; a running counter and its status are left alone, and only a stopped one is updated by force |
| `Timer.TimerInstance.ChannelInit` | peripherals/timer.c:407-496 | Claims a channel only from a free channel and an analog pin; packed registers, arrays and pin together show the claim |
| `Timer.TimerInstance.ChannelDeinit` | peripherals/timer.c:498-524 | Frees the channel and leaves its pin an input |
| `Timer.TimerInstance.SetDuty` | peripherals/timer.c:526-554 | Changes one channel's duty and compare value; a running counter is not restarted |
| `Timer.TimerInstance.GetDuty` | peripherals/timer.c:556-576 | Reports the remembered request, not the rounded compare value |
| `TimerDriver.TimerDriver.Do` | peripherals/timer.c:189-576 | Every call on any instance does what its meaning on that timer says, and leaves the other timers alone; a refusal changes nothing |
| `TimerRuns.StateIsAsAsked` | peripherals/timer.c:189-554 | After every run of calls, each timer's state is a function of the last accepted requests alone: time base, counter, duties, polarities |
| `TimerRuns.CompareRegisterIsExact` | peripherals/timer.c:385-398 | After every run at 170 MHz a claimed channel's compare register is the current period times the last requested duty, rounded down once, and fits 16 bits; a free channel's is 0 |
| `TimerRuns.OnlyLastRequestsMatter` | peripherals/timer.c:63-67 | Two runs that end with the same accepted requests leave the same registers, so retunes never accumulate error |
| `TimerRuns.ChannelsAreIndependent` | peripherals/timer.c:407-554 | An operation on one channel leaves every other channel's duty, compare value, enable, polarity and mode bits as they were |
| `PwmController.ReadUint16Le` | src/pwm_controller.c:50-58 | Shift-and-or of two bytes is the little-endian number |
| `PwmController.ReadUint32Le` | src/pwm_controller.c:38-48 | Shift-and-or of four bytes is the little-endian number |
| `PwmController.PwmController.ResolveChannel` | src/pwm_controller.c:65-92 | Range errors before the pin map; the mapped channel otherwise |
| `PwmController.PwmController.GroupCfg` | src/pwm_controller.c:94-139 | Sets the group up and starts it; the start cannot fail after the set-up |
| `PwmController.PwmController.GroupRelease` | src/pwm_controller.c:141-166 | Tears the group down with its channels and pins |
| `PwmController.PwmController.ChannelCfg` | src/pwm_controller.c:168-211 | Claims a pin at duty 0 |
| `PwmController.PwmController.ChannelSet` | src/pwm_controller.c:213-245 | Sets the duty of a claimed pin |
| `PwmController.PwmController.ChannelRelease` | src/pwm_controller.c:247-277 | Releases a claimed pin |
| `PwmController.PwmController.ChannelGet` | src/pwm_controller.c:279-315 | Reads the duty of a claimed pin and changes nothing |
| `PwmController.PwmController.GroupGet` | src/pwm_controller.c:317-346 | Reads the achieved frequency of a group that is set up |
| `PwmController.PerformSetup` | src/pwm_controller.c:120-138 | A set-up that succeeds is always followed by a start that succeeds; one that fails leaves the state as it was |
| `PwmController.CommandsAreAtomic` | src/pwm_controller.c:94-346 | A command that is not acknowledged changes nothing, and no command leaves a configured group with its counter stopped |
| `PwmView.DutyStep` | src/pwm_controller.c:168-277 | Each acknowledged command changes the duty of exactly the pins it names, as the host's view of it says |
| `PwmView.FrequencyStep` | src/pwm_controller.c:94-166 | Each acknowledged command changes the time base of exactly the group it names |
| `PwmView.ModeStep` | src/pwm_controller.c:94-277 | Each acknowledged command changes the mode of exactly the pins it claims or releases and nothing else of the pins |
| `PwmView.FunctionStep` | peripherals/timer.c:446-464 | Each acknowledged command changes the alternate function of exactly the pins it claims or releases |
| `GpioController.GpioController.IoCfg` | src/gpio_controller.c:280-324 | Configures a valid pin as plain input or output, without asking who uses it |
| `GpioController.GpioController.Write` | src/gpio_controller.c:326-363 | Drives an output pin to the level on the wire |
| `GpioController.GpioController.Read` | src/gpio_controller.c:365-396 | Reads an input pin |
| `GpioController.GpioController.Toggle` | src/gpio_controller.c:398-429 | Toggles an output pin and reports its new level |
| `GpioController.GpioController.IrqCfg` | src/gpio_controller.c:79-145 | Arms or disarms a line and drops its binding; every driver refusal comes back as the plain error |
| `GpioController.GpioController.IrqBind` | src/gpio_controller.c:147-237 | Binds only an input pin armed for exactly the requested edge to an output pin, and never over a binding |
| `GpioController.GpioController.IrqUnbind` | src/gpio_controller.c:239-278 | Drops the binding of its own input pin and leaves the line armed |
| `GpioController.GpioController.Dispatch` | src/gpio_irq_bindings.c:8-32 | Performs the bound action on the bound output, if there is a binding and the pin is an output |
| `GpioController.OnlyFirstIsServed` | peripherals/gpio.c:537-579 | The handlers' loops run one line's handler at most, that of the first pending line, and forget every other pending edge |
| `GpioController.GpioController.Interrupt` | peripherals/gpio.c:448-579 | A vector's handler serves each of its lines in turn: pending test, clear, installed handler |
| `CommandDispatcher.FindCommand` | src/command_dispatcher.c:169-180 | Finds the one row of an opcode, or reports that there is none |
| `CommandDispatcher.StoreLe` | src/command_dispatcher.c:182-188 | Shifting out bytes stores the little-endian digits of the value |
| `CommandDispatcher.ReplyNack` | src/command_dispatcher.c:193-200 | A refusal carries exactly one byte, the reason |
| `CommandDispatcher.Dispatcher.Dispatch` | src/command_dispatcher.c:202-249 | Every frame gets a populated reply: the value at the opcode's width, or the reason; the state is the command's, and after a refusal no register and no array of any driver has changed |
| `CommandDispatcher.Dispatcher.TakeResetRequest` | src/command_dispatcher.c:251-258 | Hands the reset request over once |
| `CommandDispatcher.RefusedChangesNothing` | src/command_dispatcher.c:202-238 | For every opcode, known or not, a refused command leaves the whole machine as it was |
| `CommandDispatcher.ValuesFit` | src/command_dispatcher.c:147-164 | Every value a command reads fits the width the table gives its reply |
| `CommandDispatcher.ReplyDecodes` | src/command_dispatcher.c:240-248 | The host decodes the reply to any command to its outcome: the value whole on a read, nothing on an action, the non-zero reason otherwise |
| `MachineRuns.PinsAsAcknowledged` | src/pwm_controller.c:94-277 | After every run of commands and interrupts, each pin's mode and duty are a function of the acknowledged commands |
| `MachineRuns.GroupsAsAcknowledged` | src/pwm_controller.c:94-166 | After every run each group's time base and counter are a function of the acknowledged commands |
| `MachineRuns.LinesAsAcknowledged` | src/gpio_controller.c:79-278 | After every run each interrupt line and its binding are a function of the acknowledged commands |
| `MachineRuns.VectorsAsAcknowledged` | peripherals/gpio.c:90-104 | After every run a vector, 0 to 4 for the line of that number, 5 for lines 5 to 9 and 6 for 10 to 15, is enabled if and only if the last acknowledged GPIO_IRQ_CFG on any of its lines armed one |
| `MachineProperties.DutyReadBack` | src/pwm_controller.c:279-315 | Reading a duty gives the last one acknowledged since the claim, 0 if none, and fails exactly on pins not claimed |
| `MachineProperties.FrequencyReadBack` | src/pwm_controller.c:317-346 | A group's counter runs exactly while it is set up, and its frequency reads back within one part in 170 above the one acknowledged |
| `MachineProperties.SetupAnswer` | src/pwm_controller.c:94-139 | At 170 MHz a set-up fails only for a malformed request, a frequency out of range, or a group already set up |
| `MachineProperties.RefusedSetupLeavesGroup` | peripherals/timer.c:196-204 | After a refusal other than busy the group is nevertheless running, exactly if it was set up and the request out of range (mcu-co_Protocol.md says every such refusal leaves it off) |
| `MachineProperties.OutOfRangeLeavesGroupOn` | mcu-co_Protocol.md:405-408 | The run: group 0 set up at 1 kHz, then asked for 0 Hz, refused as out of range and still running |
| `MachineProperties.ClaimAcceptedIff` | peripherals/timer.c:441-444 | A claim succeeds if and only if the pin is mapped, its group set up, and no acknowledged command has configured or claimed the pin since reset |
| `MachineProperties.ReleasedPinIsNotReclaimed` | peripherals/gpio.c:164-188 | A pin just released is refused to the next claim, because releasing leaves it an input |
| `MachineProperties.ReclaimingFails` | mcu-co_Protocol.md:400-403 | The documented recipe, release and claim again, refused on a concrete run from boot |
| `MachineProperties.ClaimedPinIsRouted` | peripherals/gpio.c:130-162 | A claimed pin is still routed to its timer if and only if no GPIO_CFG was acknowledged for it since the claim |
| `MachineProperties.ClaimedPinIsOnItsTimer` | peripherals/timer.c:46-59 | After every run a claimed pin has alternate function 1 if its group is 0, and 2 if it is 1 or 2 |
| `MachineProperties.ConfiguringIgnoresClaims` | src/gpio_controller.c:280-324 | GPIO_CFG succeeds on every valid pin, claimed or not, and leaves the channel's state as it is |
| `MachineProperties.ConfiguringTakesClaimedPin` | mcu-co_Protocol.md:452-453 | The run: group 0 set up, PA5 claimed, PA5 configured as an output, all acknowledged; the pin has left its timer and its duty remains |
| `MachineProperties.BindingsAreLive` | src/gpio_irq_bindings.c:8-32 | In every reachable state an active binding's line is unmasked, routed to its own input pin, runs its own dispatch entry, and is armed for exactly the edge bound; its vector is enabled exactly as the acknowledged commands to all lines of the vector say |
| `MachineProperties.ArmAcceptedIff` | src/gpio_controller.c:136-140 | Arming succeeds if and only if the line is idle or the same port's; the refusal is the plain error, not the busy of mcu-co_Protocol.md |
| `MachineProperties.ArmingHeldLineIsPlainError` | mcu-co_Protocol.md:584-590 | The run: PA5 armed after boot, then PB5 refused with the plain error code, where the protocol's example shows busy |
| `MachineProperties.DisarmingIgnoresOwner` | peripherals/gpio.c:346-368 | Disarming succeeds on every valid pin, whichever port armed the line |
| `MachineProperties.BindAcceptedIff` | src/gpio_controller.c:147-237 | A bind succeeds if and only if both pins are set up for it, the line was last armed from that very pin for that very edge, and nothing is bound to it |
| `MachineProperties.FiringEffect` | peripherals/gpio.c:448-579 | An interrupt does exactly what the last acknowledged bind of the first pending line asks, to that output pin alone, only in output mode and only while the vector is live, and all other pending edges are lost; otherwise nothing |
| `MachineProperties.LonePendingLineIsServed` | peripherals/gpio.c:448-579 | For each of the sixteen lines: while the vector that serves it is live and nothing else is pending, that vector's interrupt performs the action last acknowledged for the line |
| `MachineProperties.LoneVectorFollowsItsLine` | peripherals/gpio.c:90-104 | Lines 0 to 4 have live vectors exactly while they are armed |
| `SharedVectors.PendingNeighbourLosesEdge` | peripherals/gpio.c:537-557 | The run: PA5 and PA6 armed and PA6 bound; an edge on PA6 alone drives the output, edges on both leave it as it was with nothing pending |
| `SharedVectors.DisarmingSilencesNeighbour` | peripherals/gpio.c:346-368 | The run: disarming PA5 leaves PA6 armed and bound, and edges on PA6 do nothing any more |
| `Boot.PowerUp` | src/main.c:17-64 | From hardware reset to the loop: every pin analog but the debug port's and the serial links', every line idle, every vector off, every timer off, parser waiting; the machine stands for a reference device that has just started |
| `Boot.BootsFresh` | peripherals/uart.c:158-198 | The logger's PA9 and the link's PA2 and PA3 are on alternate function 7 with fast edges, every other usable pin is analog, and nothing is claimed, armed or bound |
| `Boot.ClaimPort` | peripherals/uart.c:63-76 | A port is refused, with nothing touched, exactly if one of its two pins is in use; otherwise the pins it needs are claimed |
| `Boot.ClaimSerialPin` | peripherals/uart.c:158-198 | A serial pin is put in its alternate function |
| `MainLoop.IsFrameIntact` | src/main.c:70-88 | Serialising and comparing decides whether the frame carries its own checksum; the serialiser cannot fail here |
| `MainLoop.SendReply` | src/main.c:104-124 | The bytes sent are the reply with its checksum over everything behind the start byte; neither step can fail |
| `MainLoop.Answer` | src/main.c:94-136 | One dispatch, one reply, and the reset request taken only after the reply |
| `MainLoop.Device.ProcessByte` | src/main.c:63-137 | One received byte moves frame, machine, reply and reset exactly as the specification of a byte says |
| `MainLoop.StreamIsServedFrameByFrame` | src/main.c:61-147 | Byte by byte, the loop obeys exactly the intact frames of the stream's segmentation, in order |
| `MainLoop.OneReplyPerIntactFrame` | src/main.c:66-135 | Exactly one reply, of at most nine bytes, per frame with a right checksum; none for anything else |
| `MainLoop.CommandIsObeyed` | src/main.c:66-137 | A built command fed to an idle device is obeyed once and answered with its outcome |
| `MainLoop.DamagedFrameIsIgnored` | src/main.c:83-88 | A frame with one to three bits flipped in opcode, payload or checksum gets no reply and changes nothing |
| `MainLoop.BurstDamagedFrameIsIgnored` | src/main.c:83-88 | Nor does one damaged by a burst of at most fourteen consecutive bits of the serial line, in opcode, payload or checksum |
| `LinkPins.SerialPinStep` | src/gpio_controller.c:280-324 | Of all commands only an accepted GPIO_CFG naming it changes whether a serial pin is routed |
| `LinkPins.SerialPinIsRouted` | peripherals/uart.c:158-198 | After every run a serial pin is routed to its port if and only if no GPIO_CFG naming it was acknowledged since reset |
| `LinkPins.ConfiguringCutsTheLink` | src/gpio_controller.c:280-324 | On a booted device GPIO_CFG of PA2 is acknowledged and cuts what the device sends, that of PA3 what it hears |
| `Exchange.ActKeepsInv` | src/main.c:61-147 | Every step of host, wire, queue, main loop or interrupts keeps every byte of the command under way accounted for |
| `Exchange.EveryCommandAnswered` | src/command_transport.c:5-10 | In every interleaving and whatever the host sends the 127-byte queue never refuses a byte, commands are obeyed once each in order, at most the last not yet, the k-th decoded reply is the outcome of the k-th command, and a host that is not waiting has them all |
| `Exchange.AnsweredIff` | src/main.c:61-147 | From every reachable state the host can get all its answers if and only if none of its commands is an accepted GPIO_CFG of PA2 and none but the last one of PA3 |
| `Exchange.UsefulStep` | src/main.c:61-147 | A waiting host whose commands leave the link alone is never stuck: some step moves a byte or a reply and leaves less to do |
| `Exchange.CuttingHostWaitsForEver` | src/gpio_controller.c:280-324 | The run: a host that first makes PA2 an output waits for ever, whatever happens |
| `ExchangeAccesses.TakeRefinesAct` | peripherals/uart.c:200-215 | Every single access of the shared ring, by interrupt or main loop, is a step of the exchange or one it cannot see |
| `ExchangeAccesses.EveryCommandAnsweredOverSharedRing` | src/command_transport.c:5-10 | With the 128-byte ring shared access by access no byte ever finds it full, and every command is obeyed once, in order, and answered by its own outcome |
| `GpioOrders.ConfigureGives` | mcu-co_Protocol.md:192-206 | Configuring a pin answers and acts as the reference device says: any pin but the debug port's becomes a plain input or output |
| `GpioOrders.SetGives` | mcu-co_Protocol.md:208-219 | Driving a pin: high drives it high, low low, and only an output |
| `GpioOrders.GetGives` | mcu-co_Protocol.md:221-234 | Reading a pin: the level sampled, 1 for high, and only from an input |
| `GpioOrders.ToggleGives` | mcu-co_Protocol.md:345-365 | Toggling a pin: the reply is the level after the change |
| `GpioOrders.ArmGives` | mcu-co_Protocol.md:236-276 | Arming and disarming: the edges asked for, one port a line, the binding gone, the line's vector on or off |
| `GpioOrders.BindGives` | mcu-co_Protocol.md:278-325 | Binding: the input pin first, the output last, exactly the armed edge, and never over a binding |
| `GpioOrders.UnbindGives` | mcu-co_Protocol.md:327-343 | Unbinding: only for the pin that was bound, and the line stays armed |
| `PwmOrders.SetUpGives` | mcu-co_Protocol.md:392-421 | Setting a group up: 1 Hz to 1 MHz, lowest byte of the frequency first, the group last, busy if it is set up |
| `PwmOrders.TearDownGives` | mcu-co_Protocol.md:423-444 | Releasing a group: each of its claimed pins is handed back, the others stay |
| `PwmOrders.ClaimGives` | mcu-co_Protocol.md:446-471 | Claiming a pin: wired as the table of groups says, alternate function 1 or 2, fast edges, duty 0, the polarity asked for |
| `PwmOrders.SetDutyGives` | mcu-co_Protocol.md:473-500 | Setting a duty: lowest byte first, at most 1000, the polarity kept |
| `PwmOrders.ReleaseGives` | mcu-co_Protocol.md:502-520 | Releasing a pin: the channel freed, the pin an input, its alternate function cleared |
| `PwmOrders.ReadDutyGives` | mcu-co_Protocol.md:522-538 | Reading a duty: the last one set |
| `PwmOrders.ReadFrequencyGives` | mcu-co_Protocol.md:540-563 | Reading a frequency: at most one part in 170 above the one asked for |
| `HostSessions.VectorTaken` | peripherals/gpio.c:448-579 | An interrupt does to the machine what it does to the reference device |
| `HostSessions.OrderIsAnswered` | tools/mcu-co-cli/mcuco/client.py:105-190 | Every order, as the bytes the client sends: one reply, which decodes to the reference device's answer, and a state that stands for its state; a reset starts over |
| `HostSessions.SessionsAgree` | src/main.c:61-147 | Refinement over every session of orders, edges, interrupts and inputs: all replies decode to the reference device's answers, and the state goes on standing for it |
| `HostSessions.ClientArgumentsAreValid` | tools/mcu-co-cli/mcuco/client.py:27-75 | What the client lets through is never refused as an invalid argument |
| `RoundTrips.DutyRoundTrip` | src/pwm_controller.c:50-58 | On a claimed pin every duty up to 1000 is accepted and read back as it was sent |
| `RoundTrips.FrequencyRoundTrip` | src/pwm_controller.c:38-48 | On a group that is off every frequency from 1 Hz to 1 MHz is accepted and read back within one part in 170 above |
| `RoundTrips.ResetReboots` | src/command_dispatcher.c:100-112 | A reset request is acknowledged once and leaves the device as it boots, whatever its state |
| `RoundTrips.OnlyResetReboots` | src/command_dispatcher.c:100-112 | No other opcode or payload asks for a reset |
| `RoundTrips.MalformedIsRefused` | mcu-co_Protocol.md:69-80 | Unknown opcodes are unsupported; wrong lengths and undefined qualifiers are invalid arguments, unless the pin named does not exist; nothing changes |
| `RoundTrips.WellFormedIsAnOrder` | tools/mcu-co-cli/mcuco/client.py:105-190 | Every other payload is the encoding of an order, so orders and refusals cover everything |
| `Transcripts.ProbeExchange` | mcu-co_Protocol.md:159-160 | The printed exchange, byte for byte, in every state: A5 10 00 7C 1E is answered A5 05 01 4D 43 55 4F C6 BC |
| `Transcripts.ResetExchange` | mcu-co_Protocol.md:188-189 | A5 11 00 4D 2D is answered A5 01 01 1F 3E, and the device is as it boots |
| `Transcripts.SetDutyExchange` | mcu-co_Protocol.md:493-497 | A5 42 04 FA 00 00 05 05 C1 on a claimed PA5 is acknowledged and puts it at 25.0 % |
| `Transcripts.SetUpGroupExchange` | mcu-co_Protocol.md:417-421 | A5 40 05 E8 03 00 00 00 DE CD is acknowledged, or answered A5 02 00 06 3A C2 on a group set up already |
| `Transcripts.ReadGroupExchange` | mcu-co_Protocol.md:554-555 | A5 45 01 00 F0 09 on a group tuned to 1 kHz is answered A5 05 01 E8 03 00 00 39 BF |

## Left out

- Clock bring-up, flash and power sequencing, SysTick and delays (`peripherals/rcc.c`): hardware waits. The timer clock is a parameter, 0 or 170 MHz in the firmware; statements about achieved frequencies take 170 MHz.
- UART registers, baud rates, transmit polling and the logger: plumbing. The serial pins they take at boot are modelled.
- Gpio.GpioDriver.InitInterrupt: the interrupt priority and the test of its range, since the one caller passes a constant. Vector enables are modelled.
- GpioController.GpioController.Interrupt: an edge that arrives while a handler runs, as each interrupt is one step, and how the processor orders vectors: any enabled vector may be taken at any time, with any lines pending. Bits of EXTI_PR1 are taken to be cleared by writing a one, as the hardware defines them.
- Timer.TimerInstance.SetFrequency: shadow registers. The registers are the preload values software reads and writes; when they are loaded is not modelled, only that a forced update (`peripherals/timer.c:180-187`) happens on a stopped counter alone, so a running one is never restarted.
- Reading a pin's input depends on the outside world: input levels are a parameter that may change at any time.
- NULL arguments, which the model's types rule out, and status names for the log.
- The rollback in `src/pwm_controller.c:131-136` after a failed start, and the one in `peripherals/timer.c:460-464`: proved unreachable, so the model has an assertion or nothing in their place.
- A call's failure to enable a peripheral clock (`peripherals/timer.c:221-224`, `peripherals/gpio.c:142-145`): it cannot fail for the peripherals used.
- MachineProperties.ClaimAcceptedIff: the mode register is taken to read true on a port whose clock no command has enabled yet (`peripherals/timer.c:441` reads it before any such enable).
- MachineProperties.BindAcceptedIff: the same assumption, for the reads of both pins' modes in `src/gpio_controller.c:198`.
- Boot.PowerUp: failures of clock, tick and serial port bring-up, which end in an endless loop. The pins-in-use tests are modelled and shown to pass.
- MainLoop.SendReply: a transmit time-out, which the loop only logs: the command stays obeyed and the host sees no or part of a reply.
- The C memory model, and tearing of a binding between the main loop and an interrupt: each command and each interrupt is one step. The ring buffer alone is split into its memory accesses.
- Overwriting writes and `ring_buffer_flush` in the concurrent model: both write the other side's index, and neither is used between the interrupt and the main loop.
- Exchange.EveryCommandAnswered: while its two pins are routed the wire neither loses nor damages bytes, and a host does not send while the device is rebooting. A pin counts as routed while in alternate-function mode, as no command changes the function's number of a serial pin without leaving that mode. Damaged frames are covered by MainLoop.DamagedFrameIsIgnored and MainLoop.BurstDamagedFrameIsIgnored.
- ExchangeAccesses.EveryCommandAnsweredOverSharedRing: the main loop's work on one byte is one step, and the receive interrupt is over before the next byte is complete.
- HostSessions.SessionsAgree: orders reach the loop whole and one at a time, whatever has become of the link's pins. What a cut link does to a host is Exchange.AnsweredIff; damaged and interleaved bytes are in MainLoop and Exchange.
- Boot.BootsFresh: speed, pull and level of the debug port's pins, which no command can touch.
- MainLoop.DamagedFrameIsIgnored: flips in the start byte or the length byte move the frame boundary and are outside the statement, as they are outside the checksum's guarantee.
- Command-line front end, serial port discovery and timeouts of the host tools: argument parsing and I/O.
- PWM start and stop are calls of the timer driver only, as the protocol has no command for them.

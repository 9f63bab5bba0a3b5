# Verification of the DIY PS3 controller firmware

The firmware turns a PS/2 mouse and keyboard into a USB joystick (`ps-2/`), and carries a USB stack with which a
second board imitates a Sixaxis controller (`tools/sixpair-emu/`). This project models the stateful core of both in
Dafny and proves what they keep over whole runs. Code that updates variables in place is a class whose methods are
proved against a function on values; the theorems are about that function and quantify over every input, every
fault and every interleaving of interrupts with the main loop.

| file | models |
|---|---|
| `Bits.dfy` | bytes, C's bitwise operators, the 11-bit serial frame |
| `Ring.dfy` | the ring buffer between clock interrupt and main loop |
| `Receiver.dfy`, `Wire.dfy` | the mouse clock interrupt and the byte sender; whole transmissions over a noisy wire |
| `Handshake.dfy` | the mouse start-up table, its retries, and the packet assembler that follows |
| `MouseDriver.dfy` | interrupt, ring and main loop together, in every interleaving |
| `Keyboard.dfy` | the scancode decoder and the lock-light handshake |
| `Joystick.dfy` | the report both drivers write |
| `GetDescriptor.dfy` | the joystick's descriptor lookup and segmented transfer |
| `Discard.dfy` | the plain and the unrolled stream discard of endpoints and pipes |
| `ControlRead.dfy` | the control read template, little- and big-endian |
| `HostControl.dfy`, `Enumeration.dfy` | the host's control requests and its enumeration machine |
| `DeviceState.dfy` | device requests interleaved with bus interrupts, statement by statement |
| `ConfigSearch.dfy` | searches in a configuration descriptor |
| `IdleReports.dfy` | the HID report sender and its idle rate |

Main results:

- **Serial line.** A byte sent over a line that may invert a bit of the first transmission and a bit of the resend,
  by a device that resends only when it hears the byte 0xFE, arrives exactly once *if and only if* one of four listed conditions holds (`Wire.DeliveredExactlyOnce`); with clean
  resends any sequence of bytes arrives exactly once and in order (`Wire.AllDelivered`). For arbitrary noise every
  byte ever queued was on the line as start bit, data, right parity and stop bit (`Wire.EveryByteJustified`), also
  when the main loop's sending cuts frames short (`MouseDriver.AcceptedBytesJustified`). End to end, movement packets sent as frames are dispatched unchanged if the main loop comes round once per frame
  (`MouseDriver.PacketsArrive`), wherever in between the interrupts strike.
- **Handshake.** The byte-by-byte filter equals a reading by attempts, on all inputs; it ends within 156 bytes, and a
  success means the whole table was matched and the whole transmit column sent since the last reset.
- **USB.** The unrolled discard equals the plain one if and only if the packets that serve its turns hold whole turns
  or the bytes run out; a successful host request moves exactly the right bytes, a failing one ends as its first failing wait does
  (`HostControl.FirstFailureDecides`), and every exit restores the pipe and the bus; a fault-free enumeration takes exactly 2108 working calls; an undisturbed SETUP packet is answered exactly
  once, unless a bus reset strikes it. The host's and the device's calls are modelled in steps of one statement, or of
  a few where interrupts can make no difference, with interrupts between any two steps; coarser steps are named under
  "Left out".
- **Reports.** At a fixed idle rate exactly the changed and the due reports go out, whatever the endpoint does
  (`IdleReports.SentAsExpected`).
- **Constants and tables.** What bits, bytes, delays and tables mean is stated once more in plain numbers, apart from
  the definitions that the methods share with their specifications: for example `Handshake.AnswersStartStreaming`,
  `Joystick.KeyTable`, `DeviceState.AnsweredRequests`, `Enumeration.FaultFreeStages` and `HostControl.HeaderFields`.

Some promises turn out not to hold as one would expect, and the project proves exactly when they do:

- A corrupted resend is not reported again. `Wire.CorruptResend` shows that it is then queued in corrupted form or
  blocks the receiver.
- The keyboard compares a masked pin (0 or 2) with a parity (0 or 1) and misses half of all single-bit errors
  (`Wire.KeyboardMissesHalf`; this reads `bit_is_set` as avr-libc's masking macro).
  `Wire.KeyboardDeliveredExactlyOnce` says when a byte arrives all the same.
- The unrolled discard stops short after a packet whose size is no multiple of eight (`Discard.FastIsNotPlain`);
  `Discard.FastIsPlain` says for which packet sizes it does not.
- A host request does not always give up in time: a device that reports a packet size of zero keeps an OUT data stage
  going with empty packets for as long as it is ready (`HostControl.EmptyPackets`). `HostControl.WaitsBounded` shows
  that this is the only exception.
- A VBUS dip leaves the host machine deaf to new devices. It stays so if and only if no later interrupt finds a
  disconnection or a failed connection raised, and the first that does brings it back
  (`Enumeration.StrandedUntilFreed`, `Enumeration.FreedHostReturns`); `Enumeration.DipStrands` says which interrupts
  do this, and `Enumeration.DipHappens` gives a run from power-up.
- The host's calls write its state without looking whether an interrupt has changed it. A detachment in the middle of
  a call is overwritten, kept, or followed by a second reset of the interface, depending on the statement it strikes
  (`Enumeration.DetachedCallEnds`); and a device attached in the middle of a call can be addressed with one bus reset
  only (`Enumeration.ResetLost`). `Enumeration.AlwaysOrderly` says what holds in every run, and from which runs an
  addressed device has seen both resets.
- A SETUP packet that arrives while an earlier request is being handled is never read: that request's handler clears
  it, or its end stalls it (`DeviceState.NeverRead`, with a run from the fresh device in `DeviceState.SetupSwallowed`).
  A packet is answered if and only if the loop is idle when it arrives and no bus reset strikes it
  (`DeviceState.AnsweredIfIdle`).
- During SetConfiguration(0) a device is for a moment configured without a configuration number, and at no other time
  (`DeviceState.AlwaysConsistent`, `DeviceState.WindowIsReal`).
- A device's disconnection survives the request it strikes if and only if the rest of that request does not write the
  state: an accepted SetConfiguration and a SetAddress whose status stage is over do
  (`DeviceState.DisconnectionSurvives`, `DeviceState.DisconnectionOverwritten`). So it is with a bus reset, a
  suspension and a new connection (`DeviceState.OtherStatesSurvive`).
- A search in a configuration descriptor whose chain is not well formed never ends once it comes to a descriptor of
  size 0, and runs on beyond the chain if a size exceeds the bytes left (`ConfigSearch.SearchTerminates`).
- A mouse movement of -256 counts leaves the stick at rest (`Joystick.AxisFollowsMovement`).
- An idle report that finds the endpoint busy is skipped for a whole further period
  (`IdleReports.SentAsExpected`).

## Model

| member | source | states |
|---|---|---|
| Ring.RingBuffer.constructor | ps-2/RingBuffer.c:30-42 | a fresh ring of the given size is empty |
| Ring.RingBuffer.AddElement | ps-2/RingBuffer.c:49-63 | the contents become the old contents with the byte offered at the end: appended if there is room, refused otherwise; the byte is returned either way |
| Ring.RingBuffer.GetElement | ps-2/RingBuffer.c:70-86 | the oldest byte leaves the ring; an empty ring yields 0 |
| Ring.RingBuffer.HasElement | ps-2/RingBuffer.c:93-96 | true exactly when the ring is not empty |
| Ring.ConsumedInOrder | ps-2/RingBuffer.c:49-96 | in every interleaving of adds and gets, consumed bytes followed by queued ones are exactly the accepted bytes in order, and the ring never overfills |
| Ring.PromiseKept | ps-2/MouseDriver.c:182-185 | after a positive HasElement, any number of interrupts later GetElement still returns the byte that was oldest |
| Receiver.MouseReceiver.constructor | ps-2/MouseDriver.c:133-142 | the receiver starts idle, without error and with an empty ring |
| Receiver.MouseReceiver.SendByte | ps-2/MouseDriver.c:741-816 | the levels driven are the frame of the byte (start, data LSB first, odd parity, released stop), and the receiver starts over |
| Bits.FrameBits | ps-2/MouseDriver.c:741-816 | a frame, bit by bit: a low start bit, the bits of the byte from the least significant on, a parity bit that makes the number of ones odd, a high stop bit |
| Receiver.MouseReceiver.AskForResend | ps-2/MouseDriver.c:852-857 | the first error of a run drives the frame of 0xFE onto the line and restarts the frame, later ones drive nothing and keep the position |
| Receiver.MouseReceiver.DataBit | ps-2/MouseDriver.c:843-847 | a data bit joins the bits collected |
| Receiver.MouseReceiver.ParityBit | ps-2/MouseDriver.c:850-859 | the parity bit is accepted if it makes the weight odd; else the position is kept or the frame of 0xFE driven |
| Receiver.MouseReceiver.StopBit | ps-2/MouseDriver.c:862-878 | a high stop bit queues the byte and ends the frame; a low one is an error, answered with 0xFE if it is the first |
| Receiver.MouseReceiver.ClockInterrupt | ps-2/MouseDriver.c:832-883 | one edge moves the receiver as the bit-list specification says, keeping bit number 1..11, buffer 0 at bit 1 and below 2^(n-2) at bit n; only an accepted stop bit queues a byte, only a first error drives the line, with 0xFE |
| Receiver.MouseReceiver.TimerInterrupt | ps-2/MouseDriver.c:927-937 | the timer counts down to 0 and raises the idle action exactly on the step from 1 to 0 |
| Wire.SecondAttempt | ps-2/MouseDriver.c:849-878 | a resend received in error state ends as its closed form says, for every fault and every number of idle edges |
| Wire.HeardFrame | ps-2/MouseDriver.c:741-816 | a device reading the eight bits after the start bit of a driven frame hears the byte that was sent |
| Wire.FirstAttempt | ps-2/MouseDriver.c:832-883 | a clean frame is queued at once; any single inverted bit leads to exactly one driven frame, which the device decodes and answers by starting over, since it does so on the byte 0xFE and on no other |
| Wire.DeliveredExactlyOnce | ps-2/MouseDriver.c:832-883 | for every byte and every fault of the first transmission and of the resend, with a device that resends only on hearing 0xFE: delivered exactly once and ready again if and only if one of them is clean, or the resend is wrong only in the stop bit, or only in the parity bit of an even byte, and an idle edge follows; exactly one request if the first was faulty |
| Wire.CorruptResend | ps-2/MouseDriver.c:849-857 | a resend with a wrong data bit queues a wrong byte if the weight is odd and leaves the receiver stuck in the frame if it is even |
| Wire.AllDelivered | ps-2/MouseDriver.c:832-883 | any sequence of bytes, each corrupted at most once, from a device that resends only on hearing 0xFE, arrives exactly once in order; the receiver ends ready, and has driven the frame of 0xFE once per fault |
| Wire.EveryByteJustified | ps-2/MouseDriver.c:832-883 | for every stream of levels, each queued byte stems from its own stretch: low start bit, its eight bits, rejected parity bits, a parity bit making the weight odd, low stop bits, a high stop bit; stretches are in order and disjoint |
| Wire.Account | ps-2/MouseDriver.c:832-883 | one edge keeps the account of how the history explains the queued bytes |
| Wire.KeyboardMissesHalf | ps-2/KeyboardDriver.c:547-556 | the mouse's parity test finds every inverted data or parity bit; the keyboard's has no false alarms and finds exactly the inverted data bits of odd bytes and the inverted parity bits of even ones |
| Wire.KeyboardFirst | ps-2/KeyboardDriver.c:533-580 | a first transmission to the keyboard driver ends in a request if the fault is one it notices, else in queueing whatever the data bits say |
| Wire.KeyboardSecond | ps-2/KeyboardDriver.c:533-580 | a resend is queued at once, or at the next idle edge if it is found wrong |
| Wire.KeyboardDeliveredExactlyOnce | ps-2/KeyboardDriver.c:533-580 | for every byte and every fault of the first transmission and of the resend: the exact condition under which a keyboard byte is delivered once and the receiver ready again; a request exactly if the first fault is noticed |
| Handshake.MouseFilter.constructor | ps-2/MouseDriver.c:144-160 | power-up enters the table at its second row with the default settings |
| Handshake.MouseFilter.EventFilter | ps-2/MouseDriver.c:240-291 | one byte acts on state, retry count, packet buffer, sent bytes and dispatched packets as the session function says |
| Handshake.MouseFilter.ResetState | ps-2/MouseDriver.c:576-580 | sends 0xFF and returns to the first row |
| Handshake.MouseFilter.MouseReset | ps-2/MouseDriver.c:544-562 | restores the defaults and resets, keeping retry count and half-read packet |
| Handshake.RankFalls | ps-2/MouseDriver.c:242-268 | each byte ends the handshake or strictly lowers 26*(5-retry) + (52-state)/2 |
| Handshake.RankRange | ps-2/MouseDriver.c:242-268 | during a handshake the rank is between 1 and 156 |
| Handshake.HandshakeEnds | ps-2/MouseDriver.c:242-268 | any bytes, as many as the rank, end a handshake |
| Handshake.HandshakeIsAttempts | ps-2/MouseDriver.c:240-268 | on every input the filter does what the reading by attempts says: attempts that match rows, separated by forgiven mismatches each answered by a reset, then success or failure, then the rest of the input |
| Handshake.HowItEnds | ps-2/MouseDriver.c:68-97 | success: the bytes since the last reset matched every row in order and the bytes sent since then are the transmit column; failure: all forgiven mismatches, at most five, were used up |
| Handshake.ColumnFrom | ps-2/MouseDriver.c:68-97 | from each row on the replies are the rest of the documented sequence: three resets, sample rates 200, 100, 80, device type, then resolution, scale, frequency, enable |
| Handshake.CooperativeMouse | ps-2/MouseDriver.c:68-97 | 26 matching bytes after a reset bring the filter to streaming, having sent exactly that column |
| Handshake.AnswersStartStreaming | ps-2/MouseDriver.c:68-97 | the bytes FA AA 00 four times, FA seven times, 03, FA six times bring a reset filter to streaming, and so with F4 for any FA |
| Handshake.MisfitResets | ps-2/MouseDriver.c:258-267 | every other byte resets the mouse with 0xFF, or the sixth time gives up |
| Handshake.ParseConserves | ps-2/MouseDriver.c:273-290 | greedy reading: every byte is dropped for lacking the header bit, in exactly one four-byte packet, or in the unfinished packet |
| Handshake.ParseUnique | ps-2/MouseDriver.c:273-290 | the greedy reading is the only one of its kind, so whole packets with the header bit are recovered unchanged and in order |
| Handshake.StreamIsParse | ps-2/MouseDriver.c:273-290 | the streaming filter dispatches exactly the packets of the greedy reading of its pending bytes and the input |
| Handshake.MarkIsBitThree | ps-2/MouseDriver.c:273 | the header test is that of bit 3 |
| Handshake.StreamedByte | ps-2/MouseDriver.c:273-290 | while streaming a byte without bit 3 changes nothing if no packet has begun; any other makes the retry count start over |
| MouseDriver.Driver.FilterOne | ps-2/MouseDriver.c:185 | the oldest byte is filtered; if the filter sends something the receiver starts over, else it is untouched |
| MouseDriver.Driver.EventTask | ps-2/MouseDriver.c:182-202 | one pass empties the ring into the filter in order and reports and clears the idle action |
| MouseDriver.OneRound | ps-2/MouseDriver.c:185 | a round takes and filters the oldest byte; if the filter answers it, even in the middle of a frame, the next whole frame is received, else the receiver goes on as it was |
| MouseDriver.FilterSeesAcceptedBytes | ps-2/MouseDriver.c:182-185 | in every interleaving of edges with taking a byte and with filtering it, the filter's session is that of the accepted bytes not still queued or held |
| MouseDriver.StreamingIsUndisturbed | ps-2/MouseDriver.c:270-290 | while streaming, reception depends on the line alone and not on when the main loop polls |
| MouseDriver.SeenAllIsSent | ps-2/MouseDriver.c:832-883 | the levels a device really clocks out, resends included, lead the receiver where the closed-loop model says |
| MouseDriver.NeverRefuses | ps-2/MouseDriver.c:182-185 | a main loop that takes a byte at least once per 11 edges never lets the ring overflow, whatever the levels and the session, and its last round empties it |
| MouseDriver.NeverRefusesIfEmptied | ps-2/MouseDriver.c:182-185 | nor does one that finds the ring empty at least once per 11 edges and place in the ring |
| MouseDriver.AcceptedBytesJustified | ps-2/MouseDriver.c:832-883 | in every interleaving, whatever the levels, with refused bytes and with sending in between, every byte that enters the ring was on the line as a frame of its own |
| MouseDriver.PacketsArrive | ps-2/MouseDriver.c:182-291 | end to end: packets sent as frames, each corrupted at most once, are dispatched unchanged and in order if the main loop comes round once per frame and once at the end |
| MouseDriver.UnrefusedPacketsArrive | ps-2/MouseDriver.c:182-291 | the same for any pace with which no byte is refused or left over |
| Keyboard.PackedValue | ps-2/EventAction.h:42-49 | the packed event is 0x1000 + 0x100 * trigger + value |
| Keyboard.PackedFaithful | ps-2/EventAction.h:42-49 | packed events are non-zero and determine the key event |
| Keyboard.KeyboardDriver.GetScancode | ps-2/KeyboardDriver.c:388-410 | one call consumes at most one byte and leaves flags 0..3 and the event that decoding that byte yields |
| Keyboard.DecodeInvertsPrint | ps-2/KeyboardDriver.c:388-410 | decoding the printed form of any key events returns exactly their packed events and ends with flags 0 |
| Keyboard.PrefixMeaning | ps-2/KeyboardDriver.c:395-406 | for any run of prefixes: extended if any 0xE0 came, released if a 0xF0 came after the last 0xE0 |
| Keyboard.DecodedEvents | ps-2/KeyboardDriver.c:388-410 | a code alone is 0x1000 + code, after 0xF0 0x1100, after 0xE0 0x1200, after both 0x1300 |
| Keyboard.KeyboardDriver.LightFilter | ps-2/KeyboardDriver.c:147-199 | one scancode acts on last byte, retry, lights, command and sent bytes as the lights function says; the M key asks for a mouse reset |
| Keyboard.AcknowledgedStep | ps-2/KeyboardDriver.c:181-199 | how one event changes whether the rest acknowledges an open request |
| Keyboard.LightsFrom | ps-2/KeyboardDriver.c:156-199 | from any sound state the lights end as the exclusive or of the old lights, the open request if acknowledged, and the later acknowledged requests |
| Keyboard.LightsAreAcknowledgedRequests | ps-2/KeyboardDriver.c:156-199 | in every run the lights stay in 0..7 and are the exclusive or of the commands of the requests that got an 0xFA before the next request and after at most four 0xFE |
| Keyboard.NakPeriod | ps-2/KeyboardDriver.c:188-199 | the n-th 0xFE in a row is answered according to n mod 130: four resends, two resets, 124 times nothing |
| Keyboard.LockKeys | ps-2/KeyboardDriver.c:156-187 | scroll lock, num lock and caps lock, once acknowledged, toggle bit 0, 1, 2 of the lights and no other; 0xED and the new lights are sent |
| Keyboard.OtherScancodes | ps-2/KeyboardDriver.c:147-199 | other scancodes, and an acknowledgement of anything but 0xED, change nothing |
| Keyboard.ResendRequests | ps-2/KeyboardDriver.c:188-199 | the first four 0xFE get the last byte again, the next two 0xFF |
| Joystick.JoystickReport.KeyEvent | ps-2/KeyboardDriver.c:207-379 | a key event acts on the report as its table entry says |
| Joystick.JoystickReport.EventDispatcher | ps-2/MouseDriver.c:356-429 | a mouse packet moves the right stick and updates R1, L1, right hat and shoulder buttons as the dispatch function says |
| Joystick.JoystickReport.IdleTimeout | ps-2/MouseDriver.c:187-198 | a timeout centres the right stick and the hat and releases R2 and L2 |
| Joystick.JoystickReport.PressDirection | ps-2/usb_joystick.c:317-321 | the hat nibble is replaced, all buttons stay |
| Joystick.JoystickReport.SendCodes | ps-2/usb_joystick.c:296-304 | the six bytes determine every field of the report |
| Joystick.AxisFollowsMovement | ps-2/MouseDriver.c:302-349 | the axis follows the nine-bit signed movement, except that -256 leaves it at rest, and an overflow moves it all the way |
| Joystick.HeaderBits | ps-2/MouseDriver.c:225-237 | buttons, signs and overflows are bits 0 to 2 and 4 to 7 of the header |
| Joystick.DeflectionMonotone | ps-2/MouseDriver.c:302-349 | larger movements never move the axis less, and every non-zero movement moves it off centre |
| Joystick.KeyChanges | ps-2/usb_joystick.c:307-331 | a key changes only its own button bit, the hat nibble, or its axis, which takes the key's position |
| Joystick.KeyTable | ps-2/KeyboardDriver.c:207-379 | what every key does, in the positions of the report: its button follows it, or the hat, or the left stick, or nothing happens |
| Joystick.MouseChanges | ps-2/MouseDriver.c:376-427 | a packet changes only R1, L1, right hat, R2, L2 and the right stick, and keeps the report coherent |
| Joystick.MouseSets | ps-2/MouseDriver.c:376-427 | the right stick follows the movement on both axes and the buttons are remembered; a turned wheel presses R2 or L2 and keeps the other, a still one releases both; the right hat follows a change of the middle button and is else kept |
| Joystick.RestChanges | ps-2/MouseDriver.c:187-198 | a timeout centres the right stick and the hat, releases R2 and L2, and changes nothing else |
| Joystick.AlwaysCoherent | ps-2/usb_joystick.c:262-337 | in every interleaving the hat is 0, 2, 4, 6 or 8 and R1, L1 equal the remembered mouse buttons |
| Joystick.ButtonIsKeyHeld | ps-2/KeyboardDriver.c:210-309 | a button with a key of its own is in the report exactly while that key is held, whatever happens in between |
| GetDescriptor.ControlEndpoint.Lookup | ps-2/usb_joystick.c:448-471 | the pointer walk finds the first entry matching both words, and stalls if and only if there is none |
| GetDescriptor.ControlEndpoint.Transfer | ps-2/usb_joystick.c:474-487 | the packets sent are the segments of the data, or as many of them as the host lets through |
| GetDescriptor.ControlEndpoint.Request | ps-2/usb_joystick.c:448-488 | lookup, length limit and transfer together |
| GetDescriptor.SegmentsCarry | ps-2/usb_joystick.c:474-487 | segments concatenate to the data, there are len/32 + 1, all of 32 bytes but the last, which is shorter |
| GetDescriptor.ReadBackSegments | ps-2/usb_joystick.c:474-487 | reading until the first short packet recovers the data from the segments |
| GetDescriptor.PatientHostReads | ps-2/usb_joystick.c:448-488 | stalled if and only if no entry matches; else a host that does not abort reads the first min(wLength, 255, length) bytes of the first matching entry, in packets of 32 |
| Discard.Endpoint.DiscardStream | tools/sixpair-emu/LUFA/Drivers/USB/LowLevel/Endpoint.c:136-209 | both builds do what their specification functions say, the jump into the first turn restructured as a loop before it; the length never underflows |
| Discard.Endpoint.Advance | tools/sixpair-emu/LUFA/Drivers/USB/LowLevel/Endpoint.c:187-200 | releasing the bank, asking the callback and waiting, in this order |
| Discard.NextPacketIs | tools/sixpair-emu/LUFA/Drivers/USB/LowLevel/Endpoint.c:187-200 | the bank is released first and the callback asked once; an abort ends with code 4 before any wait, a failed wait with its own code |
| Discard.PlainTakes | tools/sixpair-emu/LUFA/Drivers/USB/LowLevel/Endpoint.c:187-208 | a successful plain discard takes exactly as many bytes from bank and packets as asked |
| Discard.UnrolledTakes | tools/sixpair-emu/LUFA/Drivers/USB/LowLevel/Endpoint.c:156-183 | aligned turns equal the plain loop; a misaligned successful run takes too few bytes |
| Discard.UnrolledFails | tools/sixpair-emu/LUFA/Drivers/USB/LowLevel/Endpoint.c:156-183 | a failing unrolled run ends exactly as a plain run of at least that length |
| Discard.PlainFailsWhen | tools/sixpair-emu/LUFA/Drivers/USB/LowLevel/Endpoint.c:187-208 | the plain discard fails if and only if bank and packets before the first fault or abort hold fewer bytes than asked for |
| Discard.UnrolledFailsWhen | tools/sixpair-emu/LUFA/Drivers/USB/LowLevel/Endpoint.c:156-208 | the unrolled one fails if and only if those packets do not serve its turns, each at least one, or too few bytes are left after the last turn |
| Discard.AlignedWhen | tools/sixpair-emu/LUFA/Drivers/USB/LowLevel/Endpoint.c:156-183 | every turn finds its eight bytes if and only if the packets that serve turns hold whole turns |
| Discard.FastIsPlain | tools/sixpair-emu/LUFA/Drivers/USB/LowLevel/Endpoint.c:136-209 | endpoint, return code and number of callback calls agree if and only if the packets that serve the unrolled turns hold whole turns or the bytes run out: conditions on bank and packet sizes alone |
| Discard.FastIsPlainOnMultiplesOfEight | tools/sixpair-emu/LUFA/Drivers/USB/LowLevel/Pipe.c:133-208 | they agree for every length if all packets after the first have non-zero multiples of eight bytes |
| Discard.FastIsNotPlain | tools/sixpair-emu/LUFA/Drivers/USB/LowLevel/Endpoint.c:156-183 | a second packet of four bytes tells them apart |
| ControlRead.ReadControlStream | tools/sixpair-emu/LUFA/Drivers/USB/LowLevel/Template/Template_Endpoint_Control_R.c:1-35 | the k-th byte delivered lies k places from the start of the region, or from its end in the big-endian instance, and every other byte is as it was, on every exit; code and packets handed back as specified |
| ControlRead.TakePacket | tools/sixpair-emu/LUFA/Drivers/USB/LowLevel/Template/Template_Endpoint_Control_R.c:18-22 | one packet extends the filled part by the bytes still wanted |
| ControlRead.AwaitStatusStage | tools/sixpair-emu/LUFA/Drivers/USB/LowLevel/Template/Template_Endpoint_Control_R.c:28-34 | waits until the status stage may begin or the device is gone |
| ControlRead.SuccessIsComplete | tools/sixpair-emu/LUFA/Drivers/USB/LowLevel/Template/Template_Endpoint_Control_R.c:1-35 | NoError means that all bytes asked for were delivered |
| ControlRead.FilledBytes | tools/sixpair-emu/LUFA/Drivers/USB/LowLevel/Template/Template_Endpoint_Control_R.c:18-22 | where each byte of a filled region lies, and what is unchanged |
| ControlRead.PayloadEnds | tools/sixpair-emu/LUFA/Drivers/USB/LowLevel/Template/Template_Endpoint_Control_R.c:8-26 | what is delivered comes from the packets before the first SETUP or detachment, which decides how a short transfer ends |
| ControlRead.StatusStageBegins | tools/sixpair-emu/LUFA/Drivers/USB/LowLevel/Template/Template_Endpoint_Control_R.c:28-34 | the status stage begins when the endpoint is first ready, unless the device is gone before |
| ControlRead.PacketsHandedBack | tools/sixpair-emu/LUFA/Drivers/USB/LowLevel/Template/Template_Endpoint_Control_R.c:5-25 | packets are handed back until they hold the bytes awaited or no more come, and none beyond |
| ControlRead.SplitIndifferent | tools/sixpair-emu/LUFA/Drivers/USB/LowLevel/Endpoint.c:316-334 | how the host splits its data into packets does not matter |
| HostControl.ControlPipe.WaitForIOS | tools/sixpair-emu/LUFA/Drivers/USB/LowLevel/HostChapter9.c:155-177 | the polling loop returns success, the fault or a timeout after exactly the time the schedule implies, at most 1001 ms |
| HostControl.ControlPipe.ReceiveData | tools/sixpair-emu/LUFA/Drivers/USB/LowLevel/HostChapter9.c:74-95 | the IN data stage writes exactly the received bytes to the front of the buffer and takes its packets under the IN token |
| HostControl.ControlPipe.SendPacket | tools/sixpair-emu/LUFA/Drivers/USB/LowLevel/HostChapter9.c:117-126 | one OUT turn sends the next packet of the data |
| HostControl.ControlPipe.SendData | tools/sixpair-emu/LUFA/Drivers/USB/LowLevel/HostChapter9.c:110-132 | the OUT data stage sends the packets of its specification under the OUT token |
| HostControl.ControlPipe.Exchange | tools/sixpair-emu/LUFA/Drivers/USB/LowLevel/HostChapter9.c:49-142 | all stages in order, with an early exit at every failed wait |
| HostControl.ControlPipe.SendControlRequest | tools/sixpair-emu/LUFA/Drivers/USB/LowLevel/HostChapter9.c:39-153 | on every path the pipe is frozen and reset once and the bus as suspended as before; code, data, time and every packet with its token as specified |
| HostControl.ReceivedData | tools/sixpair-emu/LUFA/Drivers/USB/LowLevel/HostChapter9.c:74-95 | IN data is the concatenation of the packets before the first empty one, cut at the length |
| HostControl.EmittedData | tools/sixpair-emu/LUFA/Drivers/USB/LowLevel/HostChapter9.c:110-132 | OUT packets concatenate to the data, all full but the last, and none is empty unless the packet size is zero |
| HostControl.EmptyPackets | tools/sixpair-emu/LUFA/Drivers/USB/LowLevel/HostChapter9.c:115-127 | at packet size zero n successful waits send n empty packets and only a failing wait ends the stage |
| HostControl.RightBytes | tools/sixpair-emu/LUFA/Drivers/USB/LowLevel/HostChapter9.c:39-153 | a successful request with a buffer has moved exactly header[6] + 256 * header[7] bytes, or what the device had of them, in if header[0] is 128 or more and else out; the bus has carried the header, those packets and the empty packet of a status stage in the other direction, and nothing else |
| HostControl.NoBytes | tools/sixpair-emu/LUFA/Drivers/USB/LowLevel/HostChapter9.c:39-153 | without a buffer a successful request is its header and its status stage |
| HostControl.HeaderFields | tools/sixpair-emu/LUFA/Drivers/USB/LowLevel/HostChapter9.c:45-70 | the direction is bit 7 of the first byte, the length the last two bytes, low byte first |
| HostControl.WaitOutcome | tools/sixpair-emu/LUFA/Drivers/USB/LowLevel/HostChapter9.c:155-177 | code and time of a wait in plain numbers |
| HostControl.TakenData | tools/sixpair-emu/LUFA/Drivers/USB/LowLevel/HostChapter9.c:74-95 | however an IN data stage ends, its bytes are those of the packets taken, up to the length |
| HostControl.TakenPackets | tools/sixpair-emu/LUFA/Drivers/USB/LowLevel/HostChapter9.c:74-95 | and those are the first packets of the device |
| HostControl.FirstFailureDecides | tools/sixpair-emu/LUFA/Drivers/USB/LowLevel/HostChapter9.c:54-142 | a request ends with the code and at the time of its first failing wait, if any: it has one wait for the header, one for each packet and two more |
| HostControl.FailedBus | tools/sixpair-emu/LUFA/Drivers/USB/LowLevel/HostChapter9.c:54-142 | a failed request has put its header and packets on the bus, and an OUT status packet if and only if only the very last wait failed |
| HostControl.KeptBytes | tools/sixpair-emu/LUFA/Drivers/USB/LowLevel/HostChapter9.c:74-95 | on every exit the buffer has the bytes of the packets taken, up to the length |
| HostControl.EarlyFailures | tools/sixpair-emu/LUFA/Drivers/USB/LowLevel/HostChapter9.c:49-68 | a request whose pauses or header fail ends there, with that code |
| HostControl.RequestBound | tools/sixpair-emu/LUFA/Drivers/USB/LowLevel/HostChapter9.c:39-177 | a request waits at most 2 + 1001 * (wLength + 3) ms, unless it reaches an OUT data stage with packet size zero |
| HostControl.WaitsBounded | tools/sixpair-emu/LUFA/Drivers/USB/LowLevel/HostChapter9.c:39-177 | over all devices that bound holds if and only if the packet size is not zero, or there is no data to send, or a pause fails |
| Enumeration.HostMachine.ProcessNextHostState | tools/sixpair-emu/LUFA/Drivers/USB/LowLevel/Host.c:39-197 | one call that no interrupt strikes acts on the machine as the step function says |
| Enumeration.CallIsSteps | tools/sixpair-emu/LUFA/Drivers/USB/LowLevel/Host.c:39-197 | which is what the single statements of the call add up to |
| Enumeration.HostMachine.ResetBus | tools/sixpair-emu/LUFA/Drivers/USB/LowLevel/Host.c:244-278 | the ten-millisecond loop forgets a disconnection exactly if a frame is found in time |
| Enumeration.HostMachine.GeneralInterrupt | tools/sixpair-emu/LUFA/Drivers/USB/HighLevel/USBInterrupt.c:166-212 | the host part of the interrupt, source by source |
| Enumeration.InterruptSources | tools/sixpair-emu/LUFA/Drivers/USB/HighLevel/USBInterrupt.c:166-212 | the effect of each source alone, enabled and disabled, on state and flags |
| Enumeration.AlwaysOrderly | tools/sixpair-emu/LUFA/Drivers/USB/LowLevel/Host.c:39-197 | in every interleaving of the calls' statements with interrupts and faults a wait has milliseconds left, and a device is addressed, under address 1, only with two bus resets and an accepted SetAddress accounted for; it has seen them all itself if and only if the run has spared it |
| Enumeration.SparedLosesNothing | tools/sixpair-emu/LUFA/Drivers/USB/LowLevel/Host.c:39-197 | an attachment costs the device nothing if and only if it strikes no call that has already achieved something, or the machine is found in Powered afterwards |
| Enumeration.OrderlyFromPowerUp | tools/sixpair-emu/LUFA/Drivers/USB/LowLevel/Host.c:39-197 | all this holds from power-up on |
| Enumeration.ResetLost | tools/sixpair-emu/LUFA/Drivers/USB/LowLevel/Host.c:103-107 | a run from power-up in which a device attached during a bus reset is addressed with one reset |
| Enumeration.TaskKeeps | tools/sixpair-emu/LUFA/Drivers/USB/LowLevel/Host.c:47-196 | every statement keeps the invariant behind that |
| Enumeration.InterruptKeeps | tools/sixpair-emu/LUFA/Drivers/USB/HighLevel/USBInterrupt.c:166-212 | so does the interrupt, at any statement |
| Enumeration.FailingCallDetaches | tools/sixpair-emu/LUFA/Drivers/USB/LowLevel/Host.c:187-196 | a call that nothing interrupts ends Unattached if and only if it meets a fault its state asks about, and then resets the interface |
| Enumeration.FaultyCallEnds | tools/sixpair-emu/LUFA/Drivers/USB/LowLevel/Host.c:187-196 | a call that has met a fault ends Unattached, whatever interrupts strike the rest of it |
| Enumeration.DetachedCallEnds | tools/sixpair-emu/LUFA/Drivers/USB/LowLevel/Host.c:187-242 | a detachment in the middle of a call is kept, repeated with a reset of the interface, or overwritten, according to the statement it strikes; the host ends up stranded if and only if it is kept and the session interrupt was disabled |
| Enumeration.RankFalls | tools/sixpair-emu/LUFA/Drivers/USB/LowLevel/Host.c:47-185 | a fault-free call lowers the rank by exactly one, unless it polls for a connection in vain; its other statements keep it |
| Enumeration.EnumerationTakes | tools/sixpair-emu/LUFA/Drivers/USB/LowLevel/Host.c:47-185 | without faults the device is addressed exactly when as many working calls as the rank have been made |
| Enumeration.PoweredToAddressed | tools/sixpair-emu/LUFA/Drivers/USB/LowLevel/Host.c:64-184 | from Powered that is the 2108th working call |
| Enumeration.FaultFreeStages | tools/sixpair-emu/LUFA/Drivers/USB/LowLevel/Host.c:47-185 | what each fault-free call does: delays 1500, 100, 200, 200 and 100 ms, both resets, the pipe size the device reports, and where each leads |
| Enumeration.LateFlagsSurvive | tools/sixpair-emu/LUFA/Drivers/USB/LowLevel/Host.c:87-100 | what happens while the host begins to watch a device is forgotten if and only if it comes before the statement that clears it |
| Enumeration.DipStrands | tools/sixpair-emu/LUFA/Drivers/USB/HighLevel/USBInterrupt.c:178-201 | between calls an interrupt strands the host if and only if it finds a VBUS dip after the session has begun, and neither disconnection nor failed connection |
| Enumeration.DipHappens | tools/sixpair-emu/LUFA/Drivers/USB/HighLevel/USBInterrupt.c:178-189 | a run from power-up in which that happens |
| Enumeration.StrandedUntilFreed | tools/sixpair-emu/LUFA/Drivers/USB/HighLevel/USBInterrupt.c:166-212 | a stranded host stays so throughout a run, whatever is attached, if and only if no interrupt of it finds a disconnection or failed connection raised |
| Enumeration.FreedHostReturns | tools/sixpair-emu/LUFA/Drivers/USB/HighLevel/USBInterrupt.c:166-212 | an interrupt that does resets the interface, and the next attachment powers the device |
| DeviceState.UsbDevice.GeneralInterrupt | tools/sixpair-emu/LUFA/Drivers/USB/HighLevel/USBInterrupt.c:68-156 | the device part of the interrupt, source by source |
| DeviceState.ResumesAsConfigured | tools/sixpair-emu/LUFA/Drivers/USB/HighLevel/USBInterrupt.c:89-132 | a device that is suspended and, however often it has slept in between, wakes up without a reset or request ends Configured if it has a configuration number and else Addressed, with the same number and address |
| DeviceState.ResetsToDefault | tools/sixpair-emu/LUFA/Drivers/USB/HighLevel/USBInterrupt.c:134-156 | after a bus reset, whatever else is pending, the device is Default, without configuration and without a SETUP |
| DeviceState.FollowsVbus | tools/sixpair-emu/LUFA/Drivers/USB/HighLevel/USBInterrupt.c:72-86 | VBUS powers the device or detaches it and changes nothing else |
| DeviceState.DisabledSourcesWait | tools/sixpair-emu/LUFA/Drivers/USB/HighLevel/USBInterrupt.c:89-132 | disabled sources change nothing but their flag |
| DeviceState.PendingUntilServed | tools/sixpair-emu/LUFA/Drivers/USB/HighLevel/USBInterrupt.c:68-156 | a source is pending until the interrupt serves it if and only if it was so or has been raised |
| DeviceState.UsbDevice.SetAddress | tools/sixpair-emu/LUFA/Drivers/USB/LowLevel/DevChapter9.c:125-145 | accepts the request, takes the low seven bits as address, and is addressed if that is not 0 |
| DeviceState.UsbDevice.SetConfiguration | tools/sixpair-emu/LUFA/Drivers/USB/LowLevel/DevChapter9.c:147-205 | rejects numbers out of range untouched, else takes the number and becomes configured or addressed |
| DeviceState.AnsweredRequests | tools/sixpair-emu/LUFA/Drivers/USB/LowLevel/DevChapter9.c:57-116 | which requests the device answers, by number and request type, and when |
| DeviceState.TakesAddress | tools/sixpair-emu/LUFA/Drivers/USB/LowLevel/DevChapter9.c:125-145 | SET_ADDRESS takes value % 128 and keeps the configuration |
| DeviceState.TakesConfiguration | tools/sixpair-emu/LUFA/Drivers/USB/LowLevel/DevChapter9.c:147-205 | SET_CONFIGURATION rejects low bytes above 1, configures on 1 and unconfigures on 0 |
| DeviceState.StatusStageWaits | tools/sixpair-emu/LUFA/Drivers/USB/LowLevel/DevChapter9.c:129-202 | before the effect the loop waits for the status stage; a detached device then drops its address but not its configuration |
| DeviceState.UsbDevice.ProcessControlRequest | tools/sixpair-emu/LUFA/Drivers/USB/LowLevel/DevChapter9.c:49-123 | a whole request equals its single statements run to the end |
| DeviceState.AlwaysConsistent | tools/sixpair-emu/LUFA/Drivers/USB/LowLevel/DevChapter9.c:49-205 | under every interleaving exactly one of suspend and wake-up is enabled, and a configured device has number zero exactly between the two assignments of SetConfiguration(0) |
| DeviceState.InterruptKeeps | tools/sixpair-emu/LUFA/Drivers/USB/HighLevel/USBInterrupt.c:68-156 | the interrupt keeps the invariant behind that |
| DeviceState.TaskKeeps | tools/sixpair-emu/LUFA/Drivers/USB/LowLevel/DevChapter9.c:49-205 | so does every single statement of the control loop |
| DeviceState.AnsweredOnce | tools/sixpair-emu/LUFA/Drivers/USB/LowLevel/DevChapter9.c:49-123 | a SETUP found by an idle loop and not followed by another leaves none pending, under all interrupts; it is answered exactly once, accepted or stalled as its request deserves, if and only if no bus reset strikes it while pending |
| DeviceState.AnsweredIfIdle | tools/sixpair-emu/LUFA/Drivers/USB/LowLevel/DevChapter9.c:49-123 | the fate of every SETUP that no other overtakes: answered as it deserves if and only if the loop was idle when it arrived and no bus reset has struck it |
| DeviceState.NeverRead | tools/sixpair-emu/LUFA/Drivers/USB/LowLevel/DevChapter9.c:115-122 | SETUP packets that arrive during a request are not read and not pending at its end |
| DeviceState.SetupSwallowed | tools/sixpair-emu/LUFA/Drivers/USB/LowLevel/DevChapter9.c:196-204 | a run from the fresh device in which one is cleared unread |
| DeviceState.WindowIsReal | tools/sixpair-emu/LUFA/Drivers/USB/LowLevel/DevChapter9.c:198-202 | a run from the fresh device into that window |
| DeviceState.DisconnectionSurvives | tools/sixpair-emu/LUFA/Drivers/USB/LowLevel/DevChapter9.c:125-205 | a disconnection at any statement of a request survives the rest of it if and only if that does not write the state: SetConfiguration past its check does, and SetAddress with a non-zero address if the endpoint is found ready |
| DeviceState.DisconnectionOverwritten | tools/sixpair-emu/LUFA/Drivers/USB/LowLevel/DevChapter9.c:198-202 | a run from the fresh device in which a disconnection during the status stage of SetConfiguration is lost |
| DeviceState.OtherStatesSurvive | tools/sixpair-emu/LUFA/Drivers/USB/LowLevel/DevChapter9.c:125-205 | a reset, suspension or new connection that strikes a request survives it if and only if the rest of it does not write the state |
| ConfigSearch.Cursor.GetNextDescriptor | tools/sixpair-emu/LUFA/Drivers/USB/HighLevel/ConfigDescriptor.h:266-273 | adds the size to the location and takes it from the 16-bit count, which wraps; in a well-formed chain that is the next descriptor, and location plus bytes remaining is kept |
| ConfigSearch.TypeIsSecondByte | tools/sixpair-emu/LUFA/Drivers/USB/HighLevel/ConfigDescriptor.c:72-104 | the searches compare the second byte of a descriptor |
| ConfigSearch.Cursor.GetNextDescriptorOfType | tools/sixpair-emu/LUFA/Drivers/USB/HighLevel/ConfigDescriptor.c:72-83 | bytes remain if and only if a later descriptor of the type exists, and then the cursor is at the first one with the others ahead |
| ConfigSearch.Cursor.GetNextDescriptorOfTypeBefore | tools/sixpair-emu/LUFA/Drivers/USB/HighLevel/ConfigDescriptor.c:85-104 | bytes remain if and only if the wanted type comes before the other; otherwise the count is zeroed at the stopping descriptor |
| ConfigSearch.Cursor.GetNextDescriptorOfTypeAfter | tools/sixpair-emu/LUFA/Drivers/USB/HighLevel/ConfigDescriptor.c:106-115 | finds the first descriptor of the type among those after the first of the other type |
| ConfigSearch.Cursor.GetNextDescriptorComp | tools/sixpair-emu/LUFA/Drivers/USB/HighLevel/ConfigDescriptor.c:117-141 | the first visited location on which the comparator has an opinion decides, the end of the chain included; after Fail the next search starts with the failing descriptor |
| ConfigSearch.SearchTerminates | tools/sixpair-emu/LUFA/Drivers/USB/HighLevel/ConfigDescriptor.c:72-83 | in any memory a search for a type ends if it meets the type or uses up the count exactly, and never if a size of 0 comes first; a size above the bytes left leads beyond the chain with a count above 0xFF00, and the search ends just when it ends from there |
| ConfigSearch.WellFormedReturns | tools/sixpair-emu/LUFA/Drivers/USB/HighLevel/ConfigDescriptor.c:72-83 | in a well-formed chain it ends |
| IdleReports.HidSender.StartOfFrame | tools/sixpair-emu/sixaxis_pair_emu.c:462-467 | counts the idle time down to 0 |
| IdleReports.HidSender.SendNextReport | tools/sixpair-emu/sixaxis_pair_emu.c:490-527 | sends when the report changed or the idle period is over and the endpoint is ready; an elapsed period restarts in any case |
| IdleReports.HidSender.SetIdleRate | tools/sixpair-emu/sixaxis_pair_emu.c:431-442 | the rate becomes four times the high byte of the request's value |
| IdleReports.SavedIsLastSent | tools/sixpair-emu/sixaxis_pair_emu.c:490-527 | in every run the saved report is the last one written, or the initial one |
| IdleReports.ReadyRunCatchesUp | tools/sixpair-emu/sixaxis_pair_emu.c:499-526 | after every ready run the host has the current report; a differing one is sent there and then |
| IdleReports.SentAsExpected | tools/sixpair-emu/sixaxis_pair_emu.c:462-527 | at a fixed rate exactly those reports go out, in order, that find the endpoint ready and differ from the last one sent or end an idle period; the periods depend on the rate alone |
| IdleReports.OnlyChanges | tools/sixpair-emu/sixaxis_pair_emu.c:499-526 | at rate 0 exactly the changes go out |
| IdleReports.InRange | tools/sixpair-emu/sixaxis_pair_emu.c:502-506 | once a period has ended the time left never exceeds the rate |
| IdleReports.SendsWhenDue | tools/sixpair-emu/sixaxis_pair_emu.c:462-527 | a ready endpoint gets a report by the end of the present period |
| IdleReports.NeverSilent | tools/sixpair-emu/sixaxis_pair_emu.c:462-527 | once a period has ended, reports to a ready endpoint are at most IdleCount milliseconds apart, whatever went before |
| IdleReports.UnchangedReports | tools/sixpair-emu/sixaxis_pair_emu.c:502-526 | while nothing changes, as many go out as milliseconds end an idle period and find the endpoint ready; none at rate 0 |
| IdleReports.IdleRoundTrip | tools/sixpair-emu/sixaxis_pair_emu.c:431-455 | GetIdle returns the rate that SetIdle set, which changes nothing else |

## Left out

- Registers, pin directions, delays, PLL and clocks, LEDs, VBUS drivers: only their effect on the modelled state.
- Waits for hardware with no counter (clock edges while a byte is sent, bus reset, PLL lock): taken as completed.
- The polling loops of `Endpoint_WaitUntilReady` and `Pipe_WaitUntilReady`: reduced to their outcome, a packet or an error.
- Receiver.MouseReceiver.SendByte: the device's acknowledge bit is taken as given; the source waits for it without looking at anything else.
- The keyboard's copies of the clock interrupt and the byte sender as methods: the same code as the mouse's, but for the pin that the parity test compares, with which `Wire.dfy` treats the keyboard.
- The heartbeat counter of `KB_EventTask`: its lock requests are ordinary events of the lights.
- Joystick.JoystickReport.SendCodes: `usb_joystick_send` may give up when the USB is not ready; the model has the bytes, not the time of sending.
- The `FARCRY2` branches of the mouse dispatcher.
- Enumeration.HostMachine.ProcessNextHostState: the method is a call that no interrupt strikes; calls that are struck are those of `Enumeration.Task`, where a control request is its last look for a detachment and its result code (`HostControl.dfy` treats the request itself).
- MouseDriver.Driver.EventTask: the method is a pass that no interrupt strikes; passes that are struck are those of `MouseDriver.FilterSeesAcceptedBytes`.
- DeviceState.UsbDevice.ProcessControlRequest: the method is a request that no interrupt strikes, of a host that keeps up; others are those of `DeviceState.Task`. Data stages of accepted requests other than SetAddress and SetConfiguration are one step; endpoint halt bits, remote wake-up flag and self-power flag are not kept.
- DeviceState.UsbDevice.SetAddress: its waits, which end early on a detached device, are steps of `DeviceState.Task` and not of the method.
- The controllers without VBUS detection (`USB_SERIES_2_AVR`) and the combined host/device build.
- ConfigSearch.Cursor.GetNextDescriptorOfType: the methods are about well-formed chains, with any bytes after their end; chains of any kind are treated on values in `ConfigSearch.SearchTerminates`, in a memory without end.
- `USB_Host_GetDeviceConfigDescriptor`, the other stream templates, the fixed HID feature reports, pairing and EEPROM code.
- `tools/l2cap_proxy`, `tools/sixutils`, `tools/sixproxy`, the customizer, the scheduler and the board drivers.

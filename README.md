# PiLib GPIO core in Dafny

A model of the sequential core of Ereadian's PiLib, a Raspberry Pi library. It has four parts:

- **Pin-number translator** (`PinMapping`, `PinNumberMappingExtensions`, `Gpio`):
  - a fixed 3 × 28 table of the header pins under the Physical, WiringPi and BCM namings;
  - from it, one dense lookup list per ordered pair of distinct namings, built at construction;
  - a lookup with an identity shortcut, a bounds check and the `-1` sentinel;
  - the exception-raising wrapper `MapPinNumber`;
  - the `GetTargetPinNumber` hook of `GpioBase`, whose target defaults to WiringPi.
- **Remote GPIO wire protocol, both ends:**
  - The frames: `[1,pin,dir]`, `[2,pin,val]`, `[3,pin]` answered by one byte, `[4,pin,mode]`, and `[0]` at release (`WireProtocol`).
  - The two revisions of the client.
    - `RemoteBackend` models the newer `GpioBase` subclass. Its default naming is BCM.
    - `LegacyRemoteBackend` models the older stand-alone class. Its default naming is Physical and it translates pins itself.
    - Each operation translates the pin to WiringPi, sends the frame on a socket object and checks the byte counts.
  - The per-connection command loop of the PiConnector server (`PiConnector`).
    - It reads opcodes and operands from a finite byte stream, calls wiringPi and writes the reply of a pin read.
    - The session log records the hardware calls, the replies, the bytes consumed and why the session stopped.
    - `SessionRoundTrip` ties the two ends together. The End-terminated frames of any client requests make the server perform exactly the calls those requests mean, answer every pin read, and stop after the End frame.
- **SN74HC595 shift-register driver** (`ShiftRegister`):
  - The driver runs against a GPIO object that records every call.
  - `Send` is proved to produce the 26-write trace, most significant bit first.
  - A model of the chip itself shows that this trace leaves the byte in the chip's storage register.
- **Joystick event record** (`Joysticks`):
  - It decodes the 8-byte `struct js_event` described in section 2, "Event Reading", of the Linux kernel's joystick API document: a little-endian u32 time, an s16 value, a u8 type and a u8 number.
  - The flag table is loaded by the type constructor and the event type is accumulated by a loop.
  - Decoding and encoding are proved to round-trip.

The pin table is modelled exactly as written:

- The BCM row holds 12 in two columns, 8 and 21, and holds no 22.
- The lists are filled column by column, so the later column wins: BCM 12 translates to Physical 32, and BCM 22 translates to nothing.
- Round trips are therefore proved for every column of the Physical and WiringPi rows. From BCM they are proved only for columns whose value is unique in the row (`ColumnRoundTrip`).
- In general the translation does not round-trip for every pair of namings and every column.

Where the code is more specific than the design, the model follows the code:

- The wire naming is WiringPi.
- The pin byte is the low eight bits of the translated pin.
- The older client defaults to Physical naming rather than BCM.
- A pin read returns the received byte as it is, not a normalised Low/High.

Errors are values here. Each C# exception becomes a `Failure`/`Fail` carrying a `GpioError`, `ConfigurationError` or `DecodeError`. Each C error exit becomes a `StopReason`.

## Model

| member | source | states |
|---|---|---|
| GpioTypes.PinNaming.Index | Mono/PiHardware/GPIO/PinNaming.cs:13-23 | a naming's integer value is below 3, so it indexes a row of the table |
| GpioTypes.EnumByteValues | Mono/PiHardware/GPIO/ButtonMode.cs:13-23 | byte values of the enums: Input 0, Output 1, Low 0, High 1, Off 0, PudDown 1, PudUp 2, Physical 0, WiringPi 1, BCM 2 |
| GpioTypes.LowByte | Mono/PiHardware/GPIO/RemoteGpio.cs:78 | the unchecked byte cast of the wire pin (and the server's store of a level into its unsigned char buffer) is congruent to the value modulo 256, and equal to it when it fits in 0..255 |
| GpioTypes.BitsOfByte | Mono/PiHardware/Joysticks/JoystickEvent.cs:40 | reading a byte's bits as an unsigned number gives the byte back |
| PinMapping.MaxPinId | Mono/PiHardware/PinNumberMapping.cs:104-113 | the running maximum, seeded at 0, bounds every value of the row and is 0 or a value of the row |
| PinMapping.LastColumnOf | Mono/PiHardware/PinNumberMapping.cs:121-126 | finds the last column holding a value, with no later column holding it; -1 exactly when no column holds it |
| PinMapping.ExpectedMappingRead | Mono/PiHardware/PinNumberMapping.cs:86-92 | a bounds-checked read of a built list gives the target of the last column holding the pin, else -1 |
| PinMapping.CheckNamingCount | Mono/PiHardware/PinNumberMapping.cs:35-48 | construction passes exactly when the number of namings equals the number of table rows; otherwise the error names both counts |
| PinMapping.PinTableShape | Mono/PiHardware/PinNumberMapping.cs:21-26 | the shipped table passes that check: 3 namings, 3 rows of 28 non-negative pins |
| PinMapping.MappingEntryStep | Mono/PiHardware/PinNumberMapping.cs:121-126 | writing column i's target at its source value overwrites the entry for that value and keeps every other entry |
| PinMapping.MaxPinIdStep | Mono/PiHardware/PinNumberMapping.cs:106-113 | one step of the maximum scan keeps the larger of the running maximum and the next value |
| PinMapping.CreateMapping | Mono/PiHardware/PinNumberMapping.cs:102-129 | the list has length max+1; each entry is the target of the last column whose source is that index, else -1 |
| PinMapping.PinNumberMapping.constructor | Mono/PiHardware/PinNumberMapping.cs:33-61 | builds a list for every ordered pair of distinct namings and leaves the diagonal unbuilt |
| PinMapping.PinNumberMapping.TryGetPinNumber | Mono/PiHardware/PinNumberMapping.cs:71-93 | the lookup equals Translate: identity for equal namings, else the last matching column's target, else (false, -1) |
| PinMapping.OutOfBoundsNotFound | Mono/PiHardware/PinNumberMapping.cs:86-92 | a negative pin, or one above the row's maximum, gives (false, -1) |
| PinMapping.FoundIffInRow | Mono/PiHardware/PinNumberMapping.cs:83-92 | between distinct namings, a pin is found iff the source row holds it; when it is not found, the result is -1 |
| PinMapping.FoundIsInTargetRow | Mono/PiHardware/PinNumberMapping.cs:121-126 | a found pin translates to a value of the target row, never a false positive |
| PinMapping.ColumnRoundTrip | Mono/PiHardware/PinNumberMapping.cs:121-126 | a column whose source value is unique in its row translates to that column's target value |
| PinMapping.LeftInverseDistinct | Mono/PiHardware/PinNumberMapping.cs:23-24 | a row with a left inverse holds each value once |
| PinMapping.PhysicalRowDistinct | Mono/PiHardware/PinNumberMapping.cs:23 | the Physical row holds each value once |
| PinMapping.WiringPiRowDistinct | Mono/PiHardware/PinNumberMapping.cs:24 | the WiringPi row holds each value once |
| PinMapping.PhysicalWiringPiRoundTrip | Mono/PiHardware/PinNumberMapping.cs:23-24 | every Physical and WiringPi pin translates to its own column's value in any naming |
| PinMapping.WiringPiGap | Mono/PiHardware/PinNumberMapping.cs:24 | WiringPi 17 to 20 are not found |
| PinMapping.BcmDuplicateLastColumnWins | Mono/PiHardware/PinNumberMapping.cs:25 | BCM 12 is in columns 8 and 21; it translates to Physical 32 and WiringPi 26, from the later column |
| PinMapping.MaxPinIdIs | Mono/PiHardware/PinNumberMapping.cs:104-113 | the value that bounds the row and is in it (or is 0) is the running maximum |
| PinMapping.BcmGap | Mono/PiHardware/PinNumberMapping.cs:25 | BCM 22 is within the list's bounds (the maximum is 27) but is not found |
| PinMapping.BcmMaximum | Mono/PiHardware/PinNumberMapping.cs:25 | the largest BCM number on the header is 27 |
| PinNumberMappingExtensions.MapPinNumber | Mono/PiHardware/GPIO/IPinNumberMappingExtensions.cs:19-44 | a null translator gives NullMapping; else success exactly when the lookup succeeds, with its value; on failure, CannotConvertPin naming the pin and both namings |
| PinNumberMappingExtensions.MapPinNumberIdentity | Mono/PiHardware/GPIO/IPinNumberMappingExtensions.cs:30-43 | equal namings give back any pin unchanged, however far out of range |
| PinNumberMappingExtensions.MapPinNumberNeverSentinel | Mono/PiHardware/GPIO/IPinNumberMappingExtensions.cs:30-43 | between distinct namings, a successful result is never the sentinel |
| Gpio.GpioBase.constructor | Mono/PiHardware/GPIO/GpioBase.cs:16-19 | the current naming is the one given |
| Gpio.GpioBase.CurrentPinNaming | Mono/PiHardware/GPIO/GpioBase.cs:26-32 | returns the naming stored by the constructor; the field is a const, so it never changes |
| Gpio.GpioBase.DisposeInstance | Mono/PiHardware/GPIO/GpioBase.cs:72-74 | the base release hook changes nothing (no modifies clause) |
| Gpio.GpioBase.Dispose | Mono/PiHardware/GPIO/GpioBase.cs:63-66 | only runs DisposeInstance, so it changes nothing either |
| Gpio.GpioBase.GetTargetPinNumber | Mono/PiHardware/GPIO/GpioBase.cs:82-86 | translates from the current naming to the target; fails exactly when the translation does, with CannotConvertPin |
| Gpio.DefaultTargetIsWiringPi | Mono/PiHardware/GPIO/GpioBase.cs:82 | without a target, the target is WiringPi; a WiringPi handle passes pins through unchanged |
| WireProtocol.Encode | Mono/PiHardware/GPIO/RemoteGpio.cs:73-122 | a frame has its command's fixed size, the opcode first and the pin second |
| WireProtocol.OpcodesDistinct | Mono/PiHardware/GPIO/RemoteGpio.cs:193-219 | two commands have the same opcode iff they are the same command |
| WireProtocol.Socket.constructor | Mono/PiHardware/GPIO/RemoteGpio.cs:62-63 | a connected socket has sent nothing and is open |
| WireProtocol.Socket.Send | Mono/PiHardware/GPIO/RemoteGpio.cs:155 | sends the accepted prefix of the package, returns its length and leaves the incoming bytes alone |
| WireProtocol.Socket.Receive | Mono/PiHardware/GPIO/RemoteGpio.cs:176 | moves the first min(buffer length, waiting) incoming bytes to the front of the buffer and returns the count |
| WireProtocol.Socket.Dispose | Mono/PiHardware/GPIO/RemoteGpio.cs:142 | closes the socket and changes nothing else |
| WireProtocol.RemoteAddressOrDefault | Mono/PiHardware/GPIO/RemoteGpio.cs:45-48 | a null or empty address becomes "localhost"; any other address is kept (both client revisions, also Mono/PiHardware/RemoteGpio.cs:52-55) |
| RemoteBackend.RemoteGpio.constructor | Mono/PiHardware/GPIO/RemoteGpio.cs:41-65 | keeps the naming, the defaulted address and the port, and holds the connected socket |
| RemoteBackend.RemoteGpio.Default | Mono/PiHardware/GPIO/RemoteGpio.cs:31-33 | BCM naming, "localhost", port 5555 |
| RemoteBackend.RemoteGpio.CurrentPinNaming | Mono/PiHardware/GPIO/GpioBase.cs:26-32 | the naming of the GpioBase part, inherited unchanged |
| RemoteBackend.RemoteGpio.SetPinDirection | Mono/PiHardware/GPIO/RemoteGpio.cs:73-80 | an untranslatable pin fails with the stream untouched; otherwise sends [1, wire pin, direction], failing on a short send |
| RemoteBackend.RemoteGpio.GetPinValue | Mono/PiHardware/GPIO/RemoteGpio.cs:88-99 | sends [3, wire pin]; on a short send it fails before receiving; else it receives one byte and returns it as it is; a missing byte is a ProtocolViolation(0, 1); the socket stays open throughout |
| RemoteBackend.RemoteGpio.SetPinValue | Mono/PiHardware/GPIO/RemoteGpio.cs:100-107 | an untranslatable pin fails with the stream untouched; otherwise sends [2, wire pin, value] |
| RemoteBackend.RemoteGpio.SetButtonMode | Mono/PiHardware/GPIO/RemoteGpio.cs:115-122 | an untranslatable pin fails with the stream untouched; otherwise sends [4, wire pin, mode] |
| RemoteBackend.RemoteGpio.Dispose | Mono/PiHardware/GPIO/GpioBase.cs:63-66 | runs the release hook, with the same effect |
| RemoteBackend.RemoteGpio.DisposeInstance | Mono/PiHardware/GPIO/RemoteGpio.cs:128-146 | on an open socket it sends what it can of [0] (using up that much send capacity), closes the socket and forgets it; on a released one it does nothing |
| RemoteBackend.RemoteGpio.SendPackage | Mono/PiHardware/GPIO/RemoteGpio.cs:153-165 | appends the accepted prefix; fails with ProtocolViolation(sent, size) when that is short |
| RemoteBackend.RemoteGpio.ReadPackage | Mono/PiHardware/GPIO/RemoteGpio.cs:173-188 | takes min(size, waiting) bytes; returns them only when that is the full size, else fails with ProtocolViolation; nothing is sent and the socket stays open |
| RemoteBackend.DisposeTwice | Mono/PiHardware/GPIO/RemoteGpio.cs:128-146 | releasing twice sends the End frame once and leaves the socket closed and forgotten |
| LegacyRemoteBackend.RemoteGpio.constructor | Mono/PiHardware/RemoteGpio.cs:47-72 | keeps the naming, the defaulted address and the port, and holds the connected socket |
| LegacyRemoteBackend.RemoteGpio.Default | Mono/PiHardware/RemoteGpio.cs:37-39 | Physical naming, "localhost", port 5555 |
| LegacyRemoteBackend.RemoteGpio.CurrentPinNaming | Mono/PiHardware/RemoteGpio.cs:79-85 | returns the naming stored by the constructor; the field is a const, so it never changes |
| LegacyRemoteBackend.RemoteGpio.GetTargetPinNumber | Mono/PiHardware/RemoteGpio.cs:187-204 | translates from the current naming to WiringPi unless told otherwise; fails exactly when the translator does, with CannotConvertPin |
| LegacyRemoteBackend.RemoteGpio.SetPinDirection | Mono/PiHardware/RemoteGpio.cs:92-99 | an untranslatable pin fails with the stream untouched; otherwise sends [1, wire pin, direction] |
| LegacyRemoteBackend.RemoteGpio.GetPinValue | Mono/PiHardware/RemoteGpio.cs:107-118 | sends [3, wire pin], then receives exactly one byte and returns it as it is; short transfers fail; the socket stays open throughout |
| LegacyRemoteBackend.RemoteGpio.SetPinValue | Mono/PiHardware/RemoteGpio.cs:119-126 | an untranslatable pin fails with the stream untouched; otherwise sends [2, wire pin, value] |
| LegacyRemoteBackend.RemoteGpio.SetButtonMode | Mono/PiHardware/RemoteGpio.cs:134-141 | an untranslatable pin fails with the stream untouched; otherwise sends [4, wire pin, mode] |
| LegacyRemoteBackend.RemoteGpio.Dispose | Mono/PiHardware/RemoteGpio.cs:152-155 | runs the release hook, with the same effect |
| LegacyRemoteBackend.RemoteGpio.DisposeInstance | Mono/PiHardware/RemoteGpio.cs:161-179 | on an open socket it sends what it can of [0] (using up that much send capacity), closes the socket and forgets it; on a released one it does nothing |
| LegacyRemoteBackend.RemoteGpio.SendPackage | Mono/PiHardware/RemoteGpio.cs:211-223 | appends the accepted prefix; fails with ProtocolViolation(sent, size) when that is short |
| LegacyRemoteBackend.RemoteGpio.ReadPackage | Mono/PiHardware/RemoteGpio.cs:231-246 | takes min(size, waiting) bytes; returns them only when that is the full size, else fails with ProtocolViolation; nothing is sent and the socket stays open |
| LegacyRemoteBackend.DisposeTwice | Mono/PiHardware/RemoteGpio.cs:161-179 | releasing twice sends the End frame once and leaves the socket closed and forgotten |
| PiConnector.ListenPort | Mono/PiConnector/main.c:36 | with no argument the port is 5555; otherwise it is atoi of the first argument |
| PiConnector.Serve | Mono/PiConnector/main.c:81-88 | a session never consumes more than the stream holds, nor writes more replies than there is room for |
| PiConnector.Command | Mono/PiConnector/main.c:90-159 | every command consumes at least its opcode byte |
| PiConnector.PinCommand | Mono/PiConnector/main.c:96-121 | a two-operand command consumes at least one byte and stays within the stream |
| PiConnector.PinRead | Mono/PiConnector/main.c:122-141 | a pin read consumes at least one byte and writes at most the room left |
| PiConnector.PeerCalls | Mono/PiConnector/main.c:90-159 | one hardware call per request |
| PiConnector.PeerReplies | Mono/PiConnector/main.c:122-141 | one reply byte per pin read |
| PiConnector.ReadInto | Mono/PiConnector/main.c:83 | read(fd, buffer, k) takes the next min(k, remaining) bytes of the stream into the front of the buffer and leaves the rest of the buffer as it was |
| PiConnector.RunSession | Mono/PiConnector/main.c:80-160 | the loop's log (calls, replies, bytes read, stop reason) equals the session Serve defines |
| PiConnector.Dispatch | Mono/PiConnector/main.c:90-159 | one pass of the switch either stops the session as Command does or performs Command's calls and continues after its operands |
| PiConnector.OpcodesAgree | Mono/PiConnector/main.c:13-17 | the server's command identifiers 0 to 4 are the client's opcodes |
| PiConnector.DefaultPortsAgree | Mono/PiConnector/main.c:36 | the server's default port is the clients' DefaultPort (5555) |
| PiConnector.PeerCallInjective | Mono/PiConnector/main.c:106-152 | different requests cause different hardware calls |
| PiConnector.ServeFrame | Mono/PiConnector/main.c:90-159 | the server decodes one client frame into the call the request means and its reply, and moves past the frame |
| PiConnector.ServeDecodesFrames | Mono/PiConnector/main.c:81-160 | back-to-back frames without End are decoded one by one into the requests' calls and replies |
| PiConnector.SessionRoundTrip | Mono/PiConnector/main.c:81-160 | the client's frames followed by End (and anything after) give exactly the requests' calls and replies; the server reads through End and stops there |
| PiConnector.SessionWithoutEnd | Mono/PiConnector/main.c:83-88 | frames without End give the requests' calls; the session ends because the connection closed |
| PiConnector.PeerCallsInjective | Mono/PiConnector/main.c:90-159 | the hardware calls determine the requests |
| PiConnector.BadCommandEndsSession | Mono/PiConnector/main.c:155-158 | an unknown command byte ends the session after one byte, with no hardware call |
| PiConnector.FullOperandsCall | Mono/PiConnector/main.c:96-154 | with both operands present, any non-zero direction or value byte becomes OUTPUT or HIGH and zero INPUT or LOW, the button mode is passed on raw, and the session goes on after the three bytes |
| PiConnector.ShortOperandsCallNothing | Mono/PiConnector/main.c:97-102 | short operands end the session, having read the rest of the stream, with no hardware call |
| PiConnector.PinReadReply | Mono/PiConnector/main.c:122-141 | a pin read writes exactly one reply byte, the level's low eight bits; with no room for it the session ends after the read |
| ShiftRegister.MaskSelectsBit | Mono/PiHardware/GPIO/SN74HC595.cs:54-59 | at step i the mask (0x80 shifted right i times) selects bit 7 - i |
| ShiftRegister.ShiftTraceNext | Mono/PiHardware/GPIO/SN74HC595.cs:55-60 | one loop pass adds the DS write of the masked bit and an SH pulse |
| ShiftRegister.SN74HC595.constructor | Mono/PiHardware/GPIO/SN74HC595.cs:36-50 | keeps the pins; sets DS, ST and SH to Output, then writes Low to DS, ST and SH, in that order |
| ShiftRegister.SN74HC595.Send | Mono/PiHardware/GPIO/SN74HC595.cs:52-63 | appends exactly SendTrace: 8 DS writes, each followed by an SH pulse, then an ST pulse |
| ShiftRegister.SN74HC595.Pulse | Mono/PiHardware/GPIO/SN74HC595.cs:65-69 | writes Low, then High, to the pin |
| ShiftRegister.ShiftTraceShape | Mono/PiHardware/GPIO/SN74HC595.cs:55-60 | bit i takes three calls: the DS write of bit 7 - i, then SH Low, then SH High |
| ShiftRegister.SendTraceShape | Mono/PiHardware/GPIO/SN74HC595.cs:52-69 | Send makes exactly 26 writes and no direction change, most significant bit first, ending with ST Low, ST High |
| ShiftRegister.SendTouchesOnlyItsPins | Mono/PiHardware/GPIO/SN74HC595.cs:52-69 | only the three pins are touched; with distinct pins, DS is written exactly at the 8 bit positions |
| ShiftRegister.ShiftTraceLoads | Mono/PiHardware/GPIO/SN74HC595.cs:55-60 | on the chip, the first n bits push out the n oldest stages and enter behind the rest; the storage register is untouched |
| ShiftRegister.SendLatchesData | Mono/PiHardware/GPIO/SN74HC595.cs:52-63 | on a chip wired to three distinct pins, Send leaves data in the storage register (latch k holds bit 7 - k), whatever the chip held before |
| Joysticks.Parse | Mono/PiHardware/Joysticks/JoystickEvent.cs:25 | on member names, Enum.Parse succeeds exactly on a declared name and gives its declared value |
| Joysticks.LoadEventTypes | Mono/PiHardware/Joysticks/JoystickEvent.cs:19-29 | a fresh array, one entry per name, each the parse of its name; all together, the flag table None, Button, Axis, INIT |
| Joysticks.NamesListEveryMember | Mono/PiHardware/Joysticks/JoystickEvent.cs:21-26 | the names are the declared members in ascending order of value, and each parses to its table entry |
| Joysticks.EventTypeTableIsTheEnum | Mono/PiHardware/Joysticks/JoystickEventType.cs:8-11 | the table holds every declared value exactly once, and each has at most one bit set |
| Joysticks.Accumulate | Mono/PiHardware/Joysticks/JoystickEvent.cs:43-51 | a type byte sharing no bit with any flag of the table gives None (EventTypeMasks gives the full value) |
| Joysticks.EventTypeMasks | Mono/PiHardware/Joysticks/JoystickEvent.cs:43-51 | the accumulated event type is the type byte AND 0x83 |
| Joysticks.Decode | Mono/PiHardware/Joysticks/JoystickEvent.cs:36-57 | decoding succeeds exactly on records of 8 bytes or more; the value is a signed 16-bit number and the number a byte |
| Joysticks.FromEventData | Mono/PiHardware/Joysticks/JoystickEvent.cs:36-57 | the constructor's reads and flag loop compute Decode, exceptions included |
| Joysticks.DecodeFields | Mono/PiHardware/Joysticks/JoystickEvent.cs:38-56 | a record of 8 or more bytes gives the LE u32 of bytes 0-3, the s16 of bytes 4-5 (range and bytes), type AND 0x83, and byte 7 as the number |
| Joysticks.DecodeFailsOnShortRecords | Mono/PiHardware/Joysticks/JoystickEvent.cs:38-41 | decoding fails iff the record has fewer than 8 bytes, with the exception of the first read past its end |
| Joysticks.EventTypeExamples | Mono/PiHardware/Joysticks/JoystickEvent.cs:43-51 | 0 is None; 0x81 is Button or INIT; 0x82 is Axis or INIT; 0x7C is None |
| Joysticks.DecodeEventData | Mono/PiHardware/Joysticks/JoystickEvent.cs:36-57 | every event a record can carry decodes from its own record |
| Joysticks.EventDataDecode | Mono/PiHardware/Joysticks/JoystickEvent.cs:36-57 | every 8-byte record with only declared type bits decodes to an event whose record is that record |

## Left out

- Networking is left out: DNS resolution, socket creation and connection, the server's `socket`/`bind`/`listen`/`accept` loop and its SIGINT handler. The connected socket is a constructor parameter. The server handles the byte stream of a single connection.
- A failed `wiringPiSetup` at server start is left out. It is a hardware call.
- A TCP read or write is modelled as moving all the bytes it can, up to the count asked for.
  - On the client, a send moves at most the socket's remaining capacity.
  - On the server, `read` moves min(k, remaining) bytes and a reply write succeeds while room is left.
  - Partial transfers in the middle of a live stream are not modelled.
- Socket exceptions other than short counts are not modelled, including a send or receive on a closed connection.
  - The release hook's swallowed exception is therefore only a short send, which is ignored.
  - An operation after release is `SocketReleased`, which stands for the NullReferenceException.
- The server's `char buffer[10]` is read as unsigned, as it is on the ARM board. On a platform where `char` is signed, operand bytes of 128 and above would reach wiringPi as negative numbers.
- The values of wiringPi's INPUT/OUTPUT, LOW/HIGH and PUD_* are taken as 0/1, 0/1 and 0/1/2. wiringPi.h is not part of this model.
- `digitalRead`'s level is the parameter `levels`, indexed by the count of earlier pin reads. `atoi` is a parameter too.
- `lock (this)` in both release hooks is concurrency and is left out. Release is modelled sequentially; its idempotence is proved instead (`DisposeTwice`).
- `Trace` logging and the text of exception messages are left out. The error values keep the numbers the messages carry.
- `Singleton<PinNumberMapping>` is left out. The translator is one `PinNumberMapping` object passed to the backends.
  - The constructor's naming-count check is the function `CheckNamingCount`, which `PinTableShape` proves the shipped table passes.
  - The unreachable exception is not raised inside the constructor.
- The null entries on the diagonal of `mappings` are `None`. They are never read, because equal namings return before the lookup.
- `GpioBase.Dispose`/`DisposeInstance` are modelled as methods that change nothing. They carry no contract, there being nothing to state.
- `LocalGpio.cs`, the `Gpio.cs` facade, `Joystick.cs` (reader thread, queue, file stream), the IGpio interfaces and the test programs are not part of this model.
- ShiftRegister.SN74HC595 is written against a recording GPIO object in place of `IGpio`. Its calls never fail. Errors of a real backend are not propagated through `Send`.
- The `Chip` datatype is the expected behaviour of the 74HC595, not code of the repository. It is used only to state what the trace achieves.
- Bytes are the `newtype byte` over the integers 0 to 255. Bit operations use `bv8`.
- Joysticks.Parse: only member names are modelled; the numerals and comma-separated flag lists that `Enum.Parse` also accepts are not, as the type constructor passes only the names `Enum.GetNames` returns.
- A null `eventData` array is not modelled. Decode takes a sequence.
- `BitConverter` is taken to be little-endian, as it is on the Pi. Its exceptions follow its argument checks: ArgumentOutOfRange when the start index is past the end, ArgumentException when too few bytes follow it.
- The field-wise constructor of `JoystickEvent` is the datatype's constructor. It stores the four arguments unchanged by definition.
- The order of `Enum.GetNames` is the constant `EnumNames` (ascending by value), not computed by reflection.

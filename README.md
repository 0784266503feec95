# Headlights firmware: command protocol and regulation, modelled in Dafny

The Headlights firmware runs on two microcontrollers. One is an STM32 power stage that
regulates the current through an LED. The other is an nRF bridge that relays commands
between a phone, over BLE, and the power stage, over a serial link. On the serial link
each command travels as a frame `[id][crc][payload]` with no length field. The id names
the command type, and so fixes the payload's size. The crc is CRC-8/AUTOSAR (the 8-bit
0x2F polynomial of section 7.2.1.2 of the AUTOSAR "Specification of CRC Routines") over
the id followed by the payload.

This project models:

- the framing layer:
  - the bounded scan buffer;
  - the three resynchronising readers, which scan byte by byte for a candidate id, start
    a fresh digest for each candidate, parse one payload and check the crc;
  - the three writers;
  - the nRF queue-draining worker;
  - the closed bundle enums that map ids to payload types;
- the command records, their identifiers and their byte encodings, as three source
  revisions define them;
- on the power stage:
  - the regulator's fault check, thermal throttle and duty update;
  - the `run` state machine, with its single-slot proxy mailboxes;
  - the ADC and thermistor conversions;
  - stored-configuration validation and loading;
  - the shared `Model`;
  - the rules that execute each received command.

Each source file is modelled on its own terms, because the files come from different
revisions. Their module names follow the source files:

- `Types` and `LegacyCommands` model `common/src/types.rs` and `common/src/commands.rs`.
- `Commands` models `common/src/command/commands.rs`.
- `LegacyCommandReader` and `LegacyCommandWriter` model the older
  `common/src/command_reader.rs` and `common/src/command_writer.rs`.
- `Nrf*` modules model the bridge's own files.

The external crates are modelled concretely rather than axiomatically:

- `pattern` becomes a cursor over the buffered bytes (`Pattern`). Its errors are
  `NotFound` and `FailedDeserialize(count)`.
- `tiny_serde` becomes fixed-size encoders and decoders per type (`Serde`, and the
  `Encode*`/`Decode*` functions), with round-trip lemmas.
- `crc` becomes a bytewise CRC-8/AUTOSAR (`Crc8`), with its check value 0xDF proved.
- The PID controller is an uninterpreted function (`Regulation.PidStep`). It is given
  the parameters, its input history and the new (target, current) input, and returns an
  optional increment.

State that the firmware updates in place is modelled as classes:

- `ScanBuf`, whose `queue` is the deque;
- the readers and writers;
- `WriterQueue`;
- `RegulatorProxy`, whose `Option` slots model the embassy `Signal`s;
- `Regulator`, whose fields model the controller and the hardware pins;
- `Model`.

Pure code is modelled as functions and lemmas. The readers' scan loop is a method proved
equal to the recursive function `CommandReader.Scan`. The facts about framing are proved
about `Scan` and `CommandReader.Recognize`:

- skipped bytes do not matter;
- a frame is recognised after garbage;
- a writer's frame is read back.

The regulator's `run` is a method proved equal, pass by pass, to
`Regulation.RunPasses`. The per-tick facts (fault precedence, order of effects, duty
bound, mode changes) are proved about `Regulation.TickStep`.

## Model

Each source cell is a path below the repository root.

| member | source | states |
|---|---|---|
| Crc8.Checksum | common/src/lib.rs:15-17 | CRC-8/AUTOSAR of a byte string, as a fresh digest fed the bytes and finalized; `CheckValue` and `ChecksumSplit` state its check value and how the writer's two updates compute it |
| Crc8.RunConcat | common/src/lib.rs:15-17 | the bit-serial CRC register run over `e ++ f` equals the run over `f` started from the register left by `e` |
| Crc8.UpdateConcat | common/src/command/writer.rs:24-33 | feeding a digest `a` then `b` is the same as feeding it `a ++ b`, so the writer's two `update` calls digest id ++ payload |
| Crc8.ChecksumSplit | common/src/command/writer.rs:24-33 | a fresh digest updated with the id and then the payload, finalized, is CRC-8/AUTOSAR of id ++ payload |
| Crc8.CheckValue | common/src/lib.rs:15-17 | CRC-8/AUTOSAR (poly 0x2F, init 0xFF, xorout 0xFF, unreflected) of ASCII "123456789" is the catalogued check value 0xDF |
| Serde.EncodeU16 | common/src/command/commands.rs:55-57 | a `u16` serialises to exactly two bytes |
| Serde.U16RoundTrip | common/src/command/commands.rs:55-57 | decoding an encoded `u16` gives it back |
| Serde.U16Canonical | common/src/command/commands.rs:55-57 | every two bytes decode to the `u16` that encodes back to them |
| Serde.BoolRoundTrip | common/src/types.rs:131-142 | decoding an encoded `bool` gives it back |
| Serde.BoolRejects | common/src/types.rs:131-142 | a `bool` byte fails to decode exactly when it is above 1 |
| Pattern.Extract | common/src/utils/bundles.rs:34-35 | extracting a `size`-byte item fails with `NotFound` exactly when fewer than `size` bytes remain; on success it yields the decoded next `size` bytes and advances by `size`; a decode failure is `FailedDeserialize` with the count just past the item |
| Pattern.ExtractByte | common/src/command/reader.rs:67-70 | taking one byte fails exactly at the end of the data; otherwise it yields the byte at the cursor and advances one position |
| ScanBuffer.ScanBuf.constructor | common/src/scan_buf.rs:18-22 | a new scan buffer of capacity N is empty |
| ScanBuffer.ScanBuf.PushSlice | common/src/scan_buf.rs:24-30 | succeeds exactly when the slice fits, appending it in order; otherwise fills the buffer to N with the slice's leading bytes and returns `Full`; the length never exceeds N |
| ScanBuffer.ScanBuf.Eat | common/src/scan_buf.rs:32-38 | removes exactly min(n, len) bytes from the front and keeps the rest in order |
| ScanBuffer.ScanBuf.Clear | common/src/scan_buf.rs:40-42 | the buffer becomes empty |
| ScanBuffer.ScanBuf.Inner | common/src/scan_buf.rs:44-46 | reads the contents without changing them; their length is at most N |
| Types.EncodeHeader | common/src/types.rs:13-16 | a command header serialises to two bytes |
| Types.HeaderLayout | common/src/types.rs:13-16 | the header serialises as the id, then the crc, and decodes back to itself |
| Types.RuntimeErrorCodes | common/src/types.rs:31-36 | exactly the bytes 0x10, 0x20, 0x21, 0x22 decode as a runtime error (Flash, Overcurrent, InvariantLoad, ArithmeticError), each to the error whose code it is |
| Types.RuntimeErrorRoundTrip | common/src/types.rs:31-36 | every runtime error's code decodes to it |
| Types.ConfigErrorRoundTrip | common/src/types.rs:21-26 | every configuration error's code decodes to it |
| Types.FromConfigError | common/src/types.rs:47-51 | `From<ConfigError>` gives an `Error` with the Config tag 0x20 |
| Types.FromRuntimeError | common/src/types.rs:53-57 | `From<RuntimeError>` gives an `Error` with the Runtime tag 0x30 |
| Types.FromConversions | common/src/types.rs:38-57 | both `From` conversions are injective, never coincide with each other, and never give the default `None` |
| Types.ModeCodes | common/src/types.rs:59-67 | the Mode codes are pairwise distinct, and every code decodes to its mode |
| Types.RequestCodes | common/src/types.rs:84-93 | each `Request` discriminant is one of the Status, Control, Monitor and Config ids; none is the Request id; distinct requests have distinct discriminants |
| Types.DefaultStatus | common/src/types.rs:38-45 | the default status is Idle with no error |
| Types.DefaultConfig | common/src/types.rs:144-154 | the default configuration is disabled, with startup target 50 not above max target 100, gain 1 and PWM 300 Hz |
| Types.CommandIdsDistinct | common/src/types.rs:92-167 | the six command ids of this revision are pairwise distinct |
| LegacyCommands.CommandIdsDistinct | common/src/commands.rs:28-81 | the oldest ids, 0x10, 0x1f, 0xaa, 0xab, 0xac and 0xad, are pairwise distinct |
| LegacyCommands.RequestCodes | common/src/commands.rs:19-25 | each `RequestCommand` discriminant equals the id of the command it asks for (Status 0x1f, Brightness 0xaa, Monitor 0xab, PID 0xac); only Noop matches no command id; every discriminant decodes back |
| LegacyCommands.EncodeRequest | common/src/commands.rs:19-25 | a request command serialises to one byte |
| LegacyCommands.EncodeStatus | common/src/commands.rs:32-39 | a status command serialises to two bytes |
| LegacyCommands.EncodeBrightness | common/src/commands.rs:43-49 | a brightness command serialises to one byte |
| LegacyCommands.EncodeMonitor | common/src/commands.rs:52-60 | a monitor command serialises to three bytes |
| LegacyCommands.EncodePID | common/src/commands.rs:64-72 | a PID command serialises to three bytes |
| LegacyCommands.EncodePWM | common/src/commands.rs:76-82 | a PWM command serialises to two bytes |
| LegacyCommands.RoundTrips | common/src/commands.rs:19-82 | every oldest-revision payload decodes back from its encoding |
| Commands.CommandIdsDistinct | common/src/command/commands.rs:38-131 | the ids 0x10, 0x1f, 0xaa, 0xab, 0xac, 0xff are pairwise distinct |
| Commands.AppErrorCodes | common/src/command/commands.rs:17-25 | the `AppError` codes (None 0x00, InvalidPacket 0x10, SendFault 0x11, TooFast 0x12) are distinct, and only None is zero |
| Commands.EncodeError | common/src/types.rs:38-45 | the data-carrying error serialises to two bytes, a tag and a payload |
| Commands.ErrorRoundTrip | common/src/types.rs:38-45 | every `HeadlightError` decodes back from its encoding |
| Commands.ErrorCanonical | common/src/types.rs:38-45 | two bytes that decode as an error are that error's encoding |
| Commands.RequestCodes | common/src/command/commands.rs:30-35 | each `Request` discriminant is the id of the command it asks for and decodes back; exactly the Status, Control, Monitor and Config ids decode as a request |
| Commands.DefaultConfigConsistent | common/src/command/commands.rs:103-116 | the default is disabled, gain 1, PWM 300 Hz, startup target 0 ≤ max target current 50 < absolute max load current 100, and throttle start 50 < stop 60 |
| Commands.ResetCodes | common/src/command/commands.rs:125-128 | the `Reset` codes (Now 0x10, Factory 0x11) are distinct, and exactly these bytes decode as a reset |
| Commands.EncodeRequest | common/src/command/commands.rs:30-35 | a request serialises to one byte |
| Commands.EncodeStatus | common/src/command/commands.rs:43-46 | a status serialises to three bytes: the mode, then the error |
| Commands.EncodeControl | common/src/command/commands.rs:55-57 | a control serialises to two bytes |
| Commands.EncodeMonitor | common/src/command/commands.rs:66-79 | a monitor serialises to eight bytes |
| Commands.EncodeConfig | common/src/command/commands.rs:84-101 | a configuration serialises to twelve bytes |
| Commands.EncodeReset | common/src/command/commands.rs:125-128 | a reset serialises to one byte |
| Commands.RequestRoundTrip | common/src/command/commands.rs:30-35 | a request decodes back from its encoding |
| Commands.StatusRoundTrip | common/src/command/commands.rs:43-46 | a status decodes back from its encoding |
| Commands.ControlRoundTrip | common/src/command/commands.rs:55-57 | a control decodes back from its encoding |
| Commands.MonitorRoundTrip | common/src/command/commands.rs:66-79 | a monitor decodes back from its encoding |
| Commands.ConfigRoundTrip | common/src/command/commands.rs:84-101 | a configuration decodes back from its encoding |
| Commands.ResetRoundTrip | common/src/command/commands.rs:125-128 | a reset decodes back from its encoding |
| Bundles.ExtractInto | common/src/utils/bundles.rs:34-35 | a recognised id extracts exactly one payload of its type; on success the cursor advances by the payload size, the digest absorbs exactly the payload bytes, and the value is wrapped in the variant; a failure is `NotFound` (too few bytes) or `FailedDeserialize` just past the payload |
| Bundles.ParseFrom | common/src/utils/bundles.rs:9-15 | the `FromHeadlightBundle` parser: the id picks the payload to extract, any other id is `Ok(None)`; `FromRecognises`, `FromWellBehaved` and `FromDecodes` state its ids, its effect on cursor and digest, and its round trip |
| Bundles.FromRecognises | common/src/utils/bundles.rs:9-15 | `FromHeadlightBundle` parses `Ok(None)` exactly for ids other than Status, Control, Monitor and Config (0x1f, 0xaa, 0xab, 0xac); for those ids `NotFound` means exactly too few bytes, and any error is `NotFound` or `FailedDeserialize` past the payload |
| Bundles.ParseTo | common/src/utils/bundles.rs:17-23 | the `ToHeadlightBundle` parser, with `ToRecognises`, `ToWellBehaved` and `ToDecodes` as its properties |
| Bundles.ToRecognises | common/src/utils/bundles.rs:17-23 | `ToHeadlightBundle` parses `Ok(None)` exactly for ids other than Request, Control, Config and Reset (0x10, 0xaa, 0xac, 0xff); the errors are as in `FromRecognises` |
| Bundles.FromWellBehaved | common/src/utils/bundles.rs:25-46 | the `FromHeadlightBundle` parser returns `Ok(None)` without moving the cursor or touching the digest, and otherwise advances within the data and digests exactly the bytes it consumed |
| Bundles.ToWellBehaved | common/src/utils/bundles.rs:25-46 | the same for the `ToHeadlightBundle` parser |
| Bundles.IdsDistinct | common/src/utils/bundles.rs:9-23 | within each bundle two variants share an id exactly when they are the same variant, so id dispatch is deterministic |
| Bundles.ExtractIntoEncoded | common/src/utils/bundles.rs:34-35 | when the next bytes are the encoding of `v`, extraction yields `v` wrapped, advances past it and digests exactly those bytes |
| Bundles.FromDecodes | common/src/utils/bundles.rs:9-15 | every `FromHeadlightBundle` is parsed back from its id and its encoded payload, at any position and with any digest |
| Bundles.ToDecodes | common/src/utils/bundles.rs:17-23 | every `ToHeadlightBundle` is parsed back from its id and its encoded payload |
| CommandReader.Scan | common/src/command/reader.rs:59-83 | the cursor loop of `try_parse_cmd` as a recursive function: skip ids the parser does not recognise, stop at the first one it parses or fails on; `ScanFound`, `ScanHit`, `ScanSkips`, `ScanNeedsHeader` and `ScanFailedWithin` state what it returns, and the readers' `TryParseCmd` loops are proved equal to it |
| CommandReader.ScanFound | common/src/command/reader.rs:59-83 | a successful scan found a structurally complete frame at some position k from the start: every earlier candidate id was unrecognised; at k the parser succeeded from k + 2 with a fresh digest of the id; the header is the bytes at k and k + 1; the observed checksum is that digest finalized over id ++ payload; the count is the end of the payload |
| CommandReader.ScanFailedWithin | common/src/command/reader.rs:59-83 | a structural failure's count lies between the scan's start and the end of the buffer |
| CommandReader.ScanHit | common/src/command/reader.rs:64-81 | when the id at k is recognised and parses from k + 2 with a fresh digest of that id, the scan at k reports that frame, with the crc byte read without digesting it |
| CommandReader.ScanSkips | common/src/command/reader.rs:69-81 | scanning over unrecognised ids gives the same result as starting past them, so only the id byte advances and skipped bytes never reach a digest |
| CommandReader.ScanNeedsHeader | common/src/command/reader.rs:67-70 | with fewer than two bytes left the scan is `NotFound` |
| CommandReader.ValidateCrc | common/src/command/reader.rs:85-99 | the bundle is kept exactly when the transmitted crc equals the observed checksum |
| CommandReader.Recognize | common/src/command/reader.rs:101-120 | a recognition never grows the buffer |
| CommandReader.RecognizeSound | common/src/command/reader.rs:101-120 | `recognizes` only eats a prefix; a bundle is returned only when a frame was scanned whose crc matches, and then exactly `count` bytes are gone |
| CommandReader.Admit | common/src/command/reader.rs:45-57 | after a poll the contents are the old contents followed by the read bytes, or empty when they did not fit; the length stays within N |
| CommandReader.DispatchRun | common/src/command/reader.rs:122-138 | `dispatch` over a finite list of poll outcomes: admit each read, recognise at most one bundle, stop at the first error; `DispatchRunStep` and `DispatchAtMostOnePerPoll` state it and `Dispatch` is proved equal to it |
| CommandReader.DispatchRunStep | common/src/command/reader.rs:122-138 | one successful poll followed by one recognition adds at most that one bundle to those delivered, then dispatch continues from the buffer it left |
| CommandReader.DispatchAtMostOnePerPoll | common/src/command/reader.rs:122-138 | dispatch delivers at most one bundle per successful poll and stops at the first poll error, ignoring everything after it |
| CommandReader.HeadlightCommandReader.constructor | common/src/command/reader.rs:38-43 | a new reader has an empty buffer of capacity N |
| CommandReader.HeadlightCommandReader.Poll | common/src/command/reader.rs:45-57 | a transport error is returned before the buffer is touched; otherwise all n read bytes count as consumed, and the buffer is the old contents followed by them, cleared when they do not fit |
| CommandReader.HeadlightCommandReader.TryParseCmd | common/src/command/reader.rs:59-83 | the scan loop computes `Scan` over the buffer's contents |
| CommandReader.HeadlightCommandReader.Recognizes | common/src/command/reader.rs:101-120 | the returned bundle and the remaining contents are the recognition of the old contents: a parsed frame's count is eaten whatever its crc; a structural failure eats its count; `NotFound` keeps everything |
| CommandReader.HeadlightCommandReader.Dispatch | common/src/command/reader.rs:122-138 | the bundles passed to the handler and the final buffer are those of `DispatchRun` over the poll outcomes |
| LegacyCommandReader.HeadlightCommandReader.constructor | common/src/command_reader.rs:37-42 | a new reader has an empty buffer of capacity N |
| LegacyCommandReader.HeadlightCommandReader.Poll | common/src/command_reader.rs:44-54 | a transport error panics, leaving the buffer untouched; otherwise n bytes are consumed and the buffer is admitted as in the newer reader |
| LegacyCommandReader.HeadlightCommandReader.TryParseCmd | common/src/command_reader.rs:56-80 | the older scan loop computes the same `Scan` |
| LegacyCommandReader.HeadlightCommandReader.Recognizes | common/src/command_reader.rs:98-117 | the older `recognizes` is the same recognition of the old contents |
| CommandWriter.Frame | common/src/command/writer.rs:24-36 | the bytes `send` writes: the header, then the payload; `FrameLayout` states the layout and the `Frame…Recognised` lemmas that the readers get the bundle back |
| CommandWriter.FrameLayout | common/src/command/writer.rs:24-36 | the crc byte is CRC-8/AUTOSAR of id ++ payload, and the frame is id, crc, payload |
| CommandWriter.DecodesAt | common/src/utils/bundles.rs:34-35 | a payload that decodes to a bundle is parsed at any position where its bytes appear |
| CommandWriter.FrameScannedAt | common/src/command/reader.rs:64-81 | a frame laid out at position k is scanned at k, with its count just past the payload and an observed checksum equal to the transmitted crc |
| CommandWriter.FrameRecognisedAfter | common/src/command/reader.rs:59-120 | garbage of unrecognised ids followed by a frame and anything else is recognised as that frame's bundle, leaving exactly what followed it |
| CommandWriter.FrameRecognised | common/src/command/reader.rs:59-120 | a frame at the front of the buffer is recognised and eaten, leaving what followed it |
| CommandWriter.FrameRecognisedAlone | common/src/command/reader.rs:45-120 | a frame produced by `send` and pushed into an empty buffer is recognised with a matching crc and fully eaten |
| CommandWriter.BundleRoundTrips | common/src/command/writer.rs:17-39 | every bundle of either direction, sent as a frame, is recognised back by the reader of that direction |
| CommandWriter.Tx.constructor | common/src/command/writer.rs:13-15 | the transport starts with nothing written |
| CommandWriter.Tx.WriteAll | common/src/command/writer.rs:35-36 | a `write_all` either appends the bytes or fails with its error having written nothing |
| CommandWriter.Tx.Write | common/src/command_writer.rs:36-37 | a `write` appends the prefix of the bytes it reports as written, or nothing on error |
| CommandWriter.HeadlightCommandWriter.constructor | common/src/command/writer.rs:13-15 | the writer wraps the given transport |
| CommandWriter.HeadlightCommandWriter.Send | common/src/command/writer.rs:17-39 | a failed header write is returned and the payload is never written; a failed payload write is returned after the header; otherwise the frame id, crc, payload is written and `Ok` returned |
| LegacyCommandWriter.Written | common/src/command_writer.rs:21-38 | the bytes the older `send` writes for the two writes' reported outcomes, and whether it panics; `SendIgnoresCounts` states what it means |
| LegacyCommandWriter.SendIgnoresCounts | common/src/command_writer.rs:21-38 | the older `send` completes exactly when both writes return `Ok`; when they report everything written the transport received the frame; a short header write is accepted all the same with fewer bytes sent |
| LegacyCommandWriter.HeadlightCommandWriter.constructor | common/src/command_writer.rs:17-19 | the writer wraps the given transport |
| LegacyCommandWriter.HeadlightCommandWriter.Send | common/src/command_writer.rs:21-38 | the header is written before the payload, a write error panics rather than being returned, and the reported counts are discarded |
| NrfCommandReader.ParseReceive | nrf/src/command_reader.rs:44-61 | the inline `ReceiveBundle` match of `try_parse_cmd`, as a bundle parser; `ReceiveRecognises`, `ReceiveWellBehaved` and `ReceiveDecodes` state its ids, its effect on cursor and digest, and its round trip |
| NrfCommandReader.ReceiveRecognises | nrf/src/command_reader.rs:44-61 | the inline `ReceiveBundle` match recognises exactly its ids; the crc is taken without digesting and one payload of that type is digested, so a recognised frame advances by the payload size and the digest covers id ++ payload |
| NrfCommandReader.ReceiveWellBehaved | nrf/src/command_reader.rs:51-59 | the inline match behaves like a bundle parser, and an id outside the bundle lets the scan continue at the next byte |
| NrfCommandReader.ReceiveDecodes | nrf/src/command_reader.rs:51-56 | every received bundle parses back from its id and its encoded payload |
| NrfCommandReader.ReceiveRecognised | nrf/src/command_reader.rs:44-92 | bytes outside the bundle followed by a frame are recognised as that frame's bundle, leaving what follows |
| NrfCommandReader.DummyStream | nrf/dummy.py:16-61 | the bridge reader recovers the host tool's frames one by one after its garbage `0xee 0x00` prefix: first Status, then Brightness, then Monitor |
| NrfCommandReader.HeadlightCommandReader.constructor | nrf/src/command_reader.rs:25-30 | a new bridge reader has an empty buffer |
| NrfCommandReader.HeadlightCommandReader.Poll | nrf/src/command_reader.rs:32-42 | a transport error panics; otherwise n bytes are consumed, and the buffer is cleared when they do not fit |
| NrfCommandReader.HeadlightCommandReader.TryParseCmd | nrf/src/command_reader.rs:44-61 | the bridge's scan loop computes `Scan` of the inline bundle parser |
| NrfCommandReader.HeadlightCommandReader.Recognizes | nrf/src/command_reader.rs:63-92 | a parsed frame is always removed, and only a matching crc yields the bundle; failures are handled as in the shared reader |
| WriterQueues.WriterQueue.constructor | nrf/src/command_writer.rs:16 | the send queue starts empty, with capacity 8 |
| WriterQueues.WriterQueue.TrySend | stm/src/utils/model.rs:96 | `try_send` appends when there is room and otherwise hands the bundle back, leaving the queue as it was |
| WriterQueues.WriterQueue.Send | stm/src/utils/model.rs:59 | `send` appends when there is room (false where it would wait); never more than 8 bundles are held |
| WriterQueues.WriterQueue.TryRecv | nrf/src/command_writer.rs:47-56 | receiving takes the oldest bundle, or nothing from an empty queue |
| NrfCommandWriter.WorkerRun | nrf/src/command_writer.rs:47-56 | the worker sends at most one bundle per item it was given and per write outcome |
| NrfCommandWriter.WorkerStep | nrf/src/command_writer.rs:47-56 | after a bundle is sent without panicking, the worker's output is that frame followed by the run over the remaining queue |
| NrfCommandWriter.WorkerFifo | nrf/src/command_writer.rs:47-56 | when every write completes, the worker writes the queued bundles' frames in queue order, one frame per bundle, and drains the queue |
| NrfCommandWriter.WorkerTakes | nrf/src/command_writer.rs:27-56 | a worker that panicked did so on the last bundle it took |
| NrfCommandWriter.SendCommandWorker | nrf/src/command_writer.rs:47-56 | the drain loop writes exactly `WorkerRun`'s bytes, removes exactly the bundles it took from the front of the queue, and reports a panic exactly when `WorkerRun` does |
| Regulation.LimitsOf | stm/src/utils/regulation.rs:92-110 | `Regulator::new`'s limits: max duty is the timer's max minus one, wrapping at 0; the target and current caps are copied; the throttle band is the thermistor samples of the configured temperatures |
| Regulation.PidParamsOf | stm/src/utils/regulation.rs:97-103 | the controller's gains are (0, gain, 0), its divisor is the PWM frequency, and its windup limit is the frequency divided by the gain, rounded up |
| Regulation.CheckFault | stm/src/utils/regulation.rs:131-149 | Overcurrent exactly above max current + 10 (u16 wrapping); otherwise InvariantLoad exactly when under target at max duty; otherwise Overtemperature exactly above the throttle stop; otherwise none |
| Regulation.ThermalThrottle | stm/src/utils/regulation.rs:151-170 | `thermal_throttle`: the target unchanged below the throttle start, otherwise the checked linear ramp to zero at the stop; `ThrottleBelowStart`, `ThrottleInBand` and `ThrottleOrderedBand` state its results |
| Regulation.ThrottleBelowStart | stm/src/utils/regulation.rs:151-170 | below the throttle start the target passes unchanged, with flag false |
| Regulation.ThrottleInBand | stm/src/utils/regulation.rs:151-166 | at or above the start, the checked u32 ramp fails exactly when stop == start or the quotient exceeds u16; otherwise it gives min(target, ramp) with flag true |
| Regulation.ThrottleOrderedBand | stm/src/utils/regulation.rs:151-166 | within an ordered band the throttle always succeeds with min(target, (stop − temp) × max_target / (stop − start)), which is at most the target and the max target, and is 0 at the stop |
| Regulation.DutyStep | stm/src/utils/regulation.rs:172-197 | the duty and bound update of `next_duty` for the controller's answer; `DutyStepSpec` states it and `Regulator.NextDuty` is proved to compute it |
| Regulation.DutyStepSpec | stm/src/utils/regulation.rs:172-197 | no PID step gives ArithmeticError; otherwise the duty is prev + delta saturated at 0 and clamped to max duty; lower becomes the current exactly when current < lower or delta > 0, and upper exactly when current > upper or delta < 0 |
| Regulation.GetReading | stm/src/utils/regulation.rs:122-129 | a reading fails exactly when the current conversion fails; otherwise it is the converted current and the raw temperature sample |
| Regulation.TickStep | stm/src/utils/regulation.rs:215-280 | one iteration of `run`'s loop as a value: reading, fault check, throttle, then `RegulateStep`; the `Tick…` lemmas state its order of effects and `Regulator.RunPass` is proved to compute it |
| Regulation.RegulateStep | stm/src/utils/regulation.rs:222-280 | the iteration after the throttle: the mode update, `next_duty`, adoption of a pending control, the monitor and the shutdown check; `Regulator.Regulate` is proved to compute it |
| Regulation.TickReadingFails | stm/src/utils/regulation.rs:216-219 | a failed reading breaks the loop with ArithmeticError and changes nothing else |
| Regulation.TickFaultFirst | stm/src/utils/regulation.rs:216-219 | a fault stops the pass before the throttle, the controller or any duty change |
| Regulation.TickControllerGuarded | stm/src/utils/regulation.rs:216-254 | the controller is only stepped once the fault check has passed, so only with temperature ≤ throttle stop and current within the cap; it is stepped with the throttled target and the measured current |
| Regulation.TickDutyBounded | stm/src/utils/regulation.rs:240-254 | a pass never takes the duty above max duty |
| Regulation.TickModes | stm/src/utils/regulation.rs:222-237 | while running the mode stays Running or Throttling with no error; the status is signalled exactly when it changes, to the new status, and then Throttling means the throttle flag was set |
| Regulation.TickOrder | stm/src/utils/regulation.rs:215-280 | every pass that gets past the duty update publishes the monitor of the new duty, bounds and temperature, and adopts a pending control; only then is shutdown checked, which ends the loop cleanly; any other ending is an error, with nothing changed |
| Regulation.RegulatorProxy.constructor | stm/src/utils/regulation.rs:41-49 | every slot starts empty |
| Regulation.RegulatorProxy.SetControl | stm/src/utils/regulation.rs:51-53 | the control slot is overwritten, nothing else changes |
| Regulation.RegulatorProxy.GetMonitorImmediately | stm/src/utils/regulation.rs:55-62 | returns the monitor slot's content, `Some` exactly when it was full, and empties the slot |
| Regulation.RegulatorProxy.Shutdown | stm/src/utils/regulation.rs:67-70 | signals shutdown start, then takes the confirmation, which is reported as whether it had arrived |
| Regulation.RegulatorProxy.WaitForNewStatus | stm/src/utils/regulation.rs:72-74 | takes the status slot's content |
| Regulation.Pass | stm/src/utils/regulation.rs:215-280 | one tick: the other tasks' signals and takes land in the slots, then `TickStep`, whose outcome settles the slots; `PassRegulating` states the invariant it keeps and `Regulator.RunPass` is proved to compute it |
| Regulation.RunPasses | stm/src/utils/regulation.rs:215-280 | once the loop has broken, further ticks change nothing |
| Regulation.StartRegulating | stm/src/utils/regulation.rs:200-211 | after the first control is taken the loop is regulating, and Running with no error has been signalled |
| Regulation.PassRegulating | stm/src/utils/regulation.rs:215-280 | a pass preserves the invariant: the duty is within the cap, the mode is Running or Throttling with no error, and a status left in its slot is the current status; when the slot held the current status and the tick took nothing from it, it still does |
| Regulation.RunPassesRegulating | stm/src/utils/regulation.rs:215-280 | the invariant holds over any number of passes, and the status slot keeps holding the current status through ticks that never take it |
| Regulation.RunEnds | stm/src/utils/regulation.rs:199-298 | over any ticks the duty stays within the cap; while running, a status in its slot is the current one, and it is there when no other task took it; a clean exit signals Idle with no error; a faulting exit signals Fault with its runtime error |
| Regulation.Regulator.constructor | stm/src/utils/regulation.rs:92-110 | the regulator's limits and controller parameters are those of `LimitsOf` and `PidParamsOf`; the hardware starts disabled |
| Regulation.Regulator.Startup | stm/src/utils/regulation.rs:112-115 | the bridge is enabled, then the PWM channel, and nothing else changes |
| Regulation.Regulator.Shutdown | stm/src/utils/regulation.rs:117-120 | the PWM channel is disabled and the bridge enable driven low, and nothing else changes |
| Regulation.Regulator.NextDuty | stm/src/utils/regulation.rs:172-197 | the controller is given (target, current); the duty and bounds are those of `DutyStep` on its step, and the bounds are untouched on ArithmeticError |
| Regulation.Regulator.RunPass | stm/src/utils/regulation.rs:215-280 | one iteration of the loop, after the other tasks' signals and takes, changes the loop variables, controller, proxy slots and PWM duty exactly as `Pass` |
| Regulation.Regulator.SignalMode | stm/src/utils/regulation.rs:222-237 | the mode follows the throttle flag, and the status is signalled only when it changed |
| Regulation.Regulator.Regulate | stm/src/utils/regulation.rs:222-280 | the part of an iteration after the fault check behaves as `RegulateStep`, and the timer gets the new duty exactly when the monitor is published |
| Regulation.Regulator.Run | stm/src/utils/regulation.rs:199-298 | without a control nothing happens; otherwise the state after the ticks is `RunPasses` from the start; on exit the PWM is disabled, the bridge enable is low, the fault LED is raised on an error, and the final status is signalled along with the shutdown confirmation |
| Adc.SampleToMv | stm/src/utils/adc.rs:9-21 | `sample_to_mv` with its checked u32 arithmetic; `SampleToMvValue` and `SampleToMvMonotone` state its value and monotonicity |
| Adc.SampleToMvValue | stm/src/utils/adc.rs:9-21 | the u32 product never overflows; the conversion fails exactly when vref is 0 or s × 1230 / vref exceeds u16, and otherwise equals it |
| Adc.SampleToMvMonotone | stm/src/utils/adc.rs:14-20 | for a fixed nonzero vref a larger sample never gives fewer millivolts, and a sample that converts makes every smaller one convert |
| Adc.MvToMa | stm/src/utils/adc.rs:23-28 | `mv_to_ma` with its checked u16 arithmetic; `MvToMaValue` states its value |
| Adc.MvToMaValue | stm/src/utils/adc.rs:23-28 | the conversion fails exactly above 6553 mV, where mv × 10 overflows u16, and otherwise is mv × 10 / 33 |
| Adc.GetCurrent | stm/src/utils/adc.rs:30-42 | `get_current`: the two conversions in turn; `GetCurrentComposes` states its value |
| Adc.GetCurrentComposes | stm/src/utils/adc.rs:30-42 | `get_current` fails exactly when one of its stages fails, and otherwise is raw × 1230 / vref × 10 / 33 |
| Thermistor.LutIncreasing | common/src/utils/thermistor.rs:2-9 | the table has twenty entries, strictly increasing from 111 at 0 °C to 2511 at 95 °C |
| Thermistor.CelsiusToSample | common/src/utils/thermistor.rs:11-13 | the result is the table entry at index c / 5, defined for c < 100 |
| Thermistor.CelsiusToSampleMonotone | common/src/utils/thermistor.rs:11-13 | the lookup is constant within each 5 °C band and never decreases with temperature |
| Thermistor.BinarySearchIn | common/src/utils/thermistor.rs:18 | on a strictly increasing table, `Found(i)` means entry i is the sample; `Insert(i)` means every entry before i is smaller and every entry from i on is larger |
| Thermistor.BinarySearch | common/src/utils/thermistor.rs:18 | the same for a search of the whole table |
| Thermistor.Interpolate | common/src/utils/thermistor.rs:23-31 | the interpolated offset within a band is below 5 °C |
| Thermistor.SampleToCelsius | common/src/utils/thermistor.rs:17-35 | every sample up to 2511 converts to a temperature below 100 °C |
| Thermistor.SearchFinds | common/src/utils/thermistor.rs:18-19 | on a strictly increasing table an entry is found at its own index |
| Thermistor.SampleToCelsiusAtEntry | common/src/utils/thermistor.rs:18-19 | the entry at index i converts to 5 × i °C |
| Thermistor.SampleToCelsiusBelowTable | common/src/utils/thermistor.rs:20-22 | a sample below 111 converts to 0 °C |
| Thermistor.SampleToCelsiusBetween | common/src/utils/thermistor.rs:23-31 | strictly between entries i − 1 and i the result is 5 × (s − lower) / (upper − lower) + 5 × (i − 1), which lies in [5(i − 1), 5i) |
| Thermistor.SearchInserts | common/src/utils/thermistor.rs:18 | on a strictly increasing table a value strictly between entries i − 1 and i is reported as `Insert(i)` |
| Thermistor.CelsiusRoundTrip | common/src/utils/thermistor.rs:11-19 | converting a multiple of 5 °C up to 95 °C to a sample and back gives it back |
| StmThermistor.LutIncreasing | stm/src/utils/thermistor.rs:2-9 | the firmware's table is entry for entry the shared one, and strictly increasing |
| StmThermistor.CelsiusToSample | stm/src/utils/thermistor.rs:11-13 | the result is the table entry at index c / 5, defined for c < 100 |
| StmThermistor.CelsiusToSampleMonotone | stm/src/utils/thermistor.rs:11-13 | the lookup agrees with the shared one and never decreases with temperature |
| StmThermistor.CelsiusToSampleEnds | stm/src/utils/thermistor.rs:3-8 | 0 °C maps to 111 and 95 °C to 2511 |
| StmConfig.Validated | stm/src/utils/config.rs:64-86 | `Config::validated`: the PWM range check, the gain check, then the validated record; `ValidatedSpec` and `DefaultValid` state it |
| StmConfig.ValidatedSpec | stm/src/utils/config.rs:64-86 | validation fails with InvalidPWMFreq exactly outside 50..=500 Hz; otherwise with InvalidPIDITerm exactly when k_i is 0; otherwise it copies every kept field, and sets windup limit to freq / k_i and divisor to freq |
| StmConfig.DefaultValid | stm/src/utils/config.rs:89-101 | the default validates, with terms (0, 1, 0), windup 300 and divisor 300 |
| StmConfig.IntoConfig | stm/src/utils/config.rs:104-117 | `ValidatedConfig::into`; `ValidatedIntoRoundTrip` states that it undoes `Validated` |
| StmConfig.ValidatedIntoRoundTrip | stm/src/utils/config.rs:104-117 | converting a validated configuration back `into` a Config gives the one that was validated |
| StmConfig.EncodeConfig | stm/src/utils/config.rs:45-50 | the stored configuration is `CFG_SIZE` (7) bytes |
| StmConfig.DecodeConfig | stm/src/utils/config.rs:119-126 | the decoding of the stored bytes that `read_config` performs; `ConfigRoundTrip` states that it inverts `EncodeConfig` |
| StmConfig.ConfigRoundTrip | stm/src/utils/config.rs:119-136 | a stored configuration decodes back from its bytes |
| StmConfig.ReadConfig | stm/src/utils/config.rs:119-126 | a failed flash read is a flash error; otherwise the read succeeds exactly when the bytes decode, and a failure is `Deserialize` |
| StmConfig.StoredConfigReads | stm/src/utils/config.rs:119-136 | what `write_config` encodes, `read_config` reads back |
| StmConfig.WriteBufferFits | stm/src/utils/config.rs:130 | the write buffer is a whole number of flash writes and strictly longer than `CFG_SIZE` |
| StmConfig.FillWriteBuffer | stm/src/utils/config.rs:129-131 | the write buffer has that length, starts with the encoded configuration, and is zero after it |
| StmConfig.LoadConfig | stm/src/utils/config.rs:144-173 | the stored configuration validated, exactly when it was read and validates; otherwise the validated default; the panic branch is unreachable because the default validates |
| HeadlightModel.Model.constructor | stm/src/utils/model.rs:29-48 | the control and the regulator's pending control are the configured startup control, the status is the initial status, and the send queue is empty |
| HeadlightModel.Model.GetMode | stm/src/utils/model.rs:50-53 | returns the status's mode without changing state |
| HeadlightModel.Model.SetMode | stm/src/utils/model.rs:55-60 | only the mode changes, and the new status is queued when there is room |
| HeadlightModel.Model.GetError | stm/src/utils/model.rs:62-65 | returns the status's error without changing state |
| HeadlightModel.Model.SetError | stm/src/utils/model.rs:67-72 | only the error changes, and the new status is queued when there is room |
| HeadlightModel.Model.GetControl | stm/src/utils/model.rs:74-77 | returns the control without changing state |
| HeadlightModel.Model.SetControl | stm/src/utils/model.rs:81-87 | the model's control, the regulator's pending control and the queued bundle all become c |
| HeadlightModel.Model.SetControlImmediately | stm/src/utils/model.rs:91-98 | nothing happens when the lock is busy; otherwise the control and the proxy are updated even with a full queue, and the bundle is queued only if there is room |
| HeadlightModel.Model.GetMonitorImmediately | stm/src/utils/model.rs:100-102 | takes the regulator's last monitor from the proxy |
| HeadlightModel.Model.ShutdownRegulation | stm/src/utils/model.rs:104-106 | performs the proxy's shutdown handshake |
| Extension.RequestReply | stm/src/command/extension.rs:22-35 | fails exactly for a monitor request without a fresh reading; otherwise the reply is the bundle whose id the request names |
| Extension.RequestReplyContents | stm/src/command/extension.rs:22-35 | Status replies with the model's status, Control with its control, Config with the boot configuration, Monitor with the fresh reading |
| Extension.RunRequest | stm/src/command/extension.rs:20-41 | exactly one reply is queued, or `RequestUnavailable` is returned with nothing queued; only a monitor request touches the proxy, taking its reading |
| Extension.RunControl | stm/src/command/extension.rs:43-48 | exactly the effect of `set_control`, and always `Ok` |
| Extension.ConfigRun | stm/src/command/extension.rs:50-77 | an invalid configuration only records `Config(e)`; for a valid one, regulation is shut down exactly when the boot configuration was enabled, and then nothing is written or reset until the regulator has confirmed its shutdown; once it has (or when regulation was disabled) the configuration is written and then resets on success or records `Runtime(Flash)` on failure; a write only happens when disabled or confirmed, and a reset only follows a write with no error |
| Extension.RunConfig | stm/src/command/extension.rs:50-77 | the command's effects on the model, the proxy and the queue are those `ConfigRun` decides, and it always returns `Ok`: an unconfirmed shutdown leaves it waiting with nothing written; it writes only when regulation was disabled or the shutdown was confirmed; an error is recorded in the status and that status is queued exactly when the queue had room, and otherwise the queue is unchanged; control never changes |
| Extension.RunReset | stm/src/command/extension.rs:79-85 | `Reset::Now` resets the system |

## Left out

- I/O is not modelled. Transport reads and writes, ADC samples and the flash read are
  inputs to the methods, and their outcomes are parameters:
  - the bytes a poll read, or its error;
  - each write's `Result`;
  - the reading of a tick;
  - whether a flash write succeeded.
- The BLE/GATT plumbing is left out, as is the bridge's BLE worker gating. They are
  foreign SDK calls.
- Peripheral setup, the executors, `setup_adc`, the UART, heartbeat and status-LED tasks,
  and `common/src/assign_resources.rs` are left out. They are hardware initialisation
  with no logic to prove.
- Concurrency is not modelled. The embassy `Signal`s are single `Option` slots that a
  write overwrites. Each lock is held for one whole method call. A wait that would block
  returns at once, so that outcome is visible:
  - `WriterQueue.Send` returns false where the firmware would wait for room;
  - `RegulatorProxy.Shutdown` reports whether the confirmation had already arrived;
  - `WaitForNewStatus` returns `None` where it would wait.
- Regulation.Regulator.Run: the loop runs over a finite sequence of ticks, not forever.
  What other tasks do between passes is each tick's pending control and shutdown
  request, and whether they took the status (`wait_for_new_status`) or the monitor
  (`get_monitor_immediately`). They act only between passes, never during one. The
  ticker's timing is not modelled.
- CommandReader.DispatchRun and CommandReader.HeadlightCommandReader.Dispatch run the
  endless loop of `common/src/command/reader.rs:128-137` over a finite list of poll
  outcomes, and NrfCommandWriter.WorkerRun and NrfCommandWriter.SendCommandWorker run the
  endless `recv` loop of `nrf/src/command_writer.rs:47-56` over a finite queue. What they
  do forever is what they do for every finite prefix.
- Regulation.LimitsOf, Regulation.CheckFault and Regulation.ThermalThrottle take the
  firmware to be a release build: the `u16` arithmetic of `stm/src/utils/regulation.rs:93`,
  `138`, `157` and `160` wraps. A debug build panics on the same overflows instead, and
  that panic is not modelled.
- Regulation.PidStep: the `pid` crate's controller is an uninterpreted function of its
  parameters, its whole input history and the new input. Its arithmetic is not part of
  this model.
- Regulation.Regulator.Run does not fix the order of the final status signal and the
  shutdown confirmation. The hardware is disabled before both, as in the source, but the
  final state cannot show the order of the two signals.
- Serde: the `tiny_serde` byte order of a `u16` is taken to be big-endian. No stated
  property depends on the byte order. Three more encodings of that crate are assumed in
  the same way: a bool byte above 1 is rejected (`Serde.DecodeBool`); a `HeadlightError`
  is a tag byte (0x00 none, 0x20 configuration, 0x30 runtime) and one payload byte, zero
  for none (`Commands.EncodeError`), which makes the Status payload three bytes; and the
  older `StateData` and `ErrorData` are one raw byte each (`LegacyCommands`).
- Pattern.Extract: `FailedDeserialize(count)` is taken to carry the position just past
  the item that failed to decode. The crate's own definition is not part of this model.
- Commands.RuntimeError: `Overtemperature`, which `stm/src/utils/regulation.rs:144`
  uses, is appended after ArithmeticError, so its code is taken to be 0x23. The revision
  of `common/src/types.rs` that defines it is not part of this model.
- HeadlightModel.Model.constructor takes the configuration that `ValidatedConfig::inner`
  returns. That revision of `stm/src/utils/config.rs` is not part of this model, and
  neither is `Configurator`. For the same reason Model and Extension use the records of
  `common/src/command/commands.rs`.
- Extension.RunConfig takes the `TryFrom` validation verdict of a received configuration
  as an input, because that conversion is not part of this model. The flash write is an
  input too, and the reset is reported as an output rather than performed. The wait for
  the regulator's shutdown confirmation (`stm/src/utils/regulation.rs:67-70`) is modelled
  as one look at the confirmation slot: when it is not yet set, the call reports
  `waiting` and has done nothing but request the shutdown.
- StmConfig: flash erase, read and write are foreign HAL calls. Only the decoding of the
  read bytes and the write buffer's sizing and contents are modelled.
- NrfCommandReader.DummyStream leaves out the host tool's PID frame. Its five payload
  bytes do not match the three-byte `PIDCommand` of `common/src/commands.rs`, so the two
  come from different revisions. Its Status, Brightness and Monitor frames are covered,
  for any payload values.
- The `send` of `nrf/src/command_writer.rs:27-44` is line for line the older shared
  `send`, so it is modelled once, by `LegacyCommandWriter.HeadlightCommandWriter.Send`.
  The worker uses it.
- CommandWriter.Tx.WriteAll fails as a whole: a `write_all` error is taken to leave
  nothing written. Partial writes before an error are not modelled.
- The command writer worker of `stm/src/command/writer.rs` is not modelled. Only the
  queue it drains, `WriterQueue`, is, through `Model`.
- `common/src/std_serde_impls.rs` is left out. It is FFI wrappers over the codec.
- Thermistor.SampleToCelsius requires the sample to be at most 2511. Above the last
  entry the search reports index 20, and the source's `LUT[index]` panics.
- Regulation.Regulator.constructor requires a nonzero gain: `div_ceil` by zero panics.
  It also requires throttle temperatures below 100 °C, where `celsius_to_sample`
  indexes the table.

## Notes on the source

Two behaviours of the code worth knowing:

- `push_slice` stops at the first byte that does not fit and keeps the bytes before
  it. It does not refuse the whole slice. The clear-on-overflow policy lives in the
  readers' `poll`.
- The readers eat a parsed frame's bytes whether or not its crc matches.

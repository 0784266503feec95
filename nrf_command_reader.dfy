/** The bridge MCU's reader, `nrf/src/command_reader.rs`. It reads the oldest command set
    (`common/src/commands.rs`) through the bundle `ReceiveBundle` of `nrf/src/bundles.rs`,
    whose id match is written inline in `try_parse_cmd`: for an id of the bundle it takes
    the crc and then one command of that type, digesting the command's bytes; any other
    id moves the scan on by one byte. */
module NrfCommandReader {
  import opened Wrappers
  import opened Ints
  import opened Crc8
  import opened Pattern
  import opened ScanBuffer
  import opened CommandReader
  import opened LegacyCommands
  import LegacyCommandReader
  import CommandWriter
  import Types
  import opened Seqs

  /** `ReceiveBundle`: what the bridge accepts from the headlight. */
  datatype ReceiveBundle =
    | StatusBundle(status: StatusCommand)
    | BrightnessBundle(brightness: BrightnessCommand)
    | MonitorBundle(monitor: MonitorCommand)
    | PIDBundle(pid: PIDCommand)

  /** The arms of `match_receive_bundle!`. */
  predicate InReceiveBundle(id: u8) {
    id == STATUS_ID || id == BRIGHTNESS_ID || id == MONITOR_ID || id == PID_ID
  }

  function ReceivePayloadSize(id: u8): nat {
    if id == STATUS_ID then STATUS_SIZE
    else if id == BRIGHTNESS_ID then BRIGHTNESS_SIZE
    else if id == MONITOR_ID then MONITOR_SIZE
    else if id == PID_ID then PID_SIZE
    else 0
  }

  /** `extract_and(|bytes| digest.update(bytes))?` of one command, and `cmd.into()`. */
  function Into<T>(x: Result<Extracted<T>, PatternError>, d: Digest, wrap: T -> ReceiveBundle): Result<Parsed<ReceiveBundle>, PatternError> {
    match x
    case Err(e) => Err(e)
    case Ok(e) => Ok(Parsed(wrap(e.value), e.rest, Update(d, e.bytes)))
  }

  /** The payload extraction of the matching arm. */
  function ExtractReceive(id: u8, c: Cursor, d: Digest): Result<Parsed<ReceiveBundle>, PatternError>
    requires InReceiveBundle(id)
  {
    if id == STATUS_ID then Into(Extract(c, STATUS_SIZE, DecodeStatus), d, (s: StatusCommand) => StatusBundle(s))
    else if id == BRIGHTNESS_ID then Into(Extract(c, BRIGHTNESS_SIZE, DecodeBrightness), d, (x: BrightnessCommand) => BrightnessBundle(x))
    else if id == MONITOR_ID then Into(Extract(c, MONITOR_SIZE, DecodeMonitor), d, (m: MonitorCommand) => MonitorBundle(m))
    else Into(Extract(c, PID_SIZE, DecodePID), d, (p: PIDCommand) => PIDBundle(p))
  }

  /** The inline match read as a bundle parser, so that the reader's scan is the shared
      `Scan`: `Ok(None)` for an id outside the bundle, else the payload extraction. */
  function ParseReceive(id: u8, c: Cursor, d: Digest): Result<Option<Parsed<ReceiveBundle>>, PatternError> {
    if !InReceiveBundle(id) then Ok(None)
    else
      match ExtractReceive(id, c, d)
      case Err(e) => Err(e)
      case Ok(p) => Ok(Some(p))
  }

  /** The bundle recognises exactly the IDs of Status, Brightness, Monitor and PID; a
      recognised id fails with `NotFound` exactly when its payload is not all there yet,
      and any other failure is the deserialization error just past the payload. */
  lemma ReceiveRecognises(id: u8, c: Cursor, d: Digest)
    ensures ParseReceive(id, c, d) == Ok(None) <==> !InReceiveBundle(id)
    ensures InReceiveBundle(id) ==> (ParseReceive(id, c, d) == Err(NotFound) <==> Remaining(c) < ReceivePayloadSize(id))
    ensures ParseReceive(id, c, d).Err? ==>
              ParseReceive(id, c, d) == Err(NotFound) || ParseReceive(id, c, d) == Err(FailedDeserialize(c.pos + ReceivePayloadSize(id)))
    ensures ParseReceive(id, c, d).Ok? && ParseReceive(id, c, d).value.Some? ==>
              var p := ParseReceive(id, c, d).value.value;
              && p.rest == Cursor(c.data, c.pos + ReceivePayloadSize(id))
              && p.digest == Update(d, c.data[c.pos..c.pos + ReceivePayloadSize(id)])
  {
  }

  lemma ReceiveWellBehaved()
    ensures WellBehaved(ParseReceive)
    ensures forall id: u8 :: !InReceiveBundle(id) ==> Ignores(ParseReceive, id)
  {
    forall id: u8, c: Cursor, d: Digest ensures Consumes(ParseReceive(id, c, d), c, d) {
    }
  }

  function ReceiveId(b: ReceiveBundle): u8 {
    match b
    case StatusBundle(_) => STATUS_ID
    case BrightnessBundle(_) => BRIGHTNESS_ID
    case MonitorBundle(_) => MONITOR_ID
    case PIDBundle(_) => PID_ID
  }

  function ReceivePayload(b: ReceiveBundle): seq<u8> {
    match b
    case StatusBundle(s) => EncodeStatus(s)
    case BrightnessBundle(x) => EncodeBrightness(x)
    case MonitorBundle(m) => EncodeMonitor(m)
    case PIDBundle(p) => EncodePID(p)
  }

  /** Parsing a serialized command under its id gives it back, consuming and digesting
      exactly its payload. */
  lemma ReceiveDecodes(b: ReceiveBundle)
    ensures Decodes(ParseReceive, ReceiveId(b), ReceivePayload(b), b)
  {
    var enc := ReceivePayload(b);
    forall c: Cursor, d: Digest | Remaining(c) >= |enc| && c.data[c.pos..c.pos + |enc|] == enc
      ensures ParseReceive(ReceiveId(b), c, d) == Ok(Some(Parsed(b, Cursor(c.data, c.pos + |enc|), Update(d, enc))))
    {
      match b
      case StatusBundle(s) => RoundTrips(Noop, s, BrightnessCommand(0), MonitorCommand(0, 0, 0), PIDCommand(0, 0, 0), PWMCommand(0));
      case BrightnessBundle(x) => RoundTrips(Noop, StatusCommand(0, 0), x, MonitorCommand(0, 0, 0), PIDCommand(0, 0, 0), PWMCommand(0));
      case MonitorBundle(m) => RoundTrips(Noop, StatusCommand(0, 0), BrightnessCommand(0), m, PIDCommand(0, 0, 0), PWMCommand(0));
      case PIDBundle(p) => RoundTrips(Noop, StatusCommand(0, 0), BrightnessCommand(0), MonitorCommand(0, 0, 0), p, PWMCommand(0));
    }
  }

  /** The frame of a bundle value, as the headlight's writer sends it. */
  function ReceiveFrame(b: ReceiveBundle): seq<u8> {
    CommandWriter.Frame(ReceiveId(b), ReceivePayload(b))
  }

  /** A frame of the bundle at the front of the scan buffer, after any bytes that are not
      IDs of the bundle, is recognised with a matching crc and eaten with them. */
  lemma ReceiveRecognised(garbage: seq<u8>, b: ReceiveBundle, rest: seq<u8>)
    requires forall j :: 0 <= j < |garbage| ==> !InReceiveBundle(garbage[j])
    ensures Recognize(ParseReceive, garbage + ReceiveFrame(b) + rest) == Recognition(Some(b), rest)
  {
    forall j | 0 <= j < |garbage|
      ensures Ignores(ParseReceive, garbage[j])
    {
      forall c: Cursor, d: Digest
        ensures ParseReceive(garbage[j], c, d) == Ok(None)
      {
        ReceiveRecognises(garbage[j], c, d);
      }
    }
    ReceiveDecodes(b);
    CommandWriter.FrameRecognisedAfter(ParseReceive, garbage, ReceiveId(b), ReceivePayload(b), b, rest);
  }

  /** The shape of the host test stream of `nrf/dummy.py`: two bytes of garbage, then a
      Status, a Brightness and a Monitor frame (the script sends Status `0xf0 0x00`,
      Brightness `0x0f` and a zero Monitor; this holds for any values). Three recognitions
      yield the three commands in order; the garbage is eaten with the first frame and
      leaves no trace in its checksum. */
  lemma DummyStream(s: StatusCommand, x: BrightnessCommand, m: MonitorCommand)
    ensures var status, bright, monitor := StatusBundle(s), BrightnessBundle(x), MonitorBundle(m);
      var stream := [0xee, 0x00] + ReceiveFrame(status) + ReceiveFrame(bright) + ReceiveFrame(monitor);
      && Recognize(ParseReceive, stream) == Recognition(Some(status), ReceiveFrame(bright) + ReceiveFrame(monitor))
      && Recognize(ParseReceive, ReceiveFrame(bright) + ReceiveFrame(monitor)) == Recognition(Some(bright), ReceiveFrame(monitor))
      && Recognize(ParseReceive, ReceiveFrame(monitor)) == Recognition(Some(monitor), [])
  {
    var status, bright, monitor := StatusBundle(s), BrightnessBundle(x), MonitorBundle(m);
    var garbage: seq<u8> := [0xee, 0x00];
    var rest := ReceiveFrame(bright) + ReceiveFrame(monitor);
    ReceiveRecognised(garbage, status, rest);
    ConcatAssoc(garbage + ReceiveFrame(status), ReceiveFrame(bright), ReceiveFrame(monitor));
    ReceiveDecodes(bright);
    CommandWriter.FrameRecognised(ParseReceive, ReceiveId(bright), ReceivePayload(bright), bright, ReceiveFrame(monitor));
    ReceiveDecodes(monitor);
    CommandWriter.FrameRecognised(ParseReceive, ReceiveId(monitor), ReceivePayload(monitor), monitor, []);
    ConcatEmpty(ReceiveFrame(monitor));
  }

  class HeadlightCommandReader {
    const buf: ScanBuf

    ghost predicate Valid()
      reads this, buf
    {
      buf.Valid()
    }

    /** `new`, with a buffer of `BUF_SIZE` bytes. */
    constructor (n: nat)
      ensures Valid() && fresh(buf) && buf.capacity == n && buf.queue == []
    {
      buf := new ScanBuf(n);
    }

    /** `poll`: a transport error panics with the buffer untouched; otherwise the incoming
        bytes are admitted (the buffer cleared if they overflow it) and all consumed. */
    method Poll<E>(fill: Result<seq<u8>, E>) returns (outcome: LegacyCommandReader.PollOutcome)
      requires Valid()
      modifies buf
      ensures Valid()
      ensures fill.Err? ==> outcome == LegacyCommandReader.Panicked && buf.queue == old(buf.queue)
      ensures fill.Ok? ==> outcome == LegacyCommandReader.Consumed(|fill.value|)
      ensures fill.Ok? ==> buf.queue == Admit(old(buf.queue), fill.value, buf.capacity)
    {
      if fill.Err? {
        return LegacyCommandReader.Panicked;
      }
      var incoming := fill.value;
      var n := |incoming|;
      var pushed := buf.PushSlice(incoming);
      if pushed.Err? {
        buf.Clear();
      }
      return LegacyCommandReader.Consumed(n);
    }

    /** `try_parse_cmd`, with the bundle match inline: the crc is taken only for an id of
        the bundle; it is the same scan as the shared one over `ParseReceive`. */
    method TryParseCmd() returns (r: Result<ParsedCommand<ReceiveBundle>, PatternError>)
      requires Valid()
      ensures r == Scan(ParseReceive, Start(buf.queue))
    {
      var pattern := Start(buf.Inner());
      while true
        invariant pattern.data == buf.queue
        invariant Scan(ParseReceive, pattern) == Scan(ParseReceive, Start(buf.queue))
        decreases Remaining(pattern)
      {
        var digest := New();
        var idItem := ExtractByte(pattern);
        if idItem.Err? {
          return Err(idItem.error);
        }
        var id := idItem.value.value;
        digest := Update(digest, idItem.value.bytes);
        ghost var candidate := pattern;
        pattern := idItem.value.rest;
        if InReceiveBundle(id) {
          var lookahead := pattern;
          var crcItem := ExtractByte(lookahead);
          if crcItem.Err? {
            return Err(crcItem.error);
          }
          var crc := crcItem.value.value;
          lookahead := crcItem.value.rest;
          var cmd := ExtractReceive(id, lookahead, digest);
          if cmd.Err? {
            return Err(cmd.error);
          }
          lookahead, digest := cmd.value.rest, cmd.value.digest;
          return Ok(ParsedCommand(Count(lookahead), Types.CommandHeader(id, crc), Finalize(digest), cmd.value.bundle));
        }
        if Remaining(pattern) == 0 {
          assert Scan(ParseReceive, candidate) == Err(NotFound);
        }
      }
    }

    /** `recognizes`: a parsed frame is always eaten, and yields its command only when the
        crc matches; a malformed one is eaten up to its count; `NotFound` keeps the
        buffer. */
    method Recognizes() returns (b: Option<ReceiveBundle>)
      requires Valid()
      modifies buf
      ensures Valid()
      ensures Recognition(b, buf.queue) == Recognize(ParseReceive, old(buf.queue))
    {
      var r := TryParseCmd();
      match r
      case Ok(pc) => {
        buf.Eat(pc.count);
        b := ValidateCrc(pc.header, pc.observed, pc.bundle);
      }
      case Err(FailedDeserialize(count)) => {
        buf.Eat(count);
        b := None;
      }
      case Err(NotFound) => {
        b := None;
      }
    }
  }
}

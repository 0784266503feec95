/** The two closed command bundles of `common/src/utils/bundles.rs` and their
    `ParseCommandBundle::parse`: a match of the id against the bundle's command IDs, then
    one extraction of that command's payload, whose bytes are fed to the digest. */
module Bundles {
  import opened Wrappers
  import opened Ints
  import opened Crc8
  import opened Pattern
  import opened Commands
  import opened CommandReader

  /** What the headlight sends. */
  datatype FromHeadlightBundle =
    | FromStatus(status: Status)
    | FromControl(control: Control)
    | FromMonitor(monitor: Monitor)
    | FromConfig(config: Config)

  /** What the headlight receives. */
  datatype ToHeadlightBundle =
    | ToRequest(request: Request)
    | ToControl(control: Control)
    | ToConfig(config: Config)
    | ToReset(reset: Reset)

  /** `pattern.get().extract_and(|bytes| digest.update(bytes))?` for one command, then
      `Ok(Some(cmd.into()))`. */
  function ExtractInto<T, B>(c: Cursor, d: Digest, size: nat, decode: seq<u8> -> Option<T>, wrap: T -> B)
    : (r: Result<Option<Parsed<B>>, PatternError>)
    ensures Consumes(r, c, d)
    ensures r != Ok(None)
    ensures r.Err? ==> r == Err(NotFound) || r == Err(FailedDeserialize(c.pos + size))
    ensures r == Err(NotFound) <==> Remaining(c) < size
  {
    match Extract(c, size, decode)
    case Err(e) => Err(e)
    case Ok(x) => Ok(Some(Parsed(wrap(x.value), x.rest, Update(d, x.bytes))))
  }

  /** `FromHeadlightBundle::parse` */
  function ParseFrom(id: u8, c: Cursor, d: Digest): Result<Option<Parsed<FromHeadlightBundle>>, PatternError> {
    if id == STATUS_ID then ExtractInto(c, d, STATUS_SIZE, DecodeStatus, (s: Status) => FromStatus(s))
    else if id == CONTROL_ID then ExtractInto(c, d, CONTROL_SIZE, DecodeControl, (x: Control) => FromControl(x))
    else if id == MONITOR_ID then ExtractInto(c, d, MONITOR_SIZE, DecodeMonitor, (m: Monitor) => FromMonitor(m))
    else if id == CONFIG_ID then ExtractInto(c, d, CONFIG_SIZE, DecodeConfig, (x: Config) => FromConfig(x))
    else Ok(None)
  }

  /** `ToHeadlightBundle::parse` */
  function ParseTo(id: u8, c: Cursor, d: Digest): Result<Option<Parsed<ToHeadlightBundle>>, PatternError> {
    if id == REQUEST_ID then ExtractInto(c, d, REQUEST_SIZE, DecodeRequest, (r: Request) => ToRequest(r))
    else if id == CONTROL_ID then ExtractInto(c, d, CONTROL_SIZE, DecodeControl, (x: Control) => ToControl(x))
    else if id == CONFIG_ID then ExtractInto(c, d, CONFIG_SIZE, DecodeConfig, (x: Config) => ToConfig(x))
    else if id == RESET_ID then ExtractInto(c, d, RESET_SIZE, DecodeReset, (r: Reset) => ToReset(r))
    else Ok(None)
  }

  /** The payload size of each command of the bundle, by id. */
  function FromPayloadSize(id: u8): nat {
    if id == STATUS_ID then STATUS_SIZE
    else if id == CONTROL_ID then CONTROL_SIZE
    else if id == MONITOR_ID then MONITOR_SIZE
    else if id == CONFIG_ID then CONFIG_SIZE
    else 0
  }

  function ToPayloadSize(id: u8): nat {
    if id == REQUEST_ID then REQUEST_SIZE
    else if id == CONTROL_ID then CONTROL_SIZE
    else if id == CONFIG_ID then CONFIG_SIZE
    else if id == RESET_ID then RESET_SIZE
    else 0
  }

  /** `FromHeadlightBundle` recognises exactly the IDs of Status, Control, Monitor and
      Config. An unrecognised id gives `Ok(None)`; a recognised one fails with `NotFound`
      exactly when its payload is not all there yet, and any other failure is the
      deserialization error just past the payload. */
  lemma FromRecognises(id: u8, c: Cursor, d: Digest)
    ensures ParseFrom(id, c, d) == Ok(None) <==> id !in {STATUS_ID, CONTROL_ID, MONITOR_ID, CONFIG_ID}
    ensures id in {STATUS_ID, CONTROL_ID, MONITOR_ID, CONFIG_ID} ==>
              (ParseFrom(id, c, d) == Err(NotFound) <==> Remaining(c) < FromPayloadSize(id))
    ensures ParseFrom(id, c, d).Err? ==>
              ParseFrom(id, c, d) == Err(NotFound) || ParseFrom(id, c, d) == Err(FailedDeserialize(c.pos + FromPayloadSize(id)))
  {
  }

  /** `ToHeadlightBundle` recognises exactly the IDs of Request, Control, Config and Reset,
      with the same failure behaviour. */
  lemma ToRecognises(id: u8, c: Cursor, d: Digest)
    ensures ParseTo(id, c, d) == Ok(None) <==> id !in {REQUEST_ID, CONTROL_ID, CONFIG_ID, RESET_ID}
    ensures id in {REQUEST_ID, CONTROL_ID, CONFIG_ID, RESET_ID} ==>
              (ParseTo(id, c, d) == Err(NotFound) <==> Remaining(c) < ToPayloadSize(id))
    ensures ParseTo(id, c, d).Err? ==>
              ParseTo(id, c, d) == Err(NotFound) || ParseTo(id, c, d) == Err(FailedDeserialize(c.pos + ToPayloadSize(id)))
  {
  }

  lemma FromWellBehaved()
    ensures WellBehaved(ParseFrom)
  {
    forall id: u8, c: Cursor, d: Digest ensures Consumes(ParseFrom(id, c, d), c, d) {
    }
  }

  lemma ToWellBehaved()
    ensures WellBehaved(ParseTo)
  {
    forall id: u8, c: Cursor, d: Digest ensures Consumes(ParseTo(id, c, d), c, d) {
    }
  }

  // ----- the command each bundle value travels as -----

  function FromId(b: FromHeadlightBundle): u8 {
    match b
    case FromStatus(_) => STATUS_ID
    case FromControl(_) => CONTROL_ID
    case FromMonitor(_) => MONITOR_ID
    case FromConfig(_) => CONFIG_ID
  }

  function FromPayload(b: FromHeadlightBundle): seq<u8> {
    match b
    case FromStatus(s) => EncodeStatus(s)
    case FromControl(x) => EncodeControl(x)
    case FromMonitor(m) => EncodeMonitor(m)
    case FromConfig(x) => EncodeConfig(x)
  }

  function ToId(b: ToHeadlightBundle): u8 {
    match b
    case ToRequest(_) => REQUEST_ID
    case ToControl(_) => CONTROL_ID
    case ToConfig(_) => CONFIG_ID
    case ToReset(_) => RESET_ID
  }

  function ToPayload(b: ToHeadlightBundle): seq<u8> {
    match b
    case ToRequest(r) => EncodeRequest(r)
    case ToControl(x) => EncodeControl(x)
    case ToConfig(x) => EncodeConfig(x)
    case ToReset(r) => EncodeReset(r)
  }

  /** Within each bundle the IDs are pairwise distinct: two values travel under the same
      id exactly when they are the same variant. */
  lemma IdsDistinct(a: FromHeadlightBundle, b: FromHeadlightBundle, x: ToHeadlightBundle, y: ToHeadlightBundle)
    ensures FromId(a) == FromId(b) <==>
              (a.FromStatus? && b.FromStatus?) || (a.FromControl? && b.FromControl?)
              || (a.FromMonitor? && b.FromMonitor?) || (a.FromConfig? && b.FromConfig?)
    ensures ToId(x) == ToId(y) <==>
              (x.ToRequest? && y.ToRequest?) || (x.ToControl? && y.ToControl?)
              || (x.ToConfig? && y.ToConfig?) || (x.ToReset? && y.ToReset?)
  {
  }

  /** Extracting a command from a cursor that stands on its encoding. */
  lemma ExtractIntoEncoded<T, B>(c: Cursor, d: Digest, size: nat, decode: seq<u8> -> Option<T>, wrap: T -> B, v: T, enc: seq<u8>)
    requires |enc| == size && decode(enc) == Some(v)
    requires Remaining(c) >= size && c.data[c.pos..c.pos + size] == enc
    ensures ExtractInto(c, d, size, decode, wrap) == Ok(Some(Parsed(wrap(v), Cursor(c.data, c.pos + size), Update(d, enc))))
  {
  }

  /** Each command of `FromHeadlightBundle`, parsed under its id from a cursor standing on
      its encoding, comes back whole. */
  lemma StatusDecodes(s: Status)
    ensures Decodes(ParseFrom, STATUS_ID, EncodeStatus(s), FromStatus(s))
  {
    var e := EncodeStatus(s);
    StatusRoundTrip(s);
    forall c: Cursor, d: Digest | Remaining(c) >= |e| && c.data[c.pos..c.pos + |e|] == e
      ensures ParseFrom(STATUS_ID, c, d) == Ok(Some(Parsed(FromStatus(s), Cursor(c.data, c.pos + |e|), Update(d, e))))
    {
      ExtractIntoEncoded(c, d, STATUS_SIZE, DecodeStatus, (s: Status) => FromStatus(s), s, e);
    }
  }

  lemma FromControlDecodes(x: Control)
    ensures Decodes(ParseFrom, CONTROL_ID, EncodeControl(x), FromControl(x))
  {
    var e := EncodeControl(x);
    ControlRoundTrip(x);
    forall c: Cursor, d: Digest | Remaining(c) >= |e| && c.data[c.pos..c.pos + |e|] == e
      ensures ParseFrom(CONTROL_ID, c, d) == Ok(Some(Parsed(FromControl(x), Cursor(c.data, c.pos + |e|), Update(d, e))))
    {
      ExtractIntoEncoded(c, d, CONTROL_SIZE, DecodeControl, (x: Control) => FromControl(x), x, e);
    }
  }

  lemma MonitorDecodes(m: Monitor)
    ensures Decodes(ParseFrom, MONITOR_ID, EncodeMonitor(m), FromMonitor(m))
  {
    var e := EncodeMonitor(m);
    MonitorRoundTrip(m);
    forall c: Cursor, d: Digest | Remaining(c) >= |e| && c.data[c.pos..c.pos + |e|] == e
      ensures ParseFrom(MONITOR_ID, c, d) == Ok(Some(Parsed(FromMonitor(m), Cursor(c.data, c.pos + |e|), Update(d, e))))
    {
      ExtractIntoEncoded(c, d, MONITOR_SIZE, DecodeMonitor, (m: Monitor) => FromMonitor(m), m, e);
    }
  }

  lemma FromConfigDecodes(x: Config)
    ensures Decodes(ParseFrom, CONFIG_ID, EncodeConfig(x), FromConfig(x))
  {
    var e := EncodeConfig(x);
    ConfigRoundTrip(x);
    forall c: Cursor, d: Digest | Remaining(c) >= |e| && c.data[c.pos..c.pos + |e|] == e
      ensures ParseFrom(CONFIG_ID, c, d) == Ok(Some(Parsed(FromConfig(x), Cursor(c.data, c.pos + |e|), Update(d, e))))
    {
      ExtractIntoEncoded(c, d, CONFIG_SIZE, DecodeConfig, (x: Config) => FromConfig(x), x, e);
    }
  }

  /** Parsing a serialized value under its id gives back that value, consuming exactly its
      payload and digesting exactly those bytes. */
  lemma FromDecodes(b: FromHeadlightBundle)
    ensures Decodes(ParseFrom, FromId(b), FromPayload(b), b)
  {
    match b
    case FromStatus(s) => StatusDecodes(s);
    case FromControl(x) => FromControlDecodes(x);
    case FromMonitor(m) => MonitorDecodes(m);
    case FromConfig(x) => FromConfigDecodes(x);
  }

  /** The same for each command of `ToHeadlightBundle`. */
  lemma RequestDecodes(r: Request)
    ensures Decodes(ParseTo, REQUEST_ID, EncodeRequest(r), ToRequest(r))
  {
    var e := EncodeRequest(r);
    RequestRoundTrip(r);
    forall c: Cursor, d: Digest | Remaining(c) >= |e| && c.data[c.pos..c.pos + |e|] == e
      ensures ParseTo(REQUEST_ID, c, d) == Ok(Some(Parsed(ToRequest(r), Cursor(c.data, c.pos + |e|), Update(d, e))))
    {
      ExtractIntoEncoded(c, d, REQUEST_SIZE, DecodeRequest, (r: Request) => ToRequest(r), r, e);
    }
  }

  lemma ToControlDecodes(x: Control)
    ensures Decodes(ParseTo, CONTROL_ID, EncodeControl(x), ToControl(x))
  {
    var e := EncodeControl(x);
    ControlRoundTrip(x);
    forall c: Cursor, d: Digest | Remaining(c) >= |e| && c.data[c.pos..c.pos + |e|] == e
      ensures ParseTo(CONTROL_ID, c, d) == Ok(Some(Parsed(ToControl(x), Cursor(c.data, c.pos + |e|), Update(d, e))))
    {
      ExtractIntoEncoded(c, d, CONTROL_SIZE, DecodeControl, (x: Control) => ToControl(x), x, e);
    }
  }

  lemma ToConfigDecodes(x: Config)
    ensures Decodes(ParseTo, CONFIG_ID, EncodeConfig(x), ToConfig(x))
  {
    var e := EncodeConfig(x);
    ConfigRoundTrip(x);
    forall c: Cursor, d: Digest | Remaining(c) >= |e| && c.data[c.pos..c.pos + |e|] == e
      ensures ParseTo(CONFIG_ID, c, d) == Ok(Some(Parsed(ToConfig(x), Cursor(c.data, c.pos + |e|), Update(d, e))))
    {
      ExtractIntoEncoded(c, d, CONFIG_SIZE, DecodeConfig, (x: Config) => ToConfig(x), x, e);
    }
  }

  lemma ResetDecodes(r: Reset)
    ensures Decodes(ParseTo, RESET_ID, EncodeReset(r), ToReset(r))
  {
    var e := EncodeReset(r);
    ResetRoundTrip(r);
    forall c: Cursor, d: Digest | Remaining(c) >= |e| && c.data[c.pos..c.pos + |e|] == e
      ensures ParseTo(RESET_ID, c, d) == Ok(Some(Parsed(ToReset(r), Cursor(c.data, c.pos + |e|), Update(d, e))))
    {
      ExtractIntoEncoded(c, d, RESET_SIZE, DecodeReset, (r: Reset) => ToReset(r), r, e);
    }
  }

  lemma ToDecodes(b: ToHeadlightBundle)
    ensures Decodes(ParseTo, ToId(b), ToPayload(b), b)
  {
    match b
    case ToRequest(r) => RequestDecodes(r);
    case ToControl(x) => ToControlDecodes(x);
    case ToConfig(x) => ToConfigDecodes(x);
    case ToReset(r) => ResetDecodes(r);
  }
}

/** The command set of `common/src/command/commands.rs`: every command is a record with a
    one-byte ID, serialized with the fixed-size codec. The error type these records carry,
    `HeadlightError`, belongs to a revision of `common/src/types.rs` that is not the one
    shown there: it is modelled here as that file's `Error` with a runtime error that also
    has `Overtemperature` (which `stm/src/utils/regulation.rs` raises). */
module Commands {
  import opened Wrappers
  import opened Ints
  import opened Serde
  import Types

  const REQUEST_ID: u8 := 0x10
  const STATUS_ID: u8 := 0x1f
  const CONTROL_ID: u8 := 0xaa
  const MONITOR_ID: u8 := 0xab
  const CONFIG_ID: u8 := 0xac
  const RESET_ID: u8 := 0xff

  /** The six command IDs are pairwise distinct. */
  lemma CommandIdsDistinct()
    ensures |{REQUEST_ID, STATUS_ID, CONTROL_ID, MONITOR_ID, CONFIG_ID, RESET_ID}| == 6
  {
  }

  // ----- errors -----

  datatype AppError = NoAppError | InvalidPacket | SendFault | TooFast

  function AppErrorCode(e: AppError): u8 {
    match e
    case NoAppError => 0x00
    case InvalidPacket => 0x10
    case SendFault => 0x11
    case TooFast => 0x12
  }

  /** The app error codes are distinct, and only `None` is zero. */
  lemma AppErrorCodes(e: AppError, f: AppError)
    ensures AppErrorCode(e) == AppErrorCode(f) <==> e == f
    ensures AppErrorCode(e) == 0 <==> e == NoAppError
  {
  }

  datatype RuntimeError = Flash | Overcurrent | InvariantLoad | ArithmeticError | Overtemperature

  function RuntimeErrorCode(e: RuntimeError): u8 {
    match e
    case Flash => 0x10
    case Overcurrent => 0x20
    case InvariantLoad => 0x21
    case ArithmeticError => 0x22
    case Overtemperature => 0x23
  }

  function RuntimeErrorOf(b: u8): Option<RuntimeError> {
    if b == 0x10 then Some(Flash)
    else if b == 0x20 then Some(Overcurrent)
    else if b == 0x21 then Some(InvariantLoad)
    else if b == 0x22 then Some(ArithmeticError)
    else if b == 0x23 then Some(Overtemperature)
    else None
  }

  datatype HeadlightError = NoFault | ConfigFault(config: Types.ConfigError) | RuntimeFault(runtime: RuntimeError)

  /** `impl From<ConfigError> for HeadlightError` */
  function FromConfigError(e: Types.ConfigError): HeadlightError { ConfigFault(e) }

  /** `impl From<RuntimeError> for HeadlightError` */
  function FromRuntimeError(e: RuntimeError): HeadlightError { RuntimeFault(e) }

  /** A data-carrying enum: a tag byte (None 0x00, Config 0x20, Runtime 0x30) and one byte
      of payload, zero for `None`. */
  function EncodeError(e: HeadlightError): (r: seq<u8>)
    ensures |r| == 2
  {
    match e
    case NoFault => [0x00, 0x00]
    case ConfigFault(c) => [0x20, Types.ConfigErrorCode(c)]
    case RuntimeFault(x) => [0x30, RuntimeErrorCode(x)]
  }

  function DecodeError(b: seq<u8>): Option<HeadlightError>
    requires |b| == 2
  {
    if b[0] == 0x00 && b[1] == 0x00 then Some(NoFault)
    else if b[0] == 0x20 then
      match Types.ConfigErrorOf(b[1])
      case Some(c) => Some(ConfigFault(c))
      case None => None
    else if b[0] == 0x30 then
      match RuntimeErrorOf(b[1])
      case Some(x) => Some(RuntimeFault(x))
      case None => None
    else None
  }

  lemma ErrorRoundTrip(e: HeadlightError)
    ensures DecodeError(EncodeError(e)) == Some(e)
  {
  }

  /** What decodes is exactly what encodes to the same bytes. */
  lemma ErrorCanonical(b: seq<u8>)
    requires |b| == 2
    ensures DecodeError(b).Some? ==> EncodeError(DecodeError(b).value) == b
  {
  }

  // ----- the commands -----

  datatype Request = StatusRequest | ControlRequest | MonitorRequest | ConfigRequest

  /** The `Request` discriminants are the IDs of the commands they ask for. */
  function RequestCode(r: Request): u8 {
    match r
    case StatusRequest => STATUS_ID
    case ControlRequest => CONTROL_ID
    case MonitorRequest => MONITOR_ID
    case ConfigRequest => CONFIG_ID
  }

  function RequestOf(b: u8): Option<Request> {
    if b == STATUS_ID then Some(StatusRequest)
    else if b == CONTROL_ID then Some(ControlRequest)
    else if b == MONITOR_ID then Some(MonitorRequest)
    else if b == CONFIG_ID then Some(ConfigRequest)
    else None
  }

  /** A request byte is accepted exactly when it is the ID of Status, Control, Monitor or
      Config, and it then names the request for that command. */
  lemma RequestCodes(r: Request, b: u8)
    ensures RequestOf(RequestCode(r)) == Some(r)
    ensures RequestOf(b).Some? <==> b in {STATUS_ID, CONTROL_ID, MONITOR_ID, CONFIG_ID}
    ensures RequestOf(b).Some? ==> RequestCode(RequestOf(b).value) == b
  {
  }

  datatype Status = Status(mode: Types.Mode, error: HeadlightError)

  datatype Control = Control(target: u16)

  /** Duty, upper and lower load current, FET temperature. */
  datatype Monitor = Monitor(duty: u16, upperCurrent: u16, lowerCurrent: u16, temperature: u16)

  datatype Config = Config(
    enabled: bool,
    startupControl: Control,
    gain: u8,
    pwmFreq: u16,
    maxTargetCurrent: u16,
    absMaxLoadCurrent: u16,
    throttleStart: u8,
    throttleStop: u8)

  function DefaultConfig(): Config {
    Config(false, Control(0), 1, 300, 50, 100, 50, 60)
  }

  /** The default configuration is disabled and self-consistent: the startup target is
      within the maximum target, which is below the absolute load limit, and throttling
      starts below the temperature at which it stops. */
  lemma DefaultConfigConsistent()
    ensures var c := DefaultConfig();
      && !c.enabled && c.gain == 1 && c.pwmFreq == 300
      && 0 == c.startupControl.target <= c.maxTargetCurrent == 50 < c.absMaxLoadCurrent == 100
      && 50 == c.throttleStart < c.throttleStop == 60
  {
  }

  datatype Reset = Now | Factory

  function ResetCode(r: Reset): u8 {
    match r
    case Now => 0x10
    case Factory => 0x11
  }

  function ResetOf(b: u8): Option<Reset> {
    if b == 0x10 then Some(Now) else if b == 0x11 then Some(Factory) else None
  }

  /** `Reset` travels as Now 0x10 or Factory 0x11: the codes are distinct and a byte is
      accepted exactly when it is one of them. */
  lemma ResetCodes(r: Reset, s: Reset, b: u8)
    ensures ResetCode(r) == ResetCode(s) <==> r == s
    ensures ResetOf(b).Some? <==> b in {0x10, 0x11}
    ensures ResetOf(b).Some? ==> ResetCode(ResetOf(b).value) == b
  {
  }

  // ----- codecs -----

  const REQUEST_SIZE: nat := 1
  const STATUS_SIZE: nat := 3
  const CONTROL_SIZE: nat := 2
  const MONITOR_SIZE: nat := 8
  const CONFIG_SIZE: nat := 12
  const RESET_SIZE: nat := 1

  function EncodeRequest(r: Request): (b: seq<u8>)
    ensures |b| == REQUEST_SIZE
  {
    [RequestCode(r)]
  }

  function DecodeRequest(b: seq<u8>): Option<Request> {
    if |b| != REQUEST_SIZE then None else RequestOf(b[0])
  }

  function EncodeStatus(s: Status): (b: seq<u8>)
    ensures |b| == STATUS_SIZE
  {
    [Types.ModeCode(s.mode)] + EncodeError(s.error)
  }

  function DecodeStatus(b: seq<u8>): Option<Status> {
    if |b| != STATUS_SIZE then None
    else match (Types.ModeOf(b[0]), DecodeError(b[1..]))
      case (Some(m), Some(e)) => Some(Status(m, e))
      case _ => None
  }

  function EncodeControl(c: Control): (b: seq<u8>)
    ensures |b| == CONTROL_SIZE
  {
    EncodeU16(c.target)
  }

  function DecodeControl(b: seq<u8>): Option<Control> {
    if |b| != CONTROL_SIZE then None else Some(Control(DecodeU16(b)))
  }

  function EncodeMonitor(m: Monitor): (b: seq<u8>)
    ensures |b| == MONITOR_SIZE
  {
    EncodeU16(m.duty) + EncodeU16(m.upperCurrent) + EncodeU16(m.lowerCurrent) + EncodeU16(m.temperature)
  }

  function DecodeMonitor(b: seq<u8>): Option<Monitor> {
    if |b| != MONITOR_SIZE then None
    else Some(Monitor(DecodeU16(b[0..2]), DecodeU16(b[2..4]), DecodeU16(b[4..6]), DecodeU16(b[6..8])))
  }

  function EncodeConfig(c: Config): (b: seq<u8>)
    ensures |b| == CONFIG_SIZE
  {
    [EncodeBool(c.enabled)] + EncodeControl(c.startupControl) + [c.gain] + EncodeU16(c.pwmFreq)
      + EncodeU16(c.maxTargetCurrent) + EncodeU16(c.absMaxLoadCurrent) + [c.throttleStart, c.throttleStop]
  }

  function DecodeConfig(b: seq<u8>): Option<Config> {
    if |b| != CONFIG_SIZE then None
    else match DecodeBool(b[0])
      case None => None
      case Some(enabled) =>
        Some(Config(enabled, Control(DecodeU16(b[1..3])), b[3], DecodeU16(b[4..6]),
                    DecodeU16(b[6..8]), DecodeU16(b[8..10]), b[10], b[11]))
  }

  function EncodeReset(r: Reset): (b: seq<u8>)
    ensures |b| == RESET_SIZE
  {
    [ResetCode(r)]
  }

  function DecodeReset(b: seq<u8>): Option<Reset> {
    if |b| != RESET_SIZE then None else ResetOf(b[0])
  }

  lemma RequestRoundTrip(r: Request)
    ensures DecodeRequest(EncodeRequest(r)) == Some(r)
  {
  }

  lemma StatusRoundTrip(s: Status)
    ensures DecodeStatus(EncodeStatus(s)) == Some(s)
  {
    var b := EncodeStatus(s);
    assert b[1..] == EncodeError(s.error);
    ErrorRoundTrip(s.error);
    Types.ModeCodes(s.mode, s.mode, 0);
  }

  lemma ControlRoundTrip(c: Control)
    ensures DecodeControl(EncodeControl(c)) == Some(c)
  {
    U16RoundTrip(c.target);
  }

  lemma MonitorRoundTrip(m: Monitor)
    ensures DecodeMonitor(EncodeMonitor(m)) == Some(m)
  {
    var b := EncodeMonitor(m);
    assert b[0..2] == EncodeU16(m.duty);
    assert b[2..4] == EncodeU16(m.upperCurrent);
    assert b[4..6] == EncodeU16(m.lowerCurrent);
    assert b[6..8] == EncodeU16(m.temperature);
    U16RoundTrip(m.duty);
    U16RoundTrip(m.upperCurrent);
    U16RoundTrip(m.lowerCurrent);
    U16RoundTrip(m.temperature);
  }

  lemma ConfigRoundTrip(c: Config)
    ensures DecodeConfig(EncodeConfig(c)) == Some(c)
  {
    var b := EncodeConfig(c);
    assert b[0] == EncodeBool(c.enabled);
    assert b[1..3] == EncodeU16(c.startupControl.target);
    assert b[3] == c.gain;
    assert b[4..6] == EncodeU16(c.pwmFreq);
    assert b[6..8] == EncodeU16(c.maxTargetCurrent);
    assert b[8..10] == EncodeU16(c.absMaxLoadCurrent);
    assert b[10] == c.throttleStart && b[11] == c.throttleStop;
    BoolRoundTrip(c.enabled);
    U16RoundTrip(c.startupControl.target);
    U16RoundTrip(c.pwmFreq);
    U16RoundTrip(c.maxTargetCurrent);
    U16RoundTrip(c.absMaxLoadCurrent);
  }

  lemma ResetRoundTrip(r: Reset)
    ensures DecodeReset(EncodeReset(r)) == Some(r)
  {
  }
}

/** The shared protocol types of `common/src/types.rs`: the frame header, the error and
    mode enums with their wire codes, and the older revision of the command records with
    their IDs and defaults. */
module Types {
  import opened Wrappers
  import opened Ints

  /** `CommandHeader { id, crc }`, serialized field by field: id first, then crc. */
  datatype CommandHeader = CommandHeader(id: u8, crc: u8)

  function EncodeHeader(h: CommandHeader): (r: seq<u8>)
    ensures |r| == 2
  {
    [h.id, h.crc]
  }

  function DecodeHeader(b: seq<u8>): CommandHeader
    requires |b| == 2
  {
    CommandHeader(b[0], b[1])
  }

  /** The header travels as two bytes, the id before the crc, and reads back unchanged. */
  lemma HeaderLayout(h: CommandHeader)
    ensures EncodeHeader(h)[0] == h.id && EncodeHeader(h)[1] == h.crc
    ensures DecodeHeader(EncodeHeader(h)) == h
  {
  }

  // ----- errors -----

  datatype ConfigError = Gain | PWMFreq | MaxTarget | StartupTarget

  /** Fieldless `#[repr(u8)]` discriminants, numbered from 0. */
  function ConfigErrorCode(e: ConfigError): u8 {
    match e
    case Gain => 0
    case PWMFreq => 1
    case MaxTarget => 2
    case StartupTarget => 3
  }

  function ConfigErrorOf(b: u8): Option<ConfigError> {
    if b == 0 then Some(Gain)
    else if b == 1 then Some(PWMFreq)
    else if b == 2 then Some(MaxTarget)
    else if b == 3 then Some(StartupTarget)
    else None
  }

  datatype RuntimeError = Flash | Overcurrent | InvariantLoad | ArithmeticError

  /** Flash is 0x10; Overcurrent is 0x20 and the variants after it count on from there. */
  function RuntimeErrorCode(e: RuntimeError): u8 {
    match e
    case Flash => 0x10
    case Overcurrent => 0x20
    case InvariantLoad => 0x21
    case ArithmeticError => 0x22
  }

  function RuntimeErrorOf(b: u8): Option<RuntimeError> {
    if b == 0x10 then Some(Flash)
    else if b == 0x20 then Some(Overcurrent)
    else if b == 0x21 then Some(InvariantLoad)
    else if b == 0x22 then Some(ArithmeticError)
    else None
  }

  lemma RuntimeErrorCodes(b: u8)
    ensures RuntimeErrorOf(b).Some? <==> b in {0x10, 0x20, 0x21, 0x22}
    ensures RuntimeErrorOf(b).Some? ==> RuntimeErrorCode(RuntimeErrorOf(b).value) == b
  {
  }

  lemma RuntimeErrorRoundTrip(e: RuntimeError)
    ensures RuntimeErrorOf(RuntimeErrorCode(e)) == Some(e)
  {
  }

  lemma ConfigErrorRoundTrip(e: ConfigError)
    ensures ConfigErrorOf(ConfigErrorCode(e)) == Some(e)
  {
  }

  /** `Error`: None 0x00 (the default), Config(_) 0x20, Runtime(_) 0x30. */
  datatype Error = NoError | ConfigErr(config: ConfigError) | RuntimeErr(runtime: RuntimeError)

  function DefaultError(): Error { NoError }

  function ErrorTag(e: Error): u8 {
    match e
    case NoError => 0x00
    case ConfigErr(_) => 0x20
    case RuntimeErr(_) => 0x30
  }

  /** `impl From<ConfigError> for Error` */
  function FromConfigError(e: ConfigError): (r: Error)
    ensures ErrorTag(r) == 0x20
  {
    ConfigErr(e)
  }

  /** `impl From<RuntimeError> for Error` */
  function FromRuntimeError(e: RuntimeError): (r: Error)
    ensures ErrorTag(r) == 0x30
  {
    RuntimeErr(e)
  }

  /** The two conversions lose nothing and never meet: each is injective, their images are
      disjoint, and neither yields the default `None`. */
  lemma FromConversions(a: ConfigError, b: ConfigError, x: RuntimeError, y: RuntimeError)
    ensures FromConfigError(a) == FromConfigError(b) <==> a == b
    ensures FromRuntimeError(x) == FromRuntimeError(y) <==> x == y
    ensures FromConfigError(a) != FromRuntimeError(x)
    ensures FromConfigError(a) != DefaultError() && FromRuntimeError(x) != DefaultError()
  {
  }

  // ----- mode -----

  datatype Mode = Idle | Running | Throttling | Fault

  function DefaultMode(): Mode { Idle }

  function ModeCode(m: Mode): u8 {
    match m
    case Idle => 0xf0
    case Running => 0xfa
    case Throttling => 0xf2
    case Fault => 0xf3
  }

  function ModeOf(b: u8): Option<Mode> {
    if b == 0xf0 then Some(Idle)
    else if b == 0xfa then Some(Running)
    else if b == 0xf2 then Some(Throttling)
    else if b == 0xf3 then Some(Fault)
    else None
  }

  /** Distinct modes have distinct codes, and a code byte names at most one mode. */
  lemma ModeCodes(m: Mode, n: Mode, b: u8)
    ensures ModeCode(m) == ModeCode(n) <==> m == n
    ensures ModeOf(ModeCode(m)) == Some(m)
    ensures ModeOf(b).Some? ==> ModeCode(ModeOf(b).value) == b
  {
  }

  // ----- the older command records -----

  datatype AppErrorData = NoAppError | InvalidPacket | SendFault | TooFast

  function AppErrorDataCode(e: AppErrorData): u8 {
    match e
    case NoAppError => 0x00
    case InvalidPacket => 0x10
    case SendFault => 0x11
    case TooFast => 0x12
  }

  const REQUEST_ID: u8 := 0x10
  const STATUS_ID: u8 := 0x1f
  const CONTROL_ID: u8 := 0xaa
  const MONITOR_ID: u8 := 0xab
  const CONFIG_ID: u8 := 0xac
  const RESET_ID: u8 := 0xff

  datatype Request = StatusRequest | ControlRequest | MonitorRequest | ConfigRequest

  /** The `Request` discriminants are the IDs of the commands they ask for. */
  function RequestCode(r: Request): u8 {
    match r
    case StatusRequest => STATUS_ID
    case ControlRequest => CONTROL_ID
    case MonitorRequest => MONITOR_ID
    case ConfigRequest => CONFIG_ID
  }

  /** Every request asks for a command other than a request, and different requests ask
      for different commands. */
  lemma RequestCodes(r: Request, s: Request)
    ensures RequestCode(r) in {STATUS_ID, CONTROL_ID, MONITOR_ID, CONFIG_ID}
    ensures RequestCode(r) != REQUEST_ID
    ensures RequestCode(r) == RequestCode(s) <==> r == s
  {
  }

  datatype Status = Status(mode: Mode, error: Error)

  /** `#[derive(Default)]` on `Status`: both fields take their defaults. */
  function DefaultStatus(): (s: Status)
    ensures s.mode == Idle && s.error == NoError
  {
    Status(DefaultMode(), DefaultError())
  }

  datatype Control = Control(target: u16)

  datatype Monitor = Monitor(duty: u16, current: u16, temperature: u8)

  datatype Config = Config(enabled: bool, startupControl: Control, gain: u16, pwmFreq: u16, maxTarget: u16)

  function DefaultConfig(): (c: Config)
    ensures !c.enabled && c.startupControl.target == 50 && c.gain == 1
    ensures c.pwmFreq == 300 && c.maxTarget == 100
    ensures c.startupControl.target <= c.maxTarget
  {
    Config(false, Control(50), 1, 300, 100)
  }

  datatype Reset = Now

  /** The six command IDs are pairwise distinct. */
  lemma CommandIdsDistinct()
    ensures |{REQUEST_ID, STATUS_ID, CONTROL_ID, MONITOR_ID, CONFIG_ID, RESET_ID}| == 6
  {
  }
}

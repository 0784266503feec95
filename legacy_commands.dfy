/** The oldest command set, `common/src/commands.rs`, which the bridge MCU and the stored
    configuration still use. `StateData` and `ErrorData` are not part of this model; each is
    carried as one raw byte. */
module LegacyCommands {
  import opened Wrappers
  import opened Ints
  import opened Serde

  const REQUEST_ID: u8 := 0x10
  const STATUS_ID: u8 := 0x1f
  const BRIGHTNESS_ID: u8 := 0xaa
  const MONITOR_ID: u8 := 0xab
  const PID_ID: u8 := 0xac
  const PWM_ID: u8 := 0xad

  /** The six IDs are pairwise distinct; in particular 0x10 and 0xad collide with nothing. */
  lemma CommandIdsDistinct()
    ensures |{REQUEST_ID, STATUS_ID, BRIGHTNESS_ID, MONITOR_ID, PID_ID, PWM_ID}| == 6
  {
  }

  datatype RequestCommand = Noop | StatusRequest | BrightnessRequest | MonitorRequest | PIDRequest

  function RequestCode(r: RequestCommand): u8 {
    match r
    case Noop => 0x00
    case StatusRequest => 0x1f
    case BrightnessRequest => 0xaa
    case MonitorRequest => 0xab
    case PIDRequest => 0xac
  }

  function RequestOf(b: u8): Option<RequestCommand> {
    if b == 0x00 then Some(Noop)
    else if b == 0x1f then Some(StatusRequest)
    else if b == 0xaa then Some(BrightnessRequest)
    else if b == 0xab then Some(MonitorRequest)
    else if b == 0xac then Some(PIDRequest)
    else None
  }

  /** Each request names the command it asks for by that command's ID, except `Noop`, whose
      zero is the ID of no command. */
  lemma RequestCodes(r: RequestCommand)
    ensures r == StatusRequest ==> RequestCode(r) == STATUS_ID
    ensures r == BrightnessRequest ==> RequestCode(r) == BRIGHTNESS_ID
    ensures r == MonitorRequest ==> RequestCode(r) == MONITOR_ID
    ensures r == PIDRequest ==> RequestCode(r) == PID_ID
    ensures RequestCode(r) in {REQUEST_ID, STATUS_ID, BRIGHTNESS_ID, MONITOR_ID, PID_ID, PWM_ID} <==> r != Noop
    ensures RequestOf(RequestCode(r)) == Some(r)
  {
  }

  datatype StatusCommand = StatusCommand(state: u8, error: u8)
  datatype BrightnessCommand = BrightnessCommand(brightness: u8)
  datatype MonitorCommand = MonitorCommand(duty: u8, current: u8, temperature: u8)
  datatype PIDCommand = PIDCommand(kP: u8, kI: u8, kD: u8)
  datatype PWMCommand = PWMCommand(freq: u16)

  const REQUEST_SIZE: nat := 1
  const STATUS_SIZE: nat := 2
  const BRIGHTNESS_SIZE: nat := 1
  const MONITOR_SIZE: nat := 3
  const PID_SIZE: nat := 3
  const PWM_SIZE: nat := 2

  function EncodeRequest(r: RequestCommand): (b: seq<u8>)
    ensures |b| == REQUEST_SIZE
  {
    [RequestCode(r)]
  }

  function DecodeRequest(b: seq<u8>): Option<RequestCommand> {
    if |b| != REQUEST_SIZE then None else RequestOf(b[0])
  }

  function EncodeStatus(s: StatusCommand): (b: seq<u8>)
    ensures |b| == STATUS_SIZE
  {
    [s.state, s.error]
  }

  function DecodeStatus(b: seq<u8>): Option<StatusCommand> {
    if |b| != STATUS_SIZE then None else Some(StatusCommand(b[0], b[1]))
  }

  function EncodeBrightness(c: BrightnessCommand): (b: seq<u8>)
    ensures |b| == BRIGHTNESS_SIZE
  {
    [c.brightness]
  }

  function DecodeBrightness(b: seq<u8>): Option<BrightnessCommand> {
    if |b| != BRIGHTNESS_SIZE then None else Some(BrightnessCommand(b[0]))
  }

  function EncodeMonitor(m: MonitorCommand): (b: seq<u8>)
    ensures |b| == MONITOR_SIZE
  {
    [m.duty, m.current, m.temperature]
  }

  function DecodeMonitor(b: seq<u8>): Option<MonitorCommand> {
    if |b| != MONITOR_SIZE then None else Some(MonitorCommand(b[0], b[1], b[2]))
  }

  function EncodePID(p: PIDCommand): (b: seq<u8>)
    ensures |b| == PID_SIZE
  {
    [p.kP, p.kI, p.kD]
  }

  function DecodePID(b: seq<u8>): Option<PIDCommand> {
    if |b| != PID_SIZE then None else Some(PIDCommand(b[0], b[1], b[2]))
  }

  function EncodePWM(p: PWMCommand): (b: seq<u8>)
    ensures |b| == PWM_SIZE
  {
    EncodeU16(p.freq)
  }

  function DecodePWM(b: seq<u8>): Option<PWMCommand> {
    if |b| != PWM_SIZE then None else Some(PWMCommand(DecodeU16(b)))
  }

  lemma RoundTrips(r: RequestCommand, s: StatusCommand, c: BrightnessCommand, m: MonitorCommand, p: PIDCommand, w: PWMCommand)
    ensures DecodeRequest(EncodeRequest(r)) == Some(r)
    ensures DecodeStatus(EncodeStatus(s)) == Some(s)
    ensures DecodeBrightness(EncodeBrightness(c)) == Some(c)
    ensures DecodeMonitor(EncodeMonitor(m)) == Some(m)
    ensures DecodePID(EncodePID(p)) == Some(p)
    ensures DecodePWM(EncodePWM(w)) == Some(w)
  {
    U16RoundTrip(w.freq);
  }
}

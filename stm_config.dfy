/** The stored configuration of `stm/src/utils/config.rs`: its validation into the
    controller's terms, the default, the way back, the decoding of the stored bytes, the
    size of the buffer written to flash, and the fallback order of `load_config`. The
    flash erase, read and write calls themselves are foreign; a read is an input here. */
module StmConfig {
  import opened Wrappers
  import opened Ints
  import opened Serde
  import opened LegacyCommands

  /** `MIN_PWM_FREQ` and `MAX_PWM_FREQ` of `stm/src/limits.rs`, in Hz. */
  const MIN_PWM_FREQ: u16 := 50
  const MAX_PWM_FREQ: u16 := 500

  /** The HAL's flash error; its variants are not part of this model. */
  datatype FlashError = FlashError(code: nat)

  datatype Error = Flash(flash: FlashError) | Deserialize | InvalidPWMFreq | InvalidPIDITerm

  datatype PIDTerms = PIDTerms(kP: u8, kI: u8, kD: u8, windupLimit: u16, div: u16)

  datatype Config = Config(enabled: bool, startupBrightness: BrightnessCommand, pid: PIDCommand, pwm: PWMCommand)

  datatype ValidatedConfig = ValidatedConfig(enabled: bool, startupBrightness: BrightnessCommand, pid: PIDTerms, pwm: PWMCommand)

  /** `Config::validated`: the PWM frequency must lie in `MIN_PWM_FREQ..=MAX_PWM_FREQ`,
      checked first; then the windup limit is the frequency divided by the integral gain,
      which must not be zero; the divisor is the frequency. */
  function Validated(c: Config): Result<ValidatedConfig, Error> {
    if !(MIN_PWM_FREQ <= c.pwm.freq <= MAX_PWM_FREQ) then Err(InvalidPWMFreq)
    else
      match CheckedDivU16(c.pwm.freq, c.pid.kI)
      case None => Err(InvalidPIDITerm)
      case Some(windup) =>
        Ok(ValidatedConfig(c.enabled, c.startupBrightness,
                           PIDTerms(c.pid.kP, c.pid.kI, c.pid.kD, windup, c.pwm.freq), c.pwm))
  }

  /** The outcome of validation in both directions: the frequency error takes precedence
      over the gain error, and a valid configuration copies every field it keeps. */
  lemma ValidatedSpec(c: Config)
    ensures Validated(c) == Err(InvalidPWMFreq) <==> c.pwm.freq < MIN_PWM_FREQ || c.pwm.freq > MAX_PWM_FREQ
    ensures Validated(c) == Err(InvalidPIDITerm) <==> MIN_PWM_FREQ <= c.pwm.freq <= MAX_PWM_FREQ && c.pid.kI == 0
    ensures Validated(c).Ok? <==> MIN_PWM_FREQ <= c.pwm.freq <= MAX_PWM_FREQ && c.pid.kI != 0
    ensures Validated(c).Ok? ==> var v := Validated(c).value;
      && v.enabled == c.enabled && v.startupBrightness == c.startupBrightness && v.pwm == c.pwm
      && v.pid.kP == c.pid.kP && v.pid.kI == c.pid.kI && v.pid.kD == c.pid.kD
      && v.pid.windupLimit == c.pwm.freq / c.pid.kI && v.pid.div == c.pwm.freq
  {
  }

  /** `Config::default`. */
  function DefaultConfig(): Config {
    Config(false, BrightnessCommand(16), PIDCommand(0, 1, 0), PWMCommand(300))
  }

  /** The default validates, with windup limit and divisor both 300. */
  lemma DefaultValid()
    ensures Validated(DefaultConfig()).Ok?
    ensures Validated(DefaultConfig()).value.pid == PIDTerms(0, 1, 0, 300, 300)
  {
  }

  /** `Into<Config> for ValidatedConfig`: drops the derived terms. */
  function IntoConfig(v: ValidatedConfig): Config {
    Config(v.enabled, v.startupBrightness, PIDCommand(v.pid.kP, v.pid.kI, v.pid.kD), v.pwm)
  }

  /** Validating and converting back gives the configuration that was validated. */
  lemma ValidatedIntoRoundTrip(c: Config)
    requires Validated(c).Ok?
    ensures IntoConfig(Validated(c).value) == c
  {
  }

  // ----- stored form -----

  /** `<Config as _TinySerSized>::SIZE`: a bool, a brightness, three gains, a frequency. */
  const CFG_SIZE: nat := 1 + BRIGHTNESS_SIZE + PID_SIZE + PWM_SIZE

  function EncodeConfig(c: Config): (b: seq<u8>)
    ensures |b| == CFG_SIZE
  {
    [EncodeBool(c.enabled)] + EncodeBrightness(c.startupBrightness) + EncodePID(c.pid) + EncodePWM(c.pwm)
  }

  function DecodeConfig(b: seq<u8>): Option<Config>
    requires |b| == CFG_SIZE
  {
    match DecodeBool(b[0])
    case None => None
    case Some(enabled) =>
      match (DecodeBrightness(b[1..2]), DecodePID(b[2..5]), DecodePWM(b[5..7]))
      case (Some(brightness), Some(pid), Some(pwm)) => Some(Config(enabled, brightness, pid, pwm))
      case _ => None
  }

  lemma ConfigRoundTrip(c: Config)
    ensures DecodeConfig(EncodeConfig(c)) == Some(c)
  {
    var b := EncodeConfig(c);
    assert b[1..2] == EncodeBrightness(c.startupBrightness);
    assert b[2..5] == EncodePID(c.pid);
    assert b[5..7] == EncodePWM(c.pwm);
    RoundTrips(Noop, StatusCommand(0, 0), c.startupBrightness, MonitorCommand(0, 0, 0), c.pid, c.pwm);
  }

  /** `read_config` after the flash read: a failed read is a flash error, bytes that do
      not decode are a deserialization error. */
  function ReadConfig(read: Result<seq<u8>, FlashError>): (r: Result<Config, Error>)
    requires read.Ok? ==> |read.value| == CFG_SIZE
    ensures read.Err? ==> r == Err(Flash(read.error))
    ensures read.Ok? ==> (r.Ok? <==> DecodeConfig(read.value).Some?)
    ensures read.Ok? && r.Ok? ==> DecodeConfig(read.value) == Some(r.value)
    ensures read.Ok? && r.Err? ==> r.error == Deserialize
  {
    match read
    case Err(e) => Err(Flash(e))
    case Ok(buf) =>
      match DecodeConfig(buf)
      case None => Err(Deserialize)
      case Some(c) => Ok(c)
  }

  /** What was written is read back. */
  lemma StoredConfigReads(c: Config)
    ensures ReadConfig(Ok(EncodeConfig(c))) == Ok(c)
  {
    ConfigRoundTrip(c);
  }

  /** `write_config`'s buffer: the encoded configuration padded up to the flash write
      granularity, with at least one padding byte. */
  function WriteBufferLength(writeSize: nat): nat
    requires writeSize > 0
  {
    CFG_SIZE + (writeSize - CFG_SIZE % writeSize)
  }

  /** The buffer is a whole number of flash writes and strictly longer than the encoded
      configuration. */
  lemma WriteBufferFits(writeSize: nat)
    requires writeSize > 0
    ensures WriteBufferLength(writeSize) % writeSize == 0
    ensures WriteBufferLength(writeSize) > CFG_SIZE
  {
    var q := CFG_SIZE / writeSize;
    assert CFG_SIZE == q * writeSize + CFG_SIZE % writeSize;
    assert WriteBufferLength(writeSize) == (q + 1) * writeSize;
  }

  /** `write_config` up to the flash calls: a zeroed buffer whose front is the encoding. */
  method FillWriteBuffer(c: Config, writeSize: nat) returns (buf: array<u8>)
    requires writeSize > 0
    ensures fresh(buf)
    ensures buf.Length == WriteBufferLength(writeSize)
    ensures buf[..CFG_SIZE] == EncodeConfig(c)
    ensures forall k :: CFG_SIZE <= k < buf.Length ==> buf[k] == 0
  {
    buf := new u8[WriteBufferLength(writeSize)](_ => 0);
    var enc := EncodeConfig(c);
    var i := 0;
    while i < CFG_SIZE
      invariant 0 <= i <= CFG_SIZE
      invariant buf[..i] == enc[..i]
      invariant forall k :: i <= k < buf.Length ==> buf[k] == 0
    {
      buf[i] := enc[i];
      i := i + 1;
    }
  }

  /** `load_config`, with the flash read's outcome as input: the stored configuration if
      it was read and validates, the validated default otherwise. The default always
      validates (`DefaultValid`), so the branch that lights the status LED and panics
      is never taken and is not written out. */
  function LoadConfig(read: Result<Config, Error>): (v: ValidatedConfig)
    ensures read.Ok? && Validated(read.value).Ok? ==> v == Validated(read.value).value
    ensures !(read.Ok? && Validated(read.value).Ok?) ==> v == Validated(DefaultConfig()).value
    ensures IntoConfig(v) == if read.Ok? && Validated(read.value).Ok? then read.value else DefaultConfig()
  {
    DefaultValid();
    ValidatedIntoRoundTrip(DefaultConfig());
    match read
    case Ok(config) =>
      (match Validated(config)
       case Ok(valid) => ValidatedIntoRoundTrip(config); valid
       case Err(_) => Validated(DefaultConfig()).value)
    case Err(_) => Validated(DefaultConfig()).value
  }
}

/** The load regulator of `stm/src/utils/regulation.rs`, the pure part: the limits a
    regulator is built with, the fault check and its precedence, the linear thermal
    throttle, one PID-driven duty update, and one whole tick of the regulation loop as a
    value. The PID controller is an external crate; it is a parameter here, a function of
    its gains and of every (target, current) pair it has been fed so far. */
module Regulation {
  import opened Wrappers
  import opened Ints
  import Types
  import opened Commands
  import Thermistor
  import Adc

  /** The largest ADC error in mA, `max_adc_error` of `common/src/properties.rs`. */
  const MAX_ADC_ERROR: u16 := 10

  /** The constants a regulator is built with: milliamps and thermistor samples. */
  datatype Limits = Limits(
    maxTarget: u16,
    maxCurrent: u16,
    maxDuty: u16,
    throttleStart: u16,
    throttleStop: u16)

  /** The gains of `PIDController::new(k_p, k_i, k_d, windup_limit, div)`. */
  datatype PidParams = PidParams(kp: int, ki: int, kd: int, windupLimit: int, div: int)

  /** `PIDController::run`: given the gains, every earlier (target, current) input and the
      new one, the signed duty correction, or `None` when the controller overflows. */
  type PidStep = (PidParams, seq<(u16, u16)>, u16, u16) -> Option<int>

  /** `Regulator::new`'s limits: the duty ceiling is one below the timer's maximum duty
      (a wrapping `u16` subtraction), the throttle band is looked up in the thermistor
      table, whose index must stay inside it. */
  function LimitsOf(config: Config, pwmMaxDuty: u16): (lim: Limits)
    requires config.throttleStart < 100 && config.throttleStop < 100
    ensures pwmMaxDuty > 0 ==> lim.maxDuty + 1 == pwmMaxDuty
    ensures pwmMaxDuty == 0 ==> lim.maxDuty == U16_MAX
    ensures lim.maxTarget == config.maxTargetCurrent && lim.maxCurrent == config.absMaxLoadCurrent
    ensures lim.throttleStart == Thermistor.LUT[config.throttleStart / 5]
    ensures lim.throttleStop == Thermistor.LUT[config.throttleStop / 5]
  {
    Limits(config.maxTargetCurrent, config.absMaxLoadCurrent, WrappingSubU16(pwmMaxDuty, 1),
           Thermistor.CelsiusToSample(config.throttleStart),
           Thermistor.CelsiusToSample(config.throttleStop))
  }

  /** `Regulator::new`'s controller: integral gain only, the windup limit is the PWM
      frequency divided by the gain rounded up (`div_ceil` by zero panics), and the output
      is divided by the PWM frequency. */
  function PidParamsOf(config: Config): (p: PidParams)
    requires config.gain != 0
    ensures p.kp == 0 && p.kd == 0 && p.ki == config.gain && p.div == config.pwmFreq
    ensures (p.windupLimit - 1) * config.gain < config.pwmFreq <= p.windupLimit * config.gain
  {
    var w := (config.pwmFreq + config.gain - 1) / config.gain;
    CeilDiv(config.pwmFreq, config.gain);
    PidParams(0, config.gain, 0, w, config.pwmFreq)
  }

  lemma CeilDiv(n: nat, d: nat)
    requires d > 0
    ensures ((n + d - 1) / d - 1) * d < n <= ((n + d - 1) / d) * d
  {
    var q := (n + d - 1) / d;
    var m := (n + d - 1) % d;
    assert q * d + m == n + d - 1;
    assert (q - 1) * d == q * d - d;
  }

  /** `check_fault`. The overcurrent margin is added with `u16` wrap-around. */
  function CheckFault(lim: Limits, current: u16, target: u16, temperature: u16, duty: u16): (r: Option<RuntimeError>)
    ensures r == Some(Overcurrent) <==> current > WrappingAddU16(lim.maxCurrent, MAX_ADC_ERROR)
    ensures r == Some(InvariantLoad) <==>
              current <= WrappingAddU16(lim.maxCurrent, MAX_ADC_ERROR) && current < target && duty == lim.maxDuty
    ensures r == Some(Overtemperature) <==>
              current <= WrappingAddU16(lim.maxCurrent, MAX_ADC_ERROR) && !(current < target && duty == lim.maxDuty)
              && temperature > lim.throttleStop
    ensures r.Some? ==> r.value in {Overcurrent, InvariantLoad, Overtemperature}
    ensures r.None? ==> temperature <= lim.throttleStop && current <= WrappingAddU16(lim.maxCurrent, MAX_ADC_ERROR)
  {
    if current > WrappingAddU16(lim.maxCurrent, MAX_ADC_ERROR) then Some(Overcurrent)
    else if current < target && duty == lim.maxDuty then Some(InvariantLoad)
    else if temperature > lim.throttleStop then Some(Overtemperature)
    else None
  }

  /** `thermal_throttle`. From `throttle_start` on, the target is capped by a line from
      `max_target` at the start of the band down to zero at its stop, computed in `u32`
      with checked operations; the `u16` subtractions wrap. */
  function ThermalThrottle(lim: Limits, temperature: u16, target: u16): Result<(u16, bool), RuntimeError> {
    if temperature >= lim.throttleStart then
      match CheckedMulU32(WrappingSubU16(lim.throttleStop, temperature), lim.maxTarget)
      case None => Err(ArithmeticError)
      case Some(scaled) =>
        match CheckedDivU32(scaled, WrappingSubU16(lim.throttleStop, lim.throttleStart))
        case None => Err(ArithmeticError)
        case Some(q) =>
          match U16TryFrom(q)
          case None => Err(ArithmeticError)
          case Some(capped) => Ok((Min(target, capped), true))
    else
      Ok((target, false))
  }

  /** Below the band the target passes through and the throttling flag is clear. */
  lemma ThrottleBelowStart(lim: Limits, temperature: u16, target: u16)
    requires temperature < lim.throttleStart
    ensures ThermalThrottle(lim, temperature, target) == Ok((target, false))
  {
  }

  /** In the band the flag is set and the target is `min(target, ramp)`. The `u32` product
      never overflows, so the only failures are an empty band (the divisor wraps to zero
      exactly when start equals stop) and a ramp that does not fit a `u16`. */
  lemma ThrottleInBand(lim: Limits, temperature: u16, target: u16)
    requires temperature >= lim.throttleStart
    ensures var ramp := WrappingSubU16(lim.throttleStop, temperature) * lim.maxTarget;
            var width := WrappingSubU16(lim.throttleStop, lim.throttleStart);
            && (ThermalThrottle(lim, temperature, target).Err? <==>
                 lim.throttleStop == lim.throttleStart || ramp / width > U16_MAX)
            && (ThermalThrottle(lim, temperature, target).Ok? ==>
                 ThermalThrottle(lim, temperature, target).value == (Min(target, ramp / width), true))
  {
    MulFitsU32(WrappingSubU16(lim.throttleStop, temperature), lim.maxTarget);
  }

  /** Two widened `u16`s multiply without overflowing a `u32`. */
  lemma MulFitsU32(a: u16, b: u16)
    ensures CheckedMulU32(a, b) == Some(a * b)
  {
    assert a * b <= U16_MAX * b <= U16_MAX * U16_MAX;
  }

  /** With an ordered band and a temperature inside it, as the fault check guarantees when
      throttling is reached, the ramp cannot fail, never raises the target, never exceeds
      `max_target`, and is zero at the stop temperature. */
  lemma ThrottleOrderedBand(lim: Limits, temperature: u16, target: u16)
    requires lim.throttleStart < lim.throttleStop
    requires lim.throttleStart <= temperature <= lim.throttleStop
    ensures ThermalThrottle(lim, temperature, target).Ok?
    ensures var (t, throttling) := ThermalThrottle(lim, temperature, target).value;
            throttling && t <= target && t <= lim.maxTarget
            && t == Min(target, (lim.throttleStop - temperature) * lim.maxTarget / (lim.throttleStop - lim.throttleStart))
    ensures temperature == lim.throttleStop ==> ThermalThrottle(lim, temperature, target).value.0 == 0
  {
    var a := lim.throttleStop - temperature;
    var width := lim.throttleStop - lim.throttleStart;
    var q := a * lim.maxTarget / width;
    assert q <= lim.maxTarget by {
      RampBound(a, width, lim.maxTarget);
    }
    assert ThermalThrottle(lim, temperature, target) == Ok((Min(target, q as u16), true)) by {
      assert WrappingSubU16(lim.throttleStop, temperature) == a;
      assert WrappingSubU16(lim.throttleStop, lim.throttleStart) == width;
      MulFitsU32(a as u16, lim.maxTarget);
      assert CheckedDivU32(a * lim.maxTarget, width) == Some(q);
    }
    if temperature == lim.throttleStop {
      assert a * lim.maxTarget == 0;
    }
  }

  lemma RampBound(a: nat, width: nat, m: nat)
    requires 0 < width && a <= width
    ensures a * m / width <= m
  {
    assert a * m <= width * m;
    Adc.DivMonotone(a * m, width * m, width);
  }

  /** The new duty and current bounds after one `next_duty`. */
  datatype DutyUpdate = DutyUpdate(duty: u16, upper: u16, lower: u16)

  /** `next_duty` once the controller has answered: the duty moves by the controller's
      correction, saturating at the ends of `u16` and capped at `max_duty`; the lower bound
      is pulled to the current when the controller pushes up or the current is below it,
      the upper one when it pushes down or the current is above it. */
  function DutyStep(maxDuty: u16, delta: Option<int>, current: u16, upper: u16, lower: u16, prevDuty: u16): Result<DutyUpdate, RuntimeError> {
    match delta
    case None => Err(ArithmeticError)
    case Some(d) =>
      var lower' := if current < lower || d > 0 then current else lower;
      var upper' := if current > upper || d < 0 then current else upper;
      Ok(DutyUpdate(Min(maxDuty, SaturatingAddSigned(prevDuty, d)), upper', lower'))
  }

  /** The duty never exceeds `max_duty`; it is the saturated sum when that is below the
      cap; the bounds follow the rule above in both directions; a controller failure is an
      arithmetic error. */
  lemma DutyStepSpec(maxDuty: u16, delta: Option<int>, current: u16, upper: u16, lower: u16, prevDuty: u16)
    ensures delta.None? <==> DutyStep(maxDuty, delta, current, upper, lower, prevDuty) == Err(ArithmeticError)
    ensures delta.Some? ==> var u := DutyStep(maxDuty, delta, current, upper, lower, prevDuty).value;
      && u.duty <= maxDuty
      && (prevDuty + delta.value <= maxDuty ==> u.duty == if prevDuty + delta.value < 0 then 0 else prevDuty + delta.value)
      && (u.lower == current <== current < lower || delta.value > 0)
      && (u.lower == lower <== !(current < lower || delta.value > 0))
      && (u.upper == current <== current > upper || delta.value < 0)
      && (u.upper == upper <== !(current > upper || delta.value < 0))
  {
  }

  /** The three ADC samples of one `get_reading`: reference, thermistor, current sense. */
  datatype Reading = Reading(vref: u16, rawTemp: u16, rawCurrent: u16)

  /** `get_reading`: the load current in mA and the raw thermistor sample, or `None` when
      the current conversion fails. */
  function GetReading(r: Reading): (o: Option<(u16, u16)>)
    ensures o.None? <==> Adc.GetCurrent(r.vref, r.rawCurrent).None?
    ensures o.Some? ==> o.value == (Adc.GetCurrent(r.vref, r.rawCurrent).value, r.rawTemp)
  {
    match Adc.GetCurrent(r.vref, r.rawCurrent)
    case None => None
    case Some(current) => Some((current, r.rawTemp))
  }

  /** The variables of the regulation loop. */
  datatype Loop = Loop(control: Control, duty: u16, upper: u16, lower: u16, status: Status)

  /** Whether the loop goes on, or breaks with an error or cleanly. */
  datatype Exit = Continue | Stop(error: Option<RuntimeError>)

  /** What one pass of the loop body did: the loop variables afterwards, the controller's
      input history, the status signalled (at most one per pass), whether a pending
      control was taken, the monitor published, and how the pass ended. */
  datatype TickOutcome = TickOutcome(
    loop: Loop,
    history: seq<(u16, u16)>,
    signalled: Option<Status>,
    adopted: bool,
    monitor: Option<Monitor>,
    exit: Exit)

  /** The mode after the throttle has answered, following the two guarded assignments. */
  function ModeAfter(mode: Types.Mode, throttling: bool): Types.Mode {
    if throttling && mode != Types.Throttling then Types.Throttling
    else if !throttling && mode != Types.Running then Types.Running
    else mode
  }

  /** One pass of the body of `run`'s loop, in source order: read, check for a fault,
      throttle (signalling a mode change), run the controller and apply the duty, adopt a
      pending control, publish the monitor, and finally look at the shutdown request. */
  function TickStep(lim: Limits, params: PidParams, pid: PidStep, history: seq<(u16, u16)>, st: Loop,
                    reading: Reading, pending: Option<Control>, shutdown: bool): TickOutcome
  {
    match GetReading(reading)
    case None => TickOutcome(st, history, None, false, None, Stop(Some(ArithmeticError)))
    case Some((current, temperature)) =>
      match CheckFault(lim, current, st.control.target, temperature, st.duty)
      case Some(e) => TickOutcome(st, history, None, false, None, Stop(Some(e)))
      case None =>
        match ThermalThrottle(lim, temperature, st.control.target)
        case Err(e) => TickOutcome(st, history, None, false, None, Stop(Some(e)))
        case Ok((target, throttling)) =>
          RegulateStep(lim, params, pid, history, st, current, temperature, target, throttling, pending, shutdown)
  }

  /** The rest of a pass once the throttled target is known: the mode update, the
      controller and the duty, the pending control, the monitor, the shutdown check. */
  function RegulateStep(lim: Limits, params: PidParams, pid: PidStep, history: seq<(u16, u16)>, st: Loop,
                        current: u16, temperature: u16, target: u16, throttling: bool,
                        pending: Option<Control>, shutdown: bool): TickOutcome
  {
    var mode := ModeAfter(st.status.mode, throttling);
    var status := st.status.(mode := mode);
    var signalled := if mode != st.status.mode then Some(status) else None;
    var history' := history + [(target, current)];
    match DutyStep(lim.maxDuty, pid(params, history, target, current), current, st.upper, st.lower, st.duty)
    case Err(e) => TickOutcome(st.(status := status), history', signalled, false, None, Stop(Some(e)))
    case Ok(u) =>
      var control := if pending.Some? then pending.value else st.control;
      var monitor := Monitor(u.duty, u.upper, u.lower, temperature);
      TickOutcome(Loop(control, u.duty, u.upper, u.lower, status), history', signalled,
                  pending.Some?, Some(monitor), if shutdown then Stop(None) else Continue)
  }

  /** A failed reading ends the loop with an arithmetic error and touches nothing. */
  lemma TickReadingFails(lim: Limits, params: PidParams, pid: PidStep, history: seq<(u16, u16)>, st: Loop,
                         reading: Reading, pending: Option<Control>, shutdown: bool)
    requires GetReading(reading).None?
    ensures TickStep(lim, params, pid, history, st, reading, pending, shutdown)
            == TickOutcome(st, history, None, false, None, Stop(Some(ArithmeticError)))
  {
  }

  /** The fault check comes before anything else: a fault ends the loop with that fault,
      before the controller runs or the duty changes. */
  lemma TickFaultFirst(lim: Limits, params: PidParams, pid: PidStep, history: seq<(u16, u16)>, st: Loop,
                       reading: Reading, pending: Option<Control>, shutdown: bool)
    requires GetReading(reading).Some?
    requires CheckFault(lim, GetReading(reading).value.0, st.control.target, GetReading(reading).value.1, st.duty).Some?
    ensures var o := TickStep(lim, params, pid, history, st, reading, pending, shutdown);
            o == TickOutcome(st, history, None, false, None,
                             Stop(CheckFault(lim, GetReading(reading).value.0, st.control.target, GetReading(reading).value.1, st.duty)))
  {
  }

  /** The controller runs only on a good reading that passed the fault check, so its
      current is within the overcurrent margin and the temperature it was throttled at is
      at most `throttle_stop`; it is fed the throttled target, never above the set one. */
  lemma TickControllerGuarded(lim: Limits, params: PidParams, pid: PidStep, history: seq<(u16, u16)>, st: Loop,
                              reading: Reading, pending: Option<Control>, shutdown: bool)
    ensures var o := TickStep(lim, params, pid, history, st, reading, pending, shutdown);
            o.history == history || (
              && GetReading(reading).Some?
              && GetReading(reading).value.1 <= lim.throttleStop
              && GetReading(reading).value.0 <= WrappingAddU16(lim.maxCurrent, MAX_ADC_ERROR)
              && |o.history| == |history| + 1 && o.history[..|history|] == history
              && o.history[|history|].1 == GetReading(reading).value.0
              && o.history[|history|].0 <= st.control.target)
  {
  }

  /** The loop keeps the duty at or below `max_duty`. */
  lemma TickDutyBounded(lim: Limits, params: PidParams, pid: PidStep, history: seq<(u16, u16)>, st: Loop,
                        reading: Reading, pending: Option<Control>, shutdown: bool)
    requires st.duty <= lim.maxDuty
    ensures TickStep(lim, params, pid, history, st, reading, pending, shutdown).loop.duty <= lim.maxDuty
  {
    var o := TickStep(lim, params, pid, history, st, reading, pending, shutdown);
    if o.monitor.Some? {
      var r := GetReading(reading).value;
      var t := ThermalThrottle(lim, r.1, st.control.target).value;
      DutyStepSpec(lim.maxDuty, pid(params, history, t.0, r.0), r.0, st.upper, st.lower, st.duty);
    }
  }

  /** While the loop runs the mode is Running or Throttling and the error is none; a
      status is signalled exactly when the mode flips, and it is the new status; the mode
      is Throttling exactly when the throttle said so. */
  lemma TickModes(lim: Limits, params: PidParams, pid: PidStep, history: seq<(u16, u16)>, st: Loop,
                  reading: Reading, pending: Option<Control>, shutdown: bool)
    requires st.status.mode in {Types.Running, Types.Throttling} && st.status.error == NoFault
    ensures var o := TickStep(lim, params, pid, history, st, reading, pending, shutdown);
            && o.loop.status.mode in {Types.Running, Types.Throttling} && o.loop.status.error == NoFault
            && (o.signalled.Some? <==> o.loop.status != st.status)
            && (o.signalled.Some? ==> o.signalled.value == o.loop.status)
            && (o.loop.status != st.status ==>
                  && o.history != history
                  && (o.loop.status.mode == Types.Throttling <==>
                        ThermalThrottle(lim, GetReading(reading).value.1, st.control.target).value.1))
  {
  }

  /** The tail of a pass: the monitor is published exactly on a pass that applied a new
      duty, and it reports that duty and bounds; only such a pass adopts a pending control
      (exactly when there is one); and the shutdown request is looked at last, so a clean
      stop or a continue happens only after the monitor went out. */
  lemma TickOrder(lim: Limits, params: PidParams, pid: PidStep, history: seq<(u16, u16)>, st: Loop,
                  reading: Reading, pending: Option<Control>, shutdown: bool)
    ensures var o := TickStep(lim, params, pid, history, st, reading, pending, shutdown);
            && (o.exit == Stop(None) <==> o.monitor.Some? && shutdown)
            && (o.exit == Continue <==> o.monitor.Some? && !shutdown)
            && (o.monitor.Some? ==>
                  && o.monitor.value == Monitor(o.loop.duty, o.loop.upper, o.loop.lower, GetReading(reading).value.1)
                  && o.adopted == pending.Some?
                  && o.loop.control == (if pending.Some? then pending.value else st.control))
            && (o.monitor.None? ==>
                  !o.adopted && o.loop.control == st.control && o.loop.duty == st.duty
                  && o.loop.upper == st.upper && o.loop.lower == st.lower && o.exit.Stop? && o.exit.error.Some?)
  {
  }

  // ----- the proxy mailboxes and the regulator -----

  /** The contents of the proxy's five single-value signals. */
  datatype Slots = Slots(
    control: Option<Control>,
    monitor: Option<Monitor>,
    status: Option<Status>,
    shutdownStart: bool,
    shutdownConfirm: bool)

  /** `RegulatorProxy`: each `Signal` is a slot that a signal overwrites and a wait
      empties. A wait on an empty slot blocks in the firmware; here it returns `None` (or
      `false`) to its caller instead. */
  class RegulatorProxy {
    var control: Option<Control>
    var monitor: Option<Monitor>
    var status: Option<Status>
    var shutdownStart: bool
    var shutdownConfirm: bool

    function Contents(): Slots
      reads this
    {
      Slots(control, monitor, status, shutdownStart, shutdownConfirm)
    }

    constructor ()
      ensures Contents() == Slots(None, None, None, false, false)
    {
      control, monitor, status := None, None, None;
      shutdownStart, shutdownConfirm := false, false;
    }

    /** `set_control`: overwrites a control not yet taken. */
    method SetControl(c: Control)
      modifies this
      ensures Contents() == old(Contents()).(control := Some(c))
    {
      control := Some(c);
    }

    /** `get_monitor_immediately`: the published monitor if there is one, which it takes. */
    method GetMonitorImmediately() returns (m: Option<Monitor>)
      modifies this
      ensures m == old(monitor)
      ensures Contents() == old(Contents()).(monitor := None)
    {
      if monitor.Some? {
        m := monitor;
        monitor := None;
      } else {
        m := None;
      }
    }

    /** `shutdown`: raises the shutdown request, then takes the regulator's confirmation;
        `confirmed` is false where the firmware would go on waiting. */
    method Shutdown() returns (confirmed: bool)
      modifies this
      ensures confirmed == old(shutdownConfirm)
      ensures Contents() == old(Contents()).(shutdownStart := true, shutdownConfirm := false)
    {
      shutdownStart := true;
      confirmed := shutdownConfirm;
      shutdownConfirm := false;
    }

    /** `wait_for_new_status`: takes the last signalled status. */
    method WaitForNewStatus() returns (s: Option<Status>)
      modifies this
      ensures s == old(status)
      ensures Contents() == old(Contents()).(status := None)
    {
      s := status;
      status := None;
    }
  }

  /** What the rest of the firmware did between two passes of the loop (a new control, a
      shutdown request, a status taken by `wait_for_new_status`, a monitor taken by
      `get_monitor_immediately`), and the samples the pass reads. */
  datatype Tick = Tick(control: Option<Control>, shutdown: bool, takeStatus: bool, takeMonitor: bool, reading: Reading)

  /** The whole regulation state as a value: loop variables, controller history, proxy
      slots, the duty last written to the timer, and how the loop stands. */
  datatype Regulation = Regulation(loop: Loop, history: seq<(u16, u16)>, slots: Slots, pwmDuty: u16, exit: Exit)

  /** The state right after `run` took the first control and signalled Running. */
  function Start(control: Control, history: seq<(u16, u16)>, slots: Slots, pwmDuty: u16): Regulation {
    var status := Status(Types.Running, NoFault);
    Regulation(Loop(control, 0, 0, 0, status), history,
               slots.(control := None, status := Some(status)), pwmDuty, Continue)
  }

  /** One tick: the other tasks' signals land in the slots, then one pass of the loop,
      whose signalled status, published monitor and adopted control update the slots. */
  function Pass(lim: Limits, params: PidParams, pid: PidStep, r: Regulation, t: Tick): Regulation {
    var slots := Arrive(r.slots, t);
    var o := TickStep(lim, params, pid, r.history, r.loop, t.reading, slots.control, slots.shutdownStart);
    Regulation(o.loop, o.history, Settle(slots, o), if o.monitor.Some? then o.loop.duty else r.pwmDuty, o.exit)
  }

  /** The slots as the pass finds them: a new control overwrites the pending one, a
      shutdown request is raised, and a taken status or monitor leaves its slot empty. */
  function Arrive(slots: Slots, t: Tick): Slots {
    slots.(control := if t.control.Some? then t.control else slots.control,
           shutdownStart := slots.shutdownStart || t.shutdown,
           status := if t.takeStatus then None else slots.status,
           monitor := if t.takeMonitor then None else slots.monitor)
  }

  /** The slots after a pass: an adopted control is taken, a signalled status and a
      published monitor overwrite theirs. */
  function Settle(slots: Slots, o: TickOutcome): Slots {
    slots.(control := if o.adopted then None else slots.control,
           status := if o.signalled.Some? then o.signalled else slots.status,
           monitor := if o.monitor.Some? then o.monitor else slots.monitor)
  }

  /** The loop over a finite run of ticks, stopping at the first pass that breaks. */
  function RunPasses(lim: Limits, params: PidParams, pid: PidStep, r: Regulation, ticks: seq<Tick>): (r': Regulation)
    ensures r.exit != Continue ==> r' == r
    decreases |ticks|
  {
    if |ticks| == 0 || r.exit != Continue then r
    else RunPasses(lim, params, pid, Pass(lim, params, pid, r, ticks[0]), ticks[1..])
  }

  /** The status `run` signals last: the fault with its runtime error, or Idle. */
  function FinalStatus(status: Status, error: Option<RuntimeError>): Status {
    if error.Some? then Status(Types.Fault, RuntimeFault(error.value)) else status.(mode := Types.Idle)
  }

  /** What holds of the regulation state while the loop runs: the duty is within the
      cap, the mode is Running or Throttling with no error, and a status still in its slot
      is the current one, since every change of it is signalled. */
  ghost predicate Regulating(lim: Limits, r: Regulation) {
    && r.loop.duty <= lim.maxDuty
    && r.loop.status.mode in {Types.Running, Types.Throttling}
    && r.loop.status.error == NoFault
    && (r.slots.status.Some? ==> r.slots.status.value == r.loop.status)
  }

  /** The status slot holds the current status: true while nobody has taken it. */
  ghost predicate StatusPending(r: Regulation) {
    r.slots.status == Some(r.loop.status)
  }

  lemma StartRegulating(lim: Limits, control: Control, history: seq<(u16, u16)>, slots: Slots, pwmDuty: u16)
    ensures Regulating(lim, Start(control, history, slots, pwmDuty))
    ensures StatusPending(Start(control, history, slots, pwmDuty))
    ensures Start(control, history, slots, pwmDuty).slots.status == Some(Status(Types.Running, NoFault))
  {
  }

  /** One tick keeps the loop's invariant. */
  lemma PassRegulating(lim: Limits, params: PidParams, pid: PidStep, r: Regulation, t: Tick)
    requires Regulating(lim, r)
    ensures Regulating(lim, Pass(lim, params, pid, r, t))
    ensures StatusPending(r) && !t.takeStatus ==> StatusPending(Pass(lim, params, pid, r, t))
  {
    var slots := Arrive(r.slots, t);
    TickDutyBounded(lim, params, pid, r.history, r.loop, t.reading, slots.control, slots.shutdownStart);
    TickModes(lim, params, pid, r.history, r.loop, t.reading, slots.control, slots.shutdownStart);
  }

  /** Over any run of ticks the invariant holds, and when no tick took the status its
      slot still holds the current one. */
  lemma {:induction false} RunPassesRegulating(lim: Limits, params: PidParams, pid: PidStep, r: Regulation, ticks: seq<Tick>)
    requires Regulating(lim, r)
    ensures Regulating(lim, RunPasses(lim, params, pid, r, ticks))
    ensures StatusPending(r) && (forall i :: 0 <= i < |ticks| ==> !ticks[i].takeStatus) ==>
              StatusPending(RunPasses(lim, params, pid, r, ticks))
    decreases |ticks|
  {
    if |ticks| > 0 && r.exit == Continue {
      PassRegulating(lim, params, pid, r, ticks[0]);
      RunPassesRegulating(lim, params, pid, Pass(lim, params, pid, r, ticks[0]), ticks[1..]);
    }
  }

  /** How `run` ends, from the first control on: the duty it left is within the cap, and
      the final status is the runtime fault that broke the loop, or Idle with no error
      after a clean shutdown. */
  lemma RunEnds(lim: Limits, params: PidParams, pid: PidStep, control: Control, history: seq<(u16, u16)>,
                slots: Slots, pwmDuty: u16, ticks: seq<Tick>)
    ensures var r := RunPasses(lim, params, pid, Start(control, history, slots, pwmDuty), ticks);
            && r.loop.duty <= lim.maxDuty
            && (r.exit == Continue ==>
                  (r.slots.status.Some? ==> r.slots.status.value == r.loop.status)
                  && r.loop.status.mode in {Types.Running, Types.Throttling})
            && (r.exit == Continue && (forall i :: 0 <= i < |ticks| ==> !ticks[i].takeStatus) ==>
                  r.slots.status == Some(r.loop.status))
            && (r.exit == Stop(None) ==> FinalStatus(r.loop.status, None) == Status(Types.Idle, NoFault))
            && (r.exit.Stop? && r.exit.error.Some? ==>
                  FinalStatus(r.loop.status, r.exit.error) == Status(Types.Fault, RuntimeFault(r.exit.error.value)))
  {
    StartRegulating(lim, control, history, slots, pwmDuty);
    RunPassesRegulating(lim, params, pid, Start(control, history, slots, pwmDuty), ticks);
  }

  /** How far `run` got: the first control never came; the ticks ran out with the loop
      still going; or the loop ended, with an error or cleanly. */
  datatype RunOutcome = WaitingForControl | StillRunning | Stopped(error: Option<RuntimeError>)

  /** `Regulator`: its limits and controller gains are fixed at construction; the
      controller's history and the hardware outputs change as it runs. */
  class Regulator {
    const limits: Limits
    const pidParams: PidParams
    const pid: PidStep
    /** The controller's internal state: every input it has been given. */
    var history: seq<(u16, u16)>
    /** The H-bridge enable pin, the PWM channel, its duty, and the fault LED. */
    var enable: bool
    var pwmEnabled: bool
    var pwmDuty: u16
    var faultLed: bool

    /** `Regulator::new`, with the timer's maximum duty and the controller as inputs. */
    constructor (config: Config, pwmMaxDuty: u16, pid: PidStep)
      requires config.gain != 0
      requires config.throttleStart < 100 && config.throttleStop < 100
      ensures limits == LimitsOf(config, pwmMaxDuty) && pidParams == PidParamsOf(config) && this.pid == pid
      ensures history == [] && !enable && !pwmEnabled && pwmDuty == 0 && !faultLed
    {
      limits := LimitsOf(config, pwmMaxDuty);
      pidParams := PidParamsOf(config);
      this.pid := pid;
      history := [];
      enable, pwmEnabled, pwmDuty, faultLed := false, false, 0, false;
    }

    /** `startup`: enable the bridge, then the PWM channel. */
    method Startup()
      modifies this
      ensures enable && pwmEnabled
      ensures history == old(history) && pwmDuty == old(pwmDuty) && faultLed == old(faultLed)
    {
      enable := true;
      pwmEnabled := true;
    }

    /** `shutdown`: disable the PWM channel, then the bridge. */
    method Shutdown()
      modifies this
      ensures !enable && !pwmEnabled
      ensures history == old(history) && pwmDuty == old(pwmDuty) && faultLed == old(faultLed)
    {
      pwmEnabled := false;
      enable := false;
    }

    /** `next_duty`: feeds the controller and applies `DutyStep` to its answer; the bounds
        stay as they were when the controller fails. */
    method NextDuty(current: u16, upper: u16, lower: u16, target: u16, prevDuty: u16)
      returns (r: Result<u16, RuntimeError>, upper': u16, lower': u16)
      modifies this
      ensures history == old(history) + [(target, current)]
      ensures enable == old(enable) && pwmEnabled == old(pwmEnabled) && pwmDuty == old(pwmDuty) && faultLed == old(faultLed)
      ensures var step := DutyStep(limits.maxDuty, pid(pidParams, old(history), target, current), current, upper, lower, prevDuty);
              && (step.Ok? ==> r == Ok(step.value.duty) && upper' == step.value.upper && lower' == step.value.lower)
              && (step.Err? ==> r == Err(step.error) && upper' == upper && lower' == lower)
    {
      var delta := pid(pidParams, history, target, current);
      history := history + [(target, current)];
      upper', lower' := upper, lower;
      if delta.Some? {
        if current < lower || delta.value > 0 {
          lower' := current;
        }
        if current > upper || delta.value < 0 {
          upper' := current;
        }
        r := Ok(Min(limits.maxDuty, SaturatingAddSigned(prevDuty, delta.value)));
      } else {
        r := Err(ArithmeticError);
      }
    }

    /** One tick of `run`'s loop: the other tasks' signals, then one pass of the body,
        with the loop variables in `st`. */
    method RunPass(proxy: RegulatorProxy, t: Tick, st: Loop) returns (st': Loop, exit: Exit)
      modifies this, proxy
      ensures enable == old(enable) && pwmEnabled == old(pwmEnabled) && faultLed == old(faultLed)
      ensures Regulation(st', history, proxy.Contents(), pwmDuty, exit)
              == Pass(limits, pidParams, pid, Regulation(st, old(history), old(proxy.Contents()), old(pwmDuty), Continue), t)
    {
      Between(proxy, t);
      st' := st;
      var reading := GetReading(t.reading);
      if reading.None? {
        exit := Stop(Some(ArithmeticError));
      } else {
        var (current, temperature) := reading.value;
        var fault := CheckFault(limits, current, st.control.target, temperature, st.duty);
        if fault.Some? {
          exit := Stop(fault);
        } else {
          var throttled := ThermalThrottle(limits, temperature, st.control.target);
          if throttled.Err? {
            exit := Stop(Some(throttled.error));
          } else {
            var (target, throttling) := throttled.value;
            st', exit := Regulate(proxy, st, current, temperature, target, throttling);
          }
        }
      }
    }

    /** What the other tasks signalled and took since the last pass. */
    method Between(proxy: RegulatorProxy, t: Tick)
      modifies proxy
      ensures proxy.Contents() == Arrive(old(proxy.Contents()), t)
    {
      if t.control.Some? {
        proxy.control := t.control;
      }
      if t.shutdown {
        proxy.shutdownStart := true;
      }
      if t.takeStatus {
        proxy.status := None;
      }
      if t.takeMonitor {
        proxy.monitor := None;
      }
    }

    /** The mode update after the throttle: a flip to Throttling or back to Running is
        signalled, staying in the same mode is not. */
    method SignalMode(proxy: RegulatorProxy, status: Status, throttling: bool) returns (status': Status)
      modifies proxy
      ensures status' == status.(mode := ModeAfter(status.mode, throttling))
      ensures proxy.Contents() == old(proxy.Contents()).(status := if status' != status then Some(status') else old(proxy.status))
    {
      status' := status;
      if throttling && status.mode != Types.Throttling {
        status' := status.(mode := Types.Throttling);
        proxy.status := Some(status');
      } else if !throttling && status.mode != Types.Running {
        status' := status.(mode := Types.Running);
        proxy.status := Some(status');
      }
    }

    /** The body of the loop after the throttle: signal a mode flip, run `next_duty` and
        write the duty, adopt a pending control, publish the monitor, check shutdown. */
    method Regulate(proxy: RegulatorProxy, st: Loop, current: u16, temperature: u16, target: u16, throttling: bool)
      returns (st': Loop, exit: Exit)
      modifies this, proxy
      ensures enable == old(enable) && pwmEnabled == old(pwmEnabled) && faultLed == old(faultLed)
      ensures var o := RegulateStep(limits, pidParams, pid, old(history), st, current, temperature, target, throttling,
                                    old(proxy.control), old(proxy.shutdownStart));
              && st' == o.loop && exit == o.exit && history == o.history
              && pwmDuty == (if o.monitor.Some? then o.loop.duty else old(pwmDuty))
              && proxy.Contents() == Settle(old(proxy.Contents()), o)
    {
      ghost var o := RegulateStep(limits, pidParams, pid, history, st, current, temperature, target, throttling,
                                  proxy.control, proxy.shutdownStart);
      ghost var step := DutyStep(limits.maxDuty, pid(pidParams, history, target, current), current, st.upper, st.lower, st.duty);
      var control, duty, upper, lower := st.control, st.duty, st.upper, st.lower;
      exit := Continue;
      var status := SignalMode(proxy, st.status, throttling);
      ghost var signalled := if status != st.status then Some(status) else None;
      var next, upper', lower' := NextDuty(current, upper, lower, target, duty);
      if next.Err? {
        exit := Stop(Some(next.error));
        assert o == TickOutcome(st.(status := status), history, signalled, false, None, exit);
      } else {
        assert step.Ok?;
        upper, lower := upper', lower';
        pwmDuty := next.value;
        duty := next.value;
        if proxy.control.Some? {
          control := proxy.control.value;
          proxy.control := None;
        }
        proxy.monitor := Some(Monitor(duty, upper, lower, temperature));
        if proxy.shutdownStart {
          exit := Stop(None);
        }
        assert o == TickOutcome(Loop(control, duty, upper, lower, status), history, signalled,
                                old(proxy.control).Some?, proxy.monitor, exit);
      }
      st' := Loop(control, duty, upper, lower, status);
    }

    /** `run` over a finite run of ticks. It waits for a first control (here: finds none
        and returns), starts the bridge and signals Running, then loops as `RunPasses`
        says; when the loop breaks it shuts the bridge down, confirms the shutdown, lights
        the fault LED on an error, and signals the final status. */
    method Run(proxy: RegulatorProxy, ticks: seq<Tick>) returns (outcome: RunOutcome)
      modifies this, proxy
      ensures old(proxy.control).None? ==>
                outcome == WaitingForControl && proxy.Contents() == old(proxy.Contents())
                && history == old(history) && enable == old(enable) && pwmEnabled == old(pwmEnabled)
                && pwmDuty == old(pwmDuty) && faultLed == old(faultLed)
      ensures old(proxy.control).Some? ==>
                var r := RunPasses(limits, pidParams, pid,
                                   Start(old(proxy.control).value, old(history), old(proxy.Contents()), old(pwmDuty)), ticks);
                && history == r.history && pwmDuty == r.pwmDuty
                && (r.exit == Continue ==>
                      outcome == StillRunning && proxy.Contents() == r.slots
                      && enable && pwmEnabled && faultLed == old(faultLed))
                && (r.exit.Stop? ==>
                      && outcome == Stopped(r.exit.error)
                      && proxy.Contents() == r.slots.(shutdownConfirm := true,
                                                      status := Some(FinalStatus(r.loop.status, r.exit.error)))
                      && !enable && !pwmEnabled && faultLed == (old(faultLed) || r.exit.error.Some?))
    {
      if proxy.control.None? {
        return WaitingForControl;
      }
      var control := proxy.control.value;
      proxy.control := None;
      var duty: u16, upper: u16, lower: u16 := 0, 0, 0;
      var status := Status(Types.Running, NoFault);
      Startup();
      proxy.status := Some(status);
      ghost var start := Start(control, old(history), old(proxy.Contents()), old(pwmDuty));
      var exit := Continue;
      var i := 0;
      while i < |ticks| && exit == Continue
        invariant 0 <= i <= |ticks|
        invariant enable && pwmEnabled && faultLed == old(faultLed)
        invariant RunPasses(limits, pidParams, pid, start, ticks) ==
                  RunPasses(limits, pidParams, pid,
                            Regulation(Loop(control, duty, upper, lower, status), history, proxy.Contents(), pwmDuty, exit),
                            ticks[i..])
      {
        var st;
        st, exit := RunPass(proxy, ticks[i], Loop(control, duty, upper, lower, status));
        control, duty, upper, lower, status := st.control, st.duty, st.upper, st.lower, st.status;
        assert ticks[i..][1..] == ticks[i + 1..];
        i := i + 1;
      }
      if exit == Continue {
        return StillRunning;
      }
      Shutdown();
      proxy.shutdownConfirm := true;
      if exit.error.Some? {
        status := Status(Types.Fault, RuntimeFault(exit.error.value));
        faultLed := true;
      } else {
        status := status.(mode := Types.Idle);
      }
      proxy.status := Some(status);
      outcome := Stopped(exit.error);
    }
  }
}

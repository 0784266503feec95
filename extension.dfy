/** What the power-stage firmware does with each received command,
    `stm/src/command/extension.rs`: answer a request by queueing the bundle it names,
    adopt a control, store a configuration and reset, or reset outright. The conversion of
    a received configuration into a validated one belongs to a revision of
    `stm/src/utils/config.rs` that is not part of this model, so its verdict is an input;
    so is the outcome of the flash write, and the reset (which does not return) is
    reported as an output. */
module Extension {
  import opened Wrappers
  import Types
  import opened Commands
  import opened Bundles
  import opened WriterQueues
  import opened Regulation
  import opened HeadlightModel

  datatype ExecError = RequestUnavailable

  /** The bundle a request is answered with, from the model's state at the time: the
      status, the control, a fresh monitor reading, or the boot configuration. */
  function RequestReply(r: Request, status: Status, control: Control, monitor: Option<Monitor>, config: Config)
    : (reply: Result<FromHeadlightBundle, ExecError>)
    ensures reply.Err? <==> r == MonitorRequest && monitor.None?
    ensures reply.Ok? ==> FromId(reply.value) == RequestCode(r)
  {
    match r
    case StatusRequest => Ok(FromStatus(status))
    case ControlRequest => Ok(FromControl(control))
    case MonitorRequest => if monitor.Some? then Ok(FromMonitor(monitor.value)) else Err(RequestUnavailable)
    case ConfigRequest => Ok(FromConfig(config))
  }

  /** The reply carries exactly the model's value the request names. */
  lemma RequestReplyContents(r: Request, status: Status, control: Control, monitor: Option<Monitor>, config: Config)
    ensures r == StatusRequest ==> RequestReply(r, status, control, monitor, config) == Ok(FromStatus(status))
    ensures r == ControlRequest ==> RequestReply(r, status, control, monitor, config) == Ok(FromControl(control))
    ensures r == ConfigRequest ==> RequestReply(r, status, control, monitor, config) == Ok(FromConfig(config))
    ensures r == MonitorRequest && monitor.Some? ==>
              RequestReply(r, status, control, monitor, config) == Ok(FromMonitor(monitor.value))
  {
  }

  /** `Request::run`: one reply queued, or `RequestUnavailable` and nothing queued when
      there is no fresh monitor reading. Asking for the monitor takes it from the proxy. */
  method RunRequest(model: Model, r: Request) returns (res: Result<(), ExecError>, queued: bool)
    requires model.Valid()
    modifies model.proxy, model.sendQueue
    ensures model.Valid()
    ensures var reply := RequestReply(r, model.status, model.control, old(model.proxy.monitor), model.config);
            && (reply.Err? ==> res == Err(reply.error) && !queued && model.sendQueue.items == old(model.sendQueue.items))
            && (reply.Ok? ==> res == Ok(()))
            && (reply.Ok? && queued ==> model.sendQueue.items == old(model.sendQueue.items) + [reply.value])
            && (reply.Ok? && !queued ==> model.sendQueue.items == old(model.sendQueue.items))
            && (reply.Ok? ==> (queued <==> |old(model.sendQueue.items)| < model.sendQueue.capacity))
    ensures r != MonitorRequest ==> model.proxy.Contents() == old(model.proxy.Contents())
    ensures r == MonitorRequest ==> model.proxy.Contents() == old(model.proxy.Contents()).(monitor := None)
  {
    var bundle;
    match r {
      case StatusRequest =>
        var mode := model.GetMode();
        var error := model.GetError();
        bundle := FromStatus(Status(mode, error));
      case ControlRequest =>
        var control := model.GetControl();
        bundle := FromControl(control);
      case MonitorRequest =>
        var monitor := model.GetMonitorImmediately();
        if monitor.None? {
          return Err(RequestUnavailable), false;
        }
        bundle := FromMonitor(monitor.value);
      case ConfigRequest =>
        bundle := FromConfig(model.config);
    }
    queued := model.sendQueue.Send(bundle);
    res := Ok(());
  }

  /** `Control::run`: exactly `set_control`, and always `Ok`. */
  method RunControl(model: Model, c: Control) returns (res: Result<(), ExecError>, queued: bool)
    requires model.Valid()
    modifies model, model.proxy, model.sendQueue
    ensures model.Valid() && res == Ok(())
    ensures model.control == c && model.status == old(model.status)
    ensures model.proxy.Contents() == old(model.proxy.Contents()).(control := Some(c))
    ensures queued <==> |old(model.sendQueue.items)| < model.sendQueue.capacity
    ensures queued ==> model.sendQueue.items == old(model.sendQueue.items) + [FromControl(c)]
    ensures !queued ==> model.sendQueue.items == old(model.sendQueue.items)
  {
    queued := model.SetControl(c);
    res := Ok(());
  }

  /** What `Config::run` does, given whether the model was configured enabled, the
      validation verdict, whether the regulator had confirmed its shutdown, and the flash
      write's outcome. `waiting` marks a call still blocked on that confirmation: it has
      requested the shutdown and done nothing else. */
  datatype ConfigActions = ConfigActions(shutdown: bool, waiting: bool, write: bool, reset: bool,
                                         error: Option<HeadlightError>)

  function ConfigRun(enabled: bool, invalid: Option<Types.ConfigError>, confirmed: bool, writeOk: bool)
    : (a: ConfigActions)
    ensures invalid.Some? ==> a == ConfigActions(false, false, false, false, Some(ConfigFault(invalid.value)))
    ensures invalid.None? ==> a.shutdown == enabled && (a.waiting <==> enabled && !confirmed)
    ensures invalid.None? && a.waiting ==> !a.write && !a.reset && a.error.None?
    ensures invalid.None? && !a.waiting ==> a.write && a.reset == writeOk
    ensures invalid.None? && !a.waiting ==> a.error == if writeOk then None else Some(RuntimeFault(Flash))
    ensures a.write ==> !enabled || confirmed
    ensures a.reset ==> a.write && a.error.None?
  {
    if invalid.Some? then ConfigActions(false, false, false, false, Some(FromConfigError(invalid.value)))
    else if enabled && !confirmed then ConfigActions(true, true, false, false, None)
    else if writeOk then ConfigActions(enabled, false, true, true, None)
    else ConfigActions(enabled, false, true, false, Some(FromRuntimeError(Flash)))
  }

  /** `Config::run`: an invalid configuration only records the configuration error; a
      valid one first stops the regulator if the boot configuration had it enabled and
      waits for its confirmation (`waiting` where it has not arrived), is then written,
      and then resets the device, or records a flash error if the write failed. A
      recorded error queues the new status like `set_error`. It answers `Ok`. */
  method RunConfig(model: Model, invalid: Option<Types.ConfigError>, writeOk: bool)
    returns (res: Result<(), ExecError>, waiting: bool, wrote: bool, reset: bool, queued: bool)
    requires model.Valid()
    modifies model, model.proxy, model.sendQueue
    ensures model.Valid() && res == Ok(())
    ensures var a := ConfigRun(model.config.enabled, invalid, old(model.proxy.shutdownConfirm), writeOk);
            && waiting == a.waiting && wrote == a.write && reset == a.reset
            && model.control == old(model.control)
            && (a.error.None? ==> model.status == old(model.status) && !queued
                                  && model.sendQueue.items == old(model.sendQueue.items))
            && (a.error.Some? ==> model.status == old(model.status).(error := a.error.value)
                                  && (queued <==> |old(model.sendQueue.items)| < model.sendQueue.capacity))
            && (queued ==> model.sendQueue.items == old(model.sendQueue.items) + [FromStatus(model.status)])
            && (a.error.Some? && !queued ==> model.sendQueue.items == old(model.sendQueue.items))
            && (a.shutdown ==> model.proxy.Contents() == old(model.proxy.Contents()).(shutdownStart := true, shutdownConfirm := false))
            && (!a.shutdown ==> model.proxy.Contents() == old(model.proxy.Contents()))
    ensures wrote ==> !model.config.enabled || old(model.proxy.shutdownConfirm)
  {
    waiting, wrote, reset, queued := false, false, false, false;
    if invalid.None? {
      if model.config.enabled {
        var confirmed := model.ShutdownRegulation();
        if !confirmed {
          return Ok(()), true, false, false, false;
        }
      }
      wrote := true;
      if writeOk {
        reset := RunReset(Types.Now);
      } else {
        queued := model.SetError(FromRuntimeError(Flash));
      }
    } else {
      queued := model.SetError(FromConfigError(invalid.value));
    }
    res := Ok(());
  }

  /** `Reset::run`: `Now` resets the system. */
  method RunReset(r: Types.Reset) returns (reset: bool)
    ensures reset
  {
    match r {
      case Now => reset := true;
    }
  }
}

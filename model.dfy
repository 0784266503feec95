/** The shared state of the power-stage firmware, `stm/src/utils/model.rs`: the boot
    configuration, the current status and control, the queue of bundles to send, and the
    regulator's proxy. Each lock is taken for one method call, so a call is atomic here;
    the only contention modelled is `try_lock` failing, which is an input. */
module HeadlightModel {
  import opened Wrappers
  import opened Commands
  import opened Bundles
  import opened WriterQueues
  import opened Regulation

  class Model {
    /** The configuration loaded on boot. */
    const config: Config
    const sendQueue: WriterQueue<FromHeadlightBundle>
    const proxy: RegulatorProxy
    var status: Status
    /** The model's copy of the regulator's control. */
    var control: Control

    ghost predicate Valid()
      reads this, sendQueue
    {
      sendQueue.Valid()
    }

    /** `Model::new`, given the configuration `ValidatedConfig::inner` returns: the
        control starts as the configured startup control, which is also handed to the
        regulator, and the send queue starts empty. */
    constructor (config: Config, initialStatus: Status, proxy: RegulatorProxy)
      modifies proxy
      ensures Valid() && fresh(sendQueue)
      ensures this.config == config && this.proxy == proxy
      ensures control == config.startupControl && status == initialStatus && sendQueue.items == []
      ensures proxy.Contents() == old(proxy.Contents()).(control := Some(config.startupControl))
    {
      this.config := config;
      this.proxy := proxy;
      control := config.startupControl;
      proxy.SetControl(config.startupControl);
      status := initialStatus;
      sendQueue := new WriterQueue();
    }

    method GetMode() returns (m: Types.Mode)
      ensures m == status.mode
    {
      m := status.mode;
    }

    /** `set_mode`: the mode alone changes, and the new status is queued for sending
        (`queued` is false where the firmware would wait for room). */
    method SetMode(mode: Types.Mode) returns (queued: bool)
      requires Valid()
      modifies this, sendQueue
      ensures Valid()
      ensures status == old(status).(mode := mode) && control == old(control)
      ensures queued <==> |old(sendQueue.items)| < sendQueue.capacity
      ensures queued ==> sendQueue.items == old(sendQueue.items) + [FromStatus(status)]
      ensures !queued ==> sendQueue.items == old(sendQueue.items)
    {
      status := status.(mode := mode);
      queued := sendQueue.Send(FromStatus(status));
    }

    method GetError() returns (e: HeadlightError)
      ensures e == status.error
    {
      e := status.error;
    }

    /** `set_error`: the error alone changes, and the new status is queued for sending. */
    method SetError(error: HeadlightError) returns (queued: bool)
      requires Valid()
      modifies this, sendQueue
      ensures Valid()
      ensures status == old(status).(error := error) && control == old(control)
      ensures queued <==> |old(sendQueue.items)| < sendQueue.capacity
      ensures queued ==> sendQueue.items == old(sendQueue.items) + [FromStatus(status)]
      ensures !queued ==> sendQueue.items == old(sendQueue.items)
    {
      status := status.(error := error);
      queued := sendQueue.Send(FromStatus(status));
    }

    method GetControl() returns (c: Control)
      ensures c == control
    {
      c := control;
    }

    /** `set_control`: the model's copy, the regulator's pending control and the queued
        bundle all become `c`. */
    method SetControl(c: Control) returns (queued: bool)
      requires Valid()
      modifies this, proxy, sendQueue
      ensures Valid()
      ensures control == c && status == old(status)
      ensures proxy.Contents() == old(proxy.Contents()).(control := Some(c))
      ensures queued <==> |old(sendQueue.items)| < sendQueue.capacity
      ensures queued ==> sendQueue.items == old(sendQueue.items) + [FromControl(c)]
      ensures !queued ==> sendQueue.items == old(sendQueue.items)
    {
      control := c;
      proxy.SetControl(control);
      queued := sendQueue.Send(FromControl(control));
    }

    /** `set_control_immediately`: nothing at all when the control lock is busy;
        otherwise the copy and the regulator are updated even when the queue is full, and
        the bundle is queued only if there is room. */
    method SetControlImmediately(c: Control, lockBusy: bool)
      requires Valid()
      modifies this, proxy, sendQueue
      ensures Valid()
      ensures status == old(status)
      ensures lockBusy ==> control == old(control) && proxy.Contents() == old(proxy.Contents())
                           && sendQueue.items == old(sendQueue.items)
      ensures !lockBusy ==> control == c && proxy.Contents() == old(proxy.Contents()).(control := Some(c))
      ensures !lockBusy && |old(sendQueue.items)| < sendQueue.capacity ==>
                sendQueue.items == old(sendQueue.items) + [FromControl(c)]
      ensures !lockBusy && |old(sendQueue.items)| >= sendQueue.capacity ==>
                sendQueue.items == old(sendQueue.items)
    {
      if !lockBusy {
        control := c;
        proxy.SetControl(control);
        var _ := sendQueue.TrySend(FromControl(control));
      }
    }

    /** `get_monitor_immediately`: the regulator's last published monitor, taken. */
    method GetMonitorImmediately() returns (m: Option<Monitor>)
      modifies proxy
      ensures m == old(proxy.monitor)
      ensures proxy.Contents() == old(proxy.Contents()).(monitor := None)
    {
      m := proxy.GetMonitorImmediately();
    }

    /** `shutdown_regulation`: the proxy's shutdown handshake. */
    method ShutdownRegulation() returns (confirmed: bool)
      modifies proxy
      ensures confirmed == old(proxy.shutdownConfirm)
      ensures proxy.Contents() == old(proxy.Contents()).(shutdownStart := true, shutdownConfirm := false)
    {
      confirmed := proxy.Shutdown();
    }
  }
}

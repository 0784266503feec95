/** The bridge MCU's writer, `nrf/src/command_writer.rs`. Its `send` is the same code as
    the older writer's (`LegacyCommandWriter.HeadlightCommandWriter.Send`): header, then
    payload, each write unwrapped. `send_command_worker` drains the `WriterQueue` of
    `SendBundle`s, sending one frame per bundle, in queue order. */
module NrfCommandWriter {
  import opened Wrappers
  import opened Ints
  import opened LegacyCommands
  import opened LegacyCommandWriter
  import opened WriterQueues
  import CommandWriter
  import opened Seqs

  /** `SendBundle`: what the bridge sends the headlight. */
  datatype SendBundle =
    | RequestBundle(request: RequestCommand)
    | BrightnessBundle(brightness: BrightnessCommand)
    | PIDBundle(pid: PIDCommand)

  function SendId(b: SendBundle): u8 {
    match b
    case RequestBundle(_) => REQUEST_ID
    case BrightnessBundle(_) => BRIGHTNESS_ID
    case PIDBundle(_) => PID_ID
  }

  function SendPayload(b: SendBundle): seq<u8> {
    match b
    case RequestBundle(r) => EncodeRequest(r)
    case BrightnessBundle(x) => EncodeBrightness(x)
    case PIDBundle(p) => EncodePID(p)
  }

  /** The outcomes the transport gives the two writes of one `send`. */
  datatype WriteOutcomes<E> = WriteOutcomes(header: Result<nat, E>, payload: Result<nat, E>)

  /** What the worker writes when the queue holds `bundles` and the sends see `outs`, in
      order: how many bundles it takes, and whether a write panicked. It stops when the
      queue or the given outcomes run out. */
  function WorkerRun<E>(bundles: seq<SendBundle>, outs: seq<WriteOutcomes<E>>): (r: (seq<u8>, nat, bool))
    ensures r.1 <= |bundles| && r.1 <= |outs|
    decreases |bundles|
  {
    if bundles == [] || outs == [] then ([], 0, false)
    else
      var sent := Written(SendId(bundles[0]), SendPayload(bundles[0]), outs[0].header, outs[0].payload);
      if sent.1 == Panicked then (sent.0, 1, true)
      else
        var later := WorkerRun(bundles[1..], outs[1..]);
        (sent.0 + later.0, 1 + later.1, later.2)
  }

  /** One send of the worker that does not panic, and the rest of the run after it. */
  lemma WorkerStep<E>(bundles: seq<SendBundle>, outs: seq<WriteOutcomes<E>>)
    requires bundles != [] && outs != []
    requires Written(SendId(bundles[0]), SendPayload(bundles[0]), outs[0].header, outs[0].payload).1 == Sent
    ensures WorkerRun(bundles, outs).0
            == Written(SendId(bundles[0]), SendPayload(bundles[0]), outs[0].header, outs[0].payload).0 + WorkerRun(bundles[1..], outs[1..]).0
    ensures WorkerRun(bundles, outs).1 == 1 + WorkerRun(bundles[1..], outs[1..]).1
    ensures WorkerRun(bundles, outs).2 == WorkerRun(bundles[1..], outs[1..]).2
  {
    var sent := Written(SendId(bundles[0]), SendPayload(bundles[0]), outs[0].header, outs[0].payload);
    assert sent.1 != Panicked;
  }

  /** The frames of the bundles, one after another. */
  function Frames(bundles: seq<SendBundle>): seq<u8>
    decreases |bundles|
  {
    if bundles == [] then [] else CommandWriter.Frame(SendId(bundles[0]), SendPayload(bundles[0])) + Frames(bundles[1..])
  }

  /** A write that the transport completes. */
  predicate Complete<E>(o: WriteOutcomes<E>, payloadSize: nat) {
    o.header.Ok? && o.header.value >= 2 && o.payload.Ok? && o.payload.value >= payloadSize
  }

  /** When every write completes, the worker sends all queued bundles, in queue order, one
      whole frame each, and does not panic. */
  lemma {:induction false} WorkerFifo<E>(bundles: seq<SendBundle>, outs: seq<WriteOutcomes<E>>)
    requires |bundles| <= |outs|
    requires forall i :: 0 <= i < |bundles| ==> Complete(outs[i], |SendPayload(bundles[i])|)
    ensures WorkerRun(bundles, outs) == (Frames(bundles), |bundles|, false)
    decreases |bundles|
  {
    if bundles != [] {
      var b, o := bundles[0], outs[0];
      assert Complete(o, |SendPayload(b)|);
      SendIgnoresCounts(SendId(b), SendPayload(b), o.header, o.payload);
      var bs, os := bundles[1..], outs[1..];
      forall i | 0 <= i < |bs|
        ensures Complete(os[i], |SendPayload(bs[i])|)
      {
        assert bs[i] == bundles[i + 1] && os[i] == outs[i + 1];
      }
      WorkerFifo(bs, os);
      WorkerStep(bundles, outs);
    }
  }

  /** A worker run that panics ends with the send that panicked. */
  lemma {:induction false} WorkerTakes<E>(bundles: seq<SendBundle>, outs: seq<WriteOutcomes<E>>)
    ensures WorkerRun(bundles, outs).2 ==>
              var n := WorkerRun(bundles, outs).1;
              && n > 0
              && Written(SendId(bundles[n - 1]), SendPayload(bundles[n - 1]), outs[n - 1].header, outs[n - 1].payload).1 == Panicked
    decreases |bundles|
  {
    if bundles != [] && outs != [] {
      var sent := Written(SendId(bundles[0]), SendPayload(bundles[0]), outs[0].header, outs[0].payload);
      if sent.1 != Panicked {
        WorkerTakes(bundles[1..], outs[1..]);
      }
    }
  }

  /** The worker's loop invariant survives one send that returns normally: what remains of
      the run after it is the run over the rest of the queue and the outcomes. */
  lemma WorkerAdvance<E>(w0: seq<u8>, run: (seq<u8>, nat, bool), i: nat, before: seq<u8>,
                         items: seq<SendBundle>, outs: seq<WriteOutcomes<E>>)
    requires items != [] && outs != []
    requires Written(SendId(items[0]), SendPayload(items[0]), outs[0].header, outs[0].payload).1 == Sent
    requires w0 + run.0 == before + WorkerRun(items, outs).0
    requires run.1 == i + WorkerRun(items, outs).1
    requires run.2 == WorkerRun(items, outs).2
    ensures var after := before + Written(SendId(items[0]), SendPayload(items[0]), outs[0].header, outs[0].payload).0;
      && w0 + run.0 == after + WorkerRun(items[1..], outs[1..]).0
      && run.1 == i + 1 + WorkerRun(items[1..], outs[1..]).1
      && run.2 == WorkerRun(items[1..], outs[1..]).2
  {
    WorkerStep(items, outs);
    ConcatAssoc(before, Written(SendId(items[0]), SendPayload(items[0]), outs[0].header, outs[0].payload).0, WorkerRun(items[1..], outs[1..]).0);
  }

  /** `send_command_worker`: takes bundles from the queue, oldest first, and sends each;
      it ends at the first panic, or where it would wait for the queue, or when the given
      write outcomes run out. */
  method SendCommandWorker<E>(writer: HeadlightCommandWriter<E>, queue: WriterQueue<SendBundle>, outs: seq<WriteOutcomes<E>>)
    returns (panicked: bool)
    requires queue.Valid()
    modifies writer.tx, queue
    ensures queue.Valid()
    ensures writer.tx.written == old(writer.tx.written) + WorkerRun(old(queue.items), outs).0
    ensures queue.items == old(queue.items)[WorkerRun(old(queue.items), outs).1..]
    ensures panicked == WorkerRun(old(queue.items), outs).2
  {
    ghost var w0 := writer.tx.written;
    ghost var items0 := queue.items;
    ghost var run := WorkerRun(items0, outs);
    var i := 0;
    assert outs[0..] == outs && items0[0..] == items0;
    assert w0 + run.0 == writer.tx.written + run.0;
    while i < |outs|
      invariant queue.Valid()
      invariant 0 <= i <= |items0| && i <= |outs|
      invariant queue.items == items0[i..]
      invariant w0 + run.0 == writer.tx.written + WorkerRun(queue.items, outs[i..]).0
      invariant run.1 == i + WorkerRun(queue.items, outs[i..]).1
      invariant run.2 == WorkerRun(queue.items, outs[i..]).2
      decreases |outs| - i
    {
      ghost var items := queue.items;
      ghost var before := writer.tx.written;
      var next := queue.TryRecv();
      if next.None? {
        assert writer.tx.written + [] == writer.tx.written;
        return false;
      }
      var bundle := next.value;
      assert items[0] == bundle && items[1..] == queue.items;
      assert outs[i..][0] == outs[i] && outs[i..][1..] == outs[i + 1..];
      var outcome := writer.Send(SendId(bundle), SendPayload(bundle), outs[i].header, outs[i].payload);
      if outcome == Panicked {
        return true;
      }
      WorkerAdvance(w0, run, i, before, items, outs[i..]);
      assert items0[i + 1..] == items0[i..][1..];
      i := i + 1;
    }
    assert outs[i..] == [];
    assert writer.tx.written + [] == writer.tx.written;
    return false;
  }
}

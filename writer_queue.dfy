/** The send queues: an embassy `Channel` of bundles with room for `WRITER_QUEUE_CAPACITY`
    of them (`WriterQueue` in `nrf/src/command_writer.rs` and
    `stm/src/command/writer.rs`), filled by the application and drained by the send
    worker. Waiting is not modelled: `Send` on a full queue reports that it would wait
    and leaves the queue as it is, and `TryRecv` on an empty one reports `None`. */
module WriterQueues {
  import opened Wrappers

  const WRITER_QUEUE_CAPACITY: nat := 8

  class WriterQueue<T> {
    const capacity: nat
    /** The queued bundles, oldest first. */
    var items: seq<T>

    ghost predicate Valid()
      reads this
    {
      |items| <= capacity
    }

    /** `Channel::new()` with room for `WRITER_QUEUE_CAPACITY` bundles. */
    constructor ()
      ensures Valid() && capacity == WRITER_QUEUE_CAPACITY && items == []
    {
      capacity := WRITER_QUEUE_CAPACITY;
      items := [];
    }

    /** `try_send`: enqueued at the back when there is room, handed back in
        `TrySendError::Full` when there is none. */
    method TrySend(x: T) returns (r: Result<(), T>)
      requires Valid()
      modifies this
      ensures Valid()
      ensures |old(items)| < capacity ==> r == Ok(()) && items == old(items) + [x]
      ensures |old(items)| >= capacity ==> r == Err(x) && items == old(items)
    {
      if |items| < capacity {
        items := items + [x];
        r := Ok(());
      } else {
        r := Err(x);
      }
    }

    /** `send(..).await`: enqueued at the back when there is room; otherwise the caller
        would wait for the worker, reported as `false` with the queue unchanged. */
    method Send(x: T) returns (sent: bool)
      requires Valid()
      modifies this
      ensures Valid()
      ensures sent <==> |old(items)| < capacity
      ensures sent ==> items == old(items) + [x]
      ensures !sent ==> items == old(items)
    {
      sent := |items| < capacity;
      if sent {
        items := items + [x];
      }
    }

    /** `recv()`, oldest first; `None` where `recv` would wait on an empty queue. */
    method TryRecv() returns (r: Option<T>)
      requires Valid()
      modifies this
      ensures Valid()
      ensures old(items) == [] ==> r == None && items == []
      ensures old(items) != [] ==> r == Some(old(items)[0]) && items == old(items)[1..]
    {
      if items == [] {
        return None;
      }
      r := Some(items[0]);
      items := items[1..];
    }
  }
}

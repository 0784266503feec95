/** The older writer, `common/src/command_writer.rs`: the same frame as the newer writer,
    sent with two plain `write`s whose results are unwrapped. A transport error panics, and
    the byte counts the writes report are thrown away, so a short write goes unnoticed. */
module LegacyCommandWriter {
  import opened Wrappers
  import opened Ints
  import opened Crc8
  import opened CommandWriter
  import Types

  datatype SendOutcome = Sent | Panicked

  /** The bytes that reach the transport when the writes report the given outcomes, and
      whether `send` then returns or panics. */
  function Written<E>(id: u8, payload: seq<u8>, headerWrite: Result<nat, E>, payloadWrite: Result<nat, E>): (seq<u8>, SendOutcome) {
    var header := [id, FrameCrc(id, payload)];
    if headerWrite.Err? then ([], Panicked)
    else
      var h := header[..Min(headerWrite.value, |header|)];
      if payloadWrite.Err? then (h, Panicked)
      else (h + payload[..Min(payloadWrite.value, |payload|)], Sent)
  }

  /** `send` returns normally exactly when neither write fails, whatever counts they
      report: it writes the whole frame exactly when both writes are complete, and a short
      write still counts as sent. */
  lemma SendIgnoresCounts<E>(id: u8, payload: seq<u8>, headerWrite: Result<nat, E>, payloadWrite: Result<nat, E>)
    ensures (Written(id, payload, headerWrite, payloadWrite).1 == Sent) <==> headerWrite.Ok? && payloadWrite.Ok?
    ensures headerWrite.Ok? && payloadWrite.Ok? && headerWrite.value >= 2 && payloadWrite.value >= |payload| ==>
              Written(id, payload, headerWrite, payloadWrite).0 == Frame(id, payload)
    ensures headerWrite.Ok? && payloadWrite.Ok? && headerWrite.value < 2 ==>
              |Written(id, payload, headerWrite, payloadWrite).0| < |Frame(id, payload)|
    ensures headerWrite.Err? ==> Written(id, payload, headerWrite, payloadWrite).0 == []
  {
    var header := [id, FrameCrc(id, payload)];
    assert header[..2] == header;
    assert payload[..|payload|] == payload;
  }

  class HeadlightCommandWriter<E> {
    const tx: Tx<E>

    constructor (tx: Tx<E>)
      ensures this.tx == tx
    {
      this.tx := tx;
    }

    /** `send`: header first, then payload, each with `unwrap!(tx.write(..))`. */
    method Send(id: u8, payload: seq<u8>, headerWrite: Result<nat, E>, payloadWrite: Result<nat, E>) returns (outcome: SendOutcome)
      modifies tx
      ensures tx.written == old(tx.written) + Written(id, payload, headerWrite, payloadWrite).0
      ensures outcome == Written(id, payload, headerWrite, payloadWrite).1
    {
      var digest := New();
      digest := Update(digest, [id]);
      digest := Update(digest, payload);
      var header := Types.CommandHeader(id, Finalize(digest));
      var w := tx.Write(Types.EncodeHeader(header), headerWrite);
      if w.Err? {
        return Panicked;
      }
      w := tx.Write(payload, payloadWrite);
      if w.Err? {
        return Panicked;
      }
      return Sent;
    }
  }
}

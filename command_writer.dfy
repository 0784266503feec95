/** The command writer of `common/src/command/writer.rs`: a command goes out as its
    header (the id, then the CRC-8 of the id followed by the serialized payload) and then
    the payload. The transport is modelled by `Tx`, which records the bytes written. */
module CommandWriter {
  import opened Wrappers
  import opened Ints
  import opened Crc8
  import opened Pattern
  import opened CommandReader
  import Types
  import Bundles

  /** The crc `send` puts in the header: a fresh digest fed `[id]` and then the payload. */
  function FrameCrc(id: u8, payload: seq<u8>): u8 {
    Finalize(Update(Update(New(), [id]), payload))
  }

  /** The header `send` builds for a command. */
  function FrameHeader(id: u8, payload: seq<u8>): Types.CommandHeader {
    Types.CommandHeader(id, FrameCrc(id, payload))
  }

  /** Everything `send` writes when both writes succeed: the serialized header, then the
      payload. */
  function Frame(id: u8, payload: seq<u8>): seq<u8> {
    Types.EncodeHeader(FrameHeader(id, payload)) + payload
  }

  /** The transmitted crc is the CRC-8 over the id followed by the serialized payload, and
      the frame is the id, that crc, then the payload. */
  lemma FrameLayout(id: u8, payload: seq<u8>)
    ensures FrameCrc(id, payload) == Checksum([id] + payload)
    ensures Frame(id, payload) == [id, Checksum([id] + payload)] + payload
  {
    ChecksumSplit([id], payload);
  }

  lemma DecodesAt<B>(parse: Parser<B>, id: u8, payload: seq<u8>, b: B, c: Cursor, d: Digest)
    requires Decodes(parse, id, payload, b)
    requires Remaining(c) >= |payload| && c.data[c.pos..c.pos + |payload|] == payload
    ensures parse(id, c, d) == Ok(Some(Parsed(b, Cursor(c.data, c.pos + |payload|), Update(d, payload))))
  {
  }

  /** A frame standing at position `k` of the input is scanned there: its header is the
      two bytes at `k`, the command is the one its payload encodes, the count runs to the
      end of the frame and the observed checksum is the one `send` put in the header. */
  lemma FrameScannedAt<B>(parse: Parser<B>, q: seq<u8>, k: nat, id: u8, payload: seq<u8>, b: B)
    requires Decodes(parse, id, payload, b)
    requires k + 2 + |payload| <= |q|
    requires q[k] == id && q[k + 1] == FrameCrc(id, payload) && q[k + 2..k + 2 + |payload|] == payload
    ensures Scan(parse, Cursor(q, k)) == Ok(ParsedCommand(k + 2 + |payload|, FrameHeader(id, payload), FrameCrc(id, payload), b))
  {
    var after := Cursor(q, k + 2);
    var digest := Update(CandidateDigest(id), payload);
    var p := Parsed(b, Cursor(q, k + 2 + |payload|), digest);
    DecodesAt(parse, id, payload, b, after, CandidateDigest(id));
    assert parse(q[k], Cursor(q, k + 2), CandidateDigest(q[k])) == Ok(Some(p));
    ScanHit(parse, q, k, p);
    assert Finalize(digest) == FrameCrc(id, payload);
    assert Types.CommandHeader(q[k], q[k + 1]) == FrameHeader(id, payload);
  }

  /** Round trip: a frame `send` produced is recognised with a matching crc, whatever
      follows it, after any run of bytes that are not IDs of the bundle; the bytes eaten
      are that run and the frame, exactly. */
  lemma FrameRecognisedAfter<B>(parse: Parser<B>, garbage: seq<u8>, id: u8, payload: seq<u8>, b: B, rest: seq<u8>)
    requires Decodes(parse, id, payload, b)
    requires forall j :: 0 <= j < |garbage| ==> Ignores(parse, garbage[j])
    ensures Recognize(parse, garbage + Frame(id, payload) + rest) == Recognition(Some(b), rest)
  {
    var f := Frame(id, payload);
    var q := garbage + f + rest;
    var k := |garbage|;
    var end := k + 2 + |payload|;
    assert f == [id, FrameCrc(id, payload)] + payload;
    assert q[k] == id && q[k + 1] == FrameCrc(id, payload);
    assert q[k + 2..end] == payload;
    assert forall j :: 0 <= j < k ==> q[j] == garbage[j];
    ScanSkips(parse, q, 0, k);
    FrameScannedAt(parse, q, k, id, payload, b);
    assert q[end..] == rest;
  }

  /** The same with nothing before the frame: at the front of the scan buffer it is
      recognised and eaten whole. */
  lemma FrameRecognised<B>(parse: Parser<B>, id: u8, payload: seq<u8>, b: B, rest: seq<u8>)
    requires Decodes(parse, id, payload, b)
    ensures Recognize(parse, Frame(id, payload) + rest) == Recognition(Some(b), rest)
  {
    FrameRecognisedAfter(parse, [], id, payload, b, rest);
    assert [] + Frame(id, payload) + rest == Frame(id, payload) + rest;
  }

  /** Pushed into an empty buffer with room for it, a frame is recognised and leaves the
      buffer empty. */
  lemma FrameRecognisedAlone<B>(parse: Parser<B>, id: u8, payload: seq<u8>, b: B, capacity: nat)
    requires Decodes(parse, id, payload, b)
    requires |Frame(id, payload)| <= capacity
    ensures Recognize(parse, Admit([], Frame(id, payload), capacity)) == Recognition(Some(b), [])
  {
    FrameRecognised(parse, id, payload, b, []);
    assert Frame(id, payload) + [] == Frame(id, payload);
    assert [] + Frame(id, payload) == Frame(id, payload);
  }

  /** What the headlight sends is read back by the bridge's parse of the same bundle, and
      what the bridge sends the headlight is read back likewise. */
  lemma BundleRoundTrips(x: Bundles.FromHeadlightBundle, y: Bundles.ToHeadlightBundle, rest: seq<u8>)
    ensures Recognize(Bundles.ParseFrom, Frame(Bundles.FromId(x), Bundles.FromPayload(x)) + rest) == Recognition(Some(x), rest)
    ensures Recognize(Bundles.ParseTo, Frame(Bundles.ToId(y), Bundles.ToPayload(y)) + rest) == Recognition(Some(y), rest)
  {
    Bundles.FromDecodes(x);
    FrameRecognised(Bundles.ParseFrom, Bundles.FromId(x), Bundles.FromPayload(x), x, rest);
    Bundles.ToDecodes(y);
    FrameRecognised(Bundles.ParseTo, Bundles.ToId(y), Bundles.ToPayload(y), y, rest);
  }

  /** The transport: the bytes it has accepted so far. Each write's outcome is given by the
      caller, standing for what the hardware does. */
  class Tx<E> {
    var written: seq<u8>

    constructor ()
      ensures written == []
    {
      written := [];
    }

    /** `write_all`: all of the bytes, or the transport's error. Bytes a failing write may
        have sent before the error are not modelled. */
    method WriteAll(bytes: seq<u8>, fault: Option<E>) returns (r: Result<(), E>)
      modifies this
      ensures fault.None? ==> r == Ok(()) && written == old(written) + bytes
      ensures fault.Some? ==> r == Err(fault.value) && written == old(written)
    {
      if fault.Some? {
        return Err(fault.value);
      }
      written := written + bytes;
      return Ok(());
    }

    /** `write`: a prefix of the bytes, whose length the transport reports, or an error. */
    method Write(bytes: seq<u8>, outcome: Result<nat, E>) returns (r: Result<nat, E>)
      modifies this
      ensures r == (if outcome.Ok? then Ok(Min(outcome.value, |bytes|)) else outcome)
      ensures written == old(written) + (if outcome.Ok? then bytes[..Min(outcome.value, |bytes|)] else [])
    {
      if outcome.Err? {
        return outcome;
      }
      var n := Min(outcome.value, |bytes|);
      written := written + bytes[..n];
      return Ok(n);
    }
  }

  class HeadlightCommandWriter<E> {
    const tx: Tx<E>

    constructor (tx: Tx<E>)
      ensures this.tx == tx
    {
      this.tx := tx;
    }

    /** `send` of a command with `C::ID` = `id` that serializes to `payload`. A failed
        header write returns its error and the payload is never written; a failed payload
        write returns its error after the header; otherwise the whole frame is written. */
    method Send(id: u8, payload: seq<u8>, headerFault: Option<E>, payloadFault: Option<E>) returns (r: Result<(), E>)
      modifies tx
      ensures headerFault.Some? ==> r == Err(headerFault.value) && tx.written == old(tx.written)
      ensures headerFault.None? && payloadFault.Some? ==>
                r == Err(payloadFault.value) && tx.written == old(tx.written) + Types.EncodeHeader(FrameHeader(id, payload))
      ensures headerFault.None? && payloadFault.None? ==>
                r == Ok(()) && tx.written == old(tx.written) + Frame(id, payload)
    {
      var digest := New();
      digest := Update(digest, [id]);
      digest := Update(digest, payload);
      var header := Types.CommandHeader(id, Finalize(digest));
      var w := tx.WriteAll(Types.EncodeHeader(header), headerFault);
      if w.Err? {
        return Err(w.error);
      }
      w := tx.WriteAll(payload, payloadFault);
      if w.Err? {
        return Err(w.error);
      }
      return Ok(());
    }
  }
}

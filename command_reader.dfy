/** The resynchronising command reader of `common/src/command/reader.rs`. Bytes from the
    transport are queued in a scan buffer. A frame is `[id][crc][payload]` with no length
    field: the payload's length follows from the id. The reader tries every byte of the
    buffer in turn as a candidate id, with a fresh checksum digest for each, and asks the
    bundle's `parse` whether that id names one of its commands. */
module CommandReader {
  import opened Wrappers
  import opened Ints
  import opened Crc8
  import opened Pattern
  import opened ScanBuffer
  import Types

  /** What `ParseCommandBundle::parse` leaves behind when it recognises an id: the
      bundle, the advanced cursor and the digest after feeding it the payload. */
  datatype Parsed<B> = Parsed(bundle: B, rest: Cursor, digest: Digest)

  /** `ParseCommandBundle::parse(id, &mut pattern, &mut digest)`: `Ok(None)` when the id
      names no command of the bundle. */
  type Parser<B> = (u8, Cursor, Digest) -> Result<Option<Parsed<B>>, PatternError>

  /** What a parser may do to its cursor and digest: a recognised command is read from
      the cursor's own input, forward, and exactly the bytes read are fed to the digest;
      a deserialization failure reports a count within the input. */
  predicate Consumes<B>(r: Result<Option<Parsed<B>>, PatternError>, c: Cursor, d: Digest) {
    match r
    case Ok(Some(p)) =>
      && p.rest.data == c.data && c.pos <= p.rest.pos
      && p.digest == Update(d, c.data[c.pos..p.rest.pos])
    case Err(FailedDeserialize(n)) => c.pos <= n <= |c.data|
    case _ => true
  }

  ghost predicate WellBehaved<B>(parse: Parser<B>) {
    forall id: u8, c: Cursor, d: Digest :: Consumes(parse(id, c, d), c, d)
  }

  /** The parser reads `payload` as bundle `b` after id `id`, wherever the payload
      stands in the input, consuming exactly its bytes. */
  ghost predicate Decodes<B>(parse: Parser<B>, id: u8, payload: seq<u8>, b: B) {
    forall c: Cursor, d: Digest | Remaining(c) >= |payload| && c.data[c.pos..c.pos + |payload|] == payload ::
      parse(id, c, d) == Ok(Some(Parsed(b, Cursor(c.data, c.pos + |payload|), Update(d, payload))))
  }

  /** `ParsedCommand(count, header, observed_crc, bundle)` */
  datatype ParsedCommand<B> = ParsedCommand(count: nat, header: Types.CommandHeader, observed: u8, bundle: B)

  /** The digest a candidate id starts with: a fresh one fed only that id. */
  function CandidateDigest(id: u8): Digest {
    Update(New(), [id])
  }

  /** What `try_parse_cmd` computes, candidate by candidate from the cursor, written as a
      recursion: the id, then (on a copy of the cursor) the crc, then `parse`; an
      unrecognised id moves the scan on by that one byte. */
  function Scan<B>(parse: Parser<B>, c: Cursor): Result<ParsedCommand<B>, PatternError>
    decreases Remaining(c)
  {
    match ExtractByte(c)
    case Err(e) => Err(e)
    case Ok(id) =>
      match ExtractByte(id.rest)
      case Err(e) => Err(e)
      case Ok(crc) =>
        match parse(id.value, crc.rest, Update(New(), id.bytes))
        case Err(e) => Err(e)
        case Ok(None) => Scan(parse, id.rest)
        case Ok(Some(p)) =>
          Ok(ParsedCommand(Count(p.rest), Types.CommandHeader(id.value, crc.value), Finalize(p.digest), p.bundle))
  }

  /** The candidate at position `j` is an id the bundle does not recognise. */
  predicate Unrecognised<B>(parse: Parser<B>, data: seq<u8>, j: nat)
    requires j + 2 <= |data|
  {
    parse(data[j], Cursor(data, j + 2), CandidateDigest(data[j])).Ok?
    && parse(data[j], Cursor(data, j + 2), CandidateDigest(data[j])).value.None?
  }

  /** The command a successful scan returns was found at position `k` at or after
      `from`. Every earlier candidate was an id the bundle does not recognise. The header
      is the two bytes at `k`. The command's bytes run from `k + 2` to `count`, within the
      input. The observed checksum is the CRC of the id followed by those bytes only: no
      skipped byte and not the transmitted crc contributes to it. */
  ghost predicate FoundAt<B>(parse: Parser<B>, data: seq<u8>, from: nat, k: nat, pc: ParsedCommand<B>) {
    && from <= k && k + 2 <= pc.count <= |data|
    && pc.header.id == data[k] && pc.header.crc == data[k + 1]
    && pc.observed == Checksum([data[k]] + data[k + 2..pc.count])
    && (forall j :: from <= j < k ==> Unrecognised(parse, data, j))
    && parse(data[k], Cursor(data, k + 2), CandidateDigest(data[k])).Ok?
    && parse(data[k], Cursor(data, k + 2), CandidateDigest(data[k])).value.Some?
  }

  lemma {:induction false} ScanFound<B>(parse: Parser<B>, c: Cursor) returns (k: nat)
    requires WellBehaved(parse)
    requires Scan(parse, c).Ok?
    ensures FoundAt(parse, c.data, c.pos, k, Scan(parse, c).value)
    decreases Remaining(c)
  {
    var id := ExtractByte(c).value;
    var crc := ExtractByte(id.rest).value;
    var d := Update(New(), id.bytes);
    var r := parse(id.value, crc.rest, d);
    assert id.bytes == [c.data[c.pos]] && crc.rest == Cursor(c.data, c.pos + 2);
    if r == Ok(None) {
      assert Scan(parse, c) == Scan(parse, id.rest);
      assert Unrecognised(parse, c.data, c.pos);
      k := ScanFound(parse, id.rest);
      var pc := Scan(parse, c).value;
      assert forall j :: c.pos + 1 <= j < k ==> Unrecognised(parse, c.data, j);
      assert FoundAt(parse, c.data, c.pos, k, pc);
    } else {
      k := c.pos;
      assert Consumes(r, crc.rest, d);
      var p := r.value.value;
      var pc := ParsedCommand(p.rest.pos, Types.CommandHeader(c.data[k], c.data[k + 1]), Finalize(p.digest), p.bundle);
      assert Scan(parse, c) == Ok(pc);
      assert p.digest == Update(CandidateDigest(c.data[k]), c.data[k + 2..p.rest.pos]);
      ChecksumSplit([c.data[k]], c.data[k + 2..p.rest.pos]);
      assert pc.observed == Checksum([c.data[k]] + c.data[k + 2..pc.count]);
      assert FoundAt(parse, c.data, c.pos, k, pc);
    }
  }

  /** A scan that fails to deserialize a command reports a count within the input and at
      or past the cursor, so eating that many bytes removes whole bytes of the buffer. */
  lemma {:induction false} ScanFailedWithin<B>(parse: Parser<B>, c: Cursor)
    requires WellBehaved(parse)
    requires Scan(parse, c).Err? && Scan(parse, c).error.FailedDeserialize?
    ensures c.pos <= Scan(parse, c).error.count <= |c.data|
    decreases Remaining(c)
  {
    var id := ExtractByte(c).value;
    var crc := ExtractByte(id.rest).value;
    var r := parse(id.value, crc.rest, Update(New(), id.bytes));
    assert Consumes(r, crc.rest, Update(New(), id.bytes));
    if r == Ok(None) {
      ScanFailedWithin(parse, id.rest);
    }
  }

  /** A candidate the bundle recognises ends the scan there. */
  lemma ScanHit<B>(parse: Parser<B>, data: seq<u8>, k: nat, p: Parsed<B>)
    requires k + 2 <= |data|
    requires parse(data[k], Cursor(data, k + 2), CandidateDigest(data[k])) == Ok(Some(p))
    ensures Scan(parse, Cursor(data, k))
            == Ok(ParsedCommand(Count(p.rest), Types.CommandHeader(data[k], data[k + 1]), Finalize(p.digest), p.bundle))
  {
    assert ExtractByte(Cursor(data, k)).value.rest == Cursor(data, k + 1);
  }

  /** The parser answers `Ok(None)` for this id wherever it stands: the id names no
      command of the bundle. */
  ghost predicate Ignores<B>(parse: Parser<B>, id: u8) {
    forall c: Cursor, d: Digest :: parse(id, c, d) == Ok(None)
  }

  /** Bytes that are not IDs of the bundle are skipped one at a time: the scan from the
      first of them is the scan from the first byte after them. */
  lemma {:induction false} ScanSkips<B>(parse: Parser<B>, data: seq<u8>, from: nat, to: nat)
    requires from <= to < |data|
    requires forall j :: from <= j < to ==> Ignores(parse, data[j])
    ensures Scan(parse, Cursor(data, from)) == Scan(parse, Cursor(data, to))
    decreases (to as int) - (from as int)
  {
    if from < to {
      assert Ignores(parse, data[from]);
      assert parse(data[from], Cursor(data, from + 2), Update(New(), [data[from]])) == Ok(None);
      ScanSkips(parse, data, from + 1, to);
    }
  }

  /** A buffer holding fewer than two bytes holds no whole header: the scan reports
      `NotFound` and nothing is removed. */
  lemma ScanNeedsHeader<B>(parse: Parser<B>, c: Cursor)
    requires Remaining(c) < 2
    ensures Scan(parse, c) == Err(NotFound)
  {
  }

  /** `validate_crc`: the bundle is accepted exactly when the transmitted crc equals the
      checksum the reader computed. */
  function ValidateCrc<B>(header: Types.CommandHeader, observed: u8, bundle: B): (r: Option<B>)
    ensures r.Some? <==> header.crc == observed
    ensures r.Some? ==> r.value == bundle
  {
    if header.crc == observed then Some(bundle) else None
  }

  /** The outcome of one `recognizes` call: the bundle it yields, if any, and what is left
      in the scan buffer. */
  datatype Recognition<B> = Recognition(bundle: Option<B>, rest: seq<u8>)

  /** `recognizes` on buffer contents `q`: a parsed command is eaten (count bytes, the
      skipped garbage included) and then checked; a malformed one is eaten; `NotFound`
      keeps everything. */
  function Recognize<B>(parse: Parser<B>, q: seq<u8>): (r: Recognition<B>)
    ensures |r.rest| <= |q|
  {
    match Scan(parse, Start(q))
    case Ok(pc) => Recognition(ValidateCrc(pc.header, pc.observed, pc.bundle), q[Min(pc.count, |q|)..])
    case Err(FailedDeserialize(n)) => Recognition(None, q[Min(n, |q|)..])
    case Err(NotFound) => Recognition(None, q)
  }

  /** `recognizes` takes bytes only from the front of the buffer, and yields a bundle only
      for a command whose transmitted crc matched the checksum of its id and payload. */
  lemma RecognizeSound<B>(parse: Parser<B>, q: seq<u8>)
    requires WellBehaved(parse)
    ensures var r := Recognize(parse, q);
      && r.rest == q[|q| - |r.rest|..]
      && (r.bundle.Some? ==>
            && Scan(parse, Start(q)).Ok?
            && Scan(parse, Start(q)).value.header.crc == Scan(parse, Start(q)).value.observed
            && r.bundle.value == Scan(parse, Start(q)).value.bundle
            && Scan(parse, Start(q)).value.count <= |q|
            && r.rest == q[Scan(parse, Start(q)).value.count..])
  {
    var s := Scan(parse, Start(q));
    var r := Recognize(parse, q);
    if s.Ok? {
      var pc := s.value;
      var _ := ScanFound(parse, Start(q));
      assert pc.count <= |q|;
      assert r == Recognition(ValidateCrc(pc.header, pc.observed, pc.bundle), q[pc.count..]);
      assert |r.rest| == |q| - pc.count;
    } else if s.error.FailedDeserialize? {
      var m := Min(s.error.count, |q|);
      assert r == Recognition(None, q[m..]);
      assert |r.rest| == |q| - m;
    } else {
      assert r == Recognition(None, q);
    }
  }

  /** What `poll` leaves in the buffer after `push_slice` of `incoming`: everything
      appended when it fits, and when it does not the partly filled buffer is cleared, so
      whatever was queued is lost. */
  function Admit(q: seq<u8>, incoming: seq<u8>, capacity: nat): (r: seq<u8>)
    requires |q| <= capacity
    ensures |r| <= capacity
    ensures r == q + incoming || r == []
    ensures r == [] <==> |q| + |incoming| > capacity || (q == [] && incoming == [])
  {
    if |q| + |incoming| <= capacity then q + incoming else []
  }

  /** One `dispatch` run over the transport results its polls see, in order: it stops at
      the first transport error (returning) or when the given results run out, and after
      every successful poll makes one recognition attempt. The result is the bundles
      handed to `f`, in order, and the final buffer contents. */
  function DispatchRun<B, E>(parse: Parser<B>, q: seq<u8>, fills: seq<Result<seq<u8>, E>>, capacity: nat): (seq<B>, seq<u8>)
    requires |q| <= capacity
    decreases |fills|
  {
    if fills == [] || fills[0].Err? then ([], q)
    else
      var r := Recognize(parse, Admit(q, fills[0].value, capacity));
      var (later, rest) := DispatchRun(parse, r.rest, fills[1..], capacity);
      (if r.bundle.Some? then [r.bundle.value] + later else later, rest)
  }

  /** One successful poll of `DispatchRun`: what is delivered so far, followed by the
      recognised bundle if any, followed by the rest of the run. */
  lemma DispatchRunStep<B, E>(parse: Parser<B>, q: seq<u8>, fills: seq<Result<seq<u8>, E>>, capacity: nat,
                              delivered: seq<B>, b: Option<B>, q': seq<u8>)
    requires |q| <= capacity && fills != [] && fills[0].Ok? && |q'| <= capacity
    requires Recognition(b, q') == Recognize(parse, Admit(q, fills[0].value, capacity))
    ensures delivered + DispatchRun(parse, q, fills, capacity).0
            == (if b.Some? then delivered + [b.value] else delivered) + DispatchRun(parse, q', fills[1..], capacity).0
    ensures DispatchRun(parse, q, fills, capacity).1 == DispatchRun(parse, q', fills[1..], capacity).1
  {
    if b.Some? {
      assert delivered + ([b.value] + DispatchRun(parse, q', fills[1..], capacity).0)
             == (delivered + [b.value]) + DispatchRun(parse, q', fills[1..], capacity).0;
    }
  }

  /** `dispatch` calls `f` at most once per successful poll, and never after the first
      transport error. */
  lemma {:induction false} DispatchAtMostOnePerPoll<B, E>(parse: Parser<B>, q: seq<u8>, fills: seq<Result<seq<u8>, E>>, capacity: nat, stop: nat)
    requires |q| <= capacity
    requires stop <= |fills| && (stop < |fills| ==> fills[stop].Err?)
    ensures |DispatchRun(parse, q, fills, capacity).0| <= stop
    ensures DispatchRun(parse, q, fills, capacity) == DispatchRun(parse, q, fills[..stop], capacity)
    decreases |fills|
  {
    if fills == [] || fills[0].Err? {
    } else {
      assert stop > 0;
      var r := Recognize(parse, Admit(q, fills[0].value, capacity));
      DispatchAtMostOnePerPoll(parse, r.rest, fills[1..], capacity, stop - 1);
      assert fills[..stop][1..] == fills[1..][..stop - 1];
    }
  }

  /** `HeadlightCommandReader<HWReader, N>`: the transport is not held; each poll is
      handed what the transport's `fill_buf` returned. */
  class HeadlightCommandReader<B> {
    const buf: ScanBuf
    /** The bundle's `ParseCommandBundle::parse`. */
    const parse: Parser<B>

    ghost predicate Valid()
      reads this, buf
    {
      buf.Valid() && WellBehaved(parse)
    }

    constructor (n: nat, parse: Parser<B>)
      requires WellBehaved(parse)
      ensures Valid() && fresh(buf) && buf.capacity == n && buf.queue == [] && this.parse == parse
    {
      buf := new ScanBuf(n);
      this.parse := parse;
    }

    /** `poll`: a transport error is returned before the buffer is touched and nothing is
        consumed; otherwise the incoming bytes are admitted and all of them consumed. */
    method Poll<E>(fill: Result<seq<u8>, E>) returns (r: Result<(), E>, consumed: nat)
      requires Valid()
      modifies buf
      ensures Valid()
      ensures fill.Err? ==> r == Err(fill.error) && consumed == 0 && buf.queue == old(buf.queue)
      ensures fill.Ok? ==> r == Ok(()) && consumed == |fill.value|
      ensures fill.Ok? ==> buf.queue == Admit(old(buf.queue), fill.value, buf.capacity)
    {
      if fill.Err? {
        return Err(fill.error), 0;
      }
      var incoming := fill.value;
      var n := |incoming|;
      var pushed := buf.PushSlice(incoming);
      if pushed.Err? {
        buf.Clear();
      }
      return Ok(()), n;
    }

    /** `try_parse_cmd`: the candidate loop over a cursor on the buffer contents. */
    method TryParseCmd() returns (r: Result<ParsedCommand<B>, PatternError>)
      requires Valid()
      ensures r == Scan(parse, Start(buf.queue))
    {
      var pattern := Start(buf.Inner());
      while true
        invariant pattern.data == buf.queue
        invariant Scan(parse, pattern) == Scan(parse, Start(buf.queue))
        decreases Remaining(pattern)
      {
        var digest := New();
        var idItem := ExtractByte(pattern);
        if idItem.Err? {
          return Err(idItem.error);
        }
        var id := idItem.value.value;
        digest := Update(digest, idItem.value.bytes);
        pattern := idItem.value.rest;
        var lookahead := pattern;
        var crcItem := ExtractByte(lookahead);
        if crcItem.Err? {
          return Err(crcItem.error);
        }
        var crc := crcItem.value.value;
        lookahead := crcItem.value.rest;
        var parsed := parse(id, lookahead, digest);
        if parsed.Err? {
          return Err(parsed.error);
        }
        if parsed.value.Some? {
          var p := parsed.value.value;
          lookahead, digest := p.rest, p.digest;
          return Ok(ParsedCommand(Count(lookahead), Types.CommandHeader(id, crc), Finalize(digest), p.bundle));
        }
      }
    }

    /** `recognizes` */
    method Recognizes() returns (b: Option<B>)
      requires Valid()
      modifies buf
      ensures Valid()
      ensures Recognition(b, buf.queue) == Recognize(parse, old(buf.queue))
    {
      var r := TryParseCmd();
      match r
      case Ok(pc) => {
        buf.Eat(pc.count);
        b := ValidateCrc(pc.header, pc.observed, pc.bundle);
      }
      case Err(FailedDeserialize(count)) => {
        buf.Eat(count);
        b := None;
      }
      case Err(NotFound) => {
        b := None;
      }
    }

    /** `dispatch`, over the transport results its polls see: `delivered` is the sequence
        of bundles handed to `f`. */
    method Dispatch<E>(fills: seq<Result<seq<u8>, E>>) returns (delivered: seq<B>)
      requires Valid()
      modifies buf
      ensures Valid()
      ensures delivered == DispatchRun(parse, old(buf.queue), fills, buf.capacity).0
      ensures buf.queue == DispatchRun(parse, old(buf.queue), fills, buf.capacity).1
    {
      delivered := [];
      var i := 0;
      assert fills[0..] == fills;
      while i < |fills|
        invariant Valid()
        invariant 0 <= i <= |fills|
        invariant DispatchRun(parse, old(buf.queue), fills, buf.capacity).0
                  == delivered + DispatchRun(parse, buf.queue, fills[i..], buf.capacity).0
        invariant DispatchRun(parse, old(buf.queue), fills, buf.capacity).1
                  == DispatchRun(parse, buf.queue, fills[i..], buf.capacity).1
        decreases |fills| - i
      {
        ghost var q := buf.queue;
        ghost var rest := fills[i..];
        assert rest[0] == fills[i] && rest[1..] == fills[i + 1..];
        var polled, _ := Poll(fills[i]);
        if polled.Err? {
          assert DispatchRun(parse, q, rest, buf.capacity) == ([], q);
          assert delivered + [] == delivered;
          return;
        }
        var bundle := Recognizes();
        DispatchRunStep(parse, q, rest, buf.capacity, delivered, bundle, buf.queue);
        if bundle.Some? {
          delivered := delivered + [bundle.value];
        }
        i := i + 1;
      }
      assert fills[i..] == [];
    }
  }
}

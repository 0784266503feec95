/** The older reader, `common/src/command_reader.rs`. Its scan and recognition are the
    same as the newer reader's (`CommandReader.Scan` and `CommandReader.Recognize` specify
    both, and `validate_crc` is `CommandReader.ValidateCrc`); `poll` panics on a transport
    error instead of returning it. */
module LegacyCommandReader {
  import opened Wrappers
  import opened Ints
  import opened Crc8
  import opened Pattern
  import opened ScanBuffer
  import opened CommandReader
  import Types

  /** How a `poll` ends: with the count handed to `consume`, or in the panic of `unwrap!`. */
  datatype PollOutcome = Consumed(n: nat) | Panicked

  class HeadlightCommandReader<B> {
    const buf: ScanBuf
    const parse: Parser<B>

    ghost predicate Valid()
      reads this, buf
    {
      buf.Valid() && WellBehaved(parse)
    }

    constructor (n: nat, parse: Parser<B>)
      requires WellBehaved(parse)
      ensures Valid() && fresh(buf) && buf.capacity == n && buf.queue == [] && this.parse == parse
    {
      buf := new ScanBuf(n);
      this.parse := parse;
    }

    /** `poll`: a transport error panics with the buffer untouched; otherwise the incoming
        bytes are admitted (the buffer cleared if they overflow it) and all consumed. */
    method Poll<E>(fill: Result<seq<u8>, E>) returns (outcome: PollOutcome)
      requires Valid()
      modifies buf
      ensures Valid()
      ensures fill.Err? ==> outcome == Panicked && buf.queue == old(buf.queue)
      ensures fill.Ok? ==> outcome == Consumed(|fill.value|)
      ensures fill.Ok? ==> buf.queue == Admit(old(buf.queue), fill.value, buf.capacity)
    {
      if fill.Err? {
        return Panicked;
      }
      var incoming := fill.value;
      var n := |incoming|;
      var pushed := buf.PushSlice(incoming);
      if pushed.Err? {
        buf.Clear();
      }
      return Consumed(n);
    }

    /** `try_parse_cmd` */
    method TryParseCmd() returns (r: Result<ParsedCommand<B>, PatternError>)
      requires Valid()
      ensures r == Scan(parse, Start(buf.queue))
    {
      var pattern := Start(buf.Inner());
      while true
        invariant pattern.data == buf.queue
        invariant Scan(parse, pattern) == Scan(parse, Start(buf.queue))
        decreases Remaining(pattern)
      {
        var digest := New();
        var idItem := ExtractByte(pattern);
        if idItem.Err? {
          return Err(idItem.error);
        }
        var id := idItem.value.value;
        digest := Update(digest, idItem.value.bytes);
        pattern := idItem.value.rest;
        var lookahead := pattern;
        var crcItem := ExtractByte(lookahead);
        if crcItem.Err? {
          return Err(crcItem.error);
        }
        var crc := crcItem.value.value;
        lookahead := crcItem.value.rest;
        var parsed := parse(id, lookahead, digest);
        if parsed.Err? {
          return Err(parsed.error);
        }
        if parsed.value.Some? {
          var p := parsed.value.value;
          lookahead, digest := p.rest, p.digest;
          return Ok(ParsedCommand(Count(lookahead), Types.CommandHeader(id, crc), Finalize(digest), p.bundle));
        }
      }
    }

    /** `recognizes`: a parsed command is eaten whether or not its crc matches, a malformed
        one is eaten up to its count, and `NotFound` leaves the buffer as it was. */
    method Recognizes() returns (b: Option<B>)
      requires Valid()
      modifies buf
      ensures Valid()
      ensures Recognition(b, buf.queue) == Recognize(parse, old(buf.queue))
    {
      var r := TryParseCmd();
      match r
      case Ok(pc) => {
        buf.Eat(pc.count);
        b := ValidateCrc(pc.header, pc.observed, pc.bundle);
      }
      case Err(FailedDeserialize(count)) => {
        buf.Eat(count);
        b := None;
      }
      case Err(NotFound) => {
        b := None;
      }
    }
  }
}

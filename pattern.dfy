/** The `pattern` crate's cursor, as the readers use it: a position over the scan buffer's
    contents from which typed items are extracted one after another. `count()` is the
    number of bytes taken from the start of the contents so far. Extracting an item either
    runs out of input (`NotFound`) or reads the item's fixed number of bytes; bytes that do
    not deserialize give `FailedDeserialize(count)` with the count just past them. The
    crate itself is not part of this model; this is the behaviour the readers rely on. */
module Pattern {
  import opened Wrappers
  import opened Ints

  datatype RawCursor = Cursor(data: seq<u8>, pos: nat)

  /** A cursor never stands beyond the end of its input. */
  type Cursor = c: RawCursor | c.pos <= |c.data| witness Cursor([], 0)

  datatype PatternError = NotFound | FailedDeserialize(count: nat)

  /** An extracted item, the bytes it was read from (what `extract_and` hands to its
      closure) and the cursor after it. */
  datatype Extracted<T> = Extracted(value: T, bytes: seq<u8>, rest: Cursor)

  /** A cursor at the start of `data`: `Pattern::new(buf.iter())`. */
  function Start(data: seq<u8>): (c: Cursor)
    ensures c.data == data && c.pos == 0
  {
    Cursor(data, 0)
  }

  /** `c.count()` */
  function Count(c: Cursor): nat {
    c.pos
  }

  /** Bytes left after the cursor. */
  function Remaining(c: Cursor): nat {
    |c.data| - c.pos
  }

  /** `cursor.get().extract()` of one item of `size` bytes decoded by `decode`. */
  function Extract<T>(c: Cursor, size: nat, decode: seq<u8> -> Option<T>): (r: Result<Extracted<T>, PatternError>)
    ensures r == Err(NotFound) <==> Remaining(c) < size
    ensures r.Ok? ==>
              && Remaining(c) >= size
              && r.value.bytes == c.data[c.pos..c.pos + size]
              && decode(r.value.bytes) == Some(r.value.value)
              && r.value.rest.data == c.data && Count(r.value.rest) == Count(c) + size
    ensures r.Err? && r.error.FailedDeserialize? ==>
              && Remaining(c) >= size && decode(c.data[c.pos..c.pos + size]).None?
              && r.error.count == Count(c) + size
  {
    if Remaining(c) < size then Err(NotFound)
    else
      var bytes := c.data[c.pos..c.pos + size];
      match decode(bytes)
      case None => Err(FailedDeserialize(c.pos + size))
      case Some(v) => Ok(Extracted(v, bytes, Cursor(c.data, c.pos + size)))
  }

  function DecodeByte(b: seq<u8>): Option<u8> {
    if |b| == 1 then Some(b[0]) else None
  }

  /** Extracting a single `u8`, which always deserializes. */
  function ExtractByte(c: Cursor): (r: Result<Extracted<u8>, PatternError>)
    ensures r.Err? <==> Remaining(c) == 0
    ensures r.Err? ==> r.error == NotFound
    ensures r.Ok? ==>
              && r.value.value == c.data[c.pos] && r.value.bytes == [c.data[c.pos]]
              && r.value.rest == Cursor(c.data, c.pos + 1)
  {
    Extract(c, 1, DecodeByte)
  }
}

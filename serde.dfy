/** The fixed-size wire codec the commands derive (`tiny_serde`): every type has a size
    known in advance, a `serialize` to exactly that many bytes and a `deserialize` that
    either rebuilds the value or rejects the bytes. The crate itself is not part of this
    model; these are the encodings of its primitive types. A `u8` is one byte, a `u16` two
    bytes, most significant first, a `bool` one byte that must be 0 or 1, and a fieldless
    `#[repr(u8)]` enum one byte holding its discriminant. */
module Serde {
  import opened Wrappers
  import opened Ints

  const U16_SIZE: nat := 2

  function EncodeU16(x: u16): (r: seq<u8>)
    ensures |r| == U16_SIZE
  {
    [x / 256, x % 256]
  }

  function DecodeU16(b: seq<u8>): u16
    requires |b| == U16_SIZE
  {
    var hi: int := b[0];
    assert hi * 256 <= 255 * 256;
    hi * 256 + b[1]
  }

  lemma U16RoundTrip(x: u16)
    ensures DecodeU16(EncodeU16(x)) == x
  {
  }

  /** Every two-byte string is the encoding of exactly one `u16`. */
  lemma U16Canonical(b: seq<u8>)
    requires |b| == U16_SIZE
    ensures EncodeU16(DecodeU16(b)) == b
  {
  }

  function EncodeBool(x: bool): u8 {
    if x then 1 else 0
  }

  function DecodeBool(b: u8): Option<bool> {
    if b == 0 then Some(false) else if b == 1 then Some(true) else None
  }

  lemma BoolRoundTrip(x: bool)
    ensures DecodeBool(EncodeBool(x)) == Some(x)
  {
  }

  lemma BoolRejects(b: u8)
    ensures DecodeBool(b).None? <==> b > 1
  {
  }
}

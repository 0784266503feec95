/** CRC-8/AUTOSAR, as specified in section 7.2.1.2 of the AUTOSAR "Specification of CRC
    Routines": polynomial 0x2F, initial value 0xFF, no input or output reflection, final
    XOR 0xFF, check value 0xDF. The register is shifted most significant bit first, one
    input byte at a time, the way the `crc` crate's digest does it. */
module Crc8 {
  import opened Ints

  /** An incremental digest: the shift register after the bytes fed so far. */
  datatype Digest = Digest(reg: bv8)

  /** One bit of the shift register: shift left, and subtract the polynomial 0x2F when the
      bit shifted out is set (written without a branch: the mask is all ones or all zeros). */
  function Step(r: bv8): bv8 {
    (r << 1) ^ ((0 - (r >> 7)) & 0x2F)
  }

  /** `k` bits of polynomial division; one input byte takes eight. */
  function Shift(r: bv8, k: nat): bv8
    decreases k
  {
    if k == 0 then r else Shift(Step(r), k - 1)
  }

  /** The register after shifting `bytes` through it, `k` bits per byte. */
  function Run(r: bv8, bytes: seq<u8>, k: nat): bv8
    decreases |bytes|
  {
    if bytes == [] then r else Run(Shift(r ^ (bytes[0] as bv8), k), bytes[1..], k)
  }

  /** `CRC.digest()`: a digest holding the initial value. */
  function New(): Digest { Digest(0xFF) }

  /** `digest.update(bytes)` */
  function Update(d: Digest, bytes: seq<u8>): Digest {
    Digest(Run(d.reg, bytes, 8))
  }

  /** `digest.finalize()`: the register with the final XOR applied. */
  function Finalize(d: Digest): u8 {
    (d.reg ^ 0xFF) as int
  }

  /** The checksum of a whole byte string: `CRC.checksum(bytes)`. */
  function Checksum(bytes: seq<u8>): u8 {
    Finalize(Update(New(), bytes))
  }

  lemma {:induction false} RunConcat(r: bv8, e: seq<u8>, f: seq<u8>, k: nat)
    ensures Run(r, e + f, k) == Run(Run(r, e, k), f, k)
    decreases |e|
  {
    if e == [] {
      assert e + f == f;
    } else {
      var r' := Shift(r ^ (e[0] as bv8), k);
      calc {
        Run(r, e + f, k);
        { assert e + f != [] && (e + f)[0] == e[0]; assert (e + f)[1..] == e[1..] + f; }
        Run(r', e[1..] + f, k);
        { RunConcat(r', e[1..], f, k); }
        Run(Run(r', e[1..], k), f, k);
      }
    }
  }

  /** Feeding a digest two spans one after the other is feeding it their concatenation,
      so only the bytes matter, not how they are split across `update` calls. */
  lemma UpdateConcat(d: Digest, a: seq<u8>, b: seq<u8>)
    ensures Update(d, a + b) == Update(Update(d, a), b)
  {
    RunConcat(d.reg, a, b, 8);
  }

  /** The digest of a byte string fed in one piece after a prefix is the prefix's digest
      updated with it; in particular `update([id])` then `update(payload)` computes the
      checksum of `[id] + payload`. */
  lemma ChecksumSplit(a: seq<u8>, b: seq<u8>)
    ensures Finalize(Update(Update(New(), a), b)) == Checksum(a + b)
  {
    UpdateConcat(New(), a, b);
  }

  // The check value, one byte at a time: each lemma below is one register transition.

  /** Feeding one byte whose register transition is known. */
  lemma RunStep(r: bv8, x: u8, r': bv8, s: seq<u8>, k: nat)
    requires s != [] && s[0] == x && Shift(r ^ (x as bv8), k) == r'
    ensures Run(r, s, k) == Run(r', s[1..], k)
  {
  }

  lemma Register1(x: u8) requires x == 0x31 ensures Shift(0xFF ^ (x as bv8), 8) == 0xB0 {}
  lemma Register2(x: u8) requires x == 0x32 ensures Shift(0xB0 ^ (x as bv8), 8) == 0xBD {}
  lemma Register3(x: u8) requires x == 0x33 ensures Shift(0xBD ^ (x as bv8), 8) == 0x56 {}
  lemma Register4(x: u8) requires x == 0x34 ensures Shift(0x56 ^ (x as bv8), 8) == 0xCB {}
  lemma Register5(x: u8) requires x == 0x35 ensures Shift(0xCB ^ (x as bv8), 8) == 0x6D {}
  lemma Register6(x: u8) requires x == 0x36 ensures Shift(0x6D ^ (x as bv8), 8) == 0x6E {}
  lemma Register7(x: u8) requires x == 0x37 ensures Shift(0x6E ^ (x as bv8), 8) == 0x30 {}
  lemma Register8(x: u8) requires x == 0x38 ensures Shift(0x30 ^ (x as bv8), 8) == 0x57 {}
  lemma Register9(x: u8) requires x == 0x39 ensures Shift(0x57 ^ (x as bv8), 8) == 0x20 {}

  lemma CheckValueOf(s: seq<u8>)
    requires s == [0x31, 0x32, 0x33, 0x34, 0x35, 0x36, 0x37, 0x38, 0x39]
    ensures Checksum(s) == 0xDF
  {
    Register1(0x31); RunStep(0xFF, 0x31, 0xB0, s[0..], 8); assert s[0..][1..] == s[1..];
    Register2(0x32); RunStep(0xB0, 0x32, 0xBD, s[1..], 8); assert s[1..][1..] == s[2..];
    Register3(0x33); RunStep(0xBD, 0x33, 0x56, s[2..], 8); assert s[2..][1..] == s[3..];
    Register4(0x34); RunStep(0x56, 0x34, 0xCB, s[3..], 8); assert s[3..][1..] == s[4..];
    Register5(0x35); RunStep(0xCB, 0x35, 0x6D, s[4..], 8); assert s[4..][1..] == s[5..];
    Register6(0x36); RunStep(0x6D, 0x36, 0x6E, s[5..], 8); assert s[5..][1..] == s[6..];
    Register7(0x37); RunStep(0x6E, 0x37, 0x30, s[6..], 8); assert s[6..][1..] == s[7..];
    Register8(0x38); RunStep(0x30, 0x38, 0x57, s[7..], 8); assert s[7..][1..] == s[8..];
    Register9(0x39); RunStep(0x57, 0x39, 0x20, s[8..], 8); assert s[8..][1..] == s[9..];
    assert s[9..] == [];
  }

  /** The check value of the standard: the checksum of the ASCII string "123456789" is 0xDF. */
  lemma CheckValue()
    ensures Checksum([0x31, 0x32, 0x33, 0x34, 0x35, 0x36, 0x37, 0x38, 0x39]) == 0xDF
  {
    CheckValueOf([0x31, 0x32, 0x33, 0x34, 0x35, 0x36, 0x37, 0x38, 0x39]);
  }
}

/**
 * Byte strings as the two sandboxes use them: zero-filled buffers, the
 * little-endian integers of `struct.pack('<Q', n)` and
 * `struct.unpack_from('<I', ...)`, and the seed that both `emit_seed`
 * methods build.
 */
module Bytes {
  import opened Base

  /** A byte of a `bytes` or `bytearray` value. */
  newtype byte = x: int | 0 <= x < 256

  /** `b ^ 0xFF` on a byte: every bit inverted, which is `255 - b`. */
  function Flip(b: byte): byte {
    255 - b
  }

  function Pow256(k: nat): (r: nat)
    ensures r >= 1
  {
    if k == 0 then 1 else 256 * Pow256(k - 1)
  }

  /** `bytearray(n)` / `b'\x00' * n`. */
  function Zeros(n: nat): (r: seq<byte>)
    ensures |r| == n && forall i :: 0 <= i < n ==> r[i] == 0
  {
    seq(n, _ => 0)
  }

  /** The `width` little-endian bytes of `n` (its value modulo 256^width). */
  function EncodeLE(n: nat, width: nat): (r: seq<byte>)
    ensures |r| == width
  {
    if width == 0 then [] else [(n % 256) as byte] + EncodeLE(n / 256, width - 1)
  }

  /** The unsigned integer whose little-endian bytes are `bs`. */
  function DecodeLE(bs: seq<byte>): nat {
    if bs == [] then 0 else bs[0] as nat + 256 * DecodeLE(bs[1..])
  }

  lemma {:induction false} DecodeLEBound(bs: seq<byte>)
    ensures DecodeLE(bs) < Pow256(|bs|)
  {
    if bs != [] {
      DecodeLEBound(bs[1..]);
    }
  }

  /** Decoding the encoding of a number that fits gives the number back. */
  lemma {:induction false} DecodeEncode(n: nat, width: nat)
    requires n < Pow256(width)
    ensures DecodeLE(EncodeLE(n, width)) == n
  {
    if width > 0 {
      var q := n / 256;
      var e := EncodeLE(n, width);
      QuotientBound(n, Pow256(width - 1));
      DecodeEncode(q, width - 1);
      assert e == [(n % 256) as byte] + EncodeLE(q, width - 1);
      assert e[1..] == EncodeLE(q, width - 1);
      assert DecodeLE(e) == (n % 256) + 256 * q;
    }
  }

  lemma {:induction false} QuotientBound(n: nat, p: nat)
    requires n < 256 * p
    ensures n / 256 < p && n == n % 256 + 256 * (n / 256)
  {
  }

  lemma {:induction false} ByteDivMod(b: nat, rest: nat)
    requires b < 256
    ensures (b + 256 * rest) % 256 == b && (b + 256 * rest) / 256 == rest
  {
  }

  /** Encoding the decoded value of a byte string at its own width gives the bytes back. */
  lemma {:induction false} EncodeDecode(bs: seq<byte>)
    ensures EncodeLE(DecodeLE(bs), |bs|) == bs
  {
    if bs != [] {
      var b := bs[0] as nat;
      var rest := DecodeLE(bs[1..]);
      var n := b + 256 * rest;
      ByteDivMod(b, rest);
      EncodeDecode(bs[1..]);
      assert ((n % 256) as byte) == bs[0];
      assert [bs[0]] + bs[1..] == bs;
    }
  }

  /** The four bytes `b"RCX\x00"` that open a seed. */
  const SeedMagic: seq<byte> := [0x52, 0x43, 0x58, 0x00]

  /**
   * `b"RCX\x00" + struct.pack('<Q', n) + rule_mem[:n*5]`; `struct.pack`
   * raises for a count outside the unsigned 64-bit range.
   */
  function Seed(ruleMem: seq<byte>, n: int): Result<seq<byte>> {
    if n < 0 || n >= Pow256(8) then Err(StructError)
    else Ok(SeedMagic + EncodeLE(n, 8) + PySlice(ruleMem, 0, n * 5))
  }

  /**
   * A seed is the magic, the rule count back as a little-endian u64, and the
   * first `5n` rule bytes, cut off at the end of the rule memory; counts that
   * are negative or do not fit 64 bits raise.
   */
  lemma {:induction false} SeedLayout(ruleMem: seq<byte>, n: int)
    ensures Seed(ruleMem, n).Ok? <==> 0 <= n < Pow256(8)
    ensures Seed(ruleMem, n).Err? ==> Seed(ruleMem, n).error == StructError
    ensures Seed(ruleMem, n).Ok? ==>
      var s := Seed(ruleMem, n).value;
      var k := if 5 * n < |ruleMem| then 5 * n else |ruleMem|;
      && |s| == 12 + k
      && s[..4] == SeedMagic
      && DecodeLE(s[4..12]) == n
      && s[12..] == ruleMem[..k]
  {
    if 0 <= n < Pow256(8) {
      var s := Seed(ruleMem, n).value;
      assert s[4..12] == EncodeLE(n, 8);
      DecodeEncode(n, 8);
    }
  }
}

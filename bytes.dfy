/**
 * Byte-level encodings used by the hash ledger: unsigned 32-bit little-endian integers
 * (`Buffer.writeUInt32LE` / `readUInt32LE`) and Node's `"hex"` encoding
 * (`Buffer.from(s, "hex")` / `buffer.toString("hex")`).
 */
module Bytes {
  import opened Wrappers

  newtype byte = x: int | 0 <= x < 256

  /** 2^32: the first value `writeUInt32LE` refuses. */
  const UINT32_LIMIT: nat := 0x1_0000_0000

  // ---------------------------------------------------------------- uint32 little-endian

  /** `writeUInt32LE(n)`: least significant byte first. */
  function LE32(n: nat): (r: seq<byte>)
    requires n < UINT32_LIMIT
    ensures |r| == 4
  {
    [(n % 256) as byte, (n / 256 % 256) as byte, (n / 65536 % 256) as byte, (n / 16777216) as byte]
  }

  /** `readUInt32LE` over four bytes. */
  function ReadLE32(b: seq<byte>): (n: nat)
    requires |b| == 4
    ensures n < UINT32_LIMIT
  {
    b[0] as nat + 256 * b[1] as nat + 65536 * b[2] as nat + 16777216 * b[3] as nat
  }

  /** Reading back what was written gives the same number ... */
  lemma LE32RoundTrip(n: nat)
    requires n < UINT32_LIMIT
    ensures ReadLE32(LE32(n)) == n
  {
    var b := LE32(n);
    var q1 := n / 256;
    var q2 := q1 / 256;
    assert n == n % 256 + 256 * q1;
    assert q1 == q1 % 256 + 256 * q2;
    assert n / 65536 == q2;
    assert n / 16777216 == q2 / 256;
    assert q2 == q2 % 256 + 256 * (q2 / 256);
  }

  /** ... and writing back what was read gives the same bytes: the encoding is a bijection. */
  lemma ReadLE32RoundTrip(b: seq<byte>)
    requires |b| == 4
    ensures LE32(ReadLE32(b)) == b
  {
    var n := ReadLE32(b);
    var b0, b1, b2, b3 := b[0] as nat, b[1] as nat, b[2] as nat, b[3] as nat;
    assert n == b0 + 256 * (b1 + 256 * (b2 + 256 * b3));
    assert n % 256 == b0 && n / 256 == b1 + 256 * (b2 + 256 * b3);
    var q1 := n / 256;
    assert q1 % 256 == b1 && q1 / 256 == b2 + 256 * b3;
    assert n / 65536 == q1 / 256;
    var q2 := q1 / 256;
    assert q2 % 256 == b2 && q2 / 256 == b3;
    assert n / 16777216 == q2 / 256;
  }

  // ---------------------------------------------------------------- hex

  /** The value of a hexadecimal digit, either case. */
  function HexValue(c: char): (r: Option<nat>)
    ensures r.Some? ==> r.value < 16
  {
    if '0' <= c <= '9' then Some(c as nat - '0' as nat)
    else if 'a' <= c <= 'f' then Some(c as nat - 'a' as nat + 10)
    else if 'A' <= c <= 'F' then Some(c as nat - 'A' as nat + 10)
    else None
  }

  /** The lowercase digit `toString("hex")` writes. */
  function HexChar(d: nat): char
    requires d < 16
  {
    "0123456789abcdef"[d]
  }

  predicate IsLowerHexDigit(c: char) {
    '0' <= c <= '9' || 'a' <= c <= 'f'
  }

  /** Lowercase hexadecimal text of whole bytes. */
  predicate IsLowerHex(s: string) {
    |s| % 2 == 0 && forall i :: 0 <= i < |s| ==> IsLowerHexDigit(s[i])
  }

  /** `buffer.toString("hex")`: two lowercase digits per byte, high nibble first. */
  function EncodeHex(bs: seq<byte>): (s: string)
    ensures |s| == 2 * |bs|
  {
    if bs == [] then ""
    else [HexChar(bs[0] as nat / 16), HexChar(bs[0] as nat % 16)] + EncodeHex(bs[1..])
  }

  /** The hex text of some bytes is lowercase hex text. */
  lemma {:induction false} EncodeHexLower(bs: seq<byte>)
    ensures IsLowerHex(EncodeHex(bs))
  {
    if bs != [] {
      var b := bs[0] as nat;
      HexCharValue(b / 16);
      HexCharValue(b % 16);
      EncodeHexLower(bs[1..]);
      var s, t := EncodeHex(bs), EncodeHex(bs[1..]);
      assert s == [HexChar(b / 16), HexChar(b % 16)] + t;
      forall i | 0 <= i < |s| ensures IsLowerHexDigit(s[i]) {
        if i >= 2 {
          assert s[i] == t[i - 2];
        }
      }
    }
  }

  /**
   * `Buffer.from(s, "hex")`: decodes digit pairs from the start and stops at the first
   * pair holding a non-hex character; an unpaired last character is dropped.
   */
  function DecodeHex(s: string): (bs: seq<byte>)
    ensures |bs| <= |s| / 2
  {
    if |s| < 2 then []
    else
      var hi, lo := HexValue(s[0]), HexValue(s[1]);
      if hi.Some? && lo.Some? then [(16 * hi.value + lo.value) as byte] + DecodeHex(s[2..])
      else []
  }

  lemma HexCharValue(d: nat)
    requires d < 16
    ensures HexValue(HexChar(d)) == Some(d)
    ensures IsLowerHexDigit(HexChar(d))
  {
  }

  /** Decoding the hex text of some bytes gives those bytes back. */
  lemma {:induction false} DecodeEncodeHex(bs: seq<byte>)
    ensures DecodeHex(EncodeHex(bs)) == bs
  {
    if bs != [] {
      var b := bs[0] as nat;
      HexCharValue(b / 16);
      HexCharValue(b % 16);
      var s := EncodeHex(bs);
      assert s[2..] == EncodeHex(bs[1..]);
      DecodeEncodeHex(bs[1..]);
      assert bs == [bs[0]] + bs[1..];
    }
  }

  lemma HexValueChar(c: char)
    requires IsLowerHexDigit(c)
    ensures HexValue(c).Some? && HexChar(HexValue(c).value) == c
  {
  }

  /** A leading pair of lowercase digits decodes to a byte that encodes back to the same pair. */
  lemma DecodeHexStep(s: string) returns (b: byte)
    requires |s| >= 2 && IsLowerHexDigit(s[0]) && IsLowerHexDigit(s[1])
    ensures DecodeHex(s) == [b] + DecodeHex(s[2..])
    ensures [HexChar(b as nat / 16), HexChar(b as nat % 16)] == s[..2]
  {
    HexValueChar(s[0]);
    HexValueChar(s[1]);
    var hi, lo := HexValue(s[0]).value, HexValue(s[1]).value;
    Nibbles(hi, lo);
    b := (16 * hi + lo) as byte;
    assert b as nat / 16 == hi && b as nat % 16 == lo;
    assert HexChar(hi) == s[0] && HexChar(lo) == s[1];
    assert s[..2] == [s[0], s[1]];
  }

  lemma Nibbles(hi: nat, lo: nat)
    requires hi < 16 && lo < 16
    ensures 16 * hi + lo < 256 && (16 * hi + lo) / 16 == hi && (16 * hi + lo) % 16 == lo
  {
  }

  /** Lowercase hex text of at least one byte: two digits, then lowercase hex text. */
  lemma LowerHexTail(s: string)
    requires IsLowerHex(s) && |s| >= 2
    ensures IsLowerHexDigit(s[0]) && IsLowerHexDigit(s[1]) && IsLowerHex(s[2..])
  {
    var t := s[2..];
    forall i | 0 <= i < |t| ensures IsLowerHexDigit(t[i]) {
      assert t[i] == s[i + 2];
    }
  }

  /** Lowercase hex text decodes to half as many bytes as it has characters. */
  lemma {:induction false} DecodeHexLength(s: string)
    requires IsLowerHex(s)
    ensures |DecodeHex(s)| == |s| / 2
  {
    if |s| >= 2 {
      LowerHexTail(s);
      var _ := DecodeHexStep(s);
      DecodeHexLength(s[2..]);
    }
  }

  /** Encoding decoded lowercase hex text gives the text back. */
  lemma {:induction false} EncodeDecodeHex(s: string)
    requires IsLowerHex(s)
    ensures |DecodeHex(s)| == |s| / 2
    ensures EncodeHex(DecodeHex(s)) == s
  {
    DecodeHexLength(s);
    if |s| >= 2 {
      LowerHexTail(s);
      var b := DecodeHexStep(s);
      var t := s[2..];
      EncodeDecodeHex(t);
      var d, rest := DecodeHex(s), DecodeHex(t);
      assert d == [b] + rest;
      EncodeHexCons(b, rest);
      assert EncodeHex(d) == s[..2] + EncodeHex(rest);
      assert s == s[..2] + t;
    }
  }

  lemma EncodeHexCons(b: byte, rest: seq<byte>)
    ensures EncodeHex([b] + rest) == [HexChar(b as nat / 16), HexChar(b as nat % 16)] + EncodeHex(rest)
  {
    assert ([b] + rest)[1..] == rest;
  }
}

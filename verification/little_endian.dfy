/**
 * Bytes and the little-endian integer layouts of Python's `struct` module
 * (`<B`, `<H`, `<h`, `<I`), plus UTF-8 encoding of text.
 */
module LittleEndian {
  import opened Wrappers

  type Byte = x: int | 0 <= x < 256

  const U16_LIMIT: int := 0x1_0000
  const U32_LIMIT: int := 0x1_0000_0000

  /** 256 to the power `width`: the number of values `width` bytes can hold. */
  function Pow256(width: nat): (p: nat)
    ensures p >= 1
  {
    if width == 0 then 1 else 256 * Pow256(width - 1)
  }

  /** The `width` low-order bytes of `n`, least significant first. */
  function Bytes(n: nat, width: nat): (b: seq<Byte>)
    ensures |b| == width
  {
    if width == 0 then [] else [n % 256] + Bytes(n / 256, width - 1)
  }

  /** The unsigned value of little-endian bytes. */
  function FromBytes(b: seq<Byte>): (n: nat)
    ensures n < Pow256(|b|)
  {
    if b == [] then 0 else b[0] + 256 * FromBytes(b[1..])
  }

  /** Reading back `width` bytes gives the value, for every value that fits. */
  lemma {:induction false} BytesRoundTrip(n: nat, width: nat)
    requires n < Pow256(width)
    ensures FromBytes(Bytes(n, width)) == n
  {
    if width > 0 {
      BytesRoundTrip(n / 256, width - 1);
      var b := Bytes(n, width);
      assert b[0] == n % 256 && b[1..] == Bytes(n / 256, width - 1);
    }
  }

  /** `struct.pack('<H', n)`; the caller has checked `0 <= n < 2^16`. */
  function U16(n: int): (b: seq<Byte>)
    requires 0 <= n < U16_LIMIT
    ensures |b| == 2
  {
    Bytes(n, 2)
  }

  function ReadU16(b: seq<Byte>): (n: int)
    requires |b| == 2
    ensures 0 <= n < U16_LIMIT
  {
    assert Pow256(2) == U16_LIMIT;
    FromBytes(b)
  }

  /** `struct.pack('<h', n)`: two's complement; the caller has checked `-2^15 <= n < 2^15`. */
  function I16(n: int): (b: seq<Byte>)
    requires -0x8000 <= n < 0x8000
    ensures |b| == 2
  {
    U16(if n < 0 then n + U16_LIMIT else n)
  }

  function ReadI16(b: seq<Byte>): (n: int)
    requires |b| == 2
    ensures -0x8000 <= n < 0x8000
  {
    var u := ReadU16(b);
    if u >= 0x8000 then u - U16_LIMIT else u
  }

  /** `struct.pack('<I', n)`; the caller has checked `0 <= n < 2^32`. */
  function U32(n: int): (b: seq<Byte>)
    requires 0 <= n < U32_LIMIT
    ensures |b| == 4
  {
    Bytes(n, 4)
  }

  function ReadU32(b: seq<Byte>): (n: int)
    requires |b| == 4
    ensures 0 <= n < U32_LIMIT
  {
    assert Pow256(4) == U32_LIMIT;
    FromBytes(b)
  }

  lemma U16RoundTrip(n: int)
    requires 0 <= n < U16_LIMIT
    ensures ReadU16(U16(n)) == n
  {
    assert Pow256(2) == U16_LIMIT;
    BytesRoundTrip(n, 2);
  }

  lemma I16RoundTrip(n: int)
    requires -0x8000 <= n < 0x8000
    ensures ReadI16(I16(n)) == n
  {
    U16RoundTrip(if n < 0 then n + U16_LIMIT else n);
  }

  lemma U32RoundTrip(n: int)
    requires 0 <= n < U32_LIMIT
    ensures ReadU32(U32(n)) == n
  {
    assert Pow256(4) == U32_LIMIT;
    BytesRoundTrip(n, 4);
  }

  /** A run of `n` NUL bytes. */
  function Zeros(n: nat): (z: seq<Byte>)
    ensures |z| == n
  {
    seq(n, _ => 0)
  }

  /** `struct.pack('<' + str(w) + 's', b)`: truncated or NUL-padded to exactly `w` bytes. */
  function FixedField(b: seq<Byte>, w: nat): (f: seq<Byte>)
    ensures |f| == w
  {
    if |b| >= w then b[..w] else b + Zeros(w - |b|)
  }

  /** A field keeps the bytes that fit, in order, and pads with NUL after them. */
  lemma FixedFieldContents(b: seq<Byte>, w: nat)
    ensures forall i :: 0 <= i < w ==> FixedField(b, w)[i] == if i < |b| then b[i] else 0
  {
  }

  /** UTF-8 encoding of one character (RFC 3629, section 3). */
  function Utf8Char(c: char): (b: seq<Byte>)
    ensures 1 <= |b| <= 4
    ensures |b| == 1 <==> c as int < 0x80
  {
    var n := c as int;
    if n < 0x80 then [n]
    else if n < 0x800 then [0xC0 + n / 64, 0x80 + n % 64]
    else if n < 0x1_0000 then [0xE0 + n / 0x1000, 0x80 + (n / 64) % 64, 0x80 + n % 64]
    else [0xF0 + n / 0x4_0000, 0x80 + (n / 0x1000) % 64, 0x80 + (n / 64) % 64, 0x80 + n % 64]
  }

  /** `s.encode('utf-8')`. */
  function Utf8Encode(s: string): (b: seq<Byte>)
    ensures |b| >= |s|
  {
    if s == [] then [] else Utf8Char(s[0]) + Utf8Encode(s[1..])
  }

  predicate IsAscii(s: string) {
    forall i :: 0 <= i < |s| ==> s[i] as int < 0x80
  }

  /** ASCII text encodes to one byte per character, each its code. */
  lemma {:induction false} AsciiEncode(s: string)
    requires IsAscii(s)
    ensures |Utf8Encode(s)| == |s|
    ensures forall i :: 0 <= i < |s| ==> Utf8Encode(s)[i] == s[i] as int
  {
    if s != [] {
      AsciiEncode(s[1..]);
      assert Utf8Encode(s) == [s[0] as int] + Utf8Encode(s[1..]);
    }
  }

  /**
   * `b.decode('utf-8')` for byte strings made of single-byte (ASCII) characters;
   * None where Python raises UnicodeDecodeError. Multi-byte sequences are outside
   * this model and are reported as None as well.
   */
  function Utf8DecodeAscii(b: seq<Byte>): (r: Option<string>)
    ensures r.Some? ==> |r.value| == |b|
  {
    if b == [] then Some([])
    else if b[0] >= 0x80 then None
    else
      match Utf8DecodeAscii(b[1..])
      case None => None
      case Some(t) => Some([b[0] as char] + t)
  }

  /** Decoding succeeds exactly on bytes below 0x80 and maps each to the character with that code. */
  lemma {:induction false} AsciiDecode(b: seq<Byte>)
    ensures Utf8DecodeAscii(b).Some? <==> forall i :: 0 <= i < |b| ==> b[i] < 0x80
    ensures Utf8DecodeAscii(b).Some? ==> forall i :: 0 <= i < |b| ==> Utf8DecodeAscii(b).value[i] as int == b[i]
  {
    if b != [] {
      AsciiDecode(b[1..]);
      if b[0] < 0x80 && Utf8DecodeAscii(b[1..]).Some? {
        var t := Utf8DecodeAscii(b[1..]).value;
        assert Utf8DecodeAscii(b).value == [b[0] as char] + t;
      }
      if forall i :: 0 <= i < |b| ==> b[i] < 0x80 {
        assert forall i :: 0 <= i < |b| - 1 ==> b[1..][i] < 0x80 by {
          forall i | 0 <= i < |b| - 1 ensures b[1..][i] < 0x80 {
            assert b[1..][i] == b[i + 1];
          }
        }
      }
    }
  }

  /** Decoding undoes encoding on ASCII text. */
  lemma AsciiRoundTrip(s: string)
    requires IsAscii(s)
    ensures Utf8DecodeAscii(Utf8Encode(s)) == Some(s)
  {
    AsciiEncode(s);
    var b := Utf8Encode(s);
    AsciiDecode(b);
    assert Utf8DecodeAscii(b).value == s;
  }

  /** A run of `n` NUL characters. */
  function Nuls(n: nat): (z: string)
    ensures |z| == n
  {
    seq(n, _ => '\0')
  }

  /** An ASCII text padded into a `w`-byte field decodes to the text followed by NUL characters. */
  lemma PaddedAsciiRoundTrip(s: string, w: nat)
    requires IsAscii(s) && |s| <= w
    ensures Utf8DecodeAscii(FixedField(Utf8Encode(s), w)) == Some(s + Nuls(w - |s|))
  {
    AsciiEncode(s);
    var e := Utf8Encode(s);
    var b := FixedField(e, w);
    FixedFieldContents(e, w);
    var t := s + Nuls(w - |s|);
    forall i | 0 <= i < w
      ensures b[i] == t[i] as int
    {
      if i < |s| {
        assert t[i] == s[i] && b[i] == e[i];
      } else {
        assert t[i] == Nuls(w - |s|)[i - |s|] == '\0';
      }
    }
    AsciiDecode(b);
    assert Utf8DecodeAscii(b).value == t;
  }
}

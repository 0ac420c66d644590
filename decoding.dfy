/** `_decode_content`: strict UTF-8 decoding (the rules of Python's 'utf-8'
    codec, which are those of RFC 3629: no overlong forms, no surrogates,
    nothing above U+10FFFF), falling back to Latin-1 when the bytes are not
    valid UTF-8. */
module Decoding {
  import opened Common

  predicate InRange(b: byte, lo: int, hi: int) {
    lo <= b as int <= hi
  }

  /** Decodes the UTF-8 sequence at the start of `b`: the character and the
      number of bytes it takes, or `None` when the sequence is invalid. */
  function DecodeOne(b: seq<byte>): (r: Option<(char, nat)>)
    requires b != []
    ensures r.Some? ==> 1 <= r.value.1 <= |b| && r.value.1 <= 4
  {
    var b0 := b[0] as int;
    if b0 < 0x80 then Some((b0 as char, 1))
    else if 0xC2 <= b0 <= 0xDF then
      if |b| >= 2 && InRange(b[1], 0x80, 0xBF) then
        Some((((b0 - 0xC0) * 64 + (b[1] as int - 0x80)) as char, 2))
      else None
    else if 0xE0 <= b0 <= 0xEF then
      var lo := if b0 == 0xE0 then 0xA0 else 0x80;
      var hi := if b0 == 0xED then 0x9F else 0xBF;
      if |b| >= 3 && InRange(b[1], lo, hi) && InRange(b[2], 0x80, 0xBF) then
        var cp := (b0 - 0xE0) * 4096 + (b[1] as int - 0x80) * 64 + (b[2] as int - 0x80);
        assert 0x800 <= cp <= 0xD7FF || 0xE000 <= cp <= 0xFFFF;
        Some((cp as char, 3))
      else None
    else if 0xF0 <= b0 <= 0xF4 then
      var lo := if b0 == 0xF0 then 0x90 else 0x80;
      var hi := if b0 == 0xF4 then 0x8F else 0xBF;
      if |b| >= 4 && InRange(b[1], lo, hi) && InRange(b[2], 0x80, 0xBF) && InRange(b[3], 0x80, 0xBF) then
        var cp := (b0 - 0xF0) * 262144 + (b[1] as int - 0x80) * 4096 + (b[2] as int - 0x80) * 64 + (b[3] as int - 0x80);
        assert 0x10000 <= cp <= 0x10FFFF;
        Some((cp as char, 4))
      else None
    else None
  }

  /** `content.decode('utf-8')`, or `None` where it raises `UnicodeDecodeError`. */
  function Utf8Decode(b: seq<byte>): Option<string>
    decreases |b|
  {
    if b == [] then Some("")
    else match DecodeOne(b)
      case None => None
      case Some((c, n)) =>
        match Utf8Decode(b[n..])
        case None => None
        case Some(s) => Some([c] + s)
  }

  /** `content.decode('latin-1')`: byte `k` becomes the character with code `k`. */
  function Latin1Decode(b: seq<byte>): string {
    seq(|b|, i requires 0 <= i < |b| => (b[i] as int) as char)
  }

  /** `_decode_content`: never fails; the UTF-8 reading when the bytes are
      valid UTF-8, otherwise one character per byte with the byte's code. */
  function DecodeContent(b: seq<byte>): (s: string)
    ensures Utf8Decode(b).Some? ==> Utf8Decode(b) == Some(s)
    ensures Utf8Decode(b).None? ==> |s| == |b| && forall i :: 0 <= i < |b| ==> s[i] as int == b[i] as int
  {
    match Utf8Decode(b)
    case Some(s) => s
    case None => Latin1Decode(b)
  }

  /** The UTF-8 encoding of one character (RFC 3629 section 3). */
  function EncodeChar(c: char): (r: seq<byte>)
    ensures 1 <= |r| <= 4
  {
    var n := c as int;
    if n < 0x80 then [n as byte]
    else if n < 0x800 then [(0xC0 + n / 64) as byte, (0x80 + n % 64) as byte]
    else if n < 0x10000 then [(0xE0 + n / 4096) as byte, (0x80 + (n / 64) % 64) as byte, (0x80 + n % 64) as byte]
    else
      var r1 := n % 262144;
      var r2 := r1 % 4096;
      [(0xF0 + n / 262144) as byte, (0x80 + r1 / 4096) as byte, (0x80 + r2 / 64) as byte, (0x80 + r2 % 64) as byte]
  }

  function Utf8Encode(s: string): seq<byte> {
    if s == [] then [] else EncodeChar(s[0]) + Utf8Encode(s[1..])
  }

  lemma DecodeEncodeTwo(c: char, rest: seq<byte>)
    requires 0x80 <= c as int < 0x800
    ensures DecodeOne(EncodeChar(c) + rest) == Some((c, 2))
  {
    var b := EncodeChar(c) + rest;
    var n := c as int;
    assert b[0] as int == 0xC0 + n / 64 && b[1] as int == 0x80 + n % 64;
  }

  lemma DecodeEncodeThree(c: char, rest: seq<byte>)
    requires 0x800 <= c as int < 0x10000
    ensures DecodeOne(EncodeChar(c) + rest) == Some((c, 3))
  {
    var b := EncodeChar(c) + rest;
    var n := c as int;
    assert b[0] as int == 0xE0 + n / 4096 && b[1] as int == 0x80 + (n / 64) % 64 && b[2] as int == 0x80 + n % 64;
    assert n == (n / 4096) * 4096 + ((n / 64) % 64) * 64 + n % 64;
  }

  lemma DecodeEncodeFour(c: char, rest: seq<byte>)
    requires 0x10000 <= c as int
    ensures DecodeOne(EncodeChar(c) + rest) == Some((c, 4))
  {
    var b := EncodeChar(c) + rest;
    var n := c as int;
    var r1 := n % 262144;
    var r2 := r1 % 4096;
    assert n == (n / 262144) * 262144 + r1;
    assert r1 == (r1 / 4096) * 4096 + r2;
    assert r2 == (r2 / 64) * 64 + r2 % 64;
    assert n / 262144 <= 4;
    assert n / 262144 == 4 ==> r1 / 4096 <= 15;
    assert n / 262144 == 0 ==> r1 / 4096 >= 16;
    assert b[0] as int == 0xF0 + n / 262144 && b[1] as int == 0x80 + r1 / 4096;
    assert b[2] as int == 0x80 + r2 / 64 && b[3] as int == 0x80 + r2 % 64;
  }

  /** Decoding the encoding of a character reads back that character and
      consumes exactly its bytes. */
  lemma DecodeOneEncode(c: char, rest: seq<byte>)
    ensures DecodeOne(EncodeChar(c) + rest) == Some((c, |EncodeChar(c)|))
  {
    var n := c as int;
    if n < 0x80 {
    } else if n < 0x800 {
      DecodeEncodeTwo(c, rest);
    } else if n < 0x10000 {
      DecodeEncodeThree(c, rest);
    } else {
      DecodeEncodeFour(c, rest);
    }
  }

  /** Every string survives a UTF-8 round trip, so `_decode_content` returns
      the original text of any UTF-8 encoded file. */
  lemma {:induction false} Utf8RoundTrip(s: string)
    ensures Utf8Decode(Utf8Encode(s)) == Some(s)
    ensures DecodeContent(Utf8Encode(s)) == s
  {
    if s != [] {
      var e := EncodeChar(s[0]);
      var rest := Utf8Encode(s[1..]);
      DecodeOneEncode(s[0], rest);
      assert (e + rest)[|e|..] == rest;
      Utf8RoundTrip(s[1..]);
      assert [s[0]] + s[1..] == s;
    }
  }

  /** On ASCII bytes the two codecs agree. */
  lemma {:induction false} AsciiDecodesAsLatin1(b: seq<byte>)
    requires forall i :: 0 <= i < |b| ==> b[i] < 0x80
    ensures Utf8Decode(b) == Some(Latin1Decode(b))
    ensures DecodeContent(b) == Latin1Decode(b)
    decreases |b|
  {
    if b != [] {
      AsciiDecodesAsLatin1(b[1..]);
      assert Latin1Decode(b) == [(b[0] as int) as char] + Latin1Decode(b[1..]);
    }
  }

  /** A lone Latin-1 "é" (0xE9) is not valid UTF-8 and decodes to U+00E9. */
  lemma Latin1Fallback()
    ensures Utf8Decode([0xE9]) == None
    ensures DecodeContent([0xE9]) == [0xE9 as char]
  {
  }
}

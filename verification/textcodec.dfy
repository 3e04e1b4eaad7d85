/**
 * `TextEncoder.encode` and `TextDecoder.decode` with the default "utf-8"
 * encoding of the Encoding Standard: the encoder writes UTF-8; the decoder
 * drops a leading byte order mark and replaces each maximal ill-formed
 * subsequence by U+FFFD instead of failing.
 */
module TextCodec {
  import opened Js

  const Replacement: char := 0xFFFD as char
  const ByteOrderMark: char := 0xFEFF as char

  /** The UTF-8 bytes of one character. */
  function EncodeChar(c: char): (r: seq<Byte>)
    ensures 1 <= |r| <= 4
  {
    var n := c as int;
    if n < 0x80 then [n]
    else if n < 0x800 then [0xC0 + n / 64, 0x80 + n % 64]
    else if n < 0x10000 then [0xE0 + n / 64 / 64, 0x80 + n / 64 % 64, 0x80 + n % 64]
    else [0xF0 + n / 64 / 64 / 64, 0x80 + n / 64 / 64 % 64, 0x80 + n / 64 % 64, 0x80 + n % 64]
  }

  /** `new TextEncoder().encode(s)`. */
  function Encode(s: string): seq<Byte> {
    if |s| == 0 then [] else EncodeChar(s[0]) + Encode(s[1..])
  }

  predicate IsContinuation(b: Byte) {
    0x80 <= b <= 0xBF
  }

  /**
   * The first character of `b` and the number of bytes it takes. A lead byte
   * whose continuation is missing or out of range yields U+FFFD for the bytes
   * accepted so far; the offending byte is then read again as a lead byte.
   */
  function DecodeOne(b: seq<Byte>): (r: (char, nat))
    requires |b| > 0
    ensures 1 <= r.1 <= |b|
  {
    var b0: int := b[0];
    if b0 < 0x80 then (b0 as char, 1)
    else if 0xC2 <= b0 <= 0xDF then
      if |b| < 2 || !IsContinuation(b[1]) then (Replacement, 1)
      else (((b0 - 0xC0) * 64 + (b[1] as int - 0x80)) as char, 2)
    else if 0xE0 <= b0 <= 0xEF then
      var lo := if b0 == 0xE0 then 0xA0 else 0x80;
      var hi := if b0 == 0xED then 0x9F else 0xBF;
      if |b| < 2 || !(lo <= b[1] <= hi) then (Replacement, 1)
      else if |b| < 3 || !IsContinuation(b[2]) then (Replacement, 2)
      else (((b0 - 0xE0) * 4096 + (b[1] as int - 0x80) * 64 + (b[2] as int - 0x80)) as char, 3)
    else if 0xF0 <= b0 <= 0xF4 then
      var lo := if b0 == 0xF0 then 0x90 else 0x80;
      var hi := if b0 == 0xF4 then 0x8F else 0xBF;
      if |b| < 2 || !(lo <= b[1] <= hi) then (Replacement, 1)
      else if |b| < 3 || !IsContinuation(b[2]) then (Replacement, 2)
      else if |b| < 4 || !IsContinuation(b[3]) then (Replacement, 3)
      else
        (((b0 - 0xF0) * 0x40000 + (b[1] as int - 0x80) * 4096 + (b[2] as int - 0x80) * 64 + (b[3] as int - 0x80)) as char, 4)
    else (Replacement, 1)
  }

  function DecodeAll(b: seq<Byte>): string
    decreases |b|
  {
    if |b| == 0 then ""
    else
      var (c, k) := DecodeOne(b);
      [c] + DecodeAll(b[k..])
  }

  /** `new TextDecoder().decode(b)`: a leading byte order mark is not part of the text. */
  function Decode(b: seq<Byte>): string {
    if |b| >= 3 && b[0] == 0xEF && b[1] == 0xBB && b[2] == 0xBF then DecodeAll(b[3..]) else DecodeAll(b)
  }

  lemma DecodeTwo(n: int, rest: seq<Byte>)
    requires 0x80 <= n < 0x800
    ensures DecodeOne([0xC0 + n / 64, 0x80 + n % 64] + rest) == (n as char, 2)
  {
  }

  lemma DecodeThree(n: int, rest: seq<Byte>)
    requires 0x800 <= n < 0x10000 && !(0xD800 <= n < 0xE000)
    ensures DecodeOne([0xE0 + n / 64 / 64, 0x80 + n / 64 % 64, 0x80 + n % 64] + rest) == (n as char, 3)
  {
    var q1 := n / 64;
    var q2 := q1 / 64;
    assert n == q1 * 64 + n % 64;
    assert q1 == q2 * 64 + q1 % 64;
  }

  lemma DecodeFour(n: int, rest: seq<Byte>)
    requires 0x10000 <= n < 0x110000
    ensures DecodeOne([0xF0 + n / 64 / 64 / 64, 0x80 + n / 64 / 64 % 64, 0x80 + n / 64 % 64, 0x80 + n % 64] + rest)
         == (n as char, 4)
  {
    var q1 := n / 64;
    var q2 := q1 / 64;
    var q3 := q2 / 64;
    assert n == q1 * 64 + n % 64;
    assert q1 == q2 * 64 + q1 % 64;
    assert q2 == q3 * 64 + q2 % 64;
  }

  /** The decoder reads back the bytes of one character and nothing more. */
  lemma DecodeOneEncodeChar(c: char, rest: seq<Byte>)
    ensures DecodeOne(EncodeChar(c) + rest) == (c, |EncodeChar(c)|)
  {
    var n := c as int;
    if n < 0x80 {
    } else if n < 0x800 {
      DecodeTwo(n, rest);
    } else if n < 0x10000 {
      DecodeThree(n, rest);
    } else {
      DecodeFour(n, rest);
    }
  }

  lemma {:induction false} DecodeAllEncode(s: string)
    ensures DecodeAll(Encode(s)) == s
  {
    if |s| > 0 {
      var e := EncodeChar(s[0]);
      var tail := Encode(s[1..]);
      assert Encode(s) == e + tail;
      DecodeOneEncodeChar(s[0], tail);
      assert (e + tail)[|e|..] == tail;
      DecodeAllEncode(s[1..]);
      assert [s[0]] + s[1..] == s;
    }
  }

  /** Only the byte order mark itself is encoded as the bytes EF BB BF. */
  lemma EncodeStartsWithMark(s: string)
    requires |s| > 0 && s[0] != ByteOrderMark
    ensures !(|Encode(s)| >= 3 && Encode(s)[0] == 0xEF && Encode(s)[1] == 0xBB && Encode(s)[2] == 0xBF)
  {
    assert Encode(s) == EncodeChar(s[0]) + Encode(s[1..]);
  }

  /** `decode(encode(s)) == s`, unless `s` starts with a byte order mark, which the decoder drops. */
  lemma DecodeEncode(s: string)
    requires |s| == 0 || s[0] != ByteOrderMark
    ensures Decode(Encode(s)) == s
  {
    DecodeAllEncode(s);
    if |s| > 0 {
      EncodeStartsWithMark(s);
    }
  }

  /** The round trip does fail on a leading byte order mark. */
  lemma DecodeDropsMark()
    ensures Decode(Encode([ByteOrderMark])) == ""
  {
    assert Encode([ByteOrderMark]) == [0xEF, 0xBB, 0xBF];
  }

  /** Different texts have different UTF-8 bytes. */
  lemma EncodeInjective(s: string, t: string)
    requires s != t
    ensures Encode(s) != Encode(t)
  {
    DecodeAllEncode(s);
    DecodeAllEncode(t);
  }
}

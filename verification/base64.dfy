/**
 * `btoa` and `atob` of the HTML standard: base64 of RFC 4648 section 4 with
 * padding on the way out, and the "forgiving-base64 decode" of the Infra
 * standard on the way in (ASCII white space is ignored, padding is optional,
 * anything else outside the alphabet is an InvalidCharacterError).
 * Both work on "binary strings", whose characters stand for bytes.
 */
module Base64 {
  import opened Js

  const InvalidCharacter := JsError("InvalidCharacterError", "The string is not correctly encoded.")

  /** The character for the 6-bit value `v`. */
  function SextetChar(v: int): (c: char)
    requires 0 <= v < 64
  {
    if v < 26 then ('A' as int + v) as char
    else if v < 52 then ('a' as int + v - 26) as char
    else if v < 62 then ('0' as int + v - 52) as char
    else if v == 62 then '+'
    else '/'
  }

  predicate InAlphabet(c: char) {
    ('A' <= c <= 'Z') || ('a' <= c <= 'z') || ('0' <= c <= '9') || c == '+' || c == '/'
  }

  /** The 6-bit value of an alphabet character. */
  function SextetValue(c: char): (v: int)
    requires InAlphabet(c)
    ensures 0 <= v < 64 && SextetChar(v) == c
  {
    if 'A' <= c <= 'Z' then c as int - 'A' as int
    else if 'a' <= c <= 'z' then c as int - 'a' as int + 26
    else if '0' <= c <= '9' then c as int - '0' as int + 52
    else if c == '+' then 62
    else 63
  }

  lemma SextetRoundTrip(v: int)
    requires 0 <= v < 64
    ensures InAlphabet(SextetChar(v)) && SextetValue(SextetChar(v)) == v
  {
  }

  /** The characters of a binary string, one per byte (`String.fromCharCode` on each byte). */
  function BinaryString(b: seq<Byte>): (s: string)
    ensures |s| == |b| && forall i :: 0 <= i < |b| ==> s[i] as int == b[i]
  {
    seq(|b|, i requires 0 <= i < |b| => b[i] as char)
  }

  /** The bytes a binary string stands for; every character must be at most U+00FF. */
  function BinaryBytes(s: string): (b: seq<Byte>)
    requires forall i :: 0 <= i < |s| ==> (s[i] as int) < 256
    ensures |b| == |s| && forall i :: 0 <= i < |s| ==> b[i] == s[i] as int
  {
    seq(|s|, i requires 0 <= i < |s| => s[i] as int)
  }

  /** The four characters for three bytes. */
  function Quad(b0: Byte, b1: Byte, b2: Byte): (r: string)
    ensures |r| == 4 && forall i :: 0 <= i < 4 ==> InAlphabet(r[i])
  {
    SextetRoundTrip(b0 / 4);
    SextetRoundTrip(b0 % 4 * 16 + b1 / 16);
    SextetRoundTrip(b1 % 16 * 4 + b2 / 64);
    SextetRoundTrip(b2 % 64);
    [SextetChar(b0 / 4), SextetChar(b0 % 4 * 16 + b1 / 16),
     SextetChar(b1 % 16 * 4 + b2 / 64), SextetChar(b2 % 64)]
  }

  /** The two or three characters for the last one or two bytes; the missing bits are zero. */
  function Tail(b: seq<Byte>): (r: string)
    requires |b| < 3
    ensures |r| == (if |b| == 0 then 0 else |b| + 1)
    ensures forall i :: 0 <= i < |r| ==> InAlphabet(r[i])
  {
    if |b| == 2 then
      SextetRoundTrip(b[0] / 4);
      SextetRoundTrip(b[0] % 4 * 16 + b[1] / 16);
      SextetRoundTrip(b[1] % 16 * 4);
      [SextetChar(b[0] / 4), SextetChar(b[0] % 4 * 16 + b[1] / 16), SextetChar(b[1] % 16 * 4)]
    else if |b| == 1 then
      SextetRoundTrip(b[0] / 4);
      SextetRoundTrip(b[0] % 4 * 16);
      [SextetChar(b[0] / 4), SextetChar(b[0] % 4 * 16)]
    else []
  }

  /** Base64 of `b` without padding: four characters per three bytes, then two or three for the rest. */
  function EncodeUnpadded(b: seq<Byte>): (r: string)
    ensures forall i :: 0 <= i < |r| ==> InAlphabet(r[i])
    ensures GoodLength(|r|)
  {
    if |b| >= 3 then Quad(b[0], b[1], b[2]) + EncodeUnpadded(b[3..]) else Tail(b)
  }

  /** The `=` signs that fill the last group of four characters. */
  function Padding(k: nat): (r: string)
    requires k < 3
    ensures |r| == (if k == 0 then 0 else 3 - k)
  {
    if k == 1 then "==" else if k == 2 then "=" else ""
  }

  /** Base64 of `b`: each group of three bytes becomes four characters, and a final group of one or two bytes is padded. */
  function Encode(b: seq<Byte>): (r: string)
    ensures |r| % 4 == 0
  {
    if |b| >= 3 then Quad(b[0], b[1], b[2]) + Encode(b[3..]) else Tail(b) + Padding(|b|)
  }

  /** A length that is not one more than a multiple of four, which is what a base64 text without padding has. */
  predicate GoodLength(n: nat) {
    if n >= 4 then GoodLength(n - 4) else n != 1
  }

  lemma {:induction false} GoodLengthMod(n: nat)
    ensures GoodLength(n) <==> n % 4 != 1
  {
    if n >= 4 {
      GoodLengthMod(n - 4);
    }
  }

  /** The three bytes of four 6-bit values. */
  function Bytes3(v0: int, v1: int, v2: int, v3: int): seq<Byte>
    requires 0 <= v0 < 64 && 0 <= v1 < 64 && 0 <= v2 < 64 && 0 <= v3 < 64
  {
    [v0 * 4 + v1 / 16, v1 % 16 * 16 + v2 / 4, v2 % 4 * 64 + v3]
  }

  /** The bytes of a run of 6-bit values whose length is not one more than a multiple of four. */
  function DecodeValues(v: seq<int>): (b: seq<Byte>)
    requires GoodLength(|v|)
    requires forall i :: 0 <= i < |v| ==> 0 <= v[i] < 64
  {
    if |v| >= 4 then Bytes3(v[0], v[1], v[2], v[3]) + DecodeValues(v[4..])
    // The bits past the last whole byte are dropped, whatever their value.
    else if |v| == 3 then Bytes3(v[0], v[1], v[2], 0)[..2]
    else if |v| == 2 then Bytes3(v[0], v[1], 0, 0)[..1]
    else []
  }

  /** ASCII white space as the Infra standard defines it. */
  predicate IsAsciiSpace(c: char) {
    c == '\t' || c == '\n' || c == 0x0C as char || c == '\r' || c == ' '
  }

  function RemoveSpace(s: string): (r: string)
    ensures |r| <= |s|
    ensures forall i :: 0 <= i < |r| ==> !IsAsciiSpace(r[i])
  {
    if |s| == 0 then ""
    else if IsAsciiSpace(s[0]) then RemoveSpace(s[1..])
    else [s[0]] + RemoveSpace(s[1..])
  }

  /** Drops one or two trailing `=` from a text whose length is a multiple of four. */
  function RemovePadding(s: string): string {
    if |s| % 4 != 0 then s
    else if |s| >= 2 && s[|s| - 1] == '=' && s[|s| - 2] == '=' then s[..|s| - 2]
    else if |s| >= 1 && s[|s| - 1] == '=' then s[..|s| - 1]
    else s
  }

  /** The 6-bit values of a text of alphabet characters. */
  function Values(t: string): (v: seq<int>)
    requires forall i :: 0 <= i < |t| ==> InAlphabet(t[i])
    ensures |v| == |t| && forall i :: 0 <= i < |v| ==> 0 <= v[i] < 64
  {
    seq(|t|, i requires 0 <= i < |t| => SextetValue(t[i]))
  }

  /** Forgiving-base64 decode: the bytes, or an InvalidCharacterError. */
  function Decode(s: string): (r: Result<seq<Byte>>)
    ensures r.Err? ==> r.error == InvalidCharacter
  {
    DecodeStripped(RemovePadding(RemoveSpace(s)))
  }

  /** The decoding of a text without white space and padding. */
  function DecodeStripped(t: string): (r: Result<seq<Byte>>)
    ensures r.Err? ==> r.error == InvalidCharacter
  {
    if |t| % 4 == 1 then Err(InvalidCharacter)
    else if exists i :: 0 <= i < |t| && !InAlphabet(t[i]) then Err(InvalidCharacter)
    else
      GoodLengthMod(|t|);
      Ok(DecodeValues(Values(t)))
  }

  /** `btoa(data)`: an InvalidCharacterError when a character is above U+00FF. */
  function Btoa(data: string): (r: Result<string>)
    ensures r.Ok? <==> forall i :: 0 <= i < |data| ==> (data[i] as int) < 256
    ensures r.Ok? ==> r.value == Encode(BinaryBytes(data))
  {
    if exists i :: 0 <= i < |data| && (data[i] as int) >= 256 then Err(InvalidCharacter)
    else Ok(Encode(BinaryBytes(data)))
  }

  /** `atob(data)`: the binary string of the decoded bytes, or an InvalidCharacterError. */
  function Atob(data: string): (r: Result<string>)
    ensures r.Ok? <==> Decode(data).Ok?
    ensures r.Ok? ==> r.value == BinaryString(Decode(data).value)
  {
    match Decode(data)
    case Ok(b) => Ok(BinaryString(b))
    case Err(e) => Err(e)
  }

  // ---------------------------------------------------------------------------
  // Round trip

  lemma QuadValues(b0: Byte, b1: Byte, b2: Byte)
    ensures Values(Quad(b0, b1, b2)) == [b0 / 4, b0 % 4 * 16 + b1 / 16, b1 % 16 * 4 + b2 / 64, b2 % 64]
  {
    SextetRoundTrip(b0 / 4);
    SextetRoundTrip(b0 % 4 * 16 + b1 / 16);
    SextetRoundTrip(b1 % 16 * 4 + b2 / 64);
    SextetRoundTrip(b2 % 64);
  }

  /** Three bytes survive the trip through four 6-bit values. */
  lemma GroupRoundTrip(b0: Byte, b1: Byte, b2: Byte)
    ensures Bytes3(b0 / 4, b0 % 4 * 16 + b1 / 16, b1 % 16 * 4 + b2 / 64, b2 % 64) == [b0, b1, b2]
  {
  }

  lemma TailRoundTrip(b: seq<Byte>)
    requires |b| < 3
    ensures DecodeValues(Values(Tail(b))) == b
  {
    if |b| == 2 {
      SextetRoundTrip(b[0] / 4);
      SextetRoundTrip(b[0] % 4 * 16 + b[1] / 16);
      SextetRoundTrip(b[1] % 16 * 4);
      GroupRoundTrip(b[0], b[1], 0);
    } else if |b| == 1 {
      SextetRoundTrip(b[0] / 4);
      SextetRoundTrip(b[0] % 4 * 16);
      GroupRoundTrip(b[0], 0, 0);
    }
  }

  lemma ValuesAppend(a: string, c: string)
    requires forall i :: 0 <= i < |a| ==> InAlphabet(a[i])
    requires forall i :: 0 <= i < |c| ==> InAlphabet(c[i])
    ensures Values(a + c) == Values(a) + Values(c)
  {
  }

  /** Decoding a group of four values and the rest. */
  lemma DecodeValuesCons(v: seq<int>, w: seq<int>)
    requires |v| == 4 && GoodLength(|w|)
    requires forall i :: 0 <= i < 4 ==> 0 <= v[i] < 64
    requires forall i :: 0 <= i < |w| ==> 0 <= w[i] < 64
    ensures DecodeValues(v + w) == Bytes3(v[0], v[1], v[2], v[3]) + DecodeValues(w)
  {
    assert (v + w)[4..] == w;
  }

  lemma {:induction false} DecodeEncodeUnpadded(b: seq<Byte>)
    ensures DecodeValues(Values(EncodeUnpadded(b))) == b
    decreases |b|
  {
    if |b| >= 3 {
      var q := Quad(b[0], b[1], b[2]);
      var tail := EncodeUnpadded(b[3..]);
      ValuesAppend(q, tail);
      QuadValues(b[0], b[1], b[2]);
      GroupRoundTrip(b[0], b[1], b[2]);
      DecodeValuesCons(Values(q), Values(tail));
      DecodeEncodeUnpadded(b[3..]);
      assert b == [b[0], b[1], b[2]] + b[3..];
    } else {
      TailRoundTrip(b);
    }
  }

  lemma RemoveSpaceNone(s: string)
    requires forall i :: 0 <= i < |s| ==> InAlphabet(s[i]) || s[i] == '='
    ensures RemoveSpace(s) == s
  {
    if |s| > 0 {
      RemoveSpaceNone(s[1..]);
      assert [s[0]] + s[1..] == s;
    }
  }

  /** The padding at the end of the base64 text of `b`. */
  function FinalPadding(b: seq<Byte>): (r: string)
    ensures r == "" || r == "=" || r == "=="
  {
    if |b| >= 3 then FinalPadding(b[3..]) else Padding(|b|)
  }

  /** Base64 is the unpadded text followed by the padding. */
  lemma {:induction false} EncodeSplit(b: seq<Byte>)
    ensures Encode(b) == EncodeUnpadded(b) + FinalPadding(b)
    decreases |b|
  {
    if |b| >= 3 {
      EncodeSplit(b[3..]);
      Regroup3(Quad(b[0], b[1], b[2]), EncodeUnpadded(b[3..]), FinalPadding(b));
    }
  }

  lemma Regroup3(a: string, b: string, c: string)
    ensures a + (b + c) == a + b + c
  {
  }

  lemma RemovePaddingEncode(b: seq<Byte>)
    ensures RemovePadding(Encode(b)) == EncodeUnpadded(b)
  {
    var u := EncodeUnpadded(b);
    var e := Encode(b);
    var p := FinalPadding(b);
    EncodeSplit(b);
    if p == "==" {
      assert e[..|e| - 2] == u;
    } else if p == "=" {
      assert e[..|e| - 1] == u;
      assert |u| > 0 && u[|u| - 1] != '=';
    } else {
      assert e == u;
      assert |u| > 0 ==> u[|u| - 1] != '=';
    }
  }

  /** The base64 text of `b` holds only alphabet characters and `=`. */
  lemma EncodeChars(b: seq<Byte>)
    ensures forall i :: 0 <= i < |Encode(b)| ==> InAlphabet(Encode(b)[i]) || Encode(b)[i] == '='
  {
    var e := Encode(b);
    var u := EncodeUnpadded(b);
    EncodeSplit(b);
    forall i | 0 <= i < |e| ensures InAlphabet(e[i]) || e[i] == '=' {
      if i < |u| { assert e[i] == u[i]; }
    }
  }

  /** Decoding what `Encode` wrote gives the bytes back. */
  lemma DecodeEncode(b: seq<Byte>)
    ensures Decode(Encode(b)) == Ok(b)
  {
    var e := Encode(b);
    var u := EncodeUnpadded(b);
    EncodeChars(b);
    RemoveSpaceNone(e);
    RemovePaddingEncode(b);
    DecodeStrippedValues(u);
    DecodeEncodeUnpadded(b);
  }

  /** A text of alphabet characters whose length is good decodes to its values. */
  lemma DecodeStrippedValues(u: string)
    requires forall i :: 0 <= i < |u| ==> InAlphabet(u[i])
    requires GoodLength(|u|)
    ensures DecodeStripped(u) == Ok(DecodeValues(Values(u)))
  {
    GoodLengthMod(|u|);
  }

  /** `atob(btoa(s)) == s` for every binary string. */
  lemma AtobBtoa(b: seq<Byte>)
    ensures Btoa(BinaryString(b)) == Ok(Encode(b))
    ensures Atob(Encode(b)) == Ok(BinaryString(b))
  {
    assert BinaryBytes(BinaryString(b)) == b;
    DecodeEncode(b);
  }

  /** A character outside the alphabet, other than white space and final padding, is rejected. */
  lemma DecodeRejects(s: string, i: int)
    requires 0 <= i < |s| && !InAlphabet(s[i]) && !IsAsciiSpace(s[i]) && s[i] != '='
    ensures Decode(s).Err?
  {
    var r := RemoveSpace(s);
    RemoveSpaceKeeps(s, i);
    var j :| 0 <= j < |r| && r[j] == s[i];
    var t := RemovePadding(r);
    assert j < |t| && t[j] == s[i];
  }

  lemma RemoveSpaceKeeps(s: string, i: int)
    requires 0 <= i < |s| && !IsAsciiSpace(s[i])
    ensures exists j :: 0 <= j < |RemoveSpace(s)| && RemoveSpace(s)[j] == s[i]
  {
    if i > 0 {
      RemoveSpaceKeeps(s[1..], i - 1);
      var j :| 0 <= j < |RemoveSpace(s[1..])| && RemoveSpace(s[1..])[j] == s[1..][i - 1];
      if !IsAsciiSpace(s[0]) {
        assert RemoveSpace(s)[j + 1] == s[i];
      } else {
        assert RemoveSpace(s)[j] == s[i];
      }
    } else {
      assert RemoveSpace(s)[0] == s[0];
    }
  }

  /** Base64 takes four characters for every started group of three bytes. */
  lemma {:induction false} EncodeLength(b: seq<Byte>)
    ensures |Encode(b)| == (|b| + 2) / 3 * 4
    decreases |b|
  {
    if |b| >= 3 {
      EncodeLength(b[3..]);
      var n := |b| - 3;
      assert |Encode(b)| == 4 + (n + 2) / 3 * 4;
      assert (n + 2) / 3 + 1 == (n + 5) / 3;
    }
  }
}

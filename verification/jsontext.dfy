/**
 * `JSON.stringify` and `JSON.parse` on the values of `Js.Json`. Stringify writes
 * the compact form (no white space); Parse accepts JSON white space between
 * tokens, integer numbers, and the escapes of RFC 8259 section 7. The main
 * property is the round trip `Parse(Stringify(v)) == Ok(v)`.
 */
module JsonText {
  import opened Js

  /** White space as RFC 8259 section 2 allows it between tokens. */
  predicate IsJsonSpace(c: char) {
    c == ' ' || c == '\t' || c == '\n' || c == '\r'
  }

  function SkipWs(s: string): (r: string)
    ensures |r| <= |s| && r == s[|s| - |r|..]
    ensures |r| > 0 ==> !IsJsonSpace(r[0])
  {
    if |s| > 0 && IsJsonSpace(s[0]) then SkipWs(s[1..]) else s
  }

  // ---------------------------------------------------------------------------
  // Strings

  /** The lower-case hexadecimal digit for `d`, as `JSON.stringify` writes it. */
  function HexDigit(d: int): (c: char)
    requires 0 <= d < 16
  {
    if d < 10 then ('0' as int + d) as char else ('a' as int + d - 10) as char
  }

  predicate IsHex(c: char) {
    ('0' <= c <= '9') || ('a' <= c <= 'f') || ('A' <= c <= 'F')
  }

  function HexValue(c: char): (d: int)
    requires IsHex(c)
    ensures 0 <= d < 16
  {
    if '0' <= c <= '9' then c as int - '0' as int
    else if 'a' <= c <= 'f' then c as int - 'a' as int + 10
    else c as int - 'A' as int + 10
  }

  /** How `JSON.stringify` writes one character of a string. */
  function Escape(c: char): (r: string)
    ensures |r| > 0 && r[0] != '"'
  {
    if c == '"' then "\\\""
    else if c == '\\' then "\\\\"
    else if c as int == 0x08 then "\\b"
    else if c as int == 0x0C then "\\f"
    else if c == '\n' then "\\n"
    else if c == '\r' then "\\r"
    else if c == '\t' then "\\t"
    else if (c as int) < 0x20 then "\\u00" + [HexDigit(c as int / 16), HexDigit(c as int % 16)]
    else [c]
  }

  function EscapeAll(s: string): string {
    if |s| == 0 then "" else Escape(s[0]) + EscapeAll(s[1..])
  }

  /** A string literal. */
  function Quote(s: string): string {
    "\"" + EscapeAll(s) + "\""
  }

  /** The character an escape sequence stands for; `s` is the text after the backslash. */
  function Unescape(s: string): (r: Option<(char, string)>)
    ensures r.Some? ==> |r.value.1| < |s|
  {
    if |s| == 0 then None
    else if s[0] == '"' || s[0] == '\\' || s[0] == '/' then Some((s[0], s[1..]))
    else if s[0] == 'b' then Some((0x08 as char, s[1..]))
    else if s[0] == 'f' then Some((0x0C as char, s[1..]))
    else if s[0] == 'n' then Some(('\n', s[1..]))
    else if s[0] == 'r' then Some(('\r', s[1..]))
    else if s[0] == 't' then Some(('\t', s[1..]))
    else if s[0] == 'u' && |s| >= 5 && IsHex(s[1]) && IsHex(s[2]) && IsHex(s[3]) && IsHex(s[4]) then
      var n := HexValue(s[1]) * 4096 + HexValue(s[2]) * 256 + HexValue(s[3]) * 16 + HexValue(s[4]);
      // A surrogate code unit only occurs in a pair, which this model does not decode.
      if 0xD800 <= n < 0xE000 then None else Some((n as char, s[5..]))
    else None
  }

  /** The next character of a string literal's body; `s` does not start at the closing quote. */
  function NextChar(s: string): (r: Option<(char, string)>)
    requires |s| > 0
    ensures r.Some? ==> |r.value.1| < |s|
  {
    if s[0] == '\\' then Unescape(s[1..])
    else if (s[0] as int) < 0x20 then None
    else Some((s[0], s[1..]))
  }

  /** The body of a string literal up to its closing quote, and the text after the quote. */
  function ParseChars(s: string): (r: Option<(string, string)>)
    ensures r.Some? ==> |r.value.1| < |s|
    decreases |s|
  {
    if |s| == 0 then None
    else if s[0] == '"' then Some(("", s[1..]))
    else
      match NextChar(s)
      case None => None
      case Some((c, rest)) =>
        match ParseChars(rest)
        case None => None
        case Some((t, after)) => Some(([c] + t, after))
  }

  lemma HexRoundTrip(d: int)
    requires 0 <= d < 16
    ensures IsHex(HexDigit(d)) && HexValue(HexDigit(d)) == d
  {
  }

  /** Reading back what `Escape(c)` wrote gives `c` and leaves the rest alone. */
  lemma NextCharEscape(c: char, z: string)
    ensures NextChar(Escape(c) + z) == Some((c, z))
  {
    var e := Escape(c);
    var s := e + z;
    if (c as int) < 0x20 && c as int != 0x08 && c as int != 0x0C && c != '\n' && c != '\r' && c != '\t' {
      var hi, lo := c as int / 16, c as int % 16;
      HexRoundTrip(hi);
      HexRoundTrip(lo);
      assert s[1..] == ['u', '0', '0', HexDigit(hi), HexDigit(lo)] + z;
      assert s[1..][5..] == z;
    } else if |e| == 2 {
      assert s[1..] == [e[1]] + z;
      assert s[1..][1..] == z;
    } else {
      assert s == [c] + z;
    }
  }

  /** The string body written by `EscapeAll` is read back up to the closing quote. */
  lemma {:induction false} ParseCharsEscape(t: string, rest: string)
    ensures ParseChars(EscapeAll(t) + "\"" + rest) == Some((t, rest))
    decreases |t|
  {
    var s := EscapeAll(t) + "\"" + rest;
    if |t| == 0 {
      assert s == "\"" + rest;
      assert s[1..] == rest;
    } else {
      var tail := EscapeAll(t[1..]) + "\"" + rest;
      assert s == Escape(t[0]) + tail;
      NextCharEscape(t[0], tail);
      ParseCharsEscape(t[1..], rest);
      assert [t[0]] + t[1..] == t;
    }
  }

  // ---------------------------------------------------------------------------
  // Numbers

  /** Length of the run of decimal digits at the start of `s`. */
  function DigitSpan(s: string): (k: nat)
    ensures k <= |s|
    ensures forall i :: 0 <= i < k ==> IsDigit(s[i])
    ensures k < |s| ==> !IsDigit(s[k])
  {
    if |s| > 0 && IsDigit(s[0]) then 1 + DigitSpan(s[1..]) else 0
  }

  /** The value of a string of decimal digits. */
  function DigitsValue(ds: string): (n: nat)
    requires forall i :: 0 <= i < |ds| ==> IsDigit(ds[i])
  {
    if |ds| == 0 then 0
    else
      assert IsDigit(ds[|ds| - 1]);
      DigitsValue(ds[..|ds| - 1]) * 10 + (ds[|ds| - 1] as int - '0' as int)
  }

  lemma {:induction false} DigitsValueNatText(n: nat)
    ensures DigitsValue(NatText(n)) == n
  {
    var t := NatText(n);
    if n >= 10 {
      assert t[..|t| - 1] == NatText(n / 10);
      DigitsValueNatText(n / 10);
    }
  }

  lemma {:induction false} DigitSpanPrefix(ds: string, rest: string)
    requires forall i :: 0 <= i < |ds| ==> IsDigit(ds[i])
    requires |rest| == 0 || !IsDigit(rest[0])
    ensures DigitSpan(ds + rest) == |ds|
  {
    if |ds| > 0 {
      assert (ds + rest)[1..] == ds[1..] + rest;
      DigitSpanPrefix(ds[1..], rest);
    } else {
      assert ds + rest == rest;
    }
  }

  /** An integer without a sign or leading zeros, and the text after it. */
  function ParseNat(d: string): (r: Option<(nat, string)>)
    ensures r.Some? ==> |r.value.1| < |d|
  {
    var k := DigitSpan(d);
    if k == 0 then None
    else if k > 1 && d[0] == '0' then None
    // A fraction or an exponent makes a number this model does not represent.
    else if k < |d| && (d[k] == '.' || d[k] == 'e' || d[k] == 'E') then None
    else Some((DigitsValue(d[..k]), d[k..]))
  }

  /** A number token: an optional minus sign and an integer. */
  function ParseNumber(t: string): (r: Option<(Json, string)>)
    requires |t| > 0
    ensures r.Some? ==> |r.value.1| < |t|
  {
    if t[0] == '-' then
      match ParseNat(t[1..])
      case None => None
      case Some((n, rest)) => Some((JNum(-(n as int)), rest))
    else
      match ParseNat(t)
      case None => None
      case Some((n, rest)) => Some((JNum(n), rest))
  }

  // ---------------------------------------------------------------------------
  // Values

  /** `JSON.stringify(v)`. */
  function Stringify(v: Json): (r: string)
    ensures |r| > 0 && !IsJsonSpace(r[0]) && (r[0] as int) < 0x80
    decreases v
  {
    match v
    case JNull => "null"
    case JBool(b) => if b then "true" else "false"
    case JNum(n) => IntText(n)
    case JStr(s) => Quote(s)
    case JArr(items) => "[" + Items(items) + "]"
    case JObj(fields) => "{" + Members(fields) + "}"
  }

  /** The elements of an array, separated by commas. */
  function Items(items: seq<Json>): string
    decreases items
  {
    if |items| == 0 then ""
    else if |items| == 1 then Stringify(items[0])
    else Stringify(items[0]) + "," + Items(items[1..])
  }

  /** The properties of an object, `"key":value`, separated by commas. */
  function Members(fields: seq<Field>): string
    decreases fields
  {
    if |fields| == 0 then ""
    else if |fields| == 1 then Member(fields[0])
    else Member(fields[0]) + "," + Members(fields[1..])
  }

  /** One property, `"key":value`. */
  function Member(f: Field): string
    decreases f
  {
    Quote(f.key) + ":" + Stringify(f.value)
  }

  function Literal(t: string, word: string, v: Json): (r: Option<(Json, string)>)
    requires |word| > 0
    ensures r.Some? ==> |r.value.1| < |t|
  {
    if |t| >= |word| && t[..|word|] == word then Some((v, t[|word|..])) else None
  }

  /** The text after the punctuation character `c`, when `c` comes next after white space. */
  function Punct(s: string, c: char): (r: Option<string>)
    ensures r.Some? ==> |r.value| < |s|
  {
    var t := SkipWs(s);
    if |t| > 0 && t[0] == c then Some(t[1..]) else None
  }

  /** One JSON value at the start of `s`, and the text after it. */
  function ParseValue(s: string): (r: Option<(Json, string)>)
    ensures r.Some? ==> |r.value.1| < |s|
    decreases |s|, 3
  {
    ParseToken(SkipWs(s))
  }

  /** The value whose first token starts `t`. */
  function ParseToken(t: string): (r: Option<(Json, string)>)
    ensures r.Some? ==> |r.value.1| < |t|
    decreases |t|, 2
  {
    if |t| == 0 then None
    else if t[0] == 'n' then Literal(t, "null", JNull)
    else if t[0] == 't' then Literal(t, "true", JBool(true))
    else if t[0] == 'f' then Literal(t, "false", JBool(false))
    else if t[0] == '"' then ParseString(t)
    else if t[0] == '[' then ParseArray(t)
    else if t[0] == '{' then ParseObject(t)
    else if t[0] == '-' || IsDigit(t[0]) then ParseNumber(t)
    else None
  }

  function ParseString(t: string): (r: Option<(Json, string)>)
    requires |t| > 0 && t[0] == '"'
    ensures r.Some? ==> |r.value.1| < |t|
  {
    match ParseChars(t[1..])
    case None => None
    case Some((str, rest)) => Some((JStr(str), rest))
  }

  function ParseArray(t: string): (r: Option<(Json, string)>)
    requires |t| > 0 && t[0] == '['
    ensures r.Some? ==> |r.value.1| < |t|
    decreases |t|, 1
  {
    match Punct(t[1..], ']')
    case Some(rest) => Some((JArr([]), rest))
    case None =>
      match ParseItems(t[1..])
      case None => None
      case Some((items, rest)) => Some((JArr(items), rest))
  }

  function ParseObject(t: string): (r: Option<(Json, string)>)
    requires |t| > 0 && t[0] == '{'
    ensures r.Some? ==> |r.value.1| < |t|
    decreases |t|, 1
  {
    match Punct(t[1..], '}')
    case Some(rest) => Some((JObj([]), rest))
    case None =>
      match ParseMembers(t[1..])
      case None => None
      case Some((fields, rest)) => Some((JObj(fields), rest))
  }

  /** One or more array elements up to and including the closing bracket. */
  function ParseItems(s: string): (r: Option<(seq<Json>, string)>)
    ensures r.Some? ==> |r.value.1| < |s|
    decreases |s|, 4
  {
    match ParseValue(s)
    case None => None
    case Some((v, after)) =>
      match Punct(after, ',')
      case Some(more) =>
        (match ParseItems(more)
         case None => None
         case Some((vs, rest)) => Some(([v] + vs, rest)))
      case None =>
        (match Punct(after, ']')
         case None => None
         case Some(rest) => Some(([v], rest)))
  }

  /** One object property, `"key":value`. */
  function ParseMember(s: string): (r: Option<(Field, string)>)
    ensures r.Some? ==> |r.value.1| < |s|
    decreases |s|, 4
  {
    match Punct(s, '"')
    case None => None
    case Some(body) =>
      match ParseChars(body)
      case None => None
      case Some((key, afterKey)) =>
        match Punct(afterKey, ':')
        case None => None
        case Some(valueText) =>
          match ParseValue(valueText)
          case None => None
          case Some((v, rest)) => Some((Field(key, v), rest))
  }

  /** One or more object properties up to and including the closing brace. */
  function ParseMembers(s: string): (r: Option<(seq<Field>, string)>)
    ensures r.Some? ==> |r.value.1| < |s|
    decreases |s|, 5
  {
    match ParseMember(s)
    case None => None
    case Some((f, after)) =>
      match Punct(after, ',')
      case Some(more) =>
        (match ParseMembers(more)
         case None => None
         case Some((fs, rest)) => Some(([f] + fs, rest)))
      case None =>
        (match Punct(after, '}')
         case None => None
         case Some(rest) => Some(([f], rest)))
  }

  const SyntaxError := JsError("SyntaxError", "Unexpected token in JSON")

  /** `JSON.parse(text)`: one value, optionally surrounded by white space, and nothing else. */
  function Parse(text: string): (r: Result<Json>)
    ensures r.Err? ==> r.error == SyntaxError
  {
    match ParseValue(text)
    case Some((v, rest)) => if SkipWs(rest) == "" then Ok(v) else Err(SyntaxError)
    case None => Err(SyntaxError)
  }

  // ---------------------------------------------------------------------------
  // Round trip

  /** What may follow a value inside the text `Stringify` writes. */
  predicate Boundary(rest: string) {
    |rest| == 0 || rest[0] == ',' || rest[0] == ']' || rest[0] == '}'
  }

  lemma SkipWsNonSpace(s: string)
    requires |s| > 0 && !IsJsonSpace(s[0])
    ensures SkipWs(s) == s
  {
  }

  /** A run of digits without a leading zero reads back as its value. */
  lemma ParseNatDigits(ds: string, rest: string)
    requires |ds| > 0 && forall i :: 0 <= i < |ds| ==> IsDigit(ds[i])
    requires |ds| > 1 ==> ds[0] != '0'
    requires Boundary(rest)
    ensures ParseNat(ds + rest) == Some((DigitsValue(ds), rest))
  {
    var d := ds + rest;
    DigitSpanPrefix(ds, rest);
    assert d[..|ds|] == ds;
    assert d[|ds|..] == rest;
  }

  lemma NegativeRoundTrip(t: string, ds: string, rest: string)
    requires |ds| > 0 && forall i :: 0 <= i < |ds| ==> IsDigit(ds[i])
    requires |ds| > 1 ==> ds[0] != '0'
    requires Boundary(rest)
    requires |t| > 0 && t[0] == '-' && t[1..] == ds + rest
    ensures ParseNumber(t) == Some((JNum(-(DigitsValue(ds) as int)), rest))
  {
    ParseNatDigits(ds, rest);
  }

  lemma NumberRoundTrip(n: int, rest: string)
    requires Boundary(rest)
    ensures ParseNumber(IntText(n) + rest) == Some((JNum(n), rest))
  {
    if n < 0 {
      var ds := NatText(-n);
      assert IntText(n) == "-" + ds;
      assert IntText(n) + rest == "-" + (ds + rest);
      NegativeTextRoundTrip(-n, rest);
    } else {
      assert IntText(n) == NatText(n);
      NatTextRoundTrip(n, rest);
    }
  }

  lemma NatTextRoundTrip(n: nat, rest: string)
    requires Boundary(rest)
    ensures ParseNumber(NatText(n) + rest) == Some((JNum(n), rest))
  {
    var t := NatText(n) + rest;
    ParseNatDigits(NatText(n), rest);
    DigitsValueNatText(n);
    assert t[0] == NatText(n)[0];
  }

  lemma NegativeTextRoundTrip(n: nat, rest: string)
    requires Boundary(rest)
    ensures ParseNumber("-" + (NatText(n) + rest)) == Some((JNum(-(n as int)), rest))
  {
    var ds := NatText(n);
    var t := "-" + (ds + rest);
    assert t[1..] == ds + rest;
    NegativeRoundTrip(t, ds, rest);
    DigitsValueNatText(n);
  }

  /** Parsing what `Stringify` wrote gives the value back and stops right after it. */
  lemma {:induction false} ParseStringify(v: Json, rest: string)
    requires Boundary(rest)
    ensures ParseValue(Stringify(v) + rest) == Some((v, rest))
    decreases v, 2
  {
    match v
    case JNull => NullRoundTrip(rest);
    case JBool(b) => BoolRoundTrip(b, rest);
    case JNum(n) => NumRoundTrip(n, rest);
    case JStr(str) => StrRoundTrip(str, rest);
    case JArr(items) => ArrayValueRoundTrip(items, rest);
    case JObj(fields) => ObjectValueRoundTrip(fields, rest);
  }

  lemma {:induction false} ArrayValueRoundTrip(items: seq<Json>, rest: string)
    ensures ParseValue(Stringify(JArr(items)) + rest) == Some((JArr(items), rest))
    decreases items, 3
  {
    var s := Stringify(JArr(items)) + rest;
    assert s[0] == '[' && s[1..] == Items(items) + "]" + rest;
    ParseArrayText(s, items, rest);
  }

  lemma {:induction false} ParseArrayText(s: string, items: seq<Json>, rest: string)
    requires |s| > 0 && s[0] == '[' && s[1..] == Items(items) + "]" + rest
    ensures ParseValue(s) == Some((JArr(items), rest))
    decreases items, 2
  {
    SkipWsNonSpace(s);
    ArrayRoundTrip(s, items, rest);
  }

  lemma {:induction false} ObjectValueRoundTrip(fields: seq<Field>, rest: string)
    ensures ParseValue(Stringify(JObj(fields)) + rest) == Some((JObj(fields), rest))
    decreases fields, 5
  {
    var s := Stringify(JObj(fields)) + rest;
    assert s[0] == '{' && s[1..] == Members(fields) + "}" + rest;
    ParseObjectText(s, fields, rest);
  }

  lemma {:induction false} ParseObjectText(s: string, fields: seq<Field>, rest: string)
    requires |s| > 0 && s[0] == '{' && s[1..] == Members(fields) + "}" + rest
    ensures ParseValue(s) == Some((JObj(fields), rest))
    decreases fields, 4
  {
    SkipWsNonSpace(s);
    ObjectRoundTrip(s, fields, rest);
  }

  lemma NullRoundTrip(rest: string)
    ensures ParseValue(Stringify(JNull) + rest) == Some((JNull, rest))
  {
    var s := Stringify(JNull) + rest;
    SkipWsNonSpace(s);
    assert s[..4] == "null" && s[4..] == rest;
  }

  lemma BoolRoundTrip(b: bool, rest: string)
    ensures ParseValue(Stringify(JBool(b)) + rest) == Some((JBool(b), rest))
  {
    var s := Stringify(JBool(b)) + rest;
    SkipWsNonSpace(s);
    if b {
      assert s[..4] == "true" && s[4..] == rest;
    } else {
      assert s[..5] == "false" && s[5..] == rest;
    }
  }

  lemma NumRoundTrip(n: int, rest: string)
    requires Boundary(rest)
    ensures ParseValue(Stringify(JNum(n)) + rest) == Some((JNum(n), rest))
  {
    var s := Stringify(JNum(n)) + rest;
    SkipWsNonSpace(s);
    NumberRoundTrip(n, rest);
    if n >= 0 { assert s[0] == NatText(n)[0]; }
  }

  lemma StrRoundTrip(str: string, rest: string)
    ensures ParseValue(Stringify(JStr(str)) + rest) == Some((JStr(str), rest))
  {
    var s := Stringify(JStr(str)) + rest;
    SkipWsNonSpace(s);
    assert s[1..] == EscapeAll(str) + "\"" + rest;
    ParseCharsEscape(str, rest);
  }

  lemma PunctAt(s: string, c: char)
    requires |s| > 0 && s[0] == c
    requires c == ',' || c == ':' || c == ']' || c == '}' || c == '"'
    ensures Punct(s, c) == Some(s[1..])
  {
    SkipWsNonSpace(s);
  }

  lemma {:induction false} ArrayRoundTrip(t: string, items: seq<Json>, rest: string)
    requires |t| > 0 && t[0] == '[' && t[1..] == Items(items) + "]" + rest
    ensures ParseArray(t) == Some((JArr(items), rest))
    decreases items, 1
  {
    if |items| == 0 {
      assert t[1..] == "]" + rest;
      PunctAt(t[1..], ']');
      assert t[1..][1..] == rest;
    } else {
      ParseItemsStringify(items, rest);
      assert t[1..][0] == Stringify(items[0])[0];
      SkipWsNonSpace(t[1..]);
    }
  }

  lemma {:induction false} ObjectRoundTrip(t: string, fields: seq<Field>, rest: string)
    requires |t| > 0 && t[0] == '{' && t[1..] == Members(fields) + "}" + rest
    ensures ParseObject(t) == Some((JObj(fields), rest))
    decreases fields, 3
  {
    if |fields| == 0 {
      assert t[1..] == "}" + rest;
      PunctAt(t[1..], '}');
      assert t[1..][1..] == rest;
    } else {
      ParseMembersStringify(fields, rest);
      assert t[1..][0] == '"';
      SkipWsNonSpace(t[1..]);
    }
  }

  /** One step of `ParseItems`: an element followed by a comma and more elements. */
  lemma ItemsCons(s: string, v: Json, after: string, vs: seq<Json>, rest: string)
    requires ParseValue(s) == Some((v, after))
    requires |after| > 0 && after[0] == ','
    requires ParseItems(after[1..]) == Some((vs, rest))
    ensures ParseItems(s) == Some(([v] + vs, rest))
  {
    PunctAt(after, ',');
  }

  /** The last step of `ParseItems`: an element followed by the closing bracket. */
  lemma ItemsLast(s: string, v: Json, after: string, rest: string)
    requires ParseValue(s) == Some((v, after))
    requires |after| > 0 && after[0] == ']' && after[1..] == rest
    ensures ParseItems(s) == Some(([v], rest))
  {
    PunctAt(after, ']');
  }

  lemma {:induction false} ParseItemsStringify(items: seq<Json>, rest: string)
    requires |items| > 0
    ensures ParseItems(Items(items) + "]" + rest) == Some((items, rest))
    decreases items, 0
  {
    var s := Items(items) + "]" + rest;
    if |items| == 1 {
      var after := "]" + rest;
      assert s == Stringify(items[0]) + after;
      ParseStringify(items[0], after);
      assert after[1..] == rest;
      ItemsLast(s, items[0], after, rest);
      assert [items[0]] == items;
    } else {
      var tail := Items(items[1..]) + "]" + rest;
      var after := "," + tail;
      assert s == Stringify(items[0]) + after;
      ParseStringify(items[0], after);
      ParseItemsStringify(items[1..], rest);
      assert after[1..] == tail;
      ItemsCons(s, items[0], after, items[1..], rest);
      assert [items[0]] + items[1..] == items;
    }
  }

  /** A property written as `"key":value` reads back. */
  lemma MemberRoundTrip(s: string, f: Field, afterKey: string, rest: string)
    requires Boundary(rest)
    requires afterKey == ":" + (Stringify(f.value) + rest)
    requires |s| > 0 && s[0] == '"' && s[1..] == EscapeAll(f.key) + "\"" + afterKey
    ensures ParseMember(s) == Some((f, rest))
    decreases f, 0
  {
    PunctAt(s, '"');
    ParseCharsEscape(f.key, afterKey);
    PunctAt(afterKey, ':');
    ParseStringify(f.value, rest);
  }

  /** One step of `ParseMembers`: a property followed by a comma and more properties. */
  lemma MembersCons(s: string, f: Field, after: string, fs: seq<Field>, rest: string)
    requires ParseMember(s) == Some((f, after))
    requires |after| > 0 && after[0] == ','
    requires ParseMembers(after[1..]) == Some((fs, rest))
    ensures ParseMembers(s) == Some(([f] + fs, rest))
  {
    PunctAt(after, ',');
  }

  /** The last step of `ParseMembers`: a property followed by the closing brace. */
  lemma MembersLast(s: string, f: Field, after: string, rest: string)
    requires ParseMember(s) == Some((f, after))
    requires |after| > 0 && after[0] == '}' && after[1..] == rest
    ensures ParseMembers(s) == Some(([f], rest))
  {
    PunctAt(after, '}');
  }

  lemma {:induction false} MemberTextRoundTrip(f: Field, after: string)
    requires Boundary(after)
    ensures ParseMember(Member(f) + after) == Some((f, after))
    decreases f, 1
  {
    var s := Member(f) + after;
    var afterKey := ":" + (Stringify(f.value) + after);
    QuotedShape(EscapeAll(f.key), Stringify(f.value), after);
    MemberRoundTrip(s, f, afterKey, after);
  }

  /** The text of a property, seen from its opening quote. */
  lemma QuotedShape(k: string, v: string, after: string)
    ensures var s := "\"" + k + "\"" + ":" + v + after;
      |s| > 0 && s[0] == '"' && s[1..] == k + "\"" + (":" + (v + after))
  {
    var s := "\"" + k + "\"" + ":" + v + after;
    assert s == "\"" + (k + "\"" + (":" + (v + after)));
  }

  /** The text of the first property, then the text after it. */
  lemma MembersSplit(fields: seq<Field>, rest: string)
    requires |fields| > 0
    ensures |fields| == 1 ==> Members(fields) + "}" + rest == Member(fields[0]) + ("}" + rest)
    ensures |fields| > 1 ==>
      Members(fields) + "}" + rest == Member(fields[0]) + ("," + (Members(fields[1..]) + "}" + rest))
  {
    if |fields| == 1 {
      Regroup3(Member(fields[0]), "}", rest);
    } else {
      Regroup5(Member(fields[0]), ",", Members(fields[1..]), "}", rest);
    }
  }

  lemma Regroup3(a: string, b: string, c: string)
    ensures a + b + c == a + (b + c)
  {
  }

  lemma Regroup5(a: string, b: string, c: string, d: string, e: string)
    ensures a + b + c + d + e == a + (b + (c + d + e))
  {
  }

  lemma {:induction false} MembersLastText(s: string, f: Field, rest: string)
    requires s == Member(f) + ("}" + rest)
    ensures ParseMembers(s) == Some(([f], rest))
    decreases f, 2
  {
    var after := "}" + rest;
    MemberTextRoundTrip(f, after);
    assert after[1..] == rest;
    MembersLast(s, f, after, rest);
  }

  lemma {:induction false} MembersConsText(s: string, f: Field, tail: string, fs: seq<Field>, rest: string)
    requires s == Member(f) + ("," + tail)
    requires ParseMembers(tail) == Some((fs, rest))
    ensures ParseMembers(s) == Some(([f] + fs, rest))
    decreases f, 2
  {
    var after := "," + tail;
    MemberTextRoundTrip(f, after);
    assert after[1..] == tail;
    MembersCons(s, f, after, fs, rest);
  }

  lemma {:induction false} ParseMembersStringify(fields: seq<Field>, rest: string)
    requires |fields| > 0
    ensures ParseMembers(Members(fields) + "}" + rest) == Some((fields, rest))
    decreases fields, 2
  {
    if |fields| == 1 {
      ParseOneMember(fields, rest);
    } else {
      ParseMembersStringify(fields[1..], rest);
      ParseMoreMembers(fields, rest);
    }
  }

  lemma {:induction false} ParseOneMember(fields: seq<Field>, rest: string)
    requires |fields| == 1
    ensures ParseMembers(Members(fields) + "}" + rest) == Some((fields, rest))
    decreases fields, 1
  {
    var s := Members(fields) + "}" + rest;
    MembersSplit(fields, rest);
    MembersLastText(s, fields[0], rest);
    assert [fields[0]] == fields;
  }

  lemma {:induction false} ParseMoreMembers(fields: seq<Field>, rest: string)
    requires |fields| > 1
    requires ParseMembers(Members(fields[1..]) + "}" + rest) == Some((fields[1..], rest))
    ensures ParseMembers(Members(fields) + "}" + rest) == Some((fields, rest))
    decreases fields, 1
  {
    var s := Members(fields) + "}" + rest;
    MembersSplit(fields, rest);
    var tail := Members(fields[1..]) + "}" + rest;
    MembersConsText(s, fields[0], tail, fields[1..], rest);
    ConsSplit(fields);
  }

  lemma ConsSplit<T>(xs: seq<T>)
    requires |xs| > 0
    ensures [xs[0]] + xs[1..] == xs
  {
  }

  /** `JSON.parse(JSON.stringify(v))` gives back `v`. */
  lemma ParseOfStringify(v: Json)
    ensures Parse(Stringify(v)) == Ok(v)
  {
    ParseStringify(v, "");
    assert Stringify(v) + "" == Stringify(v);
  }
}

/**
 * The JavaScript values and the few pieces of JavaScript semantics that the
 * chat client's code branches on: JSON-shaped values, thrown errors, truthiness,
 * property reads (which throw on null and undefined), `Object.entries`,
 * `.length` (counted in UTF-16 code units), strict equality, `String(x)` and
 * `String.prototype.trim`.
 */
module Js {

  /** A byte of a `Uint8Array`. */
  type Byte = x: int | 0 <= x < 256

  datatype Option<+T> = None | Some(value: T)

  /** A value, or the error a JavaScript operation throws instead of returning it. */
  datatype Result<+T> = Ok(value: T) | Err(error: JsError)

  /** A thrown error: its `name` ("Error", "TypeError", "OperationError", ...) and its `message`. */
  datatype JsError = JsError(name: string, message: string)

  /** `new Error(message)`: an error whose name is "Error". */
  function Thrown(message: string): (e: JsError)
    ensures e.name == "Error" && e.message == message
  {
    JsError("Error", message)
  }

  /** What property access on `null` or `undefined` throws. */
  const NullAccess := JsError("TypeError", "Cannot read properties of null or undefined")

  /**
   * A JSON-shaped JavaScript value. Numbers are integers (the client only stores
   * counts, versions and timestamps); an object keeps its properties in order.
   */
  datatype Json =
    | JNull
    | JBool(b: bool)
    | JNum(n: int)
    | JStr(s: string)
    | JArr(items: seq<Json>)
    | JObj(fields: seq<Field>)

  datatype Field = Field(key: string, value: Json)

  /** JavaScript truthiness; `None` is `undefined`. */
  predicate Truthy(v: Option<Json>) {
    match v
    case None => false
    case Some(JNull) => false
    case Some(JBool(b)) => b
    case Some(JNum(n)) => n != 0
    case Some(JStr(s)) => s != ""
    case Some(JArr(_)) => true
    case Some(JObj(_)) => true
  }

  /** `Array.isArray(v)`. */
  predicate IsArray(v: Option<Json>) {
    v.Some? && v.value.JArr?
  }

  /** Whether an object has a property called `key`. */
  predicate HasKey(fields: seq<Field>, key: string) {
    exists i :: 0 <= i < |fields| && fields[i].key == key
  }

  /** The value of property `key`; a repeated key takes its last value, as `JSON.parse` does. */
  function Lookup(fields: seq<Field>, key: string): (r: Option<Json>)
    ensures r.Some? <==> HasKey(fields, key)
  {
    if |fields| == 0 then None
    else if fields[|fields| - 1].key == key then Some(fields[|fields| - 1].value)
    else
      var r := Lookup(fields[..|fields| - 1], key);
      assert HasKey(fields, key) ==> HasKey(fields[..|fields| - 1], key) by {
        if HasKey(fields, key) {
          var i :| 0 <= i < |fields| && fields[i].key == key;
          assert i < |fields| - 1 && fields[..|fields| - 1][i].key == key;
        }
      }
      assert HasKey(fields[..|fields| - 1], key) ==> HasKey(fields, key) by {
        if HasKey(fields[..|fields| - 1], key) {
          var i :| 0 <= i < |fields| - 1 && fields[..|fields| - 1][i].key == key;
          assert fields[i].key == key;
        }
      }
      r
  }

  /** `v.key`: `undefined` for a missing property or a primitive, a TypeError on `null`/`undefined`. */
  function Get(v: Option<Json>, key: string): (r: Result<Option<Json>>)
    ensures r.Err? <==> (v.None? || v.value.JNull?)
    ensures v.Some? && v.value.JObj? ==> r == Ok(Lookup(v.value.fields, key))
  {
    match v
    case None => Err(NullAccess)
    case Some(JNull) => Err(NullAccess)
    case Some(JObj(fields)) => Ok(Lookup(fields, key))
    case Some(_) => Ok(None)
  }

  /** `obj[key] = value` on an object: replaces the value in place, or appends a new property. */
  function Put(fields: seq<Field>, key: string, value: Json): (r: seq<Field>)
    ensures Lookup(r, key) == Some(value)
    ensures forall k :: k != key ==> Lookup(r, k) == Lookup(fields, k)
    ensures HasKey(fields, key) ==> |r| == |fields|
    ensures !HasKey(fields, key) ==> r == fields + [Field(key, value)]
  {
    if HasKey(fields, key) then Replace(fields, key, value)
    else
      var r := fields + [Field(key, value)];
      assert r[..|r| - 1] == fields;
      r
  }

  /** A property added at the end shadows earlier ones with its key and hides nothing else. */
  lemma LookupAppend(fields: seq<Field>, f: Field, key: string)
    ensures Lookup(fields + [f], key) == if f.key == key then Some(f.value) else Lookup(fields, key)
  {
    assert (fields + [f])[..|fields|] == fields;
  }

  /** The value of the property at `i` when no later property has its key. */
  lemma {:induction false} LookupAt(fields: seq<Field>, i: nat, key: string)
    requires i < |fields| && fields[i].key == key
    requires forall j :: i < j < |fields| ==> fields[j].key != key
    ensures Lookup(fields, key) == Some(fields[i].value)
    decreases |fields|
  {
    if i < |fields| - 1 {
      LookupAt(fields[..|fields| - 1], i, key);
    }
  }

  /** Replaces the value of the last property called `key`. */
  function Replace(fields: seq<Field>, key: string, value: Json): (r: seq<Field>)
    requires HasKey(fields, key)
    ensures |r| == |fields|
    ensures Lookup(r, key) == Some(value)
    ensures forall k :: k != key ==> Lookup(r, k) == Lookup(fields, k)
  {
    var init := fields[..|fields| - 1];
    var last := fields[|fields| - 1];
    if last.key == key then
      var r := init + [Field(key, value)];
      assert r[..|r| - 1] == init;
      r
    else
      assert HasKey(init, key) by {
        var i :| 0 <= i < |fields| && fields[i].key == key;
        assert i < |init| && init[i].key == key;
      }
      var r := Replace(init, key, value) + [last];
      assert r[..|r| - 1] == Replace(init, key, value);
      r
  }

  /** Number of UTF-16 code units of a string, which is what `.length` counts. */
  function Utf16Length(s: string): (n: nat)
    ensures |s| <= n <= 2 * |s|
  {
    if |s| == 0 then 0
    else (if s[0] as int >= 0x10000 then 2 else 1) + Utf16Length(s[1..])
  }

  /** `v.length` for an array or a string; `None` stands for `undefined`. */
  function LengthOf(v: Option<Json>): (n: Option<int>)
    ensures n.Some? <==> v.Some? && (v.value.JArr? || v.value.JStr?)
    ensures IsArray(v) ==> n == Some(|v.value.items|)
  {
    match v
    case Some(JArr(items)) => Some(|items|)
    case Some(JStr(s)) => Some(Utf16Length(s))
    case _ => None
  }

  /**
   * `v.length` read as a property: the element count of an array, the UTF-16 length
   * of a string, an object's own `length` property, `undefined` (written `None`)
   * for other primitives, and a TypeError on `null`.
   */
  function LengthProp(v: Json): (r: Result<Option<Json>>)
    ensures r.Err? <==> v.JNull?
    ensures v.JArr? ==> r == Ok(Some(JNum(|v.items|)))
  {
    match v
    case JNull => Err(NullAccess)
    case JArr(items) => Ok(Some(JNum(|items|)))
    case JStr(s) => Ok(Some(JNum(Utf16Length(s))))
    case JObj(fields) => Ok(Lookup(fields, "length"))
    case _ => Ok(None)
  }

  /** The decimal digit character for `d`. */
  function DigitChar(d: int): char
    requires 0 <= d < 10
  {
    ('0' as int + d) as char
  }

  predicate IsDigit(c: char) {
    '0' <= c <= '9'
  }

  /** Decimal text of a natural number, without leading zeros. */
  function NatText(n: nat): (t: string)
    ensures |t| > 0 && forall i :: 0 <= i < |t| ==> IsDigit(t[i])
    ensures |t| > 1 ==> t[0] != '0'
  {
    if n < 10 then [DigitChar(n)] else NatText(n / 10) + [DigitChar(n % 10)]
  }

  /** `String(n)` for an integer. */
  function IntText(n: int): string {
    if n < 0 then "-" + NatText(-n) else NatText(n)
  }

  /** Strict equality (`===`); objects and arrays are references, and distinct ones never compare equal. */
  predicate StrictEquals(a: Option<Json>, b: Option<Json>) {
    match (a, b)
    case (None, None) => true
    case (Some(JNull), Some(JNull)) => true
    case (Some(JBool(x)), Some(JBool(y))) => x == y
    case (Some(JNum(x)), Some(JNum(y))) => x == y
    case (Some(JStr(x)), Some(JStr(y))) => x == y
    case _ => false
  }

  /** `String(v)`, which is also how a value becomes a property key or a `DOMString` argument. */
  function ToJsString(v: Option<Json>): string {
    match v
    case None => "undefined"
    case Some(j) => Text(j)
  }

  function Text(j: Json): string
    decreases j
  {
    match j
    case JNull => "null"
    case JBool(b) => if b then "true" else "false"
    case JNum(n) => IntText(n)
    case JStr(s) => s
    case JArr(items) => JoinElements(items)
    case JObj(_) => "[object Object]"
  }

  /** `Array.prototype.join(",")`, where `null` elements print as nothing. */
  function JoinElements(items: seq<Json>): string
    decreases items
  {
    if |items| == 0 then ""
    else
      var first := if items[0].JNull? then "" else Text(items[0]);
      if |items| == 1 then first else first + "," + JoinElements(items[1..])
  }

  /** `Object.entries(v)`: the own enumerable properties, or a TypeError for `null`/`undefined`. */
  function Entries(v: Option<Json>): (r: Result<seq<Field>>)
    ensures r.Err? <==> (v.None? || v.value.JNull?)
    ensures v.Some? && v.value.JObj? ==> r == Ok(v.value.fields)
  {
    match v
    case None => Err(JsError("TypeError", "Cannot convert undefined or null to object"))
    case Some(JNull) => Err(JsError("TypeError", "Cannot convert undefined or null to object"))
    case Some(JObj(fields)) => Ok(fields)
    case Some(JArr(items)) => Ok(seq(|items|, i requires 0 <= i < |items| => Field(NatText(i), items[i])))
    case Some(JStr(s)) => Ok(seq(|s|, i requires 0 <= i < |s| => Field(NatText(i), JStr([s[i]]))))
    case Some(_) => Ok([])
  }

  /** The values `for (const x of v)` visits: array elements, or the characters of a string. */
  function Iterate(v: Json): (r: Result<seq<Json>>)
    ensures v.JArr? ==> r == Ok(v.items)
    ensures r.Ok? <==> v.JArr? || v.JStr?
  {
    match v
    case JArr(items) => Ok(items)
    case JStr(s) => Ok(seq(|s|, i requires 0 <= i < |s| => JStr([s[i]])))
    case _ => Err(JsError("TypeError", "value is not iterable"))
  }

  /** White space and line terminators as `String.prototype.trim` strips them (ECMAScript 12.2, 12.3). */
  predicate IsJsSpace(c: char) {
    var n := c as int;
    n == 0x09 || n == 0x0A || n == 0x0B || n == 0x0C || n == 0x0D || n == 0x20 || n == 0xA0
    || n == 0x1680 || (0x2000 <= n <= 0x200A) || n == 0x2028 || n == 0x2029 || n == 0x202F
    || n == 0x205F || n == 0x3000 || n == 0xFEFF
  }

  function TrimStart(s: string): (r: string)
    ensures |r| <= |s| && r == s[|s| - |r|..]
    ensures |r| > 0 ==> !IsJsSpace(r[0])
    ensures forall i :: 0 <= i < |s| - |r| ==> IsJsSpace(s[i])
  {
    if |s| > 0 && IsJsSpace(s[0]) then TrimStart(s[1..]) else s
  }

  function TrimEnd(s: string): (r: string)
    ensures |r| <= |s| && r == s[..|r|]
    ensures |r| > 0 ==> !IsJsSpace(r[|r| - 1])
    ensures forall i :: |r| <= i < |s| ==> IsJsSpace(s[i])
  {
    if |s| > 0 && IsJsSpace(s[|s| - 1]) then TrimEnd(s[..|s| - 1]) else s
  }

  /** `s.trim()`. */
  function Trim(s: string): string {
    TrimEnd(TrimStart(s))
  }

  /** `s.trim()` is empty exactly when every character of `s` is white space. */
  lemma TrimEmpty(s: string)
    ensures Trim(s) == "" <==> forall i :: 0 <= i < |s| ==> IsJsSpace(s[i])
  {
  }
}

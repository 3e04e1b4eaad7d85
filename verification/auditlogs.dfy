/**
 * The security audit log view: the icon and the title-cased label of each event
 * type, the truncated chat id, and the device information the server stores as
 * JSON text.
 */
module AuditLogs {
  import opened Js
  import opened Words
  import JsonText

  // ---------------------------------------------------------------------------
  // Event icons

  /** The icon drawn in front of an event. */
  datatype Icon =
    | AlertIcon   // warning triangle, destructive colour
    | PrimaryEye  // eye, primary colour
    | MutedEye    // eye, muted colour

  /** `getEventIcon(eventType)`: a `switch`, so the cases compare with `===`. */
  function EventIcon(eventType: Option<Json>): (r: Icon)
    ensures r == AlertIcon <==> eventType == Some(JStr("screenshot_attempt"))
    ensures r == PrimaryEye <==> eventType == Some(JStr("login"))
    ensures r == MutedEye <==> eventType != Some(JStr("screenshot_attempt")) && eventType != Some(JStr("login"))
  {
    if StrictEquals(eventType, Some(JStr("screenshot_attempt"))) then AlertIcon
    else if StrictEquals(eventType, Some(JStr("login"))) then PrimaryEye
    else MutedEye
  }

  // ---------------------------------------------------------------------------
  // Event labels

  /** `word.charAt(0).toUpperCase() + word.slice(1)`; `charAt(0)` of the empty word is `""`. */
  function Capitalize(word: string): (r: string)
    ensures |r| == |word|
    ensures |word| > 0 ==> r[0] == Upper(word[0]) && r[1..] == word[1..]
  {
    if |word| == 0 then "" else [Upper(word[0])] + word[1..]
  }

  /** `parts.map(Capitalize)`. */
  function CapitalizeAll(parts: seq<string>): (r: seq<string>)
    ensures |r| == |parts|
    ensures forall i :: 0 <= i < |parts| ==> r[i] == Capitalize(parts[i])
    decreases |parts|
  {
    if |parts| == 0 then [] else [Capitalize(parts[0])] + CapitalizeAll(parts[1..])
  }

  const SplitNotAFunction := JsError("TypeError", "eventType.split is not a function")

  /**
   * `formatEventType(eventType)`: the `_`-separated words, each with its first
   * character upper-cased, joined with single spaces. `null` and `undefined` have no
   * `split`, nor does any value that is not a string.
   */
  function FormatEventType(eventType: Option<Json>): (r: Result<string>)
    ensures r.Ok? <==> eventType.Some? && eventType.value.JStr?
    ensures eventType.None? || eventType.value.JNull? ==> r == Err(NullAccess)
    ensures r.Ok? ==> r.value == Title(eventType.value.s, true)
  {
    match eventType
    case None => Err(NullAccess)
    case Some(JNull) => Err(NullAccess)
    case Some(JStr(s)) =>
      TitleOfWords(s, true);
      Ok(Join(CapitalizeAll(Split(s, '_')), " "))
    case Some(_) => Err(SplitNotAFunction)
  }

  /**
   * The label character by character, as a reference: every `_` becomes a space,
   * a character first in the text (when `atStart`) or right after a `_` is
   * upper-cased, and every other character is kept.
   */
  function Title(s: string, atStart: bool): (r: string)
    ensures |r| == |s|
    ensures forall i :: 0 <= i < |s| && s[i] == '_' ==> r[i] == ' '
    ensures forall i :: 0 <= i < |s| && s[i] != '_' ==>
      r[i] == (if (if i == 0 then atStart else s[i - 1] == '_') then Upper(s[i]) else s[i])
    decreases |s|
  {
    if |s| == 0 then ""
    else
      var c := if s[0] == '_' then ' ' else if atStart then Upper(s[0]) else s[0];
      var rest := Title(s[1..], s[0] == '_');
      assert forall i :: 1 <= i < |s| ==> s[1..][i - 1] == s[i];
      [c] + rest
  }

  /**
   * Splitting on `_`, capitalizing and joining with spaces is the character-wise
   * label; past the start, the first word is kept as it is.
   */
  lemma {:induction false} TitleOfWords(s: string, atStart: bool)
    ensures var parts := Split(s, '_');
      Title(s, atStart)
        == Join(if atStart then CapitalizeAll(parts) else [parts[0]] + CapitalizeAll(parts[1..]), " ")
    decreases |s|
  {
    if |s| > 0 {
      var rest := Split(s[1..], '_');
      if s[0] == '_' {
        TitleOfWords(s[1..], true);
        assert ([""] + rest)[1..] == rest;
        assert CapitalizeAll([""] + rest) == [""] + CapitalizeAll(rest);
      } else {
        TitleOfWords(s[1..], false);
        var parts := [[s[0]] + rest[0]] + rest[1..];
        assert parts[1..] == rest[1..];
        assert Capitalize(parts[0]) == [Upper(s[0])] + rest[0];
        assert CapitalizeAll(parts) == [[Upper(s[0])] + rest[0]] + CapitalizeAll(rest[1..]);
        JoinPrepend([Upper(s[0])], rest[0], CapitalizeAll(rest[1..]), " ");
        JoinPrepend([s[0]], rest[0], CapitalizeAll(rest[1..]), " ");
      }
    }
  }

  /** With no space in the event type, the label's spaces are exactly its `_`s, so `split(' ')` recovers the words. */
  lemma {:induction false} SplitTitle(s: string, atStart: bool)
    requires forall i :: 0 <= i < |s| ==> s[i] != ' '
    ensures var parts := Split(s, '_');
      Split(Title(s, atStart), ' ')
        == if atStart then CapitalizeAll(parts) else [parts[0]] + CapitalizeAll(parts[1..])
    decreases |s|
  {
    if |s| > 0 {
      var t := Title(s, atStart);
      var rest := Split(s[1..], '_');
      assert t[1..] == Title(s[1..], s[0] == '_');
      SplitTitle(s[1..], s[0] == '_');
      if s[0] == '_' {
        assert ([""] + rest)[1..] == rest;
        assert CapitalizeAll([""] + rest) == [""] + CapitalizeAll(rest);
      } else {
        var parts := [[s[0]] + rest[0]] + rest[1..];
        assert parts[1..] == rest[1..];
        assert t[0] != ' ' by {
          if atStart && 'a' <= s[0] <= 'z' {
            assert 'A' <= t[0] <= 'Z';
          }
        }
        assert CapitalizeAll(parts) == [[Upper(s[0])] + rest[0]] + CapitalizeAll(rest[1..]);
      }
    }
  }

  /** An event type of two words, such as `screenshot_attempt`, reads as the two words capitalized. */
  lemma TwoWordLabel(first: string, second: string)
    requires '_' !in first && '_' !in second
    ensures Title(first + "_" + second, true) == Capitalize(first) + " " + Capitalize(second)
  {
    TitleAtUnderscore(first, second, true);
    TitleOfWord(first);
    TitleOfWord(second);
  }

  /** The label splits where the event type has `_`, and the word after it starts afresh. */
  lemma {:induction false} TitleAtUnderscore(a: string, b: string, atStart: bool)
    ensures Title(a + "_" + b, atStart) == Title(a, atStart) + " " + Title(b, true)
    decreases |a|
  {
    var s := a + "_" + b;
    if |a| == 0 {
      assert s == "_" + b;
      assert s[1..] == b;
    } else {
      assert s[0] == a[0];
      assert s[1..] == a[1..] + "_" + b;
      TitleAtUnderscore(a[1..], b, a[0] == '_');
    }
  }

  /** A single word is labelled by capitalizing it. */
  lemma TitleOfWord(w: string)
    requires '_' !in w
    ensures Title(w, true) == Capitalize(w)
  {
    var t := Title(w, true);
    var c := Capitalize(w);
    forall i | 0 <= i < |w|
      ensures t[i] == c[i]
    {
      assert w[i] in w;
      if i > 0 {
        assert w[i - 1] in w;
        assert c[i] == c[1..][i - 1];
      }
    }
  }

  lemma ScreenshotWords()
    ensures '_' !in "screenshot" && '_' !in "attempt"
    ensures Capitalize("screenshot") == "Screenshot" && Capitalize("attempt") == "Attempt"
  {
  }

  /** The event the screenshot detector reports. */
  lemma ScreenshotLabel()
    ensures Title("screenshot_attempt", true) == "Screenshot Attempt"
    ensures EventIcon(Some(JStr("screenshot_attempt"))) == AlertIcon
  {
    ScreenshotWords();
    TwoWordLabel("screenshot", "attempt");
    assert "screenshot" + "_" + "attempt" == "screenshot_attempt";
    assert "Screenshot" + " " + "Attempt" == "Screenshot Attempt";
  }

  // ---------------------------------------------------------------------------
  // Chat ids and device information

  const SubstringNotAFunction := JsError("TypeError", "chat_id.substring is not a function")

  /**
   * `log.chat_id && log.chat_id.substring(0, 8) + '...'`: nothing for a falsy id,
   * the first eight characters and an ellipsis for a string, and a TypeError for
   * any other truthy value, which has no `substring`.
   */
  function ChatIdLabel(chatId: Option<Json>): (r: Result<Option<string>>)
    ensures r == Ok(None) <==> !Truthy(chatId)
    ensures r.Err? <==> Truthy(chatId) && !chatId.value.JStr?
    ensures r.Ok? && r.value.Some? ==>
      var s := chatId.value.s;
      var n := if |s| < 8 then |s| else 8;
      |r.value.value| == n + 3 && r.value.value[..n] == s[..n] && r.value.value[n..] == "..."
  {
    if !Truthy(chatId) then Ok(None)
    else if chatId.value.JStr? then
      var s := chatId.value.s;
      Ok(Some(s[..if |s| < 8 then |s| else 8] + "..."))
    else Err(SubstringNotAFunction)
  }

  /**
   * The device information of a log entry: `{}` when `device_info` is falsy, what
   * `JSON.parse` makes of it (after `String()`) when that succeeds, and
   * `{ raw: device_info }` when it throws.
   */
  function DeviceInfo(deviceInfo: Option<Json>): (r: Json)
    ensures !Truthy(deviceInfo) ==> r == JObj([])
    ensures Truthy(deviceInfo) && JsonText.Parse(ToJsString(deviceInfo)).Err? ==> r == JObj([Field("raw", deviceInfo.value)])
  {
    if !Truthy(deviceInfo) then JObj([])
    else match JsonText.Parse(ToJsString(deviceInfo))
      case Ok(v) => v
      case Err(_) => JObj([Field("raw", deviceInfo.value)])
  }

  /** Device information stored as the JSON text of a value reads back as that value. */
  lemma DeviceInfoStored(info: Json)
    ensures DeviceInfo(Some(JStr(JsonText.Stringify(info)))) == info
  {
    var text := JsonText.Stringify(info);
    assert Truthy(Some(JStr(text)));
    assert ToJsString(Some(JStr(text))) == text;
    JsonText.ParseOfStringify(info);
  }

  // ---------------------------------------------------------------------------
  // One log line

  /** What a log line shows besides its timestamps. */
  datatype Line = Line(icon: Icon, title: string, chatLabel: Option<string>, deviceMethod: Option<Json>, platform: Option<Json>)

  /** `v && <div>{v}</div>`: the value is shown when it is truthy. */
  function Shown(v: Option<Json>): (r: Option<Json>)
    ensures r.Some? <==> Truthy(v)
    ensures r.Some? ==> v == Some(r.value)
  {
    if Truthy(v) then Some(v.value) else None
  }

  /**
   * A log line from the entry's event type, chat id and parsed device information,
   * in document order: the label, the chat id, then `deviceInfo.method` and
   * `deviceInfo.platform`; the first of them that throws aborts the rendering.
   */
  function LineOf(eventType: Option<Json>, chatId: Option<Json>, info: Json): (r: Result<Line>)
    ensures r.Ok? <==> eventType.Some? && eventType.value.JStr? && !(Truthy(chatId) && !chatId.value.JStr?) && !info.JNull?
    ensures r.Ok? ==> r.value.icon == EventIcon(eventType) && r.value.title == Title(eventType.value.s, true)
  {
    match FormatEventType(eventType)
    case Err(e) => Err(e)
    case Ok(title) =>
      match ChatIdLabel(chatId)
      case Err(e) => Err(e)
      case Ok(chatLabel) =>
        if info.JNull? then Err(NullAccess)
        else Ok(Line(EventIcon(eventType), title, chatLabel,
                     Shown(Get(Some(info), "method").value), Shown(Get(Some(info), "platform").value)))
  }

  /** The rendering of one entry of `logs.map`; its device information is parsed first. */
  function LogLine(log: Json): (r: Result<Line>)
    ensures log.JNull? ==> r == Err(NullAccess)
    ensures log.JObj? ==>
      r == LineOf(Lookup(log.fields, "event_type"), Lookup(log.fields, "chat_id"), DeviceInfo(Lookup(log.fields, "device_info")))
  {
    if log.JNull? then Err(NullAccess)
    else LineOf(Get(Some(log), "event_type").value, Get(Some(log), "chat_id").value,
                DeviceInfo(Get(Some(log), "device_info").value))
  }

  /**
   * An entry as the server stores it (a string event type, a string or no chat id,
   * and device information written as the JSON text of an object) renders, showing
   * the truthy `method` and `platform` of that object.
   */
  lemma StoredEntryRenders(log: Json, info: seq<Field>)
    requires log.JObj?
    requires var e := Lookup(log.fields, "event_type"); e.Some? && e.value.JStr?
    requires var c := Lookup(log.fields, "chat_id"); c.None? || c.value.JNull? || c.value.JStr?
    requires Lookup(log.fields, "device_info") == Some(JStr(JsonText.Stringify(JObj(info))))
    ensures LogLine(log).Ok?
    ensures LogLine(log).value.deviceMethod == Shown(Lookup(info, "method"))
    ensures LogLine(log).value.platform == Shown(Lookup(info, "platform"))
  {
    DeviceInfoStored(JObj(info));
    var shown := DeviceInfo(Lookup(log.fields, "device_info"));
    assert shown == JObj(info);
    assert Get(Some(shown), "method") == Ok(Lookup(info, "method"));
    assert Get(Some(shown), "platform") == Ok(Lookup(info, "platform"));
  }

  /** Device information whose text is `null` parses to `null`, so rendering its `method` throws. */
  lemma NullDeviceInfoThrows(log: Json)
    requires log.JObj? && Lookup(log.fields, "device_info") == Some(JStr("null"))
    ensures DeviceInfo(Lookup(log.fields, "device_info")) == JNull
    ensures LogLine(log).Err?
  {
    assert JsonText.Stringify(JNull) == "null";
    DeviceInfoStored(JNull);
    var info := DeviceInfo(Lookup(log.fields, "device_info"));
    assert info == JNull;
    assert Get(Some(log), "device_info") == Ok(Lookup(log.fields, "device_info"));
    assert LogLine(log) == LineOf(Get(Some(log), "event_type").value, Get(Some(log), "chat_id").value, info);
  }
}

/**
 * The chat window: the composer's send handler, the contact's initials in the
 * header, and which side and which delivery ticks a message is drawn with.
 */
module ChatWindow {
  import opened Js
  import opened Words
  import Dashboard
  import Crypto

  // ---------------------------------------------------------------------------
  // Initials

  /** `n[0]` of each piece, joined with `''`: an empty piece gives `undefined`, which joins as nothing. */
  function Firsts(parts: seq<string>): string
    decreases |parts|
  {
    if |parts| == 0 then "" else (if |parts[0]| > 0 then [parts[0][0]] else "") + Firsts(parts[1..])
  }

  /**
   * The characters of `s` that start a word: not a space, and first in the text
   * (when `atStart`) or right after a space.
   */
  function WordStarts(s: string, atStart: bool): (r: string)
    ensures |r| <= |s|
    ensures forall i :: 0 <= i < |r| ==> r[i] != ' '
    decreases |s|
  {
    if |s| == 0 then ""
    else (if atStart && s[0] != ' ' then [s[0]] else "") + WordStarts(s[1..], s[0] == ' ')
  }

  /**
   * The first characters of the pieces `split(' ')` makes are the word starts;
   * without `atStart`, of the pieces after the first.
   */
  lemma {:induction false} FirstsSplit(s: string, atStart: bool)
    ensures Firsts(if atStart then Split(s, ' ') else Split(s, ' ')[1..]) == WordStarts(s, atStart)
    decreases |s|
  {
    if |s| > 0 {
      var rest := Split(s[1..], ' ');
      FirstsSplit(s[1..], s[0] == ' ');
      if s[0] == ' ' {
        FirstsSplit(s[1..], true);
        assert ([""] + rest)[1..] == rest;
      } else {
        var parts := [[s[0]] + rest[0]] + rest[1..];
        assert parts[1..] == rest[1..];
      }
    }
  }

  /**
   * `getInitials(name)`: the upper-cased first character of every space-separated
   * word, or `'??'` when the name is `null`/`undefined` or has no word.
   */
  function Initials(name: Option<string>): (r: string)
    ensures name.None? ==> r == "??"
    ensures name.Some? && WordStarts(name.value, true) == "" ==> r == "??"
    ensures name.Some? && WordStarts(name.value, true) != "" ==> r == UpperAll(WordStarts(name.value, true))
    ensures |r| > 0
  {
    if name.None? then "??"
    else
      var joined := Firsts(Split(name.value, ' '));
      FirstsSplit(name.value, true);
      var upper := UpperAll(joined);
      if upper == "" then "??" else upper
  }

  /**
   * Leading and trailing spaces add no initial, and a name of spaces only has no
   * word (so its initials are "??").
   */
  lemma IgnoresSpaces(name: string)
    ensures WordStarts(" " + name, true) == WordStarts(name, true)
    ensures WordStarts(name + " ", true) == WordStarts(name, true)
    ensures (forall i :: 0 <= i < |name| ==> name[i] == ' ') ==> WordStarts(name, true) == ""
  {
    assert (" " + name)[1..] == name;
    TrailingSpace(name, true);
    if forall i :: 0 <= i < |name| ==> name[i] == ' ' {
      AllSpaces(name, true);
    }
  }

  lemma {:induction false} TrailingSpace(s: string, atStart: bool)
    ensures WordStarts(s + " ", atStart) == WordStarts(s, atStart)
    decreases |s|
  {
    if |s| > 0 {
      assert (s + " ")[1..] == s[1..] + " ";
      TrailingSpace(s[1..], s[0] == ' ');
    }
  }

  lemma {:induction false} AllSpaces(s: string, atStart: bool)
    requires forall i :: 0 <= i < |s| ==> s[i] == ' '
    ensures WordStarts(s, atStart) == ""
    decreases |s|
  {
    if |s| > 0 {
      AllSpaces(s[1..], true);
    }
  }

  // ---------------------------------------------------------------------------
  // Messages

  /** `msg.sender_id === currentUser.id`: whether a message is drawn on the user's side; reading a `null` message throws. */
  function IsSent(msg: Json, currentUser: Json): (r: Result<bool>)
    ensures r.Err? <==> msg.JNull? || currentUser.JNull?
  {
    match (Get(Some(msg), "sender_id"), Get(Some(currentUser), "id"))
    case (Ok(sender), Ok(id)) => Ok(StrictEquals(sender, id))
    case (Err(e), _) => Err(e)
    case (_, Err(e)) => Err(e)
  }

  /** Adding `decryptedText` does not change the side a message is drawn on. */
  lemma SideKept(message: Json, userId: string, text: string)
    requires message.JObj?
    ensures IsSent(Dashboard.WithText(Some(message), text), JObj([Field("id", JStr(userId))]))
         == Ok(Lookup(message.fields, "sender_id") == Some(JStr(userId)))
  {
    Dashboard.WithTextKeeps(Some(message), text, "sender_id");
    LookupAt([Field("id", JStr(userId))], 0, "id");
  }

  /**
   * The side a message is drawn on agrees with the chat the dashboard filed it
   * under: a message drawn as the user's is filed under its receiver, any other
   * under its sender.
   */
  lemma SideMatchesChat(message: Json, userId: string)
    requires message.JObj?
    ensures var sender := Lookup(message.fields, "sender_id");
      Dashboard.ChatIdOf(message, userId)
        == Ok(ToJsString(if sender == Some(JStr(userId)) then Lookup(message.fields, "receiver_id") else sender))
  {
  }

  /** The ticks under a sent message. */
  datatype Ticks =
    | ReadTicks       // two ticks, solid
    | DeliveredTicks  // two ticks, faded
    | SentTick        // one tick, faded

  /** The ticks for a sent message: read wins over delivered, and neither gives one tick. */
  function TicksOf(msg: Json): (r: Ticks)
    requires !msg.JNull?
    ensures r == ReadTicks <==> Truthy(Get(Some(msg), "is_read").value)
    ensures r == DeliveredTicks <==> !Truthy(Get(Some(msg), "is_read").value) && Truthy(Get(Some(msg), "is_delivered").value)
    ensures r == SentTick <==> !Truthy(Get(Some(msg), "is_read").value) && !Truthy(Get(Some(msg), "is_delivered").value)
  {
    if Truthy(Get(Some(msg), "is_read").value) then ReadTicks
    else if Truthy(Get(Some(msg), "is_delivered").value) then DeliveredTicks
    else SentTick
  }

  /** A message just sent carries neither flag until the server's record does, so it shows one tick. */
  lemma FreshMessageOneTick(response: Json, text: string)
    requires response.JObj? && !HasKey(response.fields, "is_read") && !HasKey(response.fields, "is_delivered")
    ensures TicksOf(Dashboard.WithText(Some(response), text)) == SentTick
  {
    Dashboard.WithTextKeeps(Some(response), text, "is_read");
    Dashboard.WithTextKeeps(Some(response), text, "is_delivered");
  }

  // ---------------------------------------------------------------------------
  // Composer

  /** The composer: the text typed, and the texts handed to `onSendMessage` so far. */
  class Composer {
    /** The `messageText` state. */
    var messageText: string
    /** The arguments of every `onSendMessage` call, oldest first. */
    var sent: seq<string>

    constructor ()
      ensures messageText == "" && sent == []
    {
      messageText := "";
      sent := [];
    }

    /** The input's `onChange`. */
    method Type(text: string)
      modifies this`messageText
      ensures messageText == text
    {
      messageText := text;
    }

    /**
     * `handleSend`: text that is not only white space is handed on as typed, spaces
     * included, and the input is cleared; otherwise nothing happens.
     */
    method HandleSend()
      modifies this
      ensures Trim(old(messageText)) != "" ==> sent == old(sent) + [old(messageText)] && messageText == ""
      ensures Trim(old(messageText)) == "" ==> sent == old(sent) && messageText == old(messageText)
    {
      if Trim(messageText) != "" {
        sent := sent + [messageText];
        messageText := "";
      }
    }
  }

  /**
   * Whatever the composer hands on, the dashboard's `sendMessage` does not drop as
   * blank: with an active chat it either reports a missing key or seals the text.
   */
  lemma HandedOnNotIgnored(text: string, before: Dashboard.View, activeChat: Option<Json>, iv: seq<Js.Byte>,
                           response: Result<Json>, crypto: Crypto.CryptoManager)
    requires Trim(text) != "" && Truthy(activeChat)
    ensures Dashboard.Posted(before, activeChat, text, iv, response, crypto).0 != Dashboard.Ignored
  {
    Dashboard.PostedIgnored(before, activeChat, text, iv, response, crypto);
    TrimEmpty(text);
  }
}

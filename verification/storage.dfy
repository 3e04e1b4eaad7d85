/**
 * The client's local persistence: two localforage instances of the "secureChat"
 * database (`encrypted_messages`, one list of messages per chat id, and
 * `encryption_keys`), the `storage` object of storage.js over them, and
 * `window.localStorage`, where the backup managers keep the contact list.
 *
 * localforage clones what it stores, so values are JSON values here. A missing
 * key reads as `null`, written `None`.
 */
module Storage {
  import opened Js

  predicate Distinct(s: seq<string>) {
    forall i, j :: 0 <= i < j < |s| ==> s[i] != s[j]
  }

  /** `s` without `x`, the rest in order. */
  function Without(s: seq<string>, x: string): (r: seq<string>)
    ensures forall y :: y in r <==> y in s && y != x
    ensures Distinct(s) ==> Distinct(r)
  {
    if |s| == 0 then []
    else
      var tail := Without(s[1..], x);
      assert Distinct(s) ==> s[0] !in s[1..] && Distinct(s[1..]) by {
        if Distinct(s) {
          forall i | 0 <= i < |s[1..]| ensures s[1..][i] != s[0] {
            assert s[1..][i] == s[i + 1];
          }
        }
      }
      if s[0] == x then tail
      else
        var r := [s[0]] + tail;
        assert Distinct(s) ==> Distinct(r) by {
          if Distinct(s) {
            forall i, j | 0 <= i < j < |r| ensures r[i] != r[j] {
              if i == 0 {
                assert r[j] == tail[j - 1] && r[j] in tail;
              } else {
                assert r[i] == tail[i - 1] && r[j] == tail[j - 1];
              }
            }
          }
        }
        r
  }

  /**
   * The contents of a localforage instance: its keys in the order `keys()` lists
   * them, which in this model is the order they were first set (a key that is
   * removed and set again goes to the end), and the value under each key.
   */
  datatype StoreState = StoreState(order: seq<string>, items: map<string, Json>) {
    ghost predicate Valid() {
      Distinct(order) && forall k :: k in order <==> k in items
    }

    /** `getItem(key)`: the stored value, or `null` (written `None`). */
    function Get(key: string): (r: Option<Json>)
      ensures r.Some? <==> key in items
      ensures r.Some? ==> r.value == items[key]
    {
      if key in items then Some(items[key]) else None
    }

    /** The contents after `setItem(key, value)`. */
    function Set(key: string, value: Json): (r: StoreState)
      ensures Valid() ==> r.Valid()
      ensures r.items == items[key := value]
      ensures key in items ==> r.order == order
      ensures key !in items ==> r.order == order + [key]
    {
      var r := StoreState(if key in items then order else order + [key], items[key := value]);
      assert Valid() ==> Distinct(r.order) by {
        if Valid() && key !in items {
          forall i, j | 0 <= i < j < |r.order| ensures r.order[i] != r.order[j] {
            if j == |order| {
              assert r.order[i] == order[i] && order[i] in order;
            }
          }
        }
      }
      r
    }

    /** The contents after `removeItem(key)`. */
    function Remove(key: string): (r: StoreState)
      ensures Valid() ==> r.Valid()
      ensures r.items == items - {key}
    {
      StoreState(Without(order, key), items - {key})
    }
  }

  /** A localforage instance. */
  class KvStore {
    var order: seq<string>
    var items: map<string, Json>

    function State(): StoreState
      reads this
    {
      StoreState(order, items)
    }

    ghost predicate Valid()
      reads this
    {
      State().Valid()
    }

    constructor ()
      ensures Valid() && State() == StoreState([], map[])
    {
      order := [];
      items := map[];
    }

    /** `getItem(key)`. */
    function GetItem(key: string): (r: Option<Json>)
      reads this
      ensures r == State().Get(key)
    {
      if key in items then Some(items[key]) else None
    }

    /** `keys()`. */
    function Keys(): (r: seq<string>)
      reads this
      requires Valid()
      ensures Distinct(r) && forall k :: k in r <==> k in items
    {
      order
    }

    /** `setItem(key, value)`. */
    method SetItem(key: string, value: Json)
      requires Valid()
      modifies this
      ensures Valid()
      ensures State() == old(State()).Set(key, value)
    {
      var next := State().Set(key, value);
      order, items := next.order, next.items;
    }

    /** `removeItem(key)`. */
    method RemoveItem(key: string)
      requires Valid()
      modifies this
      ensures Valid()
      ensures State() == old(State()).Remove(key)
    {
      var next := State().Remove(key);
      order, items := next.order, next.items;
    }

    /** `clear()`. */
    method Clear()
      modifies this
      ensures Valid() && State() == StoreState([], map[])
    {
      order := [];
      items := map[];
    }
  }

  /** `window.localStorage`: string values under string keys. */
  class WebStorage {
    var data: map<string, string>

    constructor ()
      ensures data == map[]
    {
      data := map[];
    }

    /** `localStorage.getItem(key)`: `null` (written `None`) for a missing key. */
    function GetItem(key: string): (r: Option<string>)
      reads this
      ensures r.Some? <==> key in data
      ensures r.Some? ==> r.value == data[key]
    {
      if key in data then Some(data[key]) else None
    }

    /** `localStorage.setItem(key, value)`; the value has already been converted to a string. */
    method SetItem(key: string, value: string)
      modifies this
      ensures data == old(data)[key := value]
    {
      data := data[key := value];
    }
  }

  /** What `messages.push` throws when the stored value is not an array. */
  const PushError := JsError("TypeError", "messages.push is not a function")

  /** The list `getMessages` reads: the stored value, or `[]` when it is falsy (missing, `null`, ...). */
  function ListOrEmpty(stored: Option<Json>): (r: Json)
    ensures Truthy(stored) ==> r == stored.value
    ensures !Truthy(stored) ==> r == JArr([])
  {
    if Truthy(stored) then stored.value else JArr([])
  }

  /**
   * The message store after `saveMessage(chatId, message)`: the chat's list with the
   * message pushed at its end, or `None` when the stored value has no `push`.
   */
  function SaveMessageState(st: StoreState, chatId: string, message: Json): (r: Option<StoreState>)
    ensures r.Some? <==> ListOrEmpty(st.Get(chatId)).JArr?
  {
    var list := ListOrEmpty(st.Get(chatId));
    if list.JArr? then Some(st.Set(chatId, JArr(list.items + [message]))) else None
  }

  /**
   * `saveMessage` puts the message at the end of its chat's list and leaves every
   * other chat's list as it was.
   */
  lemma SaveMessageAppends(st: StoreState, chatId: string, message: Json, other: string)
    requires ListOrEmpty(st.Get(chatId)).JArr?
    ensures var next := SaveMessageState(st, chatId, message).value;
      ListOrEmpty(next.Get(chatId)).items == ListOrEmpty(st.Get(chatId)).items + [message]
      && (other != chatId ==> next.Get(other) == st.Get(other))
  {
  }

  /** A chat that was never saved reads as the empty list, and removing it changes nothing it reads. */
  lemma GetMessagesMissing(st: StoreState, chatId: string)
    requires chatId !in st.items
    ensures ListOrEmpty(st.Get(chatId)) == JArr([])
    ensures ListOrEmpty(st.Remove(chatId).Get(chatId)) == JArr([])
  {
  }

  /**
   * `clearMessages` on any chat, whatever it held: the chat then reads as the empty
   * list, every other chat is untouched, and the next `saveMessage` starts a new
   * list holding only that message.
   */
  lemma ClearedReadsEmpty(st: StoreState, chatId: string, message: Json, other: string)
    ensures ListOrEmpty(st.Remove(chatId).Get(chatId)) == JArr([])
    ensures other != chatId ==> st.Remove(chatId).Get(other) == st.Get(other)
    ensures SaveMessageState(st.Remove(chatId), chatId, message).Some?
    ensures SaveMessageState(st.Remove(chatId), chatId, message).value.Get(chatId) == Some(JArr([message]))
  {
    var cleared := st.Remove(chatId);
    assert cleared.Get(chatId) == None;
    assert ListOrEmpty(cleared.Get(chatId)).items + [message] == [message];
  }

  /** The `storage` object of storage.js. */
  class Storage {
    /** `encryptedStore`: chat id to its list of messages. */
    const messages: KvStore
    /** `keysStore`: user id to key. */
    const keys: KvStore

    ghost predicate Valid()
      reads this, messages, keys
    {
      messages != keys && messages.Valid() && keys.Valid()
    }

    constructor ()
      ensures Valid() && fresh(messages) && fresh(keys)
      ensures messages.State() == StoreState([], map[]) && keys.State() == StoreState([], map[])
    {
      messages := new KvStore();
      keys := new KvStore();
    }

    /** `getMessages(chatId)`. */
    function GetMessages(chatId: string): (r: Json)
      reads this, messages
      ensures r == ListOrEmpty(messages.State().Get(chatId))
    {
      ListOrEmpty(messages.GetItem(chatId))
    }

    /**
     * `saveMessage(chatId, message)`: reads the chat's list, pushes the message and
     * stores the list again. A stored value that is truthy but not an array has no
     * `push`, and the call throws without storing anything.
     */
    method SaveMessage(chatId: string, message: Json) returns (r: Result<()>)
      requires Valid()
      modifies messages
      ensures Valid()
      ensures SaveMessageState(old(messages.State()), chatId, message).Some? ==>
                r == Ok(()) && messages.State() == SaveMessageState(old(messages.State()), chatId, message).value
      ensures SaveMessageState(old(messages.State()), chatId, message).None? ==>
                r == Err(PushError) && messages.State() == old(messages.State())
    {
      var list := GetMessages(chatId);
      if !list.JArr? {
        return Err(PushError);
      }
      messages.SetItem(chatId, JArr(list.items + [message]));
      r := Ok(());
    }

    /** `clearMessages(chatId)`. */
    method ClearMessages(chatId: string)
      requires Valid()
      modifies messages
      ensures Valid()
      ensures messages.State() == old(messages.State()).Remove(chatId)
      ensures GetMessages(chatId) == JArr([])
    {
      messages.RemoveItem(chatId);
    }

    /** `saveKey(userId, key)`. */
    method SaveKey(userId: string, key: Json)
      requires Valid()
      modifies keys
      ensures Valid()
      ensures keys.State() == old(keys.State()).Set(userId, key)
      ensures GetKey(userId) == Some(key)
    {
      keys.SetItem(userId, key);
    }

    /** `getKey(userId)`: `null` (written `None`) for a user without a key. */
    function GetKey(userId: string): (r: Option<Json>)
      reads this, keys
      ensures r == keys.State().Get(userId)
    {
      keys.GetItem(userId)
    }

    /** `clearAll()`: empties both stores. */
    method ClearAll()
      requires Valid()
      modifies messages, keys
      ensures Valid()
      ensures messages.State() == StoreState([], map[]) && keys.State() == StoreState([], map[])
    {
      messages.Clear();
      keys.Clear();
    }
  }
}

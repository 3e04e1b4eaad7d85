/**
 * The message routing of the chat dashboard: the `messages` state (chat id to the
 * list shown for it), the `sharedKeys` cache (chat id to the AES key agreed with
 * that peer), and the three operations that update them: an incoming socket
 * message, loading a chat, and sending a message.
 *
 * Each React state setter is applied at once, in program order. Network replies
 * are parameters: `server` is the body of `GET /messages/:id`, `fetched` that of
 * `GET /users/:id`, and `response` that of `POST /messages`.
 */
module Dashboard {
  import opened Js
  import opened WebCrypto
  import opened Storage
  import Crypto
  import TextCodec

  /** The chat an incoming message belongs to: the receiver when the user sent it, the sender otherwise. */
  function ChatIdOf(message: Json, userId: string): (r: Result<string>)
    ensures r.Err? <==> message.JNull?
  {
    match Get(Some(message), "sender_id")
    case Err(e) => Err(e)
    case Ok(sender) =>
      if StrictEquals(sender, Some(JStr(userId))) then Ok(ToJsString(Get(Some(message), "receiver_id").value))
      else Ok(ToJsString(sender))
  }

  /** A message object with the given sender and receiver ids. */
  function Addressed(sender: string, receiver: string): Json {
    JObj([Field("sender_id", JStr(sender)), Field("receiver_id", JStr(receiver))])
  }

  /**
   * Both directions of a conversation are filed under the peer: what the user sends
   * to `peer` and what `peer` sends to the user land in one chat.
   */
  lemma ConversationOneChat(userId: string, peer: string)
    requires peer != userId
    ensures ChatIdOf(Addressed(userId, peer), userId) == Ok(peer)
    ensures ChatIdOf(Addressed(peer, userId), userId) == Ok(peer)
  {
    var out, back := Addressed(userId, peer).fields, Addressed(peer, userId).fields;
    LookupAt(out, 0, "sender_id");
    LookupAt(out, 1, "receiver_id");
    LookupAt(back, 0, "sender_id");
  }

  /** The properties `{...v}` copies: none for `null` or `undefined`. */
  function Spread(v: Option<Json>): seq<Field> {
    if v.None? || v.value.JNull? then [] else Entries(v).value
  }

  /** `{...v, decryptedText: text}`. */
  function WithText(v: Option<Json>, text: string): (r: Json)
    ensures r.JObj? && Lookup(r.fields, "decryptedText") == Some(JStr(text))
  {
    JObj(Put(Spread(v), "decryptedText", JStr(text)))
  }

  /** Spreading keeps every other property of the message. */
  lemma WithTextKeeps(v: Option<Json>, text: string, k: string)
    requires k != "decryptedText"
    ensures Lookup(WithText(v, text).fields, k) == Lookup(Spread(v), k)
  {
  }

  /** `{...prev, [chatId]: [...(prev[chatId] || []), m]}`. */
  function Appended(messages: map<string, seq<Json>>, chatId: string, m: Json): (r: map<string, seq<Json>>)
    ensures chatId in r && r[chatId] == (if chatId in messages then messages[chatId] else []) + [m]
    ensures forall k :: k != chatId ==> (k in r <==> k in messages)
    ensures forall k :: k != chatId && k in messages ==> r[k] == messages[k]
  {
    messages[chatId := (if chatId in messages then messages[chatId] else []) + [m]]
  }

  /** What `decryptMessage` makes of a message's `encrypted_content` and `iv` under `key`. */
  function OpenBody(message: Json, key: CryptoKey): string
    requires !message.JNull?
  {
    var content := Get(Some(message), "encrypted_content").value;
    var iv := Get(Some(message), "iv").value;
    Crypto.OpenMessage(ToJsString(content), ToJsString(iv), key)
  }

  /** A server message as `loadMessages` shows it; reading a `null` message throws, and the `catch` shows the sentinel. */
  function Decrypted(message: Json, key: CryptoKey): Json {
    if message.JNull? then WithText(None, Crypto.DecryptionFailed) else WithText(Some(message), OpenBody(message, key))
  }

  /** `Promise.all(serverMessages.map(...))`: one shown message per server message, in order. */
  function DecryptAll(serverMessages: seq<Json>, key: CryptoKey): (r: seq<Json>)
    ensures |r| == |serverMessages|
    ensures forall i :: 0 <= i < |r| ==> r[i] == Decrypted(serverMessages[i], key)
  {
    seq(|serverMessages|, i requires 0 <= i < |serverMessages| => Decrypted(serverMessages[i], key))
  }

  /**
   * Every shown message carries a `decryptedText`: the sentinel alone for a `null`
   * message, and otherwise what its body opens to, every other property copied.
   */
  lemma DecryptAllShown(serverMessages: seq<Json>, key: CryptoKey, i: nat)
    requires i < |serverMessages|
    ensures serverMessages[i].JNull? ==>
      DecryptAll(serverMessages, key)[i] == JObj([Field("decryptedText", JStr(Crypto.DecryptionFailed))])
    ensures !serverMessages[i].JNull? ==> (DecryptAll(serverMessages, key)[i].JObj?
      && Lookup(DecryptAll(serverMessages, key)[i].fields, "decryptedText") == Some(JStr(OpenBody(serverMessages[i], key))))
    ensures serverMessages[i].JObj? ==> forall k :: k != "decryptedText" ==>
      Lookup(DecryptAll(serverMessages, key)[i].fields, k) == Lookup(serverMessages[i].fields, k)
  {
    var m := serverMessages[i];
    if m.JObj? {
      forall k | k != "decryptedText"
        ensures Lookup(DecryptAll(serverMessages, key)[i].fields, k) == Lookup(m.fields, k)
      {
        WithTextKeeps(Some(m), OpenBody(m, key), k);
      }
    }
  }

  /** A message whose body is text is opened as that text. */
  lemma OpenBodyOf(message: Json, encryptedData: string, iv: string, key: CryptoKey)
    requires message.JObj?
    requires Lookup(message.fields, "encrypted_content") == Some(JStr(encryptedData))
    requires Lookup(message.fields, "iv") == Some(JStr(iv))
    ensures OpenBody(message, key) == Crypto.OpenMessage(encryptedData, iv, key)
  {
  }

  /** Whether `c.id === contactId`; only ever asked of a contact that is not `null`. */
  predicate IsContact(c: Json, contactId: string)
    requires !c.JNull?
  {
    StrictEquals(Get(Some(c), "id").value, Some(JStr(contactId)))
  }

  /** A contact `find` reads past: not `null`, and not the one looked for. */
  predicate Passes(c: Json, contactId: string) {
    !c.JNull? && !IsContact(c, contactId)
  }

  /** `contacts.find(c => c.id === contactId)`; reading the `id` of a `null` contact throws. */
  function FindContact(contacts: seq<Json>, contactId: string): (r: Result<Option<Json>>)
    ensures r.Ok? && r.value.Some? ==>
      exists i :: 0 <= i < |contacts| && contacts[i] == r.value.value && !contacts[i].JNull?
        && IsContact(contacts[i], contactId) && forall j :: 0 <= j < i ==> Passes(contacts[j], contactId)
    ensures r == Ok(None) <==> forall j :: 0 <= j < |contacts| ==> Passes(contacts[j], contactId)
    ensures r.Err? ==> exists i :: 0 <= i < |contacts| && contacts[i].JNull? && forall j :: 0 <= j < i ==> Passes(contacts[j], contactId)
    decreases |contacts|
  {
    if |contacts| == 0 then Ok(None)
    else
      var c := contacts[0];
      match Get(Some(c), "id")
      case Err(e) => Err(e)
      case Ok(id) =>
        if StrictEquals(id, Some(JStr(contactId))) then Ok(Some(c))
        else
          var rest := FindContact(contacts[1..], contactId);
          assert forall j :: 0 < j < |contacts| ==> contacts[j] == contacts[1..][j - 1];
          rest
  }

  /** The result of `sendMessage`. */
  datatype SendResult =
    | Ignored            // no active chat, or only white space typed
    | NoKey              // no shared key for the active chat: "Encryption key not established"
    | Failed             // a step threw: "Failed to send message"
    | Sent(request: Json)  // the body posted to `/messages`

  /** `{receiver_id, encrypted_content, iv, sender_public_key}`, with an `undefined` receiver left out as `JSON.stringify` does. */
  function SendRequest(receiver: Option<Json>, sealed: Crypto.EncryptedMessage, publicKey: string): Json {
    JObj((if receiver.Some? then [Field("receiver_id", receiver.value)] else [])
         + [Field("encrypted_content", JStr(sealed.encrypted)), Field("iv", JStr(sealed.iv)),
            Field("sender_public_key", JStr(publicKey))])
  }

  /**
   * The body `sendMessage` posts: `text` sealed under `key` with the drawn `iv`, and
   * the manager's own public key; an error when either step throws.
   */
  function Outgoing(text: string, key: CryptoKey, iv: seq<Byte>, receiver: Option<Json>,
                    crypto: Crypto.CryptoManager): (r: Result<Json>)
    reads crypto
    ensures r.Ok? <==> key.AesGcmKey? && |iv| > 0 && crypto.keyPair.Some? && crypto.keyPair.value.publicKey.EcdhPublicKey?
  {
    match Crypto.SealMessage(text, key, iv)
    case Err(e) => Err(e)
    case Ok(sealed) =>
      if crypto.keyPair.None? then Err(NullAccess)
      else
        match Crypto.PublicKeyText(crypto.keyPair.value.publicKey)
        case Err(e) => Err(e)
        case Ok(publicKey) => Ok(SendRequest(receiver, sealed, publicKey))
  }

  /** The sealing and key export of `sendMessage`, which build the body it posts. */
  method Compose(text: string, sharedKey: CryptoKey, receiver: Option<Json>, crypto: Crypto.CryptoManager,
                 rng: RandomSource) returns (r: Result<Json>)
    modifies rng
    ensures rng.drawn == old(rng.drawn) + Crypto.MessageIvBytes
    ensures r == Outgoing(text, sharedKey, Window(rng.tape, old(rng.drawn), Crypto.MessageIvBytes), receiver, crypto)
  {
    var sealed := crypto.EncryptMessage(text, sharedKey, rng);
    if sealed.Err? {
      return Err(sealed.error);
    }
    var myPublicKey := crypto.ExportPublicKey(None);
    if myPublicKey.Err? {
      return Err(myPublicKey.error);
    }
    r := Ok(SendRequest(receiver, sealed.value, myPublicKey.value));
  }

  /** The properties of a posted body. */
  lemma SendRequestFields(receiver: Option<Json>, sealed: Crypto.EncryptedMessage, publicKey: string)
    ensures var fields := SendRequest(receiver, sealed, publicKey).fields;
      && Lookup(fields, "receiver_id") == receiver
      && Lookup(fields, "encrypted_content") == Some(JStr(sealed.encrypted))
      && Lookup(fields, "iv") == Some(JStr(sealed.iv))
      && Lookup(fields, "sender_public_key") == Some(JStr(publicKey))
  {
    var fields := SendRequest(receiver, sealed, publicKey).fields;
    var n := |fields|;
    assert "receiver_id"[0] != "encrypted_content"[0] && "receiver_id"[0] != "iv"[0] && "receiver_id"[0] != "sender_public_key"[0];
    assert "encrypted_content"[0] != "iv"[0] && "encrypted_content"[0] != "sender_public_key"[0] && "iv"[0] != "sender_public_key"[0];
    LookupAt(fields, n - 3, "encrypted_content");
    LookupAt(fields, n - 2, "iv");
    LookupAt(fields, n - 1, "sender_public_key");
    if receiver.Some? {
      LookupAt(fields, 0, "receiver_id");
    } else {
      assert !HasKey(fields, "receiver_id");
    }
  }

  /**
   * What the receiver of a posted body reads: under the key the sender used, the
   * body's `encrypted_content` and `iv` open to the text typed.
   */
  lemma OutgoingOpens(text: string, key: CryptoKey, iv: seq<Byte>, receiver: Option<Json>, crypto: Crypto.CryptoManager)
    requires Outgoing(text, key, iv, receiver, crypto).Ok?
    requires |text| == 0 || text[0] != TextCodec.ByteOrderMark
    ensures OpenBody(Outgoing(text, key, iv, receiver, crypto).value, key) == text
  {
    var sealed := Crypto.SealMessage(text, key, iv).value;
    var publicKey := Crypto.PublicKeyText(crypto.keyPair.value.publicKey).value;
    var body := SendRequest(receiver, sealed, publicKey);
    assert Outgoing(text, key, iv, receiver, crypto).value == body;
    SendRequestFields(receiver, sealed, publicKey);
    OpenBodyOf(body, sealed.encrypted, sealed.iv, key);
    Crypto.MessageRoundTrip(text, key, iv, key);
  }

  /** The posted body names the receiver (left out when `undefined`) and carries the sender's public key. */
  lemma OutgoingAddressed(text: string, key: CryptoKey, iv: seq<Byte>, receiver: Option<Json>, crypto: Crypto.CryptoManager)
    requires Outgoing(text, key, iv, receiver, crypto).Ok?
    ensures var body := Outgoing(text, key, iv, receiver, crypto).value;
      body.JObj? && Lookup(body.fields, "receiver_id") == receiver
      && Lookup(body.fields, "sender_public_key") == Some(JStr(Crypto.PublicKeyText(crypto.keyPair.value.publicKey).value))
  {
    var sealed := Crypto.SealMessage(text, key, iv).value;
    var publicKey := Crypto.PublicKeyText(crypto.keyPair.value.publicKey).value;
    assert Outgoing(text, key, iv, receiver, crypto).value == SendRequest(receiver, sealed, publicKey);
    SendRequestFields(receiver, sealed, publicKey);
  }

  /** One message decrypted and shown: `{...message, decryptedText}`, or the sentinel when reading a `null` message throws. */
  method DecryptOne(message: Json, sharedKey: CryptoKey, crypto: Crypto.CryptoManager) returns (shown: Json)
    ensures shown == Decrypted(message, sharedKey)
  {
    if message.JNull? {
      return WithText(None, Crypto.DecryptionFailed);
    }
    var content := Get(Some(message), "encrypted_content").value;
    var iv := Get(Some(message), "iv").value;
    var decryptedText := crypto.DecryptMessage(ToJsString(content), ToJsString(iv), sharedKey);
    shown := WithText(Some(message), decryptedText);
  }

  /** The `Promise.all` over the server messages. */
  method DecryptServerMessages(serverMessages: seq<Json>, sharedKey: CryptoKey, crypto: Crypto.CryptoManager)
    returns (r: seq<Json>)
    ensures r == DecryptAll(serverMessages, sharedKey)
  {
    r := [];
    var i := 0;
    while i < |serverMessages|
      invariant 0 <= i <= |serverMessages|
      invariant |r| == i && forall j :: 0 <= j < i ==> r[j] == Decrypted(serverMessages[j], sharedKey)
    {
      var shown := DecryptOne(serverMessages[i], sharedKey, crypto);
      r := r + [shown];
      i := i + 1;
    }
  }

  /**
   * The chat lists after `loadMessages(contactId)`, given what is stored for the
   * chat, the server's reply and the key agreed: the server's list once it has
   * answered with an array and a key is agreed; otherwise the stored list when it is
   * not empty; otherwise what was shown before.
   */
  function LoadedMessages(messages: map<string, seq<Json>>, contactId: string, local: Json, server: Result<Json>,
                          key: Result<CryptoKey>): map<string, seq<Json>>
  {
    var shownLocal := if local.JArr? && |local.items| > 0 then messages[contactId := local.items] else messages;
    if server.Ok? && key.Ok? && server.value.JArr? then shownLocal[contactId := DecryptAll(server.value.items, key.value)]
    else shownLocal
  }

  /** Loading a chat changes only that chat's list. */
  lemma LoadedOnlyThisChat(messages: map<string, seq<Json>>, contactId: string, local: Json, server: Result<Json>,
                           key: Result<CryptoKey>, other: string)
    requires other != contactId
    ensures other in LoadedMessages(messages, contactId, local, server, key) <==> other in messages
    ensures other in messages ==> LoadedMessages(messages, contactId, local, server, key)[other] == messages[other]
  {
  }

  /**
   * Once the server answers with a list and a key is agreed, the chat shows exactly
   * the server's messages, decrypted in order, whatever was stored locally.
   */
  lemma LoadedFromServer(messages: map<string, seq<Json>>, contactId: string, local: Json, local2: Json,
                         serverMessages: seq<Json>, key: CryptoKey)
    ensures var loaded := LoadedMessages(messages, contactId, local, Ok(JArr(serverMessages)), Ok(key));
      contactId in loaded && loaded[contactId] == DecryptAll(serverMessages, key)
      && loaded == LoadedMessages(messages, contactId, local2, Ok(JArr(serverMessages)), Ok(key))
  {
  }

  /**
   * When the server does not answer, or no key can be agreed, the chat shows the
   * stored list if it has messages, and otherwise keeps what it showed.
   */
  lemma LoadedFromStore(messages: map<string, seq<Json>>, contactId: string, local: Json, server: Result<Json>,
                        key: Result<CryptoKey>)
    requires server.Err? || key.Err?
    ensures local.JArr? && |local.items| > 0 ==> LoadedMessages(messages, contactId, local, server, key)[contactId] == local.items
    ensures !(local.JArr? && |local.items| > 0) ==> LoadedMessages(messages, contactId, local, server, key) == messages
  {
  }

  /** The key for an incoming message: the cached one, or else one agreed with the sender's public key. */
  function IncomingKey(sharedKeys: map<string, CryptoKey>, chatId: string, message: Json, crypto: Crypto.CryptoManager)
    : (r: Result<CryptoKey>)
    reads crypto
    requires !message.JNull?
    ensures chatId in sharedKeys ==> r == Ok(sharedKeys[chatId])
  {
    if chatId in sharedKeys then Ok(sharedKeys[chatId])
    else
      match Crypto.PublicKeyOf(ToJsString(Get(Some(message), "sender_public_key").value))
      case Err(e) => Err(e)
      case Ok(theirPublicKey) => crypto.DeriveSharedSecret(theirPublicKey)
  }

  /** What the dashboard holds for its chats: the lists shown, the key cache, and the stored lists. */
  datatype View = View(messages: map<string, seq<Json>>, sharedKeys: map<string, CryptoKey>, store: StoreState)

  /**
   * The view after the `new_message` handler: unchanged when the message is `null`
   * or no key can be had; otherwise the key cached, the decrypted message shown at
   * the end of its chat, and saved when the stored list takes a `push`.
   */
  function Received(before: View, userId: string, message: Json, crypto: Crypto.CryptoManager): View
    reads crypto
  {
    match ChatIdOf(message, userId)
    case Err(_) => before
    case Ok(chatId) =>
      match IncomingKey(before.sharedKeys, chatId, message, crypto)
      case Err(_) => before
      case Ok(key) =>
        var shown := Decrypted(message, key);
        var saved := SaveMessageState(before.store, chatId, shown);
        View(Appended(before.messages, chatId, shown), before.sharedKeys[chatId := key],
             if saved.Some? then saved.value else before.store)
  }

  /** A `null` message changes nothing. */
  lemma ReceivedNull(before: View, userId: string, crypto: Crypto.CryptoManager)
    ensures Received(before, userId, JNull, crypto) == before
  {
  }

  /**
   * A received message is shown last in the chat of its peer with its text
   * decrypted, every other chat keeps its list, the key is cached, and the stored
   * list of the chat grows by the same message.
   */
  lemma ReceivedShown(before: View, userId: string, message: Json, crypto: Crypto.CryptoManager, other: string)
    requires ChatIdOf(message, userId).Ok?
    requires IncomingKey(before.sharedKeys, ChatIdOf(message, userId).value, message, crypto).Ok?
    requires ListOrEmpty(before.store.Get(ChatIdOf(message, userId).value)).JArr?
    ensures var chatId := ChatIdOf(message, userId).value;
      var key := IncomingKey(before.sharedKeys, chatId, message, crypto).value;
      var after := Received(before, userId, message, crypto);
      && after.messages[chatId][|after.messages[chatId]| - 1] == WithText(Some(message), OpenBody(message, key))
      && (other != chatId && other in before.messages ==> after.messages[other] == before.messages[other])
      && after.sharedKeys[chatId] == key
      && ListOrEmpty(after.store.Get(chatId)).items == ListOrEmpty(before.store.Get(chatId)).items + [after.messages[chatId][|after.messages[chatId]| - 1]]
      && (other != chatId ==> after.store.Get(other) == before.store.Get(other))
  {
    var chatId := ChatIdOf(message, userId).value;
    var key := IncomingKey(before.sharedKeys, chatId, message, crypto).value;
    SaveMessageAppends(before.store, chatId, Decrypted(message, key), other);
  }

  /**
   * Once a message of a chat has been received, every later message of that chat
   * is opened with the same key, whatever public key it carries and whatever pair
   * the manager holds by then.
   */
  lemma ReceivedKeyReused(before: View, userId: string, message: Json, crypto: Crypto.CryptoManager,
                          next: Json, crypto2: Crypto.CryptoManager)
    requires ChatIdOf(message, userId).Ok? && !next.JNull?
    requires IncomingKey(before.sharedKeys, ChatIdOf(message, userId).value, message, crypto).Ok?
    ensures var chatId := ChatIdOf(message, userId).value;
      IncomingKey(Received(before, userId, message, crypto).sharedKeys, chatId, next, crypto2)
        == IncomingKey(before.sharedKeys, chatId, message, crypto)
  {
  }

  /** The id of the active chat as a property name. */
  function ChatKey(activeChat: Option<Json>): string
    requires activeChat.Some? && !activeChat.value.JNull?
  {
    ToJsString(Get(activeChat, "id").value)
  }

  /**
   * The result and the view after `sendMessage(text)`, given the IV drawn for it and
   * the server's reply to the post.
   */
  function Posted(before: View, activeChat: Option<Json>, text: string, iv: seq<Byte>, response: Result<Json>,
                  crypto: Crypto.CryptoManager): (SendResult, View)
    reads crypto
  {
    if !Truthy(activeChat) || Trim(text) == "" then (Ignored, before)
    else
      var chatId := ChatKey(activeChat);
      if chatId !in before.sharedKeys then (NoKey, before)
      else
        Delivered(before, chatId, text, Outgoing(text, before.sharedKeys[chatId], iv, Get(activeChat, "id").value, crypto),
                  response)
  }

  /** The end of `sendMessage`, once the body to post is built (or building it threw). */
  function Delivered(before: View, chatId: string, text: string, request: Result<Json>, response: Result<Json>)
    : (r: (SendResult, View))
    ensures r.0 != Ignored && r.0 != NoKey
    ensures r.0.Sent? ==> request.Ok? && r.0.request == request.value
    ensures request.Err? || response.Err? ==> r == (Failed, before)
  {
    if request.Err? || response.Err? then (Failed, before)
    else
      var shown := WithText(Some(response.value), text);
      var saved := SaveMessageState(before.store, chatId, shown);
      (if saved.Some? then Sent(request.value) else Failed,
       View(Appended(before.messages, chatId, shown), before.sharedKeys,
            if saved.Some? then saved.value else before.store))
  }

  /** Nothing is sent, and nothing changes, exactly when there is no active chat or the text is only white space. */
  lemma PostedIgnored(before: View, activeChat: Option<Json>, text: string, iv: seq<Byte>, response: Result<Json>,
                      crypto: Crypto.CryptoManager)
    ensures Posted(before, activeChat, text, iv, response, crypto).0 == Ignored
        <==> !Truthy(activeChat) || forall i :: 0 <= i < |text| ==> IsJsSpace(text[i])
    ensures Posted(before, activeChat, text, iv, response, crypto).0 == Ignored ==>
      Posted(before, activeChat, text, iv, response, crypto).1 == before
  {
    TrimEmpty(text);
    if Truthy(activeChat) && Trim(text) != "" {
      var chatId := ChatKey(activeChat);
      if chatId in before.sharedKeys {
        var request := Outgoing(text, before.sharedKeys[chatId], iv, Get(activeChat, "id").value, crypto);
        assert Posted(before, activeChat, text, iv, response, crypto).0 == Delivered(before, chatId, text, request, response).0;
      }
    }
  }

  /** Without a key for the active chat nothing is sealed or posted, and nothing changes. */
  lemma PostedNoKey(before: View, activeChat: Option<Json>, text: string, iv: seq<Byte>, response: Result<Json>,
                    crypto: Crypto.CryptoManager)
    requires Truthy(activeChat) && Trim(text) != ""
    ensures Posted(before, activeChat, text, iv, response, crypto).0 == NoKey <==> ChatKey(activeChat) !in before.sharedKeys
    ensures Posted(before, activeChat, text, iv, response, crypto).1.messages == before.messages || ChatKey(activeChat) in before.sharedKeys
  {
  }

  /**
   * A message is sent only from an active chat with a key, and the body posted
   * opens to the text under that key.
   */
  lemma PostedSent(before: View, activeChat: Option<Json>, text: string, iv: seq<Byte>, response: Result<Json>,
                   crypto: Crypto.CryptoManager)
    requires Posted(before, activeChat, text, iv, response, crypto).0.Sent?
    requires |text| == 0 || text[0] != TextCodec.ByteOrderMark
    ensures Truthy(activeChat) && Trim(text) != "" && ChatKey(activeChat) in before.sharedKeys
    ensures OpenBody(Posted(before, activeChat, text, iv, response, crypto).0.request,
                     before.sharedKeys[ChatKey(activeChat)]) == text
  {
    var chatId := ChatKey(activeChat);
    var key := before.sharedKeys[chatId];
    var receiver := Get(activeChat, "id").value;
    var request := Outgoing(text, key, iv, receiver, crypto);
    assert Posted(before, activeChat, text, iv, response, crypto) == Delivered(before, chatId, text, request, response);
    OutgoingOpens(text, key, iv, receiver, crypto);
  }

  /**
   * A sent message: the server's record with the text added is shown last in the
   * chat and stored at the end of its list, and no other chat changes.
   */
  lemma DeliveredSent(before: View, chatId: string, text: string, request: Result<Json>, response: Result<Json>,
                      other: string)
    requires Delivered(before, chatId, text, request, response).0.Sent?
    ensures response.Ok?
    ensures var after := Delivered(before, chatId, text, request, response).1;
      var shown := WithText(Some(response.value), text);
      && after.messages == Appended(before.messages, chatId, shown)
      && ListOrEmpty(after.store.Get(chatId)).items == ListOrEmpty(before.store.Get(chatId)).items + [shown]
      && (other != chatId ==> after.store.Get(other) == before.store.Get(other))
      && after.sharedKeys == before.sharedKeys
  {
    SaveMessageAppends(before.store, chatId, WithText(Some(response.value), text), other);
  }

  /**
   * When the chat's stored value takes no `push`, the message is still shown
   * (the list is not rolled back) but the send is reported as failed.
   */
  lemma PostedShownThoughUnsaved(before: View, activeChat: Option<Json>, text: string, iv: seq<Byte>, response: Result<Json>,
                                 crypto: Crypto.CryptoManager)
    requires Truthy(activeChat) && Trim(text) != "" && ChatKey(activeChat) in before.sharedKeys
    requires Outgoing(text, before.sharedKeys[ChatKey(activeChat)], iv, Get(activeChat, "id").value, crypto).Ok?
    requires response.Ok?
    requires !ListOrEmpty(before.store.Get(ChatKey(activeChat))).JArr?
    ensures var after := Posted(before, activeChat, text, iv, response, crypto);
      after.0 == Failed && after.1.store == before.store
      && after.1.messages == Appended(before.messages, ChatKey(activeChat), WithText(Some(response.value), text))
  {
    var chatId := ChatKey(activeChat);
    var request := Outgoing(text, before.sharedKeys[chatId], iv, Get(activeChat, "id").value, crypto);
    assert Posted(before, activeChat, text, iv, response, crypto) == Delivered(before, chatId, text, request, response);
    DeliveredUnsaved(before, chatId, text, request, response);
  }

  /** A built and posted message whose save throws is shown, while the store is left as it was. */
  lemma DeliveredUnsaved(before: View, chatId: string, text: string, request: Result<Json>, response: Result<Json>)
    requires request.Ok? && response.Ok?
    requires !ListOrEmpty(before.store.Get(chatId)).JArr?
    ensures Delivered(before, chatId, text, request, response)
      == (Failed, View(Appended(before.messages, chatId, WithText(Some(response.value), text)), before.sharedKeys, before.store))
  {
    assert SaveMessageState(before.store, chatId, WithText(Some(response.value), text)).None?;
  }

  class Dashboard {
    /** `user.id`. */
    const userId: string
    /** The `contacts` state. */
    var contacts: seq<Json>
    /** The `activeChat` state: a contact, or `null` (written `None`). */
    var activeChat: Option<Json>
    /** The `messages` state. */
    var messages: map<string, seq<Json>>
    /** The `sharedKeys` state. */
    var sharedKeys: map<string, CryptoKey>

    constructor (userId: string)
      ensures this.userId == userId && contacts == [] && activeChat == None
      ensures messages == map[] && sharedKeys == map[]
    {
      this.userId := userId;
      contacts := [];
      activeChat := None;
      messages := map[];
      sharedKeys := map[];
    }

    /**
     * The `new_message` handler. Computing the chat id is outside the `try`, so a
     * `null` message changes nothing; an error inside it is logged and stops the
     * handler where it was raised.
     */
    method NewMessage(message: Json, storage: Storage, crypto: Crypto.CryptoManager)
      requires storage.Valid()
      modifies this`messages, this`sharedKeys, storage.messages
      ensures storage.Valid()
      ensures View(messages, sharedKeys, storage.messages.State())
           == Received(old(View(messages, sharedKeys, storage.messages.State())), userId, message, crypto)
    {
      var chatIdResult := ChatIdOf(message, userId);
      if chatIdResult.Err? {
        return;
      }
      var chatId := chatIdResult.value;
      var sharedKey := CachedKey(chatId, message, crypto);
      if sharedKey.Err? {
        return;
      }
      var decryptedMessage := DecryptOne(message, sharedKey.value, crypto);
      var saved := Deliver(chatId, decryptedMessage, storage);
    }

    /** Shows `message` at the end of its chat, then saves it (both handlers do this in this order). */
    method Deliver(chatId: string, message: Json, storage: Storage) returns (r: Result<()>)
      requires storage.Valid()
      modifies this`messages, storage.messages
      ensures storage.Valid()
      ensures messages == Appended(old(messages), chatId, message)
      ensures var saved := SaveMessageState(old(storage.messages.State()), chatId, message);
        && (r.Ok? <==> saved.Some?)
        && storage.messages.State() == if saved.Some? then saved.value else old(storage.messages.State())
    {
      messages := Appended(messages, chatId, message);
      r := storage.SaveMessage(chatId, message);
    }

    /** The cache lookup of the `new_message` handler, agreeing and caching a key on a miss. */
    method CachedKey(chatId: string, message: Json, crypto: Crypto.CryptoManager) returns (r: Result<CryptoKey>)
      requires !message.JNull?
      modifies this`sharedKeys
      ensures r == IncomingKey(old(sharedKeys), chatId, message, crypto)
      ensures sharedKeys == if r.Ok? then old(sharedKeys)[chatId := r.value] else old(sharedKeys)
    {
      if chatId in sharedKeys {
        return Ok(sharedKeys[chatId]);
      }
      var theirPublicKey := crypto.ImportPublicKey(ToJsString(Get(Some(message), "sender_public_key").value));
      if theirPublicKey.Err? {
        return Err(theirPublicKey.error);
      }
      r := crypto.DeriveSharedSecret(theirPublicKey.value);
      if r.Ok? {
        sharedKeys := sharedKeys[chatId := r.value];
      }
    }

    /** The key `loadMessages` agrees with the contact: found among the contacts, or else fetched. */
    function LoadedKey(contactId: string, fetched: Result<Json>, crypto: Crypto.CryptoManager): Result<CryptoKey>
      reads this`contacts, crypto
    {
      match FindContact(contacts, contactId)
      case Err(e) => Err(e)
      case Ok(found) =>
        var contact := if found.Some? then Ok(found.value) else fetched;
        match contact
        case Err(e) => Err(e)
        case Ok(c) =>
          match Get(Some(c), "public_key")
          case Err(e) => Err(e)
          case Ok(publicKey) =>
            match Crypto.PublicKeyOf(ToJsString(publicKey))
            case Err(e) => Err(e)
            case Ok(theirPublicKey) => crypto.DeriveSharedSecret(theirPublicKey)
    }

    /** The contact lookup, fetch fallback, key import and agreement of `loadMessages`. */
    method AgreeKey(contactId: string, fetched: Result<Json>, crypto: Crypto.CryptoManager) returns (r: Result<CryptoKey>)
      ensures r == LoadedKey(contactId, fetched, crypto)
    {
      var found := FindContact(contacts, contactId);
      if found.Err? {
        return Err(found.error);
      }
      var contact: Json;
      if found.value.Some? {
        contact := found.value.value;
      } else {
        if fetched.Err? {
          return Err(fetched.error);
        }
        contact := fetched.value;
      }
      var publicKey := Get(Some(contact), "public_key");
      if publicKey.Err? {
        return Err(publicKey.error);
      }
      var theirPublicKey := crypto.ImportPublicKey(ToJsString(publicKey.value));
      if theirPublicKey.Err? {
        return Err(theirPublicKey.error);
      }
      r := crypto.DeriveSharedSecret(theirPublicKey.value);
    }

    /**
     * `loadMessages(contactId)`: the stored list is shown first when it is not empty;
     * then, once the server has answered and a key is agreed, the key is cached and
     * the server's list replaces what is shown.
     */
    method LoadMessages(contactId: string, server: Result<Json>, fetched: Result<Json>, storage: Storage,
                        crypto: Crypto.CryptoManager)
      requires storage.Valid()
      modifies this`messages, this`sharedKeys
      ensures messages == LoadedMessages(old(messages), contactId, storage.GetMessages(contactId), server,
                                         old(LoadedKey(contactId, fetched, crypto)))
      ensures var key := old(LoadedKey(contactId, fetched, crypto));
        sharedKeys == if server.Ok? && key.Ok? then old(sharedKeys)[contactId := key.value] else old(sharedKeys)
    {
      ghost var key := LoadedKey(contactId, fetched, crypto);
      var localMessages := storage.GetMessages(contactId);
      if localMessages.JArr? && |localMessages.items| > 0 {
        messages := messages[contactId := localMessages.items];
      }
      if server.Err? {
        return;
      }
      var sharedKey := AgreeKey(contactId, fetched, crypto);
      assert sharedKey == key;
      if sharedKey.Err? {
        return;
      }
      sharedKeys := sharedKeys[contactId := sharedKey.value];
      if !server.value.JArr? {
        return;
      }
      var decryptedMessages := DecryptServerMessages(server.value.items, sharedKey.value, crypto);
      messages := messages[contactId := decryptedMessages];
    }

    /**
     * `sendMessage(text)`: the text is sealed under the active chat's cached key and
     * posted; the server's reply, with the plain text added, is shown at the end of
     * the chat and saved. Nothing is drawn from `rng` unless the text is sealed.
     */
    method SendMessage(text: string, response: Result<Json>, storage: Storage, crypto: Crypto.CryptoManager,
                       rng: RandomSource) returns (r: SendResult)
      requires storage.Valid()
      modifies this`messages, storage.messages, rng
      ensures storage.Valid()
      ensures (r, View(messages, sharedKeys, storage.messages.State()))
           == Posted(old(View(messages, sharedKeys, storage.messages.State())), activeChat, text,
                     Window(rng.tape, old(rng.drawn), Crypto.MessageIvBytes), response, crypto)
      ensures rng.drawn == old(rng.drawn) + (if r.Sent? || r.Failed? then Crypto.MessageIvBytes else 0)
    {
      if !Truthy(activeChat) || Trim(text) == "" {
        return Ignored;
      }
      var chatId := ChatKey(activeChat);
      if chatId !in sharedKeys {
        return NoKey;
      }
      var request := Compose(text, sharedKeys[chatId], Get(activeChat, "id").value, crypto, rng);
      if request.Err? || response.Err? {
        return Failed;
      }
      var newMessage := WithText(Some(response.value), text);
      var saved := Deliver(chatId, newMessage, storage);
      if saved.Err? {
        return Failed;
      }
      r := Sent(request.value);
    }
  }

  /**
   * End to end: Bob seals `text` under the key he agrees with Alice's public key and
   * sends it with his own public key. Alice's dashboard, with no key cached for the
   * chat, agrees the same key from the message and shows `text`.
   */
  lemma AliceReadsBob(sharedKeys: map<string, CryptoKey>, aliceCrypto: Crypto.CryptoManager, bobCrypto: Crypto.CryptoManager,
                      chatId: string, text: string, iv: seq<Byte>, message: Json)
    requires aliceCrypto.keyPair.Some? && Crypto.WellFormedPair(aliceCrypto.keyPair.value)
    requires bobCrypto.keyPair.Some? && Crypto.WellFormedPair(bobCrypto.keyPair.value)
    requires chatId !in sharedKeys
    requires |iv| > 0 && (|text| == 0 || text[0] != TextCodec.ByteOrderMark)
    requires message.JObj?
    requires var bobKey := bobCrypto.DeriveSharedSecret(aliceCrypto.keyPair.value.publicKey);
      bobKey.Ok? && Crypto.SealMessage(text, bobKey.value, iv).Ok?
      && var sealed := Crypto.SealMessage(text, bobKey.value, iv).value;
      && Lookup(message.fields, "sender_public_key") == Some(JStr(Crypto.PublicKeyText(bobCrypto.keyPair.value.publicKey).value))
      && Lookup(message.fields, "encrypted_content") == Some(JStr(sealed.encrypted))
      && Lookup(message.fields, "iv") == Some(JStr(sealed.iv))
    ensures IncomingKey(sharedKeys, chatId, message, aliceCrypto).Ok?
    ensures OpenBody(message, IncomingKey(sharedKeys, chatId, message, aliceCrypto).value) == text
  {
    var bobPublic := bobCrypto.keyPair.value.publicKey;
    Crypto.PublicKeyRoundTrip(bobPublic.point);
    Crypto.SharedSecretAgrees(aliceCrypto, bobCrypto);
    var key := bobCrypto.DeriveSharedSecret(aliceCrypto.keyPair.value.publicKey).value;
    assert IncomingKey(sharedKeys, chatId, message, aliceCrypto) == Ok(key);
    var sealed := Crypto.SealMessage(text, key, iv).value;
    OpenBodyOf(message, sealed.encrypted, sealed.iv, key);
    Crypto.MessageRoundTrip(text, key, iv, key);
  }
}

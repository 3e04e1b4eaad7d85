/**
 * `BackupManager` of backup.js without the Drive transport: its own salt, a
 * snapshot built from the contact list, a version-1 envelope returned as JSON
 * text, a decryption whose every step sits inside one `try`, and an import that
 * appends the backed-up messages to what the store already holds.
 */
module Backup {
  import opened Js
  import JsonText
  import TextCodec
  import Base64
  import opened WebCrypto
  import opened Storage
  import Crypto
  import opened BackupEnvelope

  const SaltSuffix := "-backup-v1-securechat"

  /** The only envelope version this manager writes and reads. */
  const Version := 1

  const ExportFailed := Thrown("Failed to export backup data")
  const EncryptFailed := Thrown("Failed to encrypt backup")
  const WrongUser := Thrown("Backup belongs to different user")
  const ImportFailed := Thrown("Failed to import backup data")

  // ---------------------------------------------------------------------------
  // Key

  /** `deriveBackupKey(password, userId)`: PBKDF2 over the user id followed by this manager's suffix. */
  function DeriveBackupKey(password: string, userId: string): (k: CryptoKey)
    ensures k.AesGcmKey? && k.length == KeyBits
    ensures k.secret == Pbkdf2Secret(TextCodec.Encode(password), TextCodec.Encode(userId + SaltSuffix), Iterations, Sha256)
  {
    BackupKey(password, userId + SaltSuffix)
  }

  /** The key is a function of the password and the user id alone, and tells both apart. */
  lemma DeriveBackupKeyInjective(password: string, userId: string, password2: string, userId2: string)
    requires password != password2 || userId != userId2
    ensures DeriveBackupKey(password, userId) != DeriveBackupKey(password2, userId2)
  {
    if userId != userId2 {
      SaltInjective(userId, userId2, SaltSuffix);
    }
    BackupKeyInjective(password, userId + SaltSuffix, password2, userId2 + SaltSuffix);
  }

  // ---------------------------------------------------------------------------
  // Snapshot

  /**
   * A message store whose every chat reads as a list. `storage.saveMessage` only
   * ever stores lists; under this invariant `msgs.length` is a number for every
   * exported chat.
   */
  ghost predicate ListsOnly(st: StoreState) {
    forall k :: ListOrEmpty(st.Get(k)).JArr?
  }

  /** `contact.id` as a property name; a `null` contact has no `id` and throws. */
  function ContactKey(contact: Json): (r: Result<string>)
    ensures r.Ok? <==> !contact.JNull?
  {
    match Get(Some(contact), "id")
    case Err(e) => Err(e)
    case Ok(id) => Ok(ToJsString(id))
  }

  /** Whether some contact's `id`, as a property name, is `k`. */
  ghost predicate NamesChat(contacts: seq<Json>, k: string) {
    exists i :: 0 <= i < |contacts| && ContactKey(contacts[i]) == Ok(k)
  }

  /** `allMessages` after the loop over `contacts`: each contact's chat under the contact's `id`. */
  function ContactMessages(st: StoreState, contacts: seq<Json>): (r: Result<seq<Field>>)
    ensures r.Ok? <==> forall i :: 0 <= i < |contacts| ==> !contacts[i].JNull?
  {
    if |contacts| == 0 then Ok([])
    else
      var init := contacts[..|contacts| - 1];
      var last := contacts[|contacts| - 1];
      var prev := ContactMessages(st, init);
      var key := ContactKey(last);
      NonNullSnoc(contacts, init, last);
      if prev.Err? then prev
      else if key.Err? then Err(key.error)
      else Ok(Put(prev.value, key.value, ListOrEmpty(st.Get(key.value))))
  }

  /** No contact is `null` exactly when none before the last is and the last is not. */
  lemma NonNullSnoc(contacts: seq<Json>, init: seq<Json>, last: Json)
    requires contacts == init + [last]
    ensures (forall i :: 0 <= i < |contacts| ==> !contacts[i].JNull?)
      <==> (forall i :: 0 <= i < |init| ==> !init[i].JNull?) && !last.JNull?
  {
    assert forall i :: 0 <= i < |init| ==> init[i] == contacts[i];
    assert contacts[|init|] == last;
  }

  /** A contact list with one more contact names one more chat. */
  lemma NamesChatSnoc(contacts: seq<Json>, k: string)
    requires |contacts| > 0
    ensures NamesChat(contacts, k)
      <==> NamesChat(contacts[..|contacts| - 1], k) || ContactKey(contacts[|contacts| - 1]) == Ok(k)
  {
    var init := contacts[..|contacts| - 1];
    if NamesChat(init, k) {
      var i :| 0 <= i < |init| && ContactKey(init[i]) == Ok(k);
      assert contacts[i] == init[i];
    }
    if NamesChat(contacts, k) && ContactKey(contacts[|contacts| - 1]) != Ok(k) {
      var i :| 0 <= i < |contacts| && ContactKey(contacts[i]) == Ok(k);
      assert i < |init| && init[i] == contacts[i];
    }
  }

  /** The snapshot has exactly one entry per contact id, and it holds that chat's stored list. */
  lemma {:induction false} ContactMessagesLookup(st: StoreState, contacts: seq<Json>, k: string)
    requires ContactMessages(st, contacts).Ok?
    ensures Lookup(ContactMessages(st, contacts).value, k)
      == if NamesChat(contacts, k) then Some(ListOrEmpty(st.Get(k))) else None
    decreases |contacts|
  {
    if |contacts| > 0 {
      ContactMessagesLookup(st, contacts[..|contacts| - 1], k);
      NamesChatSnoc(contacts, k);
    }
  }

  /** Every exported list is an array when the store holds only lists. */
  lemma {:induction false} ContactMessagesArrays(st: StoreState, contacts: seq<Json>)
    requires ListsOnly(st) && ContactMessages(st, contacts).Ok?
    ensures forall i :: 0 <= i < |ContactMessages(st, contacts).value| ==> ContactMessages(st, contacts).value[i].value.JArr?
    decreases |contacts|
  {
    if |contacts| > 0 {
      var init := contacts[..|contacts| - 1];
      ContactMessagesArrays(st, init);
      var key := ContactKey(contacts[|contacts| - 1]).value;
      PutArrays(ContactMessages(st, init).value, key, ListOrEmpty(st.Get(key)));
    }
  }

  /** Putting an array into an object whose values are arrays keeps them all arrays. */
  lemma PutArrays(fields: seq<Field>, key: string, value: Json)
    requires value.JArr? && forall i :: 0 <= i < |fields| ==> fields[i].value.JArr?
    ensures forall i :: 0 <= i < |Put(fields, key, value)| ==> Put(fields, key, value)[i].value.JArr?
  {
    if HasKey(fields, key) {
      ReplaceArrays(fields, key, value);
      assert Put(fields, key, value) == Replace(fields, key, value);
    }
  }

  lemma {:induction false} ReplaceArrays(fields: seq<Field>, key: string, value: Json)
    requires HasKey(fields, key)
    requires value.JArr? && forall i :: 0 <= i < |fields| ==> fields[i].value.JArr?
    ensures forall i :: 0 <= i < |Replace(fields, key, value)| ==> Replace(fields, key, value)[i].value.JArr?
    decreases |fields|
  {
    var init := fields[..|fields| - 1];
    if fields[|fields| - 1].key != key {
      assert HasKey(init, key) by {
        var i :| 0 <= i < |fields| && fields[i].key == key;
        assert i < |init| && init[i].key == key;
      }
      ReplaceArrays(init, key, value);
      assert Replace(fields, key, value) == Replace(init, key, value) + [fields[|fields| - 1]];
    }
  }

  /** The manager's own public key as `exportPublicKey()` exports it; there is none before a pair is generated. */
  function OwnPublicKey(keyPair: Option<KeyPair>): Result<string> {
    if keyPair.None? then Err(NullAccess) else Crypto.PublicKeyText(keyPair.value.publicKey)
  }

  /** `exportedKeys`: the public key and a marker, and no private key. */
  function ExportedKeys(publicKey: string): Json {
    JObj([Field("publicKey", JStr(publicKey)), Field("keyGenerated", JBool(true))])
  }

  /** The `metadata` object; a `contactCount` of `undefined` is dropped by `JSON.stringify`. */
  function Metadata(messages: seq<Field>, contactCount: Option<Json>): Json {
    JObj([Field("messageCount", JNum(CountArrays(messages)))]
         + (if contactCount.Some? then [Field("contactCount", contactCount.value)] else []))
  }

  /** The snapshot object. */
  function SnapshotJson(userId: string, isoNow: string, messages: seq<Field>, contacts: Json, publicKey: string): Json
    requires !contacts.JNull?
  {
    JObj([Field("version", JStr("1.0")), Field("timestamp", JStr(isoNow)), Field("userId", JStr(userId)),
          Field("messages", JObj(messages)), Field("contacts", contacts), Field("keys", ExportedKeys(publicKey)),
          Field("metadata", Metadata(messages, LengthProp(contacts).value))])
  }

  /** The snapshot built from parsed contacts: contacts that are not iterable, a `null` contact or a missing key pair throw. */
  function SnapshotOf(userId: string, isoNow: string, st: StoreState, contacts: Json, keyPair: Option<KeyPair>): (r: Result<Json>)
    ensures r.Err? ==> r.error == ExportFailed
    ensures r.Ok? <==> Iterate(contacts).Ok? && ContactMessages(st, Iterate(contacts).value).Ok? && OwnPublicKey(keyPair).Ok?
  {
    match Iterate(contacts)
    case Err(_) => Err(ExportFailed)
    case Ok(items) =>
      match ContactMessages(st, items)
      case Err(_) => Err(ExportFailed)
      case Ok(messages) =>
        match OwnPublicKey(keyPair)
        case Err(_) => Err(ExportFailed)
        case Ok(publicKey) => Ok(SnapshotJson(userId, isoNow, messages, contacts, publicKey))
  }

  /** `localStorage.getItem('contacts') || '[]'`. */
  function ContactsText(stored: Option<string>): string {
    if stored.Some? && stored.value != "" then stored.value else "[]"
  }

  /** The snapshot `exportBackupData` builds; every error ends in the export error. */
  function ExportSnapshot(userId: string, isoNow: string, st: StoreState, storedContacts: Option<string>,
                          keyPair: Option<KeyPair>): (r: Result<Json>)
    ensures r.Err? ==> r.error == ExportFailed
  {
    match JsonText.Parse(ContactsText(storedContacts))
    case Err(_) => Err(ExportFailed)
    case Ok(contacts) => SnapshotOf(userId, isoNow, st, contacts, keyPair)
  }

  /** Without stored contacts the export is the empty snapshot, once a key pair exists. */
  lemma ExportWithoutContacts(userId: string, isoNow: string, st: StoreState, keyPair: KeyPair)
    requires keyPair.publicKey.EcdhPublicKey?
    ensures ExportSnapshot(userId, isoNow, st, None, Some(keyPair)).Ok?
  {
    assert ContactsText(None) == "[]";
    assert JsonText.Stringify(JArr([])) == "[]";
    JsonText.ParseOfStringify(JArr([]));
    assert JsonText.Parse(ContactsText(None)) == Ok(JArr([]));
    assert ContactMessages(st, []) == Ok([]);
    assert SnapshotOf(userId, isoNow, st, JArr([]), Some(keyPair)).Ok?;
  }

  /** The snapshot's fields read back as written. */
  lemma SnapshotFields(userId: string, isoNow: string, messages: seq<Field>, contacts: Json, publicKey: string)
    requires !contacts.JNull?
    ensures var snapshot := SnapshotJson(userId, isoNow, messages, contacts, publicKey);
      Prop(snapshot, "userId") == Some(JStr(userId))
      && Prop(snapshot, "messages") == Some(JObj(messages))
      && Prop(snapshot, "contacts") == Some(contacts)
      && Prop(snapshot, "keys") == Some(ExportedKeys(publicKey))
  {
    var f := SnapshotJson(userId, isoNow, messages, contacts, publicKey).fields;
    LookupAt(f, 2, "userId");
    assert "messages"[2] != "metadata"[2];
    LookupAt(f, 3, "messages");
    LookupAt(f, 4, "contacts");
    assert "keys"[0] != "metadata"[0];
    LookupAt(f, 5, "keys");
  }

  /**
   * The keys object of a snapshot holds exactly the public key and the marker, and
   * no private key; the public key text imports back to the manager's public key.
   */
  lemma ExportedKeysPublicOnly(userId: string, isoNow: string, st: StoreState, contacts: Json, keyPair: KeyPair)
    requires SnapshotOf(userId, isoNow, st, contacts, Some(keyPair)).Ok?
    ensures var keys := Prop(SnapshotOf(userId, isoNow, st, contacts, Some(keyPair)).value, "keys");
      keys.Some? && keys.value.JObj? && |keys.value.fields| == 2
      && Lookup(keys.value.fields, "privateKey") == None
      && Lookup(keys.value.fields, "keyGenerated") == Some(JBool(true))
      && Lookup(keys.value.fields, "publicKey") == Some(JStr(Crypto.PublicKeyText(keyPair.publicKey).value))
      && Crypto.PublicKeyOf(Crypto.PublicKeyText(keyPair.publicKey).value) == Ok(keyPair.publicKey)
  {
    var messages := ContactMessages(st, Iterate(contacts).value).value;
    var publicKey := Crypto.PublicKeyText(keyPair.publicKey).value;
    assert SnapshotOf(userId, isoNow, st, contacts, Some(keyPair)) == Ok(SnapshotJson(userId, isoNow, messages, contacts, publicKey));
    SnapshotFields(userId, isoNow, messages, contacts, publicKey);
    ExportedKeysFields(publicKey);
    Crypto.PublicKeyRoundTrip(keyPair.publicKey.point);
  }

  /** The keys object holds the public key text and the marker, and nothing else. */
  lemma ExportedKeysFields(publicKey: string)
    ensures var keys := ExportedKeys(publicKey);
      keys.JObj? && |keys.fields| == 2
      && Lookup(keys.fields, "privateKey") == None
      && Lookup(keys.fields, "keyGenerated") == Some(JBool(true))
      && Lookup(keys.fields, "publicKey") == Some(JStr(publicKey))
  {
    var kf := ExportedKeys(publicKey).fields;
    LookupAt(kf, 0, "publicKey");
    LookupAt(kf, 1, "keyGenerated");
    assert !HasKey(kf, "privateKey");
  }

  /** The exported snapshot carries the caller's user id and one entry per contact id, holding that chat's list. */
  lemma ExportedMessages(userId: string, isoNow: string, st: StoreState, contacts: Json, keyPair: Option<KeyPair>, k: string)
    requires SnapshotOf(userId, isoNow, st, contacts, keyPair).Ok?
    ensures var snapshot := SnapshotOf(userId, isoNow, st, contacts, keyPair).value;
      var messages := Prop(snapshot, "messages");
      && Prop(snapshot, "userId") == Some(JStr(userId))
      && messages.Some? && messages.value.JObj?
      && Lookup(messages.value.fields, k) == (if NamesChat(Iterate(contacts).value, k) then Some(ListOrEmpty(st.Get(k))) else None)
  {
    var messages := ContactMessages(st, Iterate(contacts).value).value;
    var publicKey := OwnPublicKey(keyPair).value;
    assert SnapshotOf(userId, isoNow, st, contacts, keyPair) == Ok(SnapshotJson(userId, isoNow, messages, contacts, publicKey));
    SnapshotFields(userId, isoNow, messages, contacts, publicKey);
    ContactMessagesLookup(st, Iterate(contacts).value, k);
  }

  /** The contacts' ids as property names, in list order. */
  function ContactIds(contacts: seq<Json>): seq<string>
    requires forall i :: 0 <= i < |contacts| ==> !contacts[i].JNull?
  {
    if |contacts| == 0 then []
    else
      var init := contacts[..|contacts| - 1];
      assert forall i :: 0 <= i < |init| ==> init[i] == contacts[i];
      ContactIds(init) + [ContactKey(contacts[|contacts| - 1]).value]
  }

  /** `ids` without repeats, each id kept where it first appears. */
  function FirstOccurrences(ids: seq<string>): (r: seq<string>)
    ensures Distinct(r)
    ensures forall k :: k in r <==> k in ids
  {
    if |ids| == 0 then []
    else
      var init := ids[..|ids| - 1];
      var last := ids[|ids| - 1];
      var d := FirstOccurrences(init);
      assert forall k :: k in ids <==> k in init || k == last by {
        assert ids == init + [last];
      }
      if last in init then d else d + [last]
  }

  /** One entry per id, in order, each holding that chat as `getMessages` reads it. */
  function Chats(st: StoreState, ids: seq<string>): seq<Field> {
    seq(|ids|, i requires 0 <= i < |ids| => Field(ids[i], ListOrEmpty(st.Get(ids[i]))))
  }

  /** Writing a chat's own list over its entry changes nothing. */
  lemma {:induction false} ReplaceChats(st: StoreState, ids: seq<string>, key: string)
    requires HasKey(Chats(st, ids), key)
    ensures Replace(Chats(st, ids), key, ListOrEmpty(st.Get(key))) == Chats(st, ids)
    decreases |ids|
  {
    var c := Chats(st, ids);
    var init := ids[..|ids| - 1];
    assert c[..|c| - 1] == Chats(st, init);
    if c[|c| - 1].key != key {
      var i :| 0 <= i < |c| && c[i].key == key;
      assert i < |c| - 1 && Chats(st, init)[i].key == key;
      ReplaceChats(st, init, key);
    }
  }

  /**
   * `allMessages` holds one entry per distinct contact id, where that id first
   * appears: a repeated id assigns the same chat again.
   */
  lemma {:induction false} ContactMessagesChats(st: StoreState, contacts: seq<Json>)
    requires ContactMessages(st, contacts).Ok?
    ensures ContactMessages(st, contacts).value == Chats(st, FirstOccurrences(ContactIds(contacts)))
    decreases |contacts|
  {
    if |contacts| > 0 {
      var init := contacts[..|contacts| - 1];
      var key := ContactKey(contacts[|contacts| - 1]).value;
      ContactMessagesChats(st, init);
      var before := ContactIds(init);
      assert ContactIds(contacts) == before + [key];
      assert ContactMessages(st, contacts).value
          == Put(Chats(st, FirstOccurrences(before)), key, ListOrEmpty(st.Get(key)));
      PutChats(st, before, key);
    }
  }

  /** Assigning the chat of one more id: a new id adds its entry at the end, a repeated one changes nothing. */
  lemma PutChats(st: StoreState, ids: seq<string>, key: string)
    ensures Put(Chats(st, FirstOccurrences(ids)), key, ListOrEmpty(st.Get(key))) == Chats(st, FirstOccurrences(ids + [key]))
  {
    var d := FirstOccurrences(ids);
    assert (ids + [key])[..|ids|] == ids;
    if key in ids {
      var i :| 0 <= i < |d| && d[i] == key;
      assert Chats(st, d)[i].key == key;
      ReplaceChats(st, d, key);
    } else {
      assert !HasKey(Chats(st, d), key);
      assert Chats(st, d) + [Field(key, ListOrEmpty(st.Get(key)))] == Chats(st, d + [key]);
    }
  }

  /** The chats of `ids` hold, between them, every message the store's lists hold under `ids`. */
  lemma {:induction false} ChatsCount(st: StoreState, ids: seq<string>)
    ensures CountArrays(Chats(st, ids)) == StoredCount(st, ids)
    decreases |ids|
  {
    if |ids| > 0 {
      var init := ids[..|ids| - 1];
      var key := ids[|ids| - 1];
      ChatsCount(st, init);
      assert Chats(st, ids) == Chats(st, init) + [Field(key, ListOrEmpty(st.Get(key)))];
      CountArraysSnoc(Chats(st, init), Field(key, ListOrEmpty(st.Get(key))));
    }
  }

  /** The `metadata` object reads back as written, `contactCount` only when it is defined. */
  lemma MetadataFields(messages: seq<Field>, contactCount: Option<Json>)
    ensures Prop(Metadata(messages, contactCount), "messageCount") == Some(JNum(CountArrays(messages)))
    ensures Prop(Metadata(messages, contactCount), "contactCount") == contactCount
  {
    var mf := Metadata(messages, contactCount).fields;
    assert "contactCount"[0] != "messageCount"[0];
    if contactCount.Some? {
      LookupAt(mf, 1, "contactCount");
    } else {
      assert !HasKey(mf, "contactCount");
    }
    LookupAt(mf, 0, "messageCount");
  }

  /**
   * The snapshot's `metadata`: `messageCount` is the number of messages in the
   * chats of the distinct contact ids, and `contactCount` is `contacts.length`.
   */
  lemma ExportCounts(userId: string, isoNow: string, st: StoreState, contacts: Json, keyPair: Option<KeyPair>)
    requires SnapshotOf(userId, isoNow, st, contacts, keyPair).Ok?
    ensures var metadata := Prop(SnapshotOf(userId, isoNow, st, contacts, keyPair).value, "metadata");
      && metadata.Some?
      && Prop(metadata.value, "messageCount")
         == Some(JNum(StoredCount(st, FirstOccurrences(ContactIds(Iterate(contacts).value)))))
      && (contacts.JArr? ==> Prop(metadata.value, "contactCount") == Some(JNum(|contacts.items|)))
      && (contacts.JStr? ==> Prop(metadata.value, "contactCount") == Some(JNum(Utf16Length(contacts.s))))
  {
    var messages := ContactMessages(st, Iterate(contacts).value).value;
    var publicKey := OwnPublicKey(keyPair).value;
    var metadata := Metadata(messages, LengthProp(contacts).value);
    var snapshot := SnapshotJson(userId, isoNow, messages, contacts, publicKey);
    assert SnapshotOf(userId, isoNow, st, contacts, keyPair) == Ok(snapshot);
    assert snapshot.fields[6] == Field("metadata", metadata);
    LookupAt(snapshot.fields, 6, "metadata");
    MetadataFields(messages, LengthProp(contacts).value);
    ContactMessagesChats(st, Iterate(contacts).value);
    ChatsCount(st, FirstOccurrences(ContactIds(Iterate(contacts).value)));
  }

  /** The text `exportBackupData` resolves to. */
  function ExportedText(userId: string, isoNow: string, st: StoreState, storedContacts: Option<string>,
                        keyPair: Option<KeyPair>): Result<string> {
    match ExportSnapshot(userId, isoNow, st, storedContacts, keyPair)
    case Ok(snapshot) => Ok(JsonText.Stringify(snapshot))
    case Err(e) => Err(e)
  }

  /** The loop over the contacts: each contact's chat read into `allMessages` under its `id`; stops at a `null` contact. */
  method CollectMessages(storage: Storage, contacts: seq<Json>) returns (r: Option<seq<Field>>)
    requires storage.Valid()
    ensures r.Some? <==> ContactMessages(storage.messages.State(), contacts).Ok?
    ensures r.Some? ==> r.value == ContactMessages(storage.messages.State(), contacts).value
  {
    ghost var st := storage.messages.State();
    var allMessages: seq<Field> := [];
    var i := 0;
    while i < |contacts|
      invariant 0 <= i <= |contacts|
      invariant ContactMessages(st, contacts[..i]) == Ok(allMessages)
    {
      assert contacts[..i + 1][..i] == contacts[..i];
      var key := ContactKey(contacts[i]);
      if key.Err? {
        assert contacts[i].JNull?;
        return None;
      }
      var messages := storage.GetMessages(key.value);
      assert messages == ListOrEmpty(st.Get(key.value));
      assert ContactMessages(st, contacts[..i + 1]) == Ok(Put(allMessages, key.value, messages));
      allMessages := Put(allMessages, key.value, messages);
      i := i + 1;
    }
    assert contacts[..i] == contacts;
    r := Some(allMessages);
  }

  /**
   * `exportBackupData(userId)`. The message count adds up `msgs.length` over the
   * exported lists, which is a number only when every chat reads as a list.
   */
  method ExportBackupData(userId: string, isoNow: string, storage: Storage, local: WebStorage, crypto: Crypto.CryptoManager)
    returns (r: Result<string>)
    requires storage.Valid() && ListsOnly(storage.messages.State())
    ensures r == ExportedText(userId, isoNow, storage.messages.State(), local.GetItem(ContactsKey), crypto.keyPair)
  {
    var stored := local.GetItem(ContactsKey);
    var parsed := JsonText.Parse(ContactsText(stored));
    if parsed.Err? {
      return Err(ExportFailed);
    }
    var contacts := parsed.value;
    var items := Iterate(contacts);
    if items.Err? {
      return Err(ExportFailed);
    }
    var allMessages := CollectMessages(storage, items.value);
    if allMessages.None? {
      return Err(ExportFailed);
    }
    var publicKey := crypto.ExportPublicKey(None);
    if publicKey.Err? {
      return Err(ExportFailed);
    }
    r := Ok(JsonText.Stringify(SnapshotJson(userId, isoNow, allMessages.value, contacts, publicKey.value)));
  }

  // ---------------------------------------------------------------------------
  // Envelope

  /** The text `encryptBackup` returns, given the IV it drew and the `Date.now()` it read. */
  function SealedBackup(backupData: string, password: string, userId: string, iv: seq<Byte>, timestamp: int): string
    requires |iv| > 0
  {
    JsonText.Stringify(SealedEnvelope(Version, DeriveBackupKey(password, userId), iv, backupData, timestamp, userId))
  }

  /**
   * `encryptBackup(backupData, password, userId)`: a fresh 12-byte IV per backup.
   * Nothing in the `try` can fail with a 256-bit key and a 12-byte IV, so the
   * encryption error is never raised.
   */
  method EncryptBackup(backupData: string, password: string, userId: string, timestamp: int, rng: RandomSource)
    returns (r: Result<string>)
    modifies rng
    ensures rng.drawn == old(rng.drawn) + IvBytes
    ensures r == Ok(SealedBackup(backupData, password, userId, Window(rng.tape, old(rng.drawn), IvBytes), timestamp))
  {
    var backupKey := DeriveBackupKey(password, userId);
    var iv := rng.GetRandomValues(IvBytes);
    var ciphertext := Encrypt(backupKey, iv, TextCodec.Encode(backupData));
    if ciphertext.Err? {
      return Err(EncryptFailed);
    }
    var ivText := Crypto.ArrayBufferToBase64(iv);
    var ciphertextText := Crypto.ArrayBufferToBase64(ciphertext.value);
    r := Ok(JsonText.Stringify(Envelope(Version, ivText, ciphertextText, timestamp, userId)));
  }

  // ---------------------------------------------------------------------------
  // Opening

  /** Past the version gate: the IV and ciphertext are decoded and the plaintext is opened. */
  function OpenWithKey(backupPackage: Json, backupKey: CryptoKey, userId: string): Result<Json> {
    match Base64Prop(backupPackage, "iv")
    case Err(e) => Err(e)
    case Ok(iv) =>
      match Base64Prop(backupPackage, "ciphertext")
      case Err(e) => Err(e)
      case Ok(ciphertext) => OpenPlaintext(backupKey, iv, ciphertext, userId, WrongUser)
  }

  /** The `try` block once the envelope text has parsed: only version 1 is read. */
  function OpenPackage(backupPackage: Json, password: string, userId: string): Result<Json> {
    match Get(Some(backupPackage), "version")
    case Err(e) => Err(e)
    case Ok(version) =>
      if !StrictEquals(version, Some(JNum(Version))) then Err(UnsupportedVersion)
      else OpenWithKey(backupPackage, DeriveBackupKey(password, userId), userId)
  }

  /** What `decryptBackup(encryptedBackup, password, userId)` resolves or rejects with. */
  function OpenBackup(encryptedBackup: string, password: string, userId: string): Result<Json> {
    Settle(match JsonText.Parse(encryptedBackup)
           case Err(e) => Err(e)
           case Ok(backupPackage) => OpenPackage(backupPackage, password, userId))
  }

  /** `decryptBackup(encryptedBackup, password, userId)`. */
  method DecryptBackup(encryptedBackup: string, password: string, userId: string) returns (r: Result<Json>)
    ensures r == OpenBackup(encryptedBackup, password, userId)
  {
    var parsed := JsonText.Parse(encryptedBackup);
    if parsed.Err? {
      return Err(Remap(parsed.error));
    }
    var backupPackage := parsed.value;
    var version := Get(Some(backupPackage), "version");
    if version.Err? {
      return Err(Remap(version.error));
    }
    if !StrictEquals(version.value, Some(JNum(Version))) {
      return Err(Remap(UnsupportedVersion));
    }
    var backupKey := DeriveBackupKey(password, userId);
    var iv := Crypto.Base64ToArrayBuffer(ToJsString(Prop(backupPackage, "iv")));
    if iv.Err? {
      return Err(Remap(iv.error));
    }
    var ciphertext := Crypto.Base64ToArrayBuffer(ToJsString(Prop(backupPackage, "ciphertext")));
    if ciphertext.Err? {
      return Err(Remap(ciphertext.error));
    }
    var plaintext := Decrypt(backupKey, iv.value, ciphertext.value);
    if plaintext.Err? {
      return Err(Remap(plaintext.error));
    }
    var backupData := JsonText.Parse(TextCodec.Decode(plaintext.value));
    r := Settle(CheckOwner(backupData, userId, WrongUser));
  }

  /** Opening JSON text that holds a package is opening that package. */
  lemma OpenText(backupPackage: Json, password: string, userId: string)
    ensures OpenBackup(JsonText.Stringify(backupPackage), password, userId) == Settle(OpenPackage(backupPackage, password, userId))
  {
    JsonText.ParseOfStringify(backupPackage);
  }

  /** A package of any version but 1, a version-2 envelope included, is refused before a key is derived. */
  lemma VersionGate(backupPackage: Json, password: string, userId: string)
    requires backupPackage.JObj? && Lookup(backupPackage.fields, "version") != Some(JNum(1))
    ensures OpenPackage(backupPackage, password, userId) == Err(UnsupportedVersion)
  {
    var version := Lookup(backupPackage.fields, "version");
    assert Get(Some(backupPackage), "version") == Ok(version);
    assert !StrictEquals(version, Some(JNum(Version)));
  }

  /** A version-1 package is opened with this caller's key. */
  lemma OpenAccepted(backupPackage: Json, password: string, userId: string)
    requires Get(Some(backupPackage), "version") == Ok(Some(JNum(1)))
    ensures OpenPackage(backupPackage, password, userId) == OpenWithKey(backupPackage, DeriveBackupKey(password, userId), userId)
  {
  }

  /** A version-1 envelope goes through its base64 fields to decryption under this caller's key. */
  lemma OpenEnvelope(iv: seq<Byte>, ciphertext: seq<Byte>, timestamp: int, owner: string, password: string, userId: string)
    ensures var env := Envelope(Version, Base64.Encode(iv), Base64.Encode(ciphertext), timestamp, owner);
      OpenPackage(env, password, userId) == OpenPlaintext(DeriveBackupKey(password, userId), iv, ciphertext, userId, WrongUser)
  {
    var env := Envelope(Version, Base64.Encode(iv), Base64.Encode(ciphertext), timestamp, owner);
    EnvelopeBytes(Version, iv, ciphertext, timestamp, owner);
    EnvelopeFields(Version, Base64.Encode(iv), Base64.Encode(ciphertext), timestamp, owner);
    OpenAccepted(env, password, userId);
    OpenDecoded(env, DeriveBackupKey(password, userId), userId, iv, ciphertext);
  }

  /** A package whose IV and ciphertext decode reaches decryption with those bytes. */
  lemma OpenDecoded(backupPackage: Json, backupKey: CryptoKey, userId: string, iv: seq<Byte>, ciphertext: seq<Byte>)
    requires Base64Prop(backupPackage, "iv") == Ok(iv) && Base64Prop(backupPackage, "ciphertext") == Ok(ciphertext)
    ensures OpenWithKey(backupPackage, backupKey, userId) == OpenPlaintext(backupKey, iv, ciphertext, userId, WrongUser)
  {
  }

  /**
   * Opening a version-1 envelope sealed under `key`: invalid password under any
   * key other than this caller's, and otherwise the ownership gate applied to the
   * parsed plaintext, with nothing renamed.
   */
  lemma OpenSealed(key: CryptoKey, iv: seq<Byte>, data: string, timestamp: int, owner: string, password: string, userId: string)
    requires key.AesGcmKey? && |iv| > 0
    ensures var text := JsonText.Stringify(SealedEnvelope(Version, key, iv, data, timestamp, owner));
      OpenBackup(text, password, userId)
      == if key != DeriveBackupKey(password, userId) then Err(InvalidPassword)
         else CheckOwner(JsonText.Parse(TextCodec.Decode(TextCodec.Encode(data))), userId, WrongUser)
  {
    OpenText(SealedEnvelope(Version, key, iv, data, timestamp, owner), password, userId);
    OpenEnvelope(iv, Seal(key, iv, data), timestamp, owner, password, userId);
    OpenPlaintextSealed(key, iv, data, DeriveBackupKey(password, userId), userId, WrongUser);
    CheckOwnerSettled(TextCodec.Decode(TextCodec.Encode(data)), userId, WrongUser);
  }

  /** The round trip: the snapshot comes back when the password and the user id are the ones it was sealed with. */
  lemma DecryptEncrypt(snapshot: Json, password: string, userId: string, iv: seq<Byte>, timestamp: int)
    requires |iv| > 0
    requires !snapshot.JNull? && Prop(snapshot, "userId") == Some(JStr(userId))
    ensures OpenBackup(SealedBackup(JsonText.Stringify(snapshot), password, userId, iv, timestamp), password, userId) == Ok(snapshot)
  {
    var data := JsonText.Stringify(snapshot);
    var key := DeriveBackupKey(password, userId);
    assert SealedBackup(data, password, userId, iv, timestamp)
        == JsonText.Stringify(SealedEnvelope(Version, key, iv, data, timestamp, userId));
    OpenSealed(key, iv, data, timestamp, userId, password, userId);
    PlaintextRoundTrip(snapshot);
    assert CheckOwner(Ok(snapshot), userId, WrongUser) == Ok(snapshot);
  }

  /** A wrong password, or another account's user id, reads as an invalid password and returns no data. */
  lemma WrongCredentials(backupData: string, password: string, userId: string, iv: seq<Byte>, timestamp: int,
                         password2: string, userId2: string)
    requires |iv| > 0
    requires password2 != password || userId2 != userId
    ensures OpenBackup(SealedBackup(backupData, password, userId, iv, timestamp), password2, userId2) == Err(InvalidPassword)
  {
    DeriveBackupKeyInjective(password, userId, password2, userId2);
    OpenSealed(DeriveBackupKey(password, userId), iv, backupData, timestamp, userId, password2, userId2);
  }

  /** A backup that decrypts but names another owner is refused with this manager's ownership error. */
  lemma WrongOwner(snapshot: Json, password: string, userId: string, iv: seq<Byte>, timestamp: int)
    requires |iv| > 0
    requires !snapshot.JNull? && Prop(snapshot, "userId") != Some(JStr(userId))
    ensures OpenBackup(SealedBackup(JsonText.Stringify(snapshot), password, userId, iv, timestamp), password, userId) == Err(WrongUser)
  {
    var data := JsonText.Stringify(snapshot);
    var key := DeriveBackupKey(password, userId);
    assert SealedBackup(data, password, userId, iv, timestamp)
        == JsonText.Stringify(SealedEnvelope(Version, key, iv, data, timestamp, userId));
    OpenSealed(key, iv, data, timestamp, userId, password, userId);
    PlaintextRoundTrip(snapshot);
    assert CheckOwner(Ok(snapshot), userId, WrongUser) == Err(WrongUser);
  }

  // ---------------------------------------------------------------------------
  // Import

  /** The message store part way through the import, and whether every save so far succeeded. */
  datatype Progress = Progress(st: StoreState, ok: bool)

  /** `saveMessage(chatId, m)` for each message in order, stopping at the first that throws. */
  function AppendAll(st: StoreState, chatId: string, messages: seq<Json>): Progress {
    if |messages| == 0 then Progress(st, true)
    else
      var prev := AppendAll(st, chatId, messages[..|messages| - 1]);
      if !prev.ok then prev
      else
        match SaveMessageState(prev.st, chatId, messages[|messages| - 1])
        case Some(next) => Progress(next, true)
        case None => Progress(prev.st, false)
  }

  /** The nested import loops over the entries of `backupData.messages`; a list that is not iterable throws. */
  function ImportEntries(st: StoreState, entries: seq<Field>): Progress {
    if |entries| == 0 then Progress(st, true)
    else
      var prev := ImportEntries(st, entries[..|entries| - 1]);
      var last := entries[|entries| - 1];
      if !prev.ok then prev
      else
        match Iterate(last.value)
        case Err(_) => Progress(prev.st, false)
        case Ok(messages) => AppendAll(prev.st, last.key, messages)
  }

  /** Once a save has thrown, the later messages are not saved. */
  lemma {:induction false} AppendStops(st: StoreState, chatId: string, messages: seq<Json>, n: nat)
    requires n <= |messages| && !AppendAll(st, chatId, messages[..n]).ok
    ensures AppendAll(st, chatId, messages) == AppendAll(st, chatId, messages[..n])
    decreases |messages|
  {
    if n < |messages| {
      var init := messages[..|messages| - 1];
      assert init[..n] == messages[..n];
      AppendStops(st, chatId, init, n);
    } else {
      assert messages[..n] == messages;
    }
  }

  /** Once the import has thrown, the later entries are not imported. */
  lemma {:induction false} ImportStops(st: StoreState, entries: seq<Field>, n: nat)
    requires n <= |entries| && !ImportEntries(st, entries[..n]).ok
    ensures ImportEntries(st, entries) == ImportEntries(st, entries[..n])
    decreases |entries|
  {
    if n < |entries| {
      var init := entries[..|entries| - 1];
      assert init[..n] == entries[..n];
      ImportStops(st, init, n);
    } else {
      assert entries[..n] == entries;
    }
  }

  /**
   * Saving a list of messages to a chat that reads as a list appends them all, in
   * order, after what the chat held.
   */
  lemma {:induction false} AppendAllAppends(st: StoreState, chatId: string, messages: seq<Json>)
    requires ListOrEmpty(st.Get(chatId)).JArr?
    ensures AppendAll(st, chatId, messages).ok
    ensures ListOrEmpty(AppendAll(st, chatId, messages).st.Get(chatId)) == JArr(ListOrEmpty(st.Get(chatId)).items + messages)
    decreases |messages|
  {
    if |messages| > 0 {
      var init := messages[..|messages| - 1];
      var last := messages[|messages| - 1];
      AppendAllAppends(st, chatId, init);
      var prev := AppendAll(st, chatId, init);
      SaveMessageAppends(prev.st, chatId, last, chatId);
      assert ListOrEmpty(st.Get(chatId)).items + init + [last] == ListOrEmpty(st.Get(chatId)).items + messages;
    }
  }

  /** Saving to one chat leaves every other chat as it was. */
  lemma {:induction false} AppendAllOthers(st: StoreState, chatId: string, messages: seq<Json>, other: string)
    requires other != chatId
    ensures AppendAll(st, chatId, messages).st.Get(other) == st.Get(other)
    decreases |messages|
  {
    if |messages| > 0 {
      AppendAllOthers(st, chatId, messages[..|messages| - 1], other);
    }
  }

  /**
   * The append policy: after an import that succeeds, every chat that read as a
   * list still starts with the messages it held before.
   */
  lemma {:induction false} ImportKeepsExisting(st: StoreState, entries: seq<Field>, chatId: string)
    requires ImportEntries(st, entries).ok && ListOrEmpty(st.Get(chatId)).JArr?
    ensures ListOrEmpty(ImportEntries(st, entries).st.Get(chatId)).JArr?
    ensures ListOrEmpty(st.Get(chatId)).items <= ListOrEmpty(ImportEntries(st, entries).st.Get(chatId)).items
    decreases |entries|
  {
    if |entries| > 0 {
      var init := entries[..|entries| - 1];
      var last := entries[|entries| - 1];
      var prev := ImportEntries(st, init);
      ImportKeepsExisting(st, init, chatId);
      var messages := Iterate(last.value).value;
      if last.key == chatId {
        AppendAllAppends(prev.st, chatId, messages);
      } else {
        AppendAllOthers(prev.st, last.key, messages, chatId);
      }
    }
  }

  /** The result `importBackupData` resolves to; the counts are copied from the snapshot's metadata. */
  datatype ImportReport = ImportReport(success: bool, messageCount: Option<Json>, contactCount: Option<Json>, restoreDate: string)

  /** `JSON.stringify(v)` as `setItem` stores it: `undefined` is stored as the text "undefined". */
  function StoredText(v: Option<Json>): string {
    if v.None? then "undefined" else JsonText.Stringify(v.value)
  }

  /** The report, which throws when the snapshot has no `metadata`. */
  function Report(backupData: Json, isoNow: string): (r: Result<ImportReport>)
    ensures r.Ok? <==> Prop(backupData, "metadata").Some? && !Prop(backupData, "metadata").value.JNull?
    ensures r.Ok? ==> r.value.messageCount == Get(Prop(backupData, "metadata"), "messageCount").value
    ensures r.Ok? ==> r.value.contactCount == Get(Prop(backupData, "metadata"), "contactCount").value
  {
    var metadata := Prop(backupData, "metadata");
    match Get(metadata, "messageCount")
    case Err(e) => Err(e)
    case Ok(messageCount) => Ok(ImportReport(true, messageCount, Get(metadata, "contactCount").value, isoNow))
  }

  /** What an import leaves behind: the message store, the contacts text it stored, if any, and its result. */
  datatype ImportEnd = ImportEnd(st: StoreState, contacts: Option<string>, result: Result<ImportReport>)

  /** `importBackupData(backupData)`; every error is reported as the import error, and saves already made stay. */
  function ImportEffect(st: StoreState, backupData: Json, isoNow: string): ImportEnd {
    match Get(Some(backupData), "messages")
    case Err(_) => ImportEnd(st, None, Err(ImportFailed))
    case Ok(messages) =>
      match Entries(messages)
      case Err(_) => ImportEnd(st, None, Err(ImportFailed))
      case Ok(entries) =>
        var progress := ImportEntries(st, entries);
        if !progress.ok then ImportEnd(progress.st, None, Err(ImportFailed))
        else
          ImportEnd(progress.st, Some(StoredText(Prop(backupData, "contacts"))),
                    match Report(backupData, isoNow)
                    case Ok(report) => Ok(report)
                    case Err(_) => Err(ImportFailed))
  }

  /** The inner loop of the import: saves each message of one chat in order, stopping at the first save that throws. */
  method SaveAll(storage: Storage, chatId: string, messages: seq<Json>) returns (ok: bool)
    requires storage.Valid()
    modifies storage.messages
    ensures storage.Valid()
    ensures AppendAll(old(storage.messages.State()), chatId, messages) == Progress(storage.messages.State(), ok)
  {
    ghost var st := storage.messages.State();
    var j := 0;
    while j < |messages|
      invariant 0 <= j <= |messages|
      invariant storage.Valid()
      invariant AppendAll(st, chatId, messages[..j]) == Progress(storage.messages.State(), true)
    {
      assert messages[..j + 1][..j] == messages[..j];
      var saved := storage.SaveMessage(chatId, messages[j]);
      if saved.Err? {
        AppendStops(st, chatId, messages, j + 1);
        return false;
      }
      j := j + 1;
    }
    assert messages[..j] == messages;
    ok := true;
  }

  /** `importBackupData(backupData)`; `isoNow` stands for `new Date().toISOString()`. */
  method ImportBackupData(backupData: Json, isoNow: string, storage: Storage, local: WebStorage) returns (r: Result<ImportReport>)
    requires storage.Valid()
    modifies storage.messages, local
    ensures storage.Valid()
    ensures var effect := ImportEffect(old(storage.messages.State()), backupData, isoNow);
      && storage.messages.State() == effect.st
      && r == effect.result
      && local.data == if effect.contacts.Some? then old(local.data)[ContactsKey := effect.contacts.value] else old(local.data)
  {
    var messagesProp := Get(Some(backupData), "messages");
    if messagesProp.Err? {
      return Err(ImportFailed);
    }
    var entries := Entries(messagesProp.value);
    if entries.Err? {
      return Err(ImportFailed);
    }
    ghost var st0 := storage.messages.State();
    var i := 0;
    while i < |entries.value|
      invariant 0 <= i <= |entries.value|
      invariant storage.Valid()
      invariant ImportEntries(st0, entries.value[..i]) == Progress(storage.messages.State(), true)
      invariant local.data == old(local.data)
    {
      var entry := entries.value[i];
      assert entries.value[..i + 1][..i] == entries.value[..i];
      assert entries.value[..i + 1][i] == entry;
      var messages := Iterate(entry.value);
      if messages.Err? {
        assert !ImportEntries(st0, entries.value[..i + 1]).ok;
        ImportStops(st0, entries.value, i + 1);
        return Err(ImportFailed);
      }
      ghost var before := storage.messages.State();
      var ok := SaveAll(storage, entry.key, messages.value);
      assert ImportEntries(st0, entries.value[..i + 1]) == AppendAll(before, entry.key, messages.value);
      if !ok {
        ImportStops(st0, entries.value, i + 1);
        return Err(ImportFailed);
      }
      i := i + 1;
    }
    assert entries.value[..i] == entries.value;
    local.SetItem(ContactsKey, StoredText(Prop(backupData, "contacts")));
    var report := Report(backupData, isoNow);
    if report.Err? {
      return Err(ImportFailed);
    }
    r := Ok(report.value);
  }
}

/**
 * `GoogleDriveBackupManager` without the Drive transport: the backup key, the
 * snapshot of the message store, the version-2 envelope, the gates that open it,
 * and a restore that overwrites each backed-up chat.
 *
 * The Drive upload sends `JSON.stringify` of the envelope and the download hands
 * that text back, so an uploaded backup is opened from `Stringify(envelope)`.
 */
module DriveBackup {
  import opened Js
  import JsonText
  import TextCodec
  import Base64
  import opened WebCrypto
  import opened Storage
  import Crypto
  import opened BackupEnvelope

  const SaltSuffix := "-securechat-backup-v1"

  /** The envelope version this manager writes; it reads versions 1 and 2. */
  const Version := 2

  const ExportFailed := Thrown("Failed to export chat data for backup")
  const WrongUser := Thrown("This backup belongs to a different user account")

  // ---------------------------------------------------------------------------
  // Key

  /** `deriveBackupKey(password, userId)`: PBKDF2 over the user id followed by this manager's suffix. */
  function DeriveBackupKey(password: string, userId: string): (k: CryptoKey)
    ensures k.AesGcmKey? && k.length == KeyBits
    ensures k.secret == Pbkdf2Secret(TextCodec.Encode(password), TextCodec.Encode(userId + SaltSuffix), Iterations, Sha256)
  {
    BackupKey(password, userId + SaltSuffix)
  }

  /** The key is a function of the password and the user id alone, and tells both apart. */
  lemma DeriveBackupKeyInjective(password: string, userId: string, password2: string, userId2: string)
    requires password != password2 || userId != userId2
    ensures DeriveBackupKey(password, userId) != DeriveBackupKey(password2, userId2)
  {
    if userId != userId2 {
      SaltInjective(userId, userId2, SaltSuffix);
    }
    BackupKeyInjective(password, userId + SaltSuffix, password2, userId2 + SaltSuffix);
  }

  // ---------------------------------------------------------------------------
  // Snapshot

  /** `allMessages` once the loop has visited `keys`: each key whose stored list is truthy, in key order. */
  function SnapshotMessages(st: StoreState, keys: seq<string>): seq<Field> {
    if |keys| == 0 then []
    else
      var init := SnapshotMessages(st, keys[..|keys| - 1]);
      var key := keys[|keys| - 1];
      if Truthy(st.Get(key)) then init + [Field(key, st.Get(key).value)] else init
  }

  /** Every snapshot entry is a visited key together with the truthy value stored under it. */
  lemma {:induction false} SnapshotFields(st: StoreState, keys: seq<string>)
    ensures forall i :: 0 <= i < |SnapshotMessages(st, keys)| ==>
              && SnapshotMessages(st, keys)[i].key in keys
              && Truthy(Some(SnapshotMessages(st, keys)[i].value))
              && st.Get(SnapshotMessages(st, keys)[i].key) == Some(SnapshotMessages(st, keys)[i].value)
    decreases |keys|
  {
    if |keys| > 0 {
      var init := keys[..|keys| - 1];
      var key := keys[|keys| - 1];
      SnapshotFields(st, init);
      var f0 := SnapshotMessages(st, init);
      var f := SnapshotMessages(st, keys);
      assert forall k :: k in init ==> k in keys;
      if Truthy(st.Get(key)) {
        assert f == f0 + [Field(key, st.Get(key).value)];
      } else {
        assert f == f0;
      }
    }
  }

  /**
   * Reading the snapshot back: a chat is in it with exactly its stored list when
   * that list is truthy, and falsy entries are skipped.
   */
  lemma {:induction false} SnapshotLookup(st: StoreState, keys: seq<string>, k: string)
    requires Distinct(keys)
    ensures Lookup(SnapshotMessages(st, keys), k) == if k in keys && Truthy(st.Get(k)) then st.Get(k) else None
    decreases |keys|
  {
    if |keys| > 0 {
      var init := keys[..|keys| - 1];
      var key := keys[|keys| - 1];
      assert Distinct(init);
      SnapshotLookup(st, init, k);
      if Truthy(st.Get(key)) {
        LookupAppend(SnapshotMessages(st, init), Field(key, st.Get(key).value), k);
      }
      assert k in keys <==> k in init || k == key;
    }
  }

  /** `JSON.parse(localStorage.getItem('contacts') || '[]')`, with `[]` kept when the text does not parse. */
  function ContactsOf(stored: Option<string>): Json {
    var text := if stored.Some? && stored.value != "" then stored.value else "[]";
    match JsonText.Parse(text)
    case Ok(v) => v
    case Err(_) => JArr([])
  }

  /** Contacts default to the empty list when none are stored or what is stored does not parse. */
  lemma ContactsDefault(stored: Option<string>)
    requires stored.None? || stored.value == "" || JsonText.Parse(stored.value).Err?
    ensures ContactsOf(stored) == JArr([])
  {
    assert JsonText.Stringify(JArr([])) == "[]";
    JsonText.ParseOfStringify(JArr([]));
  }

  /** Stored contacts that parse are taken as they are. */
  lemma ContactsParsed(text: string)
    requires JsonText.Parse(text).Ok?
    ensures ContactsOf(Some(text)) == JsonText.Parse(text).value
  {
  }

  /** The `metadata` object; a `contactCount` of `undefined` is dropped by `JSON.stringify`. */
  function Metadata(messages: seq<Field>, contactCount: Option<Json>): Json {
    JObj([Field("messageCount", JNum(CountArrays(messages)))]
         + (if contactCount.Some? then [Field("contactCount", contactCount.value)] else [])
         + [Field("backupType", JStr("google_drive"))])
  }

  /**
   * The snapshot object; `contacts.length` throws on `null` contacts, which the
   * catch turns into the export error.
   */
  function SnapshotJson(userId: string, isoNow: string, messages: seq<Field>, contacts: Json): (r: Result<Json>)
    ensures r.Err? <==> contacts.JNull?
    ensures r.Err? ==> r.error == ExportFailed
  {
    match LengthProp(contacts)
    case Err(_) => Err(ExportFailed)
    case Ok(contactCount) =>
      Ok(JObj([Field("version", JStr("2.0")), Field("timestamp", JStr(isoNow)), Field("userId", JStr(userId)),
               Field("messages", JObj(messages)), Field("contacts", contacts), Field("metadata", Metadata(messages, contactCount))]))
  }

  /** The snapshot `exportBackupData` builds from the message store and the stored contacts. */
  function ExportSnapshot(userId: string, isoNow: string, st: StoreState, storedContacts: Option<string>): Result<Json> {
    SnapshotJson(userId, isoNow, SnapshotMessages(st, st.order), ContactsOf(storedContacts))
  }

  /** The text `exportBackupData` resolves to. */
  function ExportedText(userId: string, isoNow: string, st: StoreState, storedContacts: Option<string>): Result<string> {
    match ExportSnapshot(userId, isoNow, st, storedContacts)
    case Ok(snapshot) => Ok(JsonText.Stringify(snapshot))
    case Err(e) => Err(e)
  }

  /** The exported snapshot carries the caller's user id and the snapshot of the store. */
  lemma ExportFields(userId: string, isoNow: string, st: StoreState, storedContacts: Option<string>)
    requires !ContactsOf(storedContacts).JNull?
    ensures ExportSnapshot(userId, isoNow, st, storedContacts).Ok?
    ensures var snapshot := ExportSnapshot(userId, isoNow, st, storedContacts).value;
      Prop(snapshot, "userId") == Some(JStr(userId))
      && Prop(snapshot, "messages") == Some(JObj(SnapshotMessages(st, st.order)))
      && Prop(snapshot, "contacts") == Some(ContactsOf(storedContacts))
  {
    var f := ExportSnapshot(userId, isoNow, st, storedContacts).value.fields;
    LookupAt(f, 2, "userId");
    assert "messages"[2] != "metadata"[2];
    LookupAt(f, 3, "messages");
    LookupAt(f, 4, "contacts");
  }

  /** The snapshot's entries hold, between them, every message of the array-valued chats among the visited keys. */
  lemma {:induction false} SnapshotCount(st: StoreState, keys: seq<string>)
    ensures CountArrays(SnapshotMessages(st, keys)) == StoredCount(st, keys)
    decreases |keys|
  {
    if |keys| > 0 {
      var init := keys[..|keys| - 1];
      var key := keys[|keys| - 1];
      SnapshotCount(st, init);
      if Truthy(st.Get(key)) {
        CountArraysSnoc(SnapshotMessages(st, init), Field(key, st.Get(key).value));
      }
    }
  }

  /**
   * The snapshot's `metadata`: `messageCount` is the number of messages in the
   * store's array-valued chats, `contactCount` is `contacts.length` (absent when
   * that is `undefined`), and the backup type is `google_drive`.
   */
  lemma ExportCounts(userId: string, isoNow: string, st: StoreState, storedContacts: Option<string>)
    requires !ContactsOf(storedContacts).JNull?
    ensures ExportSnapshot(userId, isoNow, st, storedContacts).Ok?
    ensures var metadata := Prop(ExportSnapshot(userId, isoNow, st, storedContacts).value, "metadata");
      var contacts := ContactsOf(storedContacts);
      && metadata.Some?
      && Prop(metadata.value, "messageCount") == Some(JNum(StoredCount(st, st.order)))
      && Prop(metadata.value, "backupType") == Some(JStr("google_drive"))
      && (contacts.JArr? ==> Prop(metadata.value, "contactCount") == Some(JNum(|contacts.items|)))
      && (contacts.JStr? ==> Prop(metadata.value, "contactCount") == Some(JNum(Utf16Length(contacts.s))))
      && (contacts.JBool? || contacts.JNum? ==> Prop(metadata.value, "contactCount") == None)
  {
    var contacts := ContactsOf(storedContacts);
    var messages := SnapshotMessages(st, st.order);
    var metadata := Metadata(messages, LengthProp(contacts).value);
    var f := ExportSnapshot(userId, isoNow, st, storedContacts).value.fields;
    assert f[5] == Field("metadata", metadata);
    LookupAt(f, 5, "metadata");
    MetadataFields(messages, LengthProp(contacts).value);
    SnapshotCount(st, st.order);
  }

  /** The `metadata` object reads back as written, `contactCount` only when it is defined. */
  lemma MetadataFields(messages: seq<Field>, contactCount: Option<Json>)
    ensures Prop(Metadata(messages, contactCount), "messageCount") == Some(JNum(CountArrays(messages)))
    ensures Prop(Metadata(messages, contactCount), "backupType") == Some(JStr("google_drive"))
    ensures Prop(Metadata(messages, contactCount), "contactCount") == contactCount
  {
    var mf := Metadata(messages, contactCount).fields;
    assert "contactCount"[0] != "messageCount"[0] && "backupType"[0] != "messageCount"[0];
    LookupAt(mf, 0, "messageCount");
    LookupAt(mf, |mf| - 1, "backupType");
    if contactCount.Some? {
      assert "backupType"[0] != "contactCount"[0];
      LookupAt(mf, 1, "contactCount");
    } else {
      assert !HasKey(mf, "contactCount");
    }
  }

  /** `exportBackupData(userId)`: the loop over `keys()` and the snapshot around it. */
  method ExportBackupData(userId: string, isoNow: string, store: KvStore, local: WebStorage) returns (r: Result<string>)
    requires store.Valid()
    ensures r == ExportedText(userId, isoNow, store.State(), local.GetItem(ContactsKey))
  {
    var allMessages: seq<Field> := [];
    var keys := store.Keys();
    var i := 0;
    while i < |keys|
      invariant 0 <= i <= |keys|
      invariant allMessages == SnapshotMessages(store.State(), keys[..i])
    {
      var key := keys[i];
      var messages := store.GetItem(key);
      if Truthy(messages) {
        SnapshotFields(store.State(), keys[..i]);
        assert !HasKey(allMessages, key);
        allMessages := Put(allMessages, key, messages.value);
      }
      assert keys[..i + 1][..i] == keys[..i];
      i := i + 1;
    }
    assert keys[..i] == keys;
    var stored := local.GetItem(ContactsKey);
    var contacts := JArr([]);
    var parsed := JsonText.Parse(if stored.Some? && stored.value != "" then stored.value else "[]");
    if parsed.Ok? {
      contacts := parsed.value;
    }
    var backupData := SnapshotJson(userId, isoNow, allMessages, contacts);
    if backupData.Err? {
      return Err(ExportFailed);
    }
    r := Ok(JsonText.Stringify(backupData.value));
  }

  // ---------------------------------------------------------------------------
  // Envelope

  /** What `encryptBackup` returns, given the IV it drew and the `Date.now()` it read. */
  function SealedBackup(backupData: string, password: string, userId: string, iv: seq<Byte>, timestamp: int): Json
    requires |iv| > 0
  {
    SealedEnvelope(Version, DeriveBackupKey(password, userId), iv, backupData, timestamp, userId)
  }

  /** `encryptBackup(backupData, password, userId)`: a fresh 12-byte IV per backup. */
  method EncryptBackup(backupData: string, password: string, userId: string, timestamp: int, rng: RandomSource) returns (r: Json)
    modifies rng
    ensures rng.drawn == old(rng.drawn) + IvBytes
    ensures r == SealedBackup(backupData, password, userId, Window(rng.tape, old(rng.drawn), IvBytes), timestamp)
  {
    var backupKey := DeriveBackupKey(password, userId);
    var iv := rng.GetRandomValues(IvBytes);
    var encrypted := Encrypt(backupKey, iv, TextCodec.Encode(backupData));
    var ivText := Crypto.ArrayBufferToBase64(iv);
    var ciphertextText := Crypto.ArrayBufferToBase64(encrypted.value);
    r := Envelope(Version, ivText, ciphertextText, timestamp, userId);
  }

  /** The envelope records version 2, the algorithm, the iteration count and the caller's user id. */
  lemma SealedBackupFields(backupData: string, password: string, userId: string, iv: seq<Byte>, timestamp: int)
    requires |iv| > 0
    ensures var env := SealedBackup(backupData, password, userId, iv, timestamp);
      Get(Some(env), "version") == Ok(Some(JNum(2)))
      && Prop(env, "userId") == Some(JStr(userId))
      && Base64Prop(env, "iv") == Ok(iv)
  {
    var key := DeriveBackupKey(password, userId);
    EnvelopeFields(Version, Base64.Encode(iv), Base64.Encode(Seal(key, iv, backupData)), timestamp, userId);
    EnvelopeBytes(Version, iv, Seal(key, iv, backupData), timestamp, userId);
  }

  // ---------------------------------------------------------------------------
  // Opening

  /** `decryptBackup` past the version gate: the IV and ciphertext are decoded, then the `try` block runs. */
  function OpenWithKey(backupPackage: Json, backupKey: CryptoKey, userId: string): Result<Json> {
    match Base64Prop(backupPackage, "iv")
    case Err(e) => Err(e)
    case Ok(iv) =>
      match Base64Prop(backupPackage, "ciphertext")
      case Err(e) => Err(e)
      case Ok(ciphertext) => Settle(OpenPlaintext(backupKey, iv, ciphertext, userId, WrongUser))
  }

  /** The versions this manager reads. */
  predicate VersionAccepted(version: Option<Json>) {
    StrictEquals(version, Some(JNum(2))) || StrictEquals(version, Some(JNum(1)))
  }

  /** `decryptBackup` once the envelope text has parsed. */
  function OpenPackage(backupPackage: Json, password: string, userId: string): Result<Json> {
    match Get(Some(backupPackage), "version")
    case Err(e) => Err(e)
    case Ok(version) =>
      if !VersionAccepted(version) then Err(UnsupportedVersion)
      else OpenWithKey(backupPackage, DeriveBackupKey(password, userId), userId)
  }

  /** What `decryptBackup(encryptedBackup, password, userId)` resolves or rejects with. */
  function OpenBackup(encryptedBackup: string, password: string, userId: string): Result<Json> {
    match JsonText.Parse(encryptedBackup)
    case Err(e) => Err(e)
    case Ok(backupPackage) => OpenPackage(backupPackage, password, userId)
  }

  /** `decryptBackup(encryptedBackup, password, userId)`. */
  method DecryptBackup(encryptedBackup: string, password: string, userId: string) returns (r: Result<Json>)
    ensures r == OpenBackup(encryptedBackup, password, userId)
  {
    var parsed := JsonText.Parse(encryptedBackup);
    if parsed.Err? {
      return Err(parsed.error);
    }
    var backupPackage := parsed.value;
    var version := Get(Some(backupPackage), "version");
    if version.Err? {
      return Err(version.error);
    }
    if !VersionAccepted(version.value) {
      return Err(UnsupportedVersion);
    }
    var backupKey := DeriveBackupKey(password, userId);
    var iv := Crypto.Base64ToArrayBuffer(ToJsString(Prop(backupPackage, "iv")));
    if iv.Err? {
      return Err(iv.error);
    }
    var ciphertext := Crypto.Base64ToArrayBuffer(ToJsString(Prop(backupPackage, "ciphertext")));
    if ciphertext.Err? {
      return Err(ciphertext.error);
    }
    var plaintext := Decrypt(backupKey, iv.value, ciphertext.value);
    if plaintext.Err? {
      return Err(Remap(plaintext.error));
    }
    var backupData := JsonText.Parse(TextCodec.Decode(plaintext.value));
    r := CheckOwner(backupData, userId, WrongUser);
    if r.Err? {
      r := Err(Remap(r.error));
    }
  }

  /** A package of any other version is refused before a key is derived, whatever the password. */
  lemma VersionGate(backupPackage: Json, password: string, userId: string)
    requires backupPackage.JObj?
    requires var version := Lookup(backupPackage.fields, "version");
      version != Some(JNum(1)) && version != Some(JNum(2))
    ensures OpenPackage(backupPackage, password, userId) == Err(UnsupportedVersion)
  {
    var version := Lookup(backupPackage.fields, "version");
    assert Get(Some(backupPackage), "version") == Ok(version);
    assert !VersionAccepted(version);
  }

  /** Opening JSON text that holds a package is opening that package. */
  lemma OpenText(backupPackage: Json, password: string, userId: string)
    ensures OpenBackup(JsonText.Stringify(backupPackage), password, userId) == OpenPackage(backupPackage, password, userId)
  {
    JsonText.ParseOfStringify(backupPackage);
  }

  /** A package of an accepted version is opened with this caller's key. */
  lemma OpenAccepted(backupPackage: Json, version: int, password: string, userId: string)
    requires version == 1 || version == 2
    requires Get(Some(backupPackage), "version") == Ok(Some(JNum(version)))
    ensures OpenPackage(backupPackage, password, userId) == OpenWithKey(backupPackage, DeriveBackupKey(password, userId), userId)
  {
  }

  /** A package whose IV and ciphertext decode reaches the `try` block with those bytes. */
  lemma OpenDecoded(backupPackage: Json, backupKey: CryptoKey, userId: string, iv: seq<Byte>, ciphertext: seq<Byte>)
    requires Base64Prop(backupPackage, "iv") == Ok(iv) && Base64Prop(backupPackage, "ciphertext") == Ok(ciphertext)
    ensures OpenWithKey(backupPackage, backupKey, userId) == Settle(OpenPlaintext(backupKey, iv, ciphertext, userId, WrongUser))
  {
  }

  /** An envelope of an accepted version goes through its base64 fields to the `try` block under this caller's key. */
  lemma OpenEnvelope(version: int, iv: seq<Byte>, ciphertext: seq<Byte>, timestamp: int, owner: string, password: string, userId: string)
    requires version == 1 || version == 2
    ensures var env := Envelope(version, Base64.Encode(iv), Base64.Encode(ciphertext), timestamp, owner);
      OpenPackage(env, password, userId) == Settle(OpenPlaintext(DeriveBackupKey(password, userId), iv, ciphertext, userId, WrongUser))
  {
    var env := Envelope(version, Base64.Encode(iv), Base64.Encode(ciphertext), timestamp, owner);
    EnvelopeBytes(version, iv, ciphertext, timestamp, owner);
    EnvelopeFields(version, Base64.Encode(iv), Base64.Encode(ciphertext), timestamp, owner);
    OpenAccepted(env, version, password, userId);
    OpenDecoded(env, DeriveBackupKey(password, userId), userId, iv, ciphertext);
  }

  /**
   * Opening a version-1 or version-2 envelope sealed under `key`: invalid password
   * under any key other than this caller's, and otherwise the ownership gate applied
   * to the parsed plaintext, with nothing renamed.
   */
  lemma OpenSealed(version: int, key: CryptoKey, iv: seq<Byte>, data: string, timestamp: int, owner: string, password: string, userId: string)
    requires version == 1 || version == 2
    requires key.AesGcmKey? && |iv| > 0
    ensures var text := JsonText.Stringify(SealedEnvelope(version, key, iv, data, timestamp, owner));
      OpenBackup(text, password, userId)
      == if key != DeriveBackupKey(password, userId) then Err(InvalidPassword)
         else CheckOwner(JsonText.Parse(TextCodec.Decode(TextCodec.Encode(data))), userId, WrongUser)
  {
    var c := Seal(key, iv, data);
    OpenText(SealedEnvelope(version, key, iv, data, timestamp, owner), password, userId);
    OpenEnvelope(version, iv, c, timestamp, owner, password, userId);
    OpenPlaintextSealed(key, iv, data, DeriveBackupKey(password, userId), userId, WrongUser);
    CheckOwnerSettled(TextCodec.Decode(TextCodec.Encode(data)), userId, WrongUser);
  }

  /** The round trip: the snapshot comes back when the password and the user id are the ones it was sealed with. */
  lemma DecryptEncrypt(snapshot: Json, password: string, userId: string, iv: seq<Byte>, timestamp: int)
    requires |iv| > 0
    requires !snapshot.JNull? && Prop(snapshot, "userId") == Some(JStr(userId))
    ensures OpenBackup(JsonText.Stringify(SealedBackup(JsonText.Stringify(snapshot), password, userId, iv, timestamp)), password, userId)
      == Ok(snapshot)
  {
    OpenSealed(Version, DeriveBackupKey(password, userId), iv, JsonText.Stringify(snapshot), timestamp, userId, password, userId);
    PlaintextRoundTrip(snapshot);
  }

  /** A wrong password, or another account's user id, reads as an invalid password and returns no data. */
  lemma WrongCredentials(backupData: string, password: string, userId: string, iv: seq<Byte>, timestamp: int,
                         password2: string, userId2: string)
    requires |iv| > 0
    requires password2 != password || userId2 != userId
    ensures OpenBackup(JsonText.Stringify(SealedBackup(backupData, password, userId, iv, timestamp)), password2, userId2)
      == Err(InvalidPassword)
  {
    DeriveBackupKeyInjective(password, userId, password2, userId2);
    OpenSealed(Version, DeriveBackupKey(password, userId), iv, backupData, timestamp, userId, password2, userId2);
  }

  /**
   * A backup that decrypts but whose snapshot names another owner is refused with
   * the ownership error, which the catch does not turn into invalid-password.
   */
  lemma WrongOwner(snapshot: Json, password: string, userId: string, iv: seq<Byte>, timestamp: int)
    requires |iv| > 0
    requires !snapshot.JNull? && Prop(snapshot, "userId") != Some(JStr(userId))
    ensures OpenBackup(JsonText.Stringify(SealedBackup(JsonText.Stringify(snapshot), password, userId, iv, timestamp)), password, userId)
      == Err(WrongUser)
  {
    OpenSealed(Version, DeriveBackupKey(password, userId), iv, JsonText.Stringify(snapshot), timestamp, userId, password, userId);
    PlaintextRoundTrip(snapshot);
  }

  // ---------------------------------------------------------------------------
  // Restore

  /** The entries of `backupData.messages || {}`. */
  function RestoreEntries(backupData: Json): seq<Field>
    requires !backupData.JNull?
  {
    var messages := Prop(backupData, "messages");
    Entries(Some(if Truthy(messages) then messages.value else JObj([]))).value
  }

  /** The message store after the restore loop: each array-valued entry, in order, overwrites its chat. */
  function RestoreMessages(st: StoreState, entries: seq<Field>): StoreState {
    if |entries| == 0 then st
    else
      var prev := RestoreMessages(st, entries[..|entries| - 1]);
      var last := entries[|entries| - 1];
      if last.value.JArr? then prev.Set(last.key, last.value) else prev
  }

  /** The array-valued entries, in order. */
  function ArrayEntries(entries: seq<Field>): seq<Field> {
    if |entries| == 0 then []
    else
      var init := ArrayEntries(entries[..|entries| - 1]);
      var last := entries[|entries| - 1];
      if last.value.JArr? then init + [last] else init
  }

  /**
   * After the restore a chat holds the last list the backup has for it, and a chat
   * the backup has no list for keeps what it had.
   */
  lemma {:induction false} RestoreLookup(st: StoreState, entries: seq<Field>, k: string)
    ensures var found := Lookup(ArrayEntries(entries), k);
      RestoreMessages(st, entries).Get(k) == if found.Some? then found else st.Get(k)
    decreases |entries|
  {
    if |entries| > 0 {
      var init := entries[..|entries| - 1];
      RestoreLookup(st, init, k);
      var last := entries[|entries| - 1];
      var prev := RestoreMessages(st, init);
      if last.value.JArr? {
        assert ArrayEntries(entries) == ArrayEntries(init) + [last];
        LookupAppend(ArrayEntries(init), last, k);
        assert RestoreMessages(st, entries).items == prev.items[last.key := last.value];
      } else {
        assert ArrayEntries(entries) == ArrayEntries(init);
        assert RestoreMessages(st, entries) == prev;
      }
    }
  }

  /** The restore loop is the shared `setItem` loop run over the array-valued entries. */
  lemma {:induction false} RestoreSetsArrays(st: StoreState, entries: seq<Field>)
    ensures RestoreMessages(st, entries) == SetAll(st, ArrayEntries(entries))
    decreases |entries|
  {
    if |entries| > 0 {
      var init := entries[..|entries| - 1];
      var last := entries[|entries| - 1];
      RestoreSetsArrays(st, init);
      if last.value.JArr? {
        var arrays := ArrayEntries(init) + [last];
        assert ArrayEntries(entries) == arrays;
        assert arrays[..|arrays| - 1] == ArrayEntries(init);
      }
    }
  }

  /** Every array-valued entry is one of the entries. */
  lemma {:induction false} ArrayEntriesFrom(entries: seq<Field>)
    ensures forall f :: f in ArrayEntries(entries) ==> f in entries
    decreases |entries|
  {
    if |entries| > 0 {
      var init := entries[..|entries| - 1];
      ArrayEntriesFrom(init);
      assert forall f :: f in init ==> f in entries;
    }
  }

  /** Restoring preserves the store's invariant. */
  lemma RestoreValid(st: StoreState, entries: seq<Field>)
    requires st.Valid()
    ensures RestoreMessages(st, entries).Valid()
  {
    RestoreSetsArrays(st, entries);
    SetAllValid(st, ArrayEntries(entries));
  }

  /** Entries that repeat what the store holds change nothing, key order included. */
  lemma RestoreUnchanged(st: StoreState, entries: seq<Field>)
    requires forall i :: 0 <= i < |entries| ==> st.Get(entries[i].key) == Some(entries[i].value)
    ensures RestoreMessages(st, entries) == st
  {
    RestoreSetsArrays(st, entries);
    var arrays := ArrayEntries(entries);
    ArrayEntriesFrom(entries);
    forall j | 0 <= j < |arrays|
      ensures st.Get(arrays[j].key) == Some(arrays[j].value)
    {
      assert arrays[j] in entries;
      var i :| 0 <= i < |entries| && entries[i] == arrays[j];
    }
    SetAllUnchanged(st, arrays);
  }

  /** `contacts?.length || 0`. */
  function ContactCount(backupData: Json): (r: Json)
    ensures !Truthy(Prop(backupData, "contacts")) ==> r == JNum(0)
    ensures IsArray(Prop(backupData, "contacts")) ==> r == JNum(|Prop(backupData, "contacts").value.items|)
  {
    var contacts := Prop(backupData, "contacts");
    if contacts.None? || contacts.value.JNull? then JNum(0)
    else
      var length := LengthProp(contacts.value).value;
      if Truthy(length) then length.value else JNum(0)
  }

  datatype RestoreReport = RestoreReport(success: bool, messageCount: int, contactCount: Json, restoreDate: string)

  /** `restoreBackupData(backupData)`; `isoNow` stands for `new Date().toISOString()`. */
  method RestoreBackupData(backupData: Json, isoNow: string, store: KvStore, local: WebStorage) returns (r: Result<RestoreReport>)
    requires store.Valid()
    modifies store, local
    ensures store.Valid()
    ensures backupData.JNull? ==> r == Err(NullAccess) && store.State() == old(store.State()) && local.data == old(local.data)
    ensures !backupData.JNull? ==>
              var entries := RestoreEntries(backupData);
              var contacts := Prop(backupData, "contacts");
              && r == Ok(RestoreReport(true, CountArrays(entries), ContactCount(backupData), isoNow))
              && store.State() == RestoreMessages(old(store.State()), entries)
              && local.data == if IsArray(contacts) then old(local.data)[ContactsKey := JsonText.Stringify(contacts.value)]
                               else old(local.data)
  {
    var messagesProp := Get(Some(backupData), "messages");
    if messagesProp.Err? {
      return Err(messagesProp.error);
    }
    var messages := messagesProp.value;
    var entries := Entries(Some(if Truthy(messages) then messages.value else JObj([]))).value;
    assert messages == Prop(backupData, "messages");
    assert entries == RestoreEntries(backupData);
    ghost var st0 := store.State();
    var restoredMessages := 0;
    var i := 0;
    while i < |entries|
      invariant 0 <= i <= |entries|
      invariant store.Valid()
      invariant store.State() == RestoreMessages(st0, entries[..i])
      invariant restoredMessages == CountArrays(entries[..i])
      invariant local.data == old(local.data)
    {
      var entry := entries[i];
      assert entries[..i + 1][..i] == entries[..i];
      assert entries[..i + 1][i] == entry;
      if entry.value.JArr? {
        store.SetItem(entry.key, entry.value);
        restoredMessages := restoredMessages + |entry.value.items|;
      }
      i := i + 1;
    }
    assert entries[..i] == entries;
    var contacts := Prop(backupData, "contacts");
    if Truthy(contacts) && IsArray(contacts) {
      local.SetItem(ContactsKey, JsonText.Stringify(contacts.value));
    }
    r := Ok(RestoreReport(true, restoredMessages, ContactCount(backupData), isoNow));
  }

  /** Restoring a snapshot onto the store it was taken from leaves that store exactly as it was, key order included. */
  lemma RestoreExported(st: StoreState, userId: string, isoNow: string, storedContacts: Option<string>)
    requires !ContactsOf(storedContacts).JNull?
    ensures ExportSnapshot(userId, isoNow, st, storedContacts).Ok?
    ensures RestoreMessages(st, RestoreEntries(ExportSnapshot(userId, isoNow, st, storedContacts).value)) == st
  {
    ExportFields(userId, isoNow, st, storedContacts);
    var f := SnapshotMessages(st, st.order);
    assert RestoreEntries(ExportSnapshot(userId, isoNow, st, storedContacts).value) == f;
    SnapshotFields(st, st.order);
    RestoreUnchanged(st, f);
  }

  /**
   * A backup made by this manager and opened with the same password and user id
   * gives back the exported snapshot, and restoring it onto the store it was taken
   * from leaves that store exactly as it was.
   */
  lemma BackupThenRestore(st: StoreState, userId: string, isoNow: string, storedContacts: Option<string>,
                          password: string, iv: seq<Byte>, timestamp: int)
    requires !ContactsOf(storedContacts).JNull? && |iv| > 0
    ensures ExportSnapshot(userId, isoNow, st, storedContacts).Ok?
    ensures var snapshot := ExportSnapshot(userId, isoNow, st, storedContacts).value;
      && OpenBackup(JsonText.Stringify(SealedBackup(JsonText.Stringify(snapshot), password, userId, iv, timestamp)), password, userId)
         == Ok(snapshot)
      && RestoreMessages(st, RestoreEntries(snapshot)) == st
  {
    ExportFields(userId, isoNow, st, storedContacts);
    DecryptEncrypt(ExportSnapshot(userId, isoNow, st, storedContacts).value, password, userId, iv, timestamp);
    RestoreExported(st, userId, isoNow, storedContacts);
  }
}

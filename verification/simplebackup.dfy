/**
 * `SimplifiedBackupManager` of backup-simple.js without the OAuth and Drive
 * transport: its own salt, a snapshot of every entry of the message store, a
 * version-1 envelope returned as an object (the uploader sends its JSON text), a
 * decryption whose `try` covers only decryption, parsing and the ownership gate
 * and renames every error in it, and a restore that overwrites each backed-up chat.
 *
 * Nothing in this manager catches the errors of the steps outside that `try`; they
 * reach the caller as they were raised.
 */
module SimpleBackup {
  import opened Js
  import JsonText
  import TextCodec
  import Base64
  import opened WebCrypto
  import opened Storage
  import Crypto
  import opened BackupEnvelope

  const SaltSuffix := "-backup-securechat-v1"

  /** The only envelope version this manager writes and reads. */
  const Version := 1

  /** Raised inside the `try` of `decryptBackup`, and renamed there like every other error. */
  const WrongUser := Thrown("Backup belongs to different user")

  // ---------------------------------------------------------------------------
  // Key

  /** `deriveBackupKey(password, userId)`: PBKDF2 over the user id followed by this manager's suffix. */
  function DeriveBackupKey(password: string, userId: string): (k: CryptoKey)
    ensures k.AesGcmKey? && k.length == KeyBits
    ensures k.secret == Pbkdf2Secret(TextCodec.Encode(password), TextCodec.Encode(userId + SaltSuffix), Iterations, Sha256)
  {
    BackupKey(password, userId + SaltSuffix)
  }

  /** The key is a function of the password and the user id alone, and tells both apart. */
  lemma DeriveBackupKeyInjective(password: string, userId: string, password2: string, userId2: string)
    requires password != password2 || userId != userId2
    ensures DeriveBackupKey(password, userId) != DeriveBackupKey(password2, userId2)
  {
    if userId != userId2 {
      SaltInjective(userId, userId2, SaltSuffix);
    }
    BackupKeyInjective(password, userId + SaltSuffix, password2, userId2 + SaltSuffix);
  }

  // ---------------------------------------------------------------------------
  // Snapshot

  /** `allMessages` after the loop over `keys`: every key with its stored value, `null` included. */
  function AllMessages(st: StoreState, keys: seq<string>): seq<Field> {
    if |keys| == 0 then []
    else
      var key := keys[|keys| - 1];
      AllMessages(st, keys[..|keys| - 1]) + [Field(key, if key in st.items then st.items[key] else JNull)]
  }

  /** One entry per key, in order, holding what the store holds under it. */
  lemma {:induction false} AllMessagesFields(st: StoreState, keys: seq<string>)
    ensures |AllMessages(st, keys)| == |keys|
    ensures forall i :: 0 <= i < |keys| ==> AllMessages(st, keys)[i].key == keys[i]
    ensures forall i :: 0 <= i < |keys| && keys[i] in st.items ==> AllMessages(st, keys)[i].value == st.items[keys[i]]
    decreases |keys|
  {
    if |keys| > 0 {
      AllMessagesFields(st, keys[..|keys| - 1]);
    }
  }

  /** The snapshot holds every key of the store, with its value: a stored `null` is exported as `null`, not skipped. */
  lemma AllMessagesLookup(st: StoreState, k: string)
    requires st.Valid()
    ensures Lookup(AllMessages(st, st.order), k) == st.Get(k)
  {
    var f := AllMessages(st, st.order);
    AllMessagesFields(st, st.order);
    if k in st.items {
      var i :| 0 <= i < |st.order| && st.order[i] == k;
      LookupAt(f, i, k);
    } else {
      assert !HasKey(f, k);
    }
  }

  /** `msgs?.length || 0` summed over the exported values: an array counts its length, `null` counts 0. */
  function MessageCount(fields: seq<Field>): int
    requires forall i :: 0 <= i < |fields| ==> fields[i].value.JArr? || fields[i].value.JNull?
  {
    CountArrays(fields)
  }

  /** A message store whose every value is a list or `null`, the only values the chat client stores there. */
  ghost predicate ListsOrNull(st: StoreState) {
    forall k :: k in st.items ==> st.items[k].JArr? || st.items[k].JNull?
  }

  /** The snapshot object. */
  function SnapshotJson(userId: string, isoNow: string, messages: seq<Field>): Json
    requires forall i :: 0 <= i < |messages| ==> messages[i].value.JArr? || messages[i].value.JNull?
  {
    JObj([Field("version", JStr("1.0")), Field("timestamp", JStr(isoNow)), Field("userId", JStr(userId)),
          Field("messages", JObj(messages)), Field("messageCount", JNum(MessageCount(messages)))])
  }

  /** The snapshot `exportBackupData` builds from the message store. */
  function ExportSnapshot(userId: string, isoNow: string, st: StoreState): Json
    requires st.Valid() && ListsOrNull(st)
  {
    var messages := AllMessages(st, st.order);
    AllMessagesFields(st, st.order);
    assert forall i :: 0 <= i < |st.order| ==> st.order[i] in st.items;
    SnapshotJson(userId, isoNow, messages)
  }

  /** The exported snapshot carries the caller's user id and every entry of the store. */
  lemma ExportFields(userId: string, isoNow: string, st: StoreState)
    requires st.Valid() && ListsOrNull(st)
    ensures var snapshot := ExportSnapshot(userId, isoNow, st);
      Prop(snapshot, "userId") == Some(JStr(userId))
      && Prop(snapshot, "messages") == Some(JObj(AllMessages(st, st.order)))
  {
    var f := ExportSnapshot(userId, isoNow, st).fields;
    LookupAt(f, 2, "userId");
    LookupAt(f, 3, "messages");
  }
  /** The exported entries hold, between them, every message of the list chats among `keys`; a `null` chat adds 0. */
  lemma {:induction false} AllMessagesCount(st: StoreState, keys: seq<string>)
    ensures CountArrays(AllMessages(st, keys)) == StoredCount(st, keys)
    decreases |keys|
  {
    if |keys| > 0 {
      var key := keys[|keys| - 1];
      AllMessagesCount(st, keys[..|keys| - 1]);
      CountArraysSnoc(AllMessages(st, keys[..|keys| - 1]), Field(key, if key in st.items then st.items[key] else JNull));
    }
  }

  /** The snapshot's `messageCount` is the number of messages in the store's lists, `null` chats counting 0. */
  lemma ExportCount(userId: string, isoNow: string, st: StoreState)
    requires st.Valid() && ListsOrNull(st)
    ensures Prop(ExportSnapshot(userId, isoNow, st), "messageCount") == Some(JNum(StoredCount(st, st.order)))
  {
    var f := ExportSnapshot(userId, isoNow, st).fields;
    LookupAt(f, 4, "messageCount");
    AllMessagesCount(st, st.order);
  }


  /** `exportBackupData(userId)`: the loop over `keys()` and the snapshot around it; nothing in it throws. */
  method ExportBackupData(userId: string, isoNow: string, store: KvStore) returns (r: string)
    requires store.Valid() && ListsOrNull(store.State())
    ensures r == JsonText.Stringify(ExportSnapshot(userId, isoNow, store.State()))
  {
    var allMessages: seq<Field> := [];
    var keys := store.Keys();
    var i := 0;
    while i < |keys|
      invariant 0 <= i <= |keys|
      invariant allMessages == AllMessages(store.State(), keys[..i])
    {
      var key := keys[i];
      var messages := store.GetItem(key);
      AllMessagesFields(store.State(), keys[..i]);
      assert !HasKey(allMessages, key);
      allMessages := Put(allMessages, key, messages.value);
      assert keys[..i + 1][..i] == keys[..i];
      i := i + 1;
    }
    assert keys[..i] == keys;
    r := JsonText.Stringify(ExportSnapshot(userId, isoNow, store.State()));
  }

  // ---------------------------------------------------------------------------
  // Envelope

  /** The envelope `encryptBackup` returns, given the IV it drew and the `Date.now()` it read. */
  function SealedBackup(backupData: string, password: string, userId: string, iv: seq<Byte>, timestamp: int): Json
    requires |iv| > 0
  {
    SealedEnvelope(Version, DeriveBackupKey(password, userId), iv, backupData, timestamp, userId)
  }

  /** `encryptBackup(backupData, password, userId)`: a fresh 12-byte IV per backup; with a 256-bit key and a 12-byte IV nothing in it throws. */
  method EncryptBackup(backupData: string, password: string, userId: string, timestamp: int, rng: RandomSource)
    returns (r: Json)
    modifies rng
    ensures rng.drawn == old(rng.drawn) + IvBytes
    ensures r == SealedBackup(backupData, password, userId, Window(rng.tape, old(rng.drawn), IvBytes), timestamp)
  {
    var backupKey := DeriveBackupKey(password, userId);
    var iv := rng.GetRandomValues(IvBytes);
    var encrypted := Encrypt(backupKey, iv, TextCodec.Encode(backupData));
    var ivText := Crypto.ArrayBufferToBase64(iv);
    var ciphertextText := Crypto.ArrayBufferToBase64(encrypted.value);
    r := Envelope(Version, ivText, ciphertextText, timestamp, userId);
  }

  /** The envelope's fields read back as written. */
  lemma SealedBackupFields(backupData: string, password: string, userId: string, iv: seq<Byte>, timestamp: int)
    requires |iv| > 0
    ensures var env := SealedBackup(backupData, password, userId, iv, timestamp);
      Get(Some(env), "version") == Ok(Some(JNum(1)))
      && Prop(env, "userId") == Some(JStr(userId))
      && Base64Prop(env, "iv") == Ok(iv)
  {
    var key := DeriveBackupKey(password, userId);
    EnvelopeFields(Version, Base64.Encode(iv), Base64.Encode(Seal(key, iv, backupData)), timestamp, userId);
    EnvelopeBytes(Version, iv, Seal(key, iv, backupData), timestamp, userId);
  }

  // ---------------------------------------------------------------------------
  // Opening

  /** The `try` block: decryption, parsing and the ownership gate, with every error renamed to the password error. */
  function TryOpen(backupKey: CryptoKey, iv: seq<Byte>, ciphertext: seq<Byte>, userId: string): (r: Result<Json>)
    ensures r.Err? ==> r.error == InvalidPassword
  {
    match OpenPlaintext(backupKey, iv, ciphertext, userId, WrongUser)
    case Ok(backupData) => Ok(backupData)
    case Err(_) => Err(InvalidPassword)
  }

  /** The steps after parsing: the version gate and the base64 fields raise their own errors, outside the `try`. */
  function OpenPackage(backupPackage: Json, password: string, userId: string): Result<Json> {
    match Get(Some(backupPackage), "version")
    case Err(e) => Err(e)
    case Ok(version) =>
      if !StrictEquals(version, Some(JNum(Version))) then Err(UnsupportedVersion)
      else
        var backupKey := DeriveBackupKey(password, userId);
        match Base64Prop(backupPackage, "iv")
        case Err(e) => Err(e)
        case Ok(iv) =>
          match Base64Prop(backupPackage, "ciphertext")
          case Err(e) => Err(e)
          case Ok(ciphertext) => TryOpen(backupKey, iv, ciphertext, userId)
  }

  /** What `decryptBackup(encryptedBackup, password, userId)` resolves or rejects with. */
  function OpenBackup(encryptedBackup: string, password: string, userId: string): Result<Json> {
    match JsonText.Parse(encryptedBackup)
    case Err(e) => Err(e)
    case Ok(backupPackage) => OpenPackage(backupPackage, password, userId)
  }

  /** `decryptBackup(encryptedBackup, password, userId)`. */
  method DecryptBackup(encryptedBackup: string, password: string, userId: string) returns (r: Result<Json>)
    ensures r == OpenBackup(encryptedBackup, password, userId)
  {
    var parsed := JsonText.Parse(encryptedBackup);
    if parsed.Err? {
      return Err(parsed.error);
    }
    var backupPackage := parsed.value;
    var version := Get(Some(backupPackage), "version");
    if version.Err? {
      return Err(version.error);
    }
    if !StrictEquals(version.value, Some(JNum(Version))) {
      return Err(UnsupportedVersion);
    }
    var backupKey := DeriveBackupKey(password, userId);
    var iv := Crypto.Base64ToArrayBuffer(ToJsString(Prop(backupPackage, "iv")));
    if iv.Err? {
      return Err(iv.error);
    }
    var ciphertext := Crypto.Base64ToArrayBuffer(ToJsString(Prop(backupPackage, "ciphertext")));
    if ciphertext.Err? {
      return Err(ciphertext.error);
    }
    var plaintext := Decrypt(backupKey, iv.value, ciphertext.value);
    if plaintext.Err? {
      return Err(InvalidPassword);
    }
    var backupData := CheckOwner(JsonText.Parse(TextCodec.Decode(plaintext.value)), userId, WrongUser);
    if backupData.Err? {
      return Err(InvalidPassword);
    }
    r := backupData;
  }

  /** Opening JSON text that holds a package is opening that package. */
  lemma OpenText(backupPackage: Json, password: string, userId: string)
    ensures OpenBackup(JsonText.Stringify(backupPackage), password, userId) == OpenPackage(backupPackage, password, userId)
  {
    JsonText.ParseOfStringify(backupPackage);
  }

  /**
   * A package of any version but 1 is refused, outside the `try`, with the version
   * error itself and not the password error.
   */
  lemma VersionGate(backupPackage: Json, password: string, userId: string)
    requires backupPackage.JObj? && Lookup(backupPackage.fields, "version") != Some(JNum(1))
    ensures OpenPackage(backupPackage, password, userId) == Err(UnsupportedVersion)
  {
    var version := Lookup(backupPackage.fields, "version");
    assert Get(Some(backupPackage), "version") == Ok(version);
    assert !StrictEquals(version, Some(JNum(Version)));
  }

  /** A version-1 package whose IV and ciphertext decode reaches the `try` with those bytes. */
  lemma OpenDecoded(backupPackage: Json, password: string, userId: string, iv: seq<Byte>, ciphertext: seq<Byte>)
    requires Get(Some(backupPackage), "version") == Ok(Some(JNum(1)))
    requires Base64Prop(backupPackage, "iv") == Ok(iv) && Base64Prop(backupPackage, "ciphertext") == Ok(ciphertext)
    ensures OpenPackage(backupPackage, password, userId) == TryOpen(DeriveBackupKey(password, userId), iv, ciphertext, userId)
  {
    assert StrictEquals(Some(JNum(1)), Some(JNum(Version)));
  }

  /** A version-1 envelope goes through its base64 fields to the `try` under this caller's key. */
  lemma OpenEnvelope(iv: seq<Byte>, ciphertext: seq<Byte>, timestamp: int, owner: string, password: string, userId: string)
    ensures var env := Envelope(Version, Base64.Encode(iv), Base64.Encode(ciphertext), timestamp, owner);
      OpenPackage(env, password, userId) == TryOpen(DeriveBackupKey(password, userId), iv, ciphertext, userId)
  {
    var env := Envelope(Version, Base64.Encode(iv), Base64.Encode(ciphertext), timestamp, owner);
    EnvelopeBytes(Version, iv, ciphertext, timestamp, owner);
    EnvelopeFields(Version, Base64.Encode(iv), Base64.Encode(ciphertext), timestamp, owner);
    OpenDecoded(env, password, userId, iv, ciphertext);
  }

  /**
   * Opening the JSON text of a version-1 envelope sealed under `key`: the password
   * error under any key other than this caller's, and otherwise the parsed data
   * when it names this caller and the password error when it does not.
   */
  lemma OpenSealed(key: CryptoKey, iv: seq<Byte>, data: string, timestamp: int, owner: string, password: string, userId: string)
    requires key.AesGcmKey? && |iv| > 0
    ensures var text := JsonText.Stringify(SealedEnvelope(Version, key, iv, data, timestamp, owner));
      var parsed := CheckOwner(JsonText.Parse(TextCodec.Decode(TextCodec.Encode(data))), userId, WrongUser);
      OpenBackup(text, password, userId)
      == if key != DeriveBackupKey(password, userId) || parsed.Err? then Err(InvalidPassword) else parsed
  {
    OpenText(SealedEnvelope(Version, key, iv, data, timestamp, owner), password, userId);
    OpenEnvelope(iv, Seal(key, iv, data), timestamp, owner, password, userId);
    OpenPlaintextSealed(key, iv, data, DeriveBackupKey(password, userId), userId, WrongUser);
  }

  /** The round trip: the snapshot comes back when the password and the user id are the ones it was sealed with. */
  lemma DecryptEncrypt(snapshot: Json, password: string, userId: string, iv: seq<Byte>, timestamp: int)
    requires |iv| > 0
    requires !snapshot.JNull? && Prop(snapshot, "userId") == Some(JStr(userId))
    ensures OpenBackup(JsonText.Stringify(SealedBackup(JsonText.Stringify(snapshot), password, userId, iv, timestamp)), password, userId)
      == Ok(snapshot)
  {
    OpenSealed(DeriveBackupKey(password, userId), iv, JsonText.Stringify(snapshot), timestamp, userId, password, userId);
    PlaintextRoundTrip(snapshot);
  }

  /** A wrong password, or another account's user id, reads as an invalid password and returns no data. */
  lemma WrongCredentials(backupData: string, password: string, userId: string, iv: seq<Byte>, timestamp: int,
                         password2: string, userId2: string)
    requires |iv| > 0
    requires password2 != password || userId2 != userId
    ensures OpenBackup(JsonText.Stringify(SealedBackup(backupData, password, userId, iv, timestamp)), password2, userId2)
      == Err(InvalidPassword)
  {
    DeriveBackupKeyInjective(password, userId, password2, userId2);
    OpenSealed(DeriveBackupKey(password, userId), iv, backupData, timestamp, userId, password2, userId2);
  }

  /**
   * A backup that decrypts but names another owner is reported as an invalid
   * password: the ownership error is raised inside the `try` and renamed there.
   */
  lemma WrongOwner(snapshot: Json, password: string, userId: string, iv: seq<Byte>, timestamp: int)
    requires |iv| > 0
    requires !snapshot.JNull? && Prop(snapshot, "userId") != Some(JStr(userId))
    ensures OpenBackup(JsonText.Stringify(SealedBackup(JsonText.Stringify(snapshot), password, userId, iv, timestamp)), password, userId)
      == Err(InvalidPassword)
  {
    OpenSealed(DeriveBackupKey(password, userId), iv, JsonText.Stringify(snapshot), timestamp, userId, password, userId);
    PlaintextRoundTrip(snapshot);
  }

  // ---------------------------------------------------------------------------
  // Restore
  //
  // The restore loop writes every entry with `setItem`: its effect is `SetAll`.

  /** After the restore a chat holds the last value the backup has for it, and a chat the backup does not name keeps what it had. */
  lemma {:induction false} RestoreLookup(st: StoreState, entries: seq<Field>, k: string)
    ensures SetAll(st, entries).Get(k) == if HasKey(entries, k) then Lookup(entries, k) else st.Get(k)
    decreases |entries|
  {
    if |entries| > 0 {
      var init := entries[..|entries| - 1];
      var last := entries[|entries| - 1];
      RestoreLookup(st, init, k);
      LookupAppend(init, last, k);
      assert entries == init + [last];
    }
  }

  /** The result `restoreBackupData` resolves to: the snapshot's own `messageCount`, not a recount. */
  datatype RestoreReport = RestoreReport(success: bool, messageCount: Option<Json>, restoreDate: string)

  /**
   * The entries of `backupData.messages`, or the error `Object.entries` raises on a
   * missing or `null` value; nothing catches it.
   */
  function RestoreEntries(backupData: Json): (r: Result<seq<Field>>)
    ensures backupData.JNull? ==> r == Err(NullAccess)
    ensures !backupData.JNull? ==> r == Entries(Prop(backupData, "messages"))
  {
    match Get(Some(backupData), "messages")
    case Err(e) => Err(e)
    case Ok(messages) => Entries(messages)
  }

  /** `restoreBackupData(backupData)`; `isoNow` stands for `new Date().toISOString()`. Contacts are not touched. */
  method RestoreBackupData(backupData: Json, isoNow: string, store: KvStore) returns (r: Result<RestoreReport>)
    requires store.Valid()
    modifies store
    ensures store.Valid()
    ensures RestoreEntries(backupData).Err? ==>
              r == Err(RestoreEntries(backupData).error) && store.State() == old(store.State())
    ensures RestoreEntries(backupData).Ok? ==>
              && r == Ok(RestoreReport(true, Prop(backupData, "messageCount"), isoNow))
              && store.State() == SetAll(old(store.State()), RestoreEntries(backupData).value)
  {
    var messages := Get(Some(backupData), "messages");
    if messages.Err? {
      return Err(messages.error);
    }
    var entries := Entries(messages.value);
    if entries.Err? {
      return Err(entries.error);
    }
    ghost var st0 := store.State();
    var i := 0;
    while i < |entries.value|
      invariant 0 <= i <= |entries.value|
      invariant store.Valid()
      invariant store.State() == SetAll(st0, entries.value[..i])
    {
      assert entries.value[..i + 1][..i] == entries.value[..i];
      store.SetItem(entries.value[i].key, entries.value[i].value);
      i := i + 1;
    }
    assert entries.value[..i] == entries.value;
    r := Ok(RestoreReport(true, Prop(backupData, "messageCount"), isoNow));
  }

  /** Restoring a snapshot onto the store it was taken from leaves that store exactly as it was, key order included. */
  lemma RestoreExported(st: StoreState, userId: string, isoNow: string)
    requires st.Valid() && ListsOrNull(st)
    ensures RestoreEntries(ExportSnapshot(userId, isoNow, st)).Ok?
    ensures SetAll(st, RestoreEntries(ExportSnapshot(userId, isoNow, st)).value) == st
  {
    ExportFields(userId, isoNow, st);
    var f := AllMessages(st, st.order);
    assert RestoreEntries(ExportSnapshot(userId, isoNow, st)) == Ok(f);
    AllMessagesFields(st, st.order);
    assert forall i :: 0 <= i < |st.order| ==> st.order[i] in st.items;
    SetAllUnchanged(st, f);
  }

  /**
   * A backup made by this manager, uploaded as JSON text and opened with the same
   * password and user id, gives back the exported snapshot, and restoring it onto
   * the store it was taken from leaves that store exactly as it was.
   */
  lemma BackupThenRestore(st: StoreState, userId: string, isoNow: string, password: string, iv: seq<Byte>, timestamp: int)
    requires st.Valid() && ListsOrNull(st) && |iv| > 0
    ensures var snapshot := ExportSnapshot(userId, isoNow, st);
      && OpenBackup(JsonText.Stringify(SealedBackup(JsonText.Stringify(snapshot), password, userId, iv, timestamp)), password, userId)
         == Ok(snapshot)
      && RestoreEntries(snapshot).Ok?
      && SetAll(st, RestoreEntries(snapshot).value) == st
  {
    ExportFields(userId, isoNow, st);
    DecryptEncrypt(ExportSnapshot(userId, isoNow, st), password, userId, iv, timestamp);
    RestoreExported(st, userId, isoNow);
  }
}

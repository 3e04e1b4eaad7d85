/**
 * What the three backup managers have in common: the PBKDF2 parameters of the
 * backup key, the shape of the encrypted envelope, and the way the envelope's
 * base64 fields are read back. Each manager picks its own salt suffix, envelope
 * version and error handling; those live in its own module.
 */
module BackupEnvelope {
  import opened Js
  import JsonText
  import TextCodec
  import Base64
  import opened WebCrypto
  import Storage

  /** PBKDF2 iteration count of every backup key. */
  const Iterations := 600000

  /** Length in bits of the AES-GCM backup key. */
  const KeyBits := 256

  /** Length in bytes of the IV drawn for a backup. */
  const IvBytes := 12

  const Algorithm := "AES-256-GCM-PBKDF2"

  /** The `localStorage` key of the contact list. */
  const ContactsKey := "contacts"

  const InvalidPassword := Thrown("Invalid password - decryption failed")
  const UnsupportedVersion := Thrown("Unsupported backup version")

  /**
   * `deriveBackupKey` with the salt text already built: the password and the salt
   * go through `TextEncoder`, and PBKDF2 with SHA-256 yields a 256-bit AES-GCM key.
   */
  function BackupKey(password: string, salt: string): (k: CryptoKey)
    ensures k == AesGcmKey(Pbkdf2Secret(TextCodec.Encode(password), TextCodec.Encode(salt), Iterations, Sha256), KeyBits)
  {
    DerivePbkdf2(ImportPbkdf2(TextCodec.Encode(password)), TextCodec.Encode(salt), Iterations, Sha256, KeyBits).value
  }

  /** Backup keys differ as soon as the password or the salt differs. */
  lemma BackupKeyInjective(password: string, salt: string, password2: string, salt2: string)
    requires password != password2 || salt != salt2
    ensures BackupKey(password, salt) != BackupKey(password2, salt2)
  {
    if password != password2 {
      TextCodec.EncodeInjective(password, password2);
    } else {
      TextCodec.EncodeInjective(salt, salt2);
    }
  }

  /** Salts made from different user ids with one suffix differ. */
  lemma SaltInjective(userId: string, userId2: string, suffix: string)
    requires userId != userId2
    ensures userId + suffix != userId2 + suffix
  {
    var a, b := userId + suffix, userId2 + suffix;
    if |userId| == |userId2| {
      assert a[..|userId|] == userId && b[..|userId|] == userId2;
    } else {
      assert |a| != |b|;
    }
  }

  /** The AES-GCM ciphertext of the UTF-8 bytes of `data`. */
  function Seal(key: CryptoKey, iv: seq<Byte>, data: string): seq<Byte>
    requires key.AesGcmKey? && |iv| > 0
  {
    Encrypt(key, iv, TextCodec.Encode(data)).value
  }

  /** The envelope object `encryptBackup` builds around the base64 IV and ciphertext. */
  function Envelope(version: int, iv: string, ciphertext: string, timestamp: int, userId: string): Json {
    JObj([Field("version", JNum(version)), Field("algorithm", JStr(Algorithm)), Field("iterations", JNum(Iterations)),
          Field("iv", JStr(iv)), Field("ciphertext", JStr(ciphertext)), Field("timestamp", JNum(timestamp)),
          Field("userId", JStr(userId))])
  }

  /** The envelope of `data` sealed under `key` with `iv`, both carried as base64. */
  function SealedEnvelope(version: int, key: CryptoKey, iv: seq<Byte>, data: string, timestamp: int, userId: string): Json
    requires key.AesGcmKey? && |iv| > 0
  {
    Envelope(version, Base64.Encode(iv), Base64.Encode(Seal(key, iv, data)), timestamp, userId)
  }

  /** `v.name` for a value that is known not to be `null` or `undefined`. */
  function Prop(v: Json, name: string): (r: Option<Json>)
    ensures v.JObj? ==> r == Lookup(v.fields, name)
  {
    match Get(Some(v), name)
    case Ok(x) => x
    case Err(_) => None
  }

  /** `base64ToArrayBuffer(pkg.name)`: the property is turned into a string first, as `atob` does. */
  function Base64Prop(pkg: Json, name: string): Result<seq<Byte>> {
    Base64.Decode(ToJsString(Prop(pkg, name)))
  }

  /** The fields of an envelope read back as written. */
  lemma EnvelopeFields(version: int, iv: string, ciphertext: string, timestamp: int, userId: string)
    ensures var env := Envelope(version, iv, ciphertext, timestamp, userId);
      Get(Some(env), "version") == Ok(Some(JNum(version)))
      && Prop(env, "iv") == Some(JStr(iv))
      && Prop(env, "ciphertext") == Some(JStr(ciphertext))
      && Prop(env, "userId") == Some(JStr(userId))
  {
    var f := Envelope(version, iv, ciphertext, timestamp, userId).fields;
    LookupAt(f, 0, "version");
    LookupAt(f, 3, "iv");
    LookupAt(f, 4, "ciphertext");
    LookupAt(f, 6, "userId");
  }

  /** The base64 fields of an envelope decode to the bytes that were encoded. */
  lemma EnvelopeBytes(version: int, iv: seq<Byte>, ciphertext: seq<Byte>, timestamp: int, userId: string)
    ensures var env := Envelope(version, Base64.Encode(iv), Base64.Encode(ciphertext), timestamp, userId);
      Base64Prop(env, "iv") == Ok(iv) && Base64Prop(env, "ciphertext") == Ok(ciphertext)
  {
    EnvelopeFields(version, Base64.Encode(iv), Base64.Encode(ciphertext), timestamp, userId);
    Base64.DecodeEncode(iv);
    Base64.DecodeEncode(ciphertext);
  }

  /** Under an AES key the sealed data comes back exactly when that key is the one it was sealed with. */
  lemma SealOpens(key: CryptoKey, iv: seq<Byte>, data: string, key2: CryptoKey)
    requires key.AesGcmKey? && key2.AesGcmKey? && |iv| > 0
    ensures Decrypt(key2, iv, Seal(key, iv, data)) == if key2 == key then Ok(TextCodec.Encode(data)) else Err(OperationError)
  {
    DecryptEncrypt(key, iv, TextCodec.Encode(data), key2, iv);
  }

  /** The ownership gate after decryption: the parsed data's `userId` must be the caller's, or `wrongUser` is thrown. */
  function CheckOwner(parsed: Result<Json>, userId: string, wrongUser: JsError): (r: Result<Json>)
    ensures r.Ok? <==> parsed.Ok? && !parsed.value.JNull? && Prop(parsed.value, "userId") == Some(JStr(userId))
    ensures r.Ok? ==> r == parsed
  {
    match parsed
    case Err(e) => Err(e)
    case Ok(backupData) =>
      match Get(Some(backupData), "userId")
      case Err(e) => Err(e)
      case Ok(owner) => if StrictEquals(owner, Some(JStr(userId))) then Ok(backupData) else Err(wrongUser)
  }

  /** Decryption, `JSON.parse` of the decoded plaintext, and the ownership gate. */
  function OpenPlaintext(key: CryptoKey, iv: seq<Byte>, ciphertext: seq<Byte>, userId: string, wrongUser: JsError): Result<Json> {
    match Decrypt(key, iv, ciphertext)
    case Err(e) => Err(e)
    case Ok(plaintext) => CheckOwner(JsonText.Parse(TextCodec.Decode(plaintext)), userId, wrongUser)
  }

  /** Data sealed under `key` gets past decryption only under that same key. */
  lemma OpenPlaintextSealed(key: CryptoKey, iv: seq<Byte>, data: string, key2: CryptoKey, userId: string, wrongUser: JsError)
    requires key.AesGcmKey? && key2.AesGcmKey? && |iv| > 0
    ensures OpenPlaintext(key2, iv, Seal(key, iv, data), userId, wrongUser)
      == if key2 == key then CheckOwner(JsonText.Parse(TextCodec.Decode(TextCodec.Encode(data))), userId, wrongUser)
         else Err(OperationError)
  {
    SealOpens(key, iv, data, key2);
  }

  /** The `catch` of the two managers that rename only an OperationError and throw every other error again. */
  function Remap(e: JsError): (r: JsError)
    ensures e.name == "OperationError" ==> r == InvalidPassword
    ensures e.name != "OperationError" ==> r == e
  {
    if e.name == "OperationError" then InvalidPassword else e
  }

  /** A result with that `catch` applied. */
  function Settle(r: Result<Json>): (s: Result<Json>)
    ensures r.Ok? ==> s == r
    ensures r.Err? ==> s == Err(Remap(r.error))
  {
    match r
    case Ok(backupData) => Ok(backupData)
    case Err(e) => Err(Remap(e))
  }

  /** The ownership gate never raises an OperationError, so that `catch` passes its errors through unchanged. */
  lemma CheckOwnerSettled(text: string, userId: string, wrongUser: JsError)
    requires wrongUser.name == "Error"
    ensures Settle(CheckOwner(JsonText.Parse(text), userId, wrongUser)) == CheckOwner(JsonText.Parse(text), userId, wrongUser)
  {
    var r := CheckOwner(JsonText.Parse(text), userId, wrongUser);
    if r.Err? {
      assert r.error in {JsonText.SyntaxError, NullAccess, wrongUser};
    }
  }

  /** The total length of the array-valued entries: the `messageCount` of a snapshot whose lists are arrays. */
  function CountArrays(fields: seq<Field>): nat {
    if |fields| == 0 then 0
    else
      var last := fields[|fields| - 1].value;
      CountArrays(fields[..|fields| - 1]) + (if last.JArr? then |last.items| else 0)
  }

  /** What one chat contributes to a message count: an array's length, anything else (`null`, missing, not a list) 0. */
  function ChatLength(stored: Option<Json>): nat {
    match stored
    case Some(JArr(items)) => |items|
    case _ => 0
  }

  /** The number of messages the store holds under `keys`, counted chat by chat. */
  function StoredCount(st: Storage.StoreState, keys: seq<string>): nat {
    if |keys| == 0 then 0
    else StoredCount(st, keys[..|keys| - 1]) + ChatLength(st.Get(keys[|keys| - 1]))
  }

  /** One more entry adds what its value contributes. */
  lemma CountArraysSnoc(fields: seq<Field>, f: Field)
    ensures CountArrays(fields + [f]) == CountArrays(fields) + ChatLength(Some(f.value))
  {
    assert (fields + [f])[..|fields|] == fields;
  }

  // ---------------------------------------------------------------------------
  // The restore loop shared by the managers: `setItem(key, value)` per entry

  /** The store after `setItem(key, value)` for each entry, in order. */
  function SetAll(st: Storage.StoreState, entries: seq<Field>): Storage.StoreState {
    if |entries| == 0 then st
    else
      var last := entries[|entries| - 1];
      SetAll(st, entries[..|entries| - 1]).Set(last.key, last.value)
  }

  /** Setting entries one by one keeps the store's keys and key order consistent. */
  lemma {:induction false} SetAllValid(st: Storage.StoreState, entries: seq<Field>)
    requires st.Valid()
    ensures SetAll(st, entries).Valid()
    decreases |entries|
  {
    if |entries| > 0 {
      SetAllValid(st, entries[..|entries| - 1]);
    }
  }

  /** Entries that repeat what the store holds change nothing, key order included. */
  lemma {:induction false} SetAllUnchanged(st: Storage.StoreState, entries: seq<Field>)
    requires forall i :: 0 <= i < |entries| ==> st.Get(entries[i].key) == Some(entries[i].value)
    ensures SetAll(st, entries) == st
    decreases |entries|
  {
    if |entries| > 0 {
      var init := entries[..|entries| - 1];
      assert forall i :: 0 <= i < |init| ==> init[i] == entries[i];
      SetAllUnchanged(st, init);
      var last := entries[|entries| - 1];
      assert st.Get(last.key) == Some(last.value);
      assert st.items[last.key := last.value] == st.items;
    }
  }

  /** JSON text survives the trip through UTF-8 and `JSON.parse`. */
  lemma PlaintextRoundTrip(v: Json)
    ensures JsonText.Parse(TextCodec.Decode(TextCodec.Encode(JsonText.Stringify(v)))) == Ok(v)
  {
    TextCodec.DecodeEncode(JsonText.Stringify(v));
    JsonText.ParseOfStringify(v);
  }
}

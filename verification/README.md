# SecureChat client core in Dafny

SecureChat is a chat application with end-to-end encryption. Each client has an
ECDH P-384 key pair. It agrees an AES-256-GCM key with each contact. It encrypts
every message before posting it and keeps the decrypted messages in a local
store (localforage). This project models the client side of that scheme and
proves properties of the model:

- the `CryptoManager` (`frontend/src/utils/crypto.js`) and the local message
  store (`frontend/src/utils/storage.js`);
- the three password-protected backup managers: `backup.js`, `backup-simple.js`
  and `google-drive-backup.js`. They derive a key with PBKDF2, seal a JSON
  snapshot of the local data with AES-GCM, and check the owner on the way back;
- the dashboard's message flow (`Dashboard.js`): receiving a message from the
  socket, loading a conversation, and sending a message;
- the chat window's helpers (`ChatWindow.js`), the audit-log rendering
  (`AuditLogs.js`), and the registration form's password checks (`Register.js`).

The browser primitives the code relies on are modelled concretely, so every
law used about them is proved rather than assumed:

- `Js`: JSON-shaped values, truthiness, `===`, `String()`, property reads that
  throw on `null`, `Object.entries`, `trim`, and `.length` in UTF-16 code units.
- `JsonText`: `JSON.stringify` and `JSON.parse`, with `parse(stringify(v)) == v`.
- `TextCodec`: UTF-8 `TextEncoder`/`TextDecoder`, with the decoder dropping a
  leading byte order mark.
- `Base64`: `btoa`/`atob` (RFC 4648 section 4, with the forgiving decoding of
  the WHATWG HTML standard).
- `WebCrypto`: Web Crypto as a symbolic model. A key carries the secret it was
  derived from. AES-GCM ciphertext records the key and the IV, and decryption
  checks both. ECDH agreement is symmetric in the two scalars.
  `crypto.getRandomValues` reads from a random tape passed in as a parameter.
- `Words`: `split`, `join` and `toUpperCase`.

Modules, one per file: `Js`, `JsonText`, `TextCodec`, `Base64`, `WebCrypto`,
`Words`, `Crypto`, `Storage`, `BackupEnvelope` (shared by the three managers),
`DriveBackup`, `Backup`, `SimpleBackup`, `BackupVariants`, `Dashboard`,
`ChatWindow`, `AuditLogs`, `Register`.

Code that changes state is modelled as classes whose methods change fields.
This covers `CryptoManager`, the localforage instances, `window.localStorage`,
the dashboard's React state, the composer and the registration form. Each method
is specified against a function of the old state; the lemmas beside it state
what that function guarantees.

Two behaviours of the code around ownership are worth stating:

- The backup key is salted with the user id of the caller, not of the backup's
  owner. Opening a backup under another user id therefore fails at decryption,
  before the owner check runs. All three managers report that as an invalid
  password (`*.WrongCredentials`).
- `backup-simple.js` throws its ownership error inside a `try` whose `catch`
  replaces every error (backup-simple.js:256-262). Its owner check therefore
  surfaces as "Invalid password - decryption failed" too (`SimpleBackup.WrongOwner`).

## Model

| member | source | states |
|---|---|---|
| Base64.AtobBtoa | frontend/src/utils/crypto.js:106-123 | `btoa` accepts the binary string of any bytes; `atob` of the result gives those bytes back |
| Base64.DecodeEncode | frontend/src/utils/crypto.js:106-123 | decoding base64 text made by the encoder gives back the bytes |
| Base64.DecodeRejects | frontend/src/utils/crypto.js:116-118 | a character outside the alphabet, other than ASCII white space and `=`, makes `atob` throw |
| Base64.EncodeLength | frontend/src/utils/crypto.js:106-113 | the encoding of n bytes has 4·⌈n/3⌉ characters |
| Base64.Btoa | frontend/src/utils/crypto.js:112 | `btoa` succeeds exactly when every character is below 256, and then encodes those bytes |
| Base64.Atob | frontend/src/utils/crypto.js:117 | `atob` succeeds exactly when the text decodes, and then gives the decoded bytes as characters |
| TextCodec.DecodeEncode | frontend/src/utils/crypto.js:66-98 | decoding the UTF-8 encoding of a string that does not start with a byte order mark gives the string back |
| TextCodec.DecodeDropsMark | frontend/src/utils/crypto.js:98 | a leading byte order mark is swallowed by the decoder |
| TextCodec.EncodeInjective | frontend/src/utils/crypto.js:66 | different strings encode to different bytes |
| JsonText.ParseOfStringify | frontend/src/utils/backup.js:128 | `JSON.parse(JSON.stringify(v))` is `v` for every JSON value |
| JsonText.Parse | frontend/src/utils/backup.js:262 | every failure of `JSON.parse` is a `SyntaxError` |
| WebCrypto.DecryptEncrypt | frontend/src/utils/crypto.js:64-103 | AES-GCM decryption undoes encryption under the same key and IV and fails with `OperationError` under any other |
| WebCrypto.Encrypt | frontend/src/utils/crypto.js:68-75 | encryption succeeds exactly for an AES-GCM key and a non-empty IV, and the ciphertext is longer than the plaintext |
| WebCrypto.Decrypt | frontend/src/utils/crypto.js:89-96 | a key that is not an AES-GCM key gives `InvalidAccessError`; otherwise every failure is `OperationError` |
| WebCrypto.EcdhAgreement | frontend/src/utils/crypto.js:45-61 | both ends derive the same AES key, and a third party's public key gives a different one; a law of the symbolic model, not of curve arithmetic |
| WebCrypto.DeriveEcdh | frontend/src/utils/crypto.js:46-58 | derivation succeeds exactly for a public and a private ECDH key and an AES length of 128, 192 or 256 bits, and gives an AES-GCM key of that length |
| WebCrypto.ExportSpki | frontend/src/utils/crypto.js:25 | only a public ECDH key exports as SPKI |
| WebCrypto.KeyPairOf | frontend/src/utils/crypto.js:10-19 | a generated pair is a public and a private ECDH key on the same scalar |
| WebCrypto.GenerateEcdhKeyPair | frontend/src/utils/crypto.js:10-19 | draws the 48-byte P-384 scalar from the random tape and builds the pair from it |
| WebCrypto.DerivePbkdf2 | frontend/src/utils/backup.js:65-88 | PBKDF2 derivation succeeds exactly for password key material, a positive round count and an AES length of 128, 192 or 256 bits, and the key records password, salt, rounds and hash |
| WebCrypto.ImportExportSpki | frontend/src/utils/crypto.js:24-42 | importing the SPKI export of a public key gives the key back |
| WebCrypto.ImportSpki | frontend/src/utils/crypto.js:32-41 | an imported key is a public ECDH key and the bytes are the SPKI encoding of its point; any other input is a `DataError` |
| WebCrypto.RandomSource.GetRandomValues | frontend/src/utils/crypto.js:65 | the next n bytes of the random tape are returned and consumed |
| Crypto.CryptoManager.constructor | frontend/src/utils/crypto.js:4-6 | a new manager has no key pair |
| Crypto.CryptoManager.GenerateKeyPair | frontend/src/utils/crypto.js:9-21 | stores and returns a well-formed P-384 pair built from the next 48 random bytes |
| Crypto.CryptoManager.ExportPublicKey | frontend/src/utils/crypto.js:24-27 | exports the given key, or else the manager's own public key; with neither it throws |
| Crypto.PublicKeyText | frontend/src/utils/crypto.js:24-27 | a key exports exactly when it is a public ECDH key |
| Crypto.PublicKeyRoundTrip | frontend/src/utils/crypto.js:24-42 | `importPublicKey(exportPublicKey(k))` is `k` |
| Crypto.CryptoManager.ImportPublicKey | frontend/src/utils/crypto.js:30-42 | the imported key is the public key the base64 text encodes, and any result is a public ECDH key |
| Crypto.CryptoManager.DeriveSharedSecret | frontend/src/utils/crypto.js:45-61 | ECDH with the manager's private key gives a 256-bit AES key; without a key pair it throws |
| Crypto.SharedSecretAgrees | frontend/src/utils/crypto.js:45-61 | two managers with key pairs derive the same shared key from each other's public keys |
| Crypto.SharedSecretNeedsKeyPair | frontend/src/utils/crypto.js:51 | deriving before `generateKeyPair` throws |
| Crypto.CryptoManager.EncryptMessage | frontend/src/utils/crypto.js:64-81 | draws a 12-byte IV and returns the base64 ciphertext of the UTF-8 text and the base64 IV |
| Crypto.SealMessage | frontend/src/utils/crypto.js:64-81 | sealing succeeds exactly for an AES-GCM key and a non-empty IV |
| Crypto.MessageRoundTrip | frontend/src/utils/crypto.js:64-103 | decrypting what `encryptMessage` produced gives the text under the same key and `[Decryption failed]` under any other |
| Crypto.CryptoManager.DecryptMessage | frontend/src/utils/crypto.js:84-103 | the result is the decrypted text, or `[Decryption failed]` when decoding or decryption throws |
| Crypto.OpenMessageRejectsBase64 | frontend/src/utils/crypto.js:86-87 | ciphertext or IV that is not base64 gives `[Decryption failed]` |
| Crypto.ArrayBufferToBase64 | frontend/src/utils/crypto.js:106-113 | the loop builds the binary string of the bytes, and `btoa` of it is their base64 encoding |
| Crypto.Base64ToArrayBuffer | frontend/src/utils/crypto.js:116-123 | the loop copies `atob`'s characters into bytes, so the result is the base64 decoding |
| Crypto.CryptoManager.GenerateNonce | frontend/src/utils/crypto.js:126-128 | the base64 encoding of the next 16 random bytes, 24 characters long |
| Storage.StoreState.Set | frontend/src/utils/storage.js:19 | the store maps the key to the value; a new key is appended to the key order, an old one keeps its place; the order stays duplicate-free and matches the keys |
| Storage.StoreState.Remove | frontend/src/utils/storage.js:29 | the key is gone from the map and the order, and the order stays duplicate-free |
| Storage.KvStore.constructor | frontend/src/utils/storage.js:4-12 | a new localforage instance is empty |
| Storage.KvStore.GetItem | frontend/src/utils/storage.js:24 | the stored value, or nothing for a missing key |
| Storage.KvStore.SetItem | frontend/src/utils/storage.js:19 | the key maps to the value; a new key goes last in the key order |
| Storage.KvStore.RemoveItem | frontend/src/utils/storage.js:29 | the key is removed and nothing else changes |
| Storage.KvStore.Keys | frontend/src/utils/storage.js:4-7 | the keys are distinct, and they are exactly the stored keys |
| Storage.KvStore.Clear | frontend/src/utils/storage.js:44-45 | the store is empty afterwards |
| Storage.WebStorage.GetItem | frontend/src/utils/backup.js:100 | `localStorage.getItem` gives the stored text, or `null` for a missing key |
| Storage.WebStorage.SetItem | frontend/src/utils/backup.js:316 | `localStorage.setItem` maps the key to the text and changes nothing else |
| Storage.ListOrEmpty | frontend/src/utils/storage.js:24 | a truthy stored value is kept; a missing or falsy one becomes the empty list |
| Storage.SaveMessageState | frontend/src/utils/storage.js:16-20 | a save succeeds exactly when the chat's stored value, or `[]`, is a list |
| Storage.Storage.constructor | frontend/src/utils/storage.js:4-12 | both stores start empty |
| Storage.Storage.GetMessages | frontend/src/utils/storage.js:23-25 | the stored value, or `[]` when it is falsy |
| Storage.Storage.SaveMessage | frontend/src/utils/storage.js:16-20 | appends the message to the chat's list; if the stored value has no `push`, it throws and changes nothing |
| Storage.SaveMessageAppends | frontend/src/utils/storage.js:16-20 | after a save, the chat's list is the old list plus the message, and every other chat is unchanged |
| Storage.GetMessagesMissing | frontend/src/utils/storage.js:23-30 | a chat never saved reads as `[]`, also after removing it |
| Storage.ClearedReadsEmpty | frontend/src/utils/storage.js:16-30 | a cleared chat, whatever it held, reads as `[]`; other chats are untouched; the next `saveMessage` starts a list holding only that message |
| Storage.Storage.ClearMessages | frontend/src/utils/storage.js:28-30 | removes the chat, which then reads as `[]` |
| Storage.Storage.SaveKey | frontend/src/utils/storage.js:33-35 | `getKey` then returns the key |
| Storage.Storage.GetKey | frontend/src/utils/storage.js:38-40 | what the key store holds for the user |
| Storage.Storage.ClearAll | frontend/src/utils/storage.js:43-46 | both stores are empty afterwards |
| BackupEnvelope.BackupKey | frontend/src/utils/backup.js:58-91 | the key is AES-256-GCM from PBKDF2 over the UTF-8 password and salt, 600000 rounds of SHA-256 |
| BackupEnvelope.BackupKeyInjective | frontend/src/utils/backup.js:58-91 | different passwords or salts give different PBKDF2 keys |
| BackupEnvelope.PlaintextRoundTrip | frontend/src/utils/backup.js:146-287 | a JSON snapshot survives being encoded, decoded and parsed |
| BackupEnvelope.SealOpens | frontend/src/utils/backup.js:149-157 | a sealed snapshot decrypts to its UTF-8 bytes under the sealing key and fails with `OperationError` under any other |
| BackupEnvelope.EnvelopeFields | frontend/src/utils/backup.js:160-168 | the envelope carries the version, the IV, the ciphertext and the owner's user id |
| BackupEnvelope.EnvelopeBytes | frontend/src/utils/backup.js:164-165 | the IV and ciphertext read back from the envelope as the bytes written |
| BackupEnvelope.OpenPlaintextSealed | frontend/src/utils/backup.js:276-292 | opening a sealed snapshot under another key is an `OperationError`; under its key, the ownership check on the parsed plaintext |
| BackupEnvelope.CheckOwner | frontend/src/utils/backup.js:289-292 | the parsed backup passes exactly when its `userId` is the caller's |
| BackupEnvelope.Remap | frontend/src/utils/backup.js:295-300 | an `OperationError` becomes "Invalid password" and other errors pass through |
| BackupEnvelope.Settle | frontend/src/utils/backup.js:294-300 | a success passes through the `catch` unchanged, and an error is remapped |
| BackupEnvelope.CheckOwnerSettled | frontend/src/utils/backup.js:289-300 | the ownership error is not renamed by the `catch` |
| DriveBackup.DeriveBackupKey | frontend/src/utils/google-drive-backup.js:147-171 | AES-256 from PBKDF2 over the UTF-8 password and salt `userId + "-securechat-backup-v1"`, 600000 rounds of SHA-256 |
| DriveBackup.DeriveBackupKeyInjective | frontend/src/utils/google-drive-backup.js:147-171 | different credentials give different keys |
| DriveBackup.SnapshotFields | frontend/src/utils/google-drive-backup.js:184-192 | every snapshot entry is a listed key whose stored value is truthy, holding that value |
| DriveBackup.SnapshotLookup | frontend/src/utils/google-drive-backup.js:184-192 | the snapshot holds a chat exactly when its stored value is truthy, and then holds that value |
| DriveBackup.ContactsDefault | frontend/src/utils/google-drive-backup.js:195-200 | missing, empty or unparsable contacts become `[]` |
| DriveBackup.ContactsParsed | frontend/src/utils/google-drive-backup.js:197 | parsable contacts are kept as parsed |
| DriveBackup.SnapshotJson | frontend/src/utils/google-drive-backup.js:202-218 | the export fails exactly when the contacts parse to `null`, whose `length` throws |
| DriveBackup.ExportFields | frontend/src/utils/google-drive-backup.js:176-215 | the snapshot carries the user id, the truthy chats and the contacts |
| DriveBackup.SnapshotCount | frontend/src/utils/google-drive-backup.js:184-209 | the snapshot's entries hold, between them, exactly the messages of the store's array-valued chats |
| DriveBackup.MetadataFields | frontend/src/utils/google-drive-backup.js:208-212 | the metadata object reads back its message count, its contact count (absent when `undefined`) and `backupType: 'google_drive'` |
| DriveBackup.ExportCounts | frontend/src/utils/google-drive-backup.js:208-212 | `metadata.messageCount` is the number of messages in the store's array-valued chats; `contactCount` is `contacts.length`: the array's length, a string's UTF-16 length, absent for a number or boolean |
| DriveBackup.ExportBackupData | frontend/src/utils/google-drive-backup.js:176-220 | the text is the JSON of the snapshot of the store and the stored contacts |
| DriveBackup.EncryptBackup | frontend/src/utils/google-drive-backup.js:225-244 | draws a 12-byte IV and builds the version-2 envelope |
| DriveBackup.SealedBackupFields | frontend/src/utils/google-drive-backup.js:235-243 | the envelope says version 2, names the owner, and carries the IV in base64 |
| DriveBackup.DecryptBackup | frontend/src/utils/google-drive-backup.js:344-376 | the result is the envelope opened with the password and the user id |
| DriveBackup.VersionGate | frontend/src/utils/google-drive-backup.js:347-349 | any version other than 1 or 2 is refused before a key is derived |
| DriveBackup.OpenText | frontend/src/utils/google-drive-backup.js:345 | opening the JSON text of an envelope is opening the envelope |
| DriveBackup.OpenAccepted | frontend/src/utils/google-drive-backup.js:347-351 | versions 1 and 2 pass the gate and the key is derived from the password and the caller's user id |
| DriveBackup.OpenDecoded | frontend/src/utils/google-drive-backup.js:352-375 | with the IV and ciphertext decoded, the `try` block runs and its `OperationError` is remapped |
| DriveBackup.OpenEnvelope | frontend/src/utils/google-drive-backup.js:344-376 | an envelope of version 1 or 2 opens as the decryption under the caller's key, then the ownership check, then the remap |
| DriveBackup.OpenSealed | frontend/src/utils/google-drive-backup.js:344-376 | under a key other than the caller's, a sealed envelope reads as "Invalid password"; under the caller's key, the ownership check decides |
| DriveBackup.DecryptEncrypt | frontend/src/utils/google-drive-backup.js:225-376 | decrypting an encrypted snapshot with the same password and owner gives the snapshot back |
| DriveBackup.WrongCredentials | frontend/src/utils/google-drive-backup.js:351-373 | another password or another user id reads as "Invalid password" |
| DriveBackup.WrongOwner | frontend/src/utils/google-drive-backup.js:364-367 | a backup whose snapshot names another user fails with the ownership error |
| DriveBackup.RestoreLookup | frontend/src/utils/google-drive-backup.js:390-395 | after a restore, each chat holds the backup's last array for it, else its old value |
| DriveBackup.RestoreSetsArrays | frontend/src/utils/google-drive-backup.js:390-395 | the restore loop is the shared `setItem` loop run over the array-valued entries only |
| DriveBackup.RestoreValid | frontend/src/utils/google-drive-backup.js:390-395 | restoring keeps the store's keys and key order consistent |
| DriveBackup.RestoreUnchanged | frontend/src/utils/google-drive-backup.js:390-395 | restoring entries the store already holds changes nothing |
| DriveBackup.ContactCount | frontend/src/utils/google-drive-backup.js:405 | missing contacts count 0; a contacts array counts its length |
| DriveBackup.RestoreBackupData | frontend/src/utils/google-drive-backup.js:381-408 | writes every array chat, writes the contacts when they are an array, and reports the counts; `null` data throws and changes nothing |
| DriveBackup.RestoreExported | frontend/src/utils/google-drive-backup.js:176-408 | restoring an exported snapshot into the same store changes nothing |
| DriveBackup.BackupThenRestore | frontend/src/utils/google-drive-backup.js:176-408 | export, encrypt, decrypt and restore give back the snapshot and leave the store as it was |
| Backup.DeriveBackupKey | frontend/src/utils/backup.js:58-91 | PBKDF2 with salt `userId + "-backup-v1-securechat"`, 600000 rounds, AES-256 |
| Backup.ContactKey | frontend/src/utils/backup.js:104-105 | a contact's `id` is readable exactly when the contact is not `null` |
| Backup.ContactMessages | frontend/src/utils/backup.js:103-106 | collecting the contacts' chats succeeds exactly when no contact is `null` |
| Backup.ContactMessagesLookup | frontend/src/utils/backup.js:103-106 | the snapshot holds a chat exactly for the contacts' ids, with `getMessages` of it |
| Backup.SnapshotOf | frontend/src/utils/backup.js:96-133 | the export fails, as "Failed to export backup data", exactly when the contacts are not iterable, a contact is `null`, or the public key cannot be exported |
| Backup.ContactMessagesArrays | frontend/src/utils/backup.js:103-106 | when every stored chat is a list, every exported chat is a list |
| Backup.SnapshotFields | frontend/src/utils/backup.js:115-126 | the snapshot carries the user id, the messages, the contacts and the keys object |
| Backup.FirstOccurrences | frontend/src/utils/backup.js:104-106 | the contact ids without repeats keep exactly the ids of the list |
| Backup.ReplaceChats | frontend/src/utils/backup.js:105 | assigning a chat's own list again over its entry changes nothing |
| Backup.PutChats | frontend/src/utils/backup.js:104-105 | assigning the chat of a new id adds its entry at the end; a repeated id changes nothing |
| Backup.ContactMessagesChats | frontend/src/utils/backup.js:103-106 | `allMessages` holds one entry per distinct contact id, in order of first appearance, each holding `getMessages` of that id |
| Backup.ChatsCount | frontend/src/utils/backup.js:123 | the chats of a list of ids hold, between them, the messages of the store's lists under those ids |
| Backup.MetadataFields | frontend/src/utils/backup.js:122-125 | the metadata object reads back its message count and its contact count (absent when `undefined`) |
| Backup.ExportCounts | frontend/src/utils/backup.js:122-125 | `metadata.messageCount` is the number of messages in the chats of the distinct contact ids; `contactCount` is `contacts.length` |
| Backup.ExportWithoutContacts | frontend/src/utils/backup.js:100 | with no stored contacts the export succeeds |
| Backup.ExportedKeysFields | frontend/src/utils/backup.js:109-113 | the keys object has two properties, the public key text and `keyGenerated: true`, and no `privateKey` |
| Backup.ExportedKeysPublicOnly | frontend/src/utils/backup.js:109-113 | the exported keys hold only the public key, which imports back to the user's key, and `keyGenerated: true`; there is no private key |
| Backup.ExportedMessages | frontend/src/utils/backup.js:96-126 | the snapshot names the user, and its messages are those of the listed contacts |
| Backup.CollectMessages | frontend/src/utils/backup.js:103-106 | the loop gives the contacts' chats, or fails when a contact is `null` |
| Backup.ExportBackupData | frontend/src/utils/backup.js:96-133 | the text is the JSON of the snapshot |
| Backup.EncryptBackup | frontend/src/utils/backup.js:138-175 | draws a 12-byte IV and returns the JSON text of the version-1 envelope |
| Backup.DecryptBackup | frontend/src/utils/backup.js:260-301 | the result is the envelope opened with the password and the user id |
| Backup.VersionGate | frontend/src/utils/backup.js:265-267 | anything but version 1 is refused |
| Backup.OpenText | frontend/src/utils/backup.js:261-262 | opening the JSON text of an envelope is opening the envelope inside the `try`, so its errors are remapped |
| Backup.OpenAccepted | frontend/src/utils/backup.js:265-270 | version 1 passes the gate and the key is derived from the password and the caller's user id |
| Backup.OpenDecoded | frontend/src/utils/backup.js:272-292 | with the IV and ciphertext decoded, decryption, parsing and the ownership check run |
| Backup.OpenEnvelope | frontend/src/utils/backup.js:260-301 | a version-1 envelope opens as the decryption under the caller's key followed by the ownership check |
| Backup.OpenSealed | frontend/src/utils/backup.js:260-301 | under a key other than the caller's, a sealed envelope reads as "Invalid password"; under the caller's key, the ownership check decides |
| Backup.DecryptEncrypt | frontend/src/utils/backup.js:138-301 | decrypting an encrypted snapshot with the same credentials gives it back |
| Backup.WrongCredentials | frontend/src/utils/backup.js:270-298 | another password or user id reads as "Invalid password" |
| Backup.WrongOwner | frontend/src/utils/backup.js:289-292 | a snapshot naming another user fails with "Backup belongs to different user" |
| Backup.AppendAllAppends | frontend/src/utils/backup.js:310-312 | importing a chat appends its messages, in order, to what is stored |
| Backup.AppendAllOthers | frontend/src/utils/backup.js:310-312 | importing one chat leaves the others alone |
| Backup.ImportKeepsExisting | frontend/src/utils/backup.js:309-313 | an import never loses a stored message of a list chat |
| Backup.AppendStops | frontend/src/utils/backup.js:310-312 | once a save of one chat's messages fails, later messages change nothing |
| Backup.ImportStops | frontend/src/utils/backup.js:309-313 | after the first failing save the import stops |
| Backup.Report | frontend/src/utils/backup.js:318-323 | the report copies the metadata's counts; missing metadata throws |
| Backup.SaveAll | frontend/src/utils/backup.js:310-312 | the loop saves each message in turn and stops at the first failure |
| Backup.ImportBackupData | frontend/src/utils/backup.js:306-328 | the store, the stored contacts and the result follow the import specification: a missing `messages` property, a failed save or missing metadata ends in "Failed to import backup data", with the saves already made kept |
| SimpleBackup.DeriveBackupKey | frontend/src/utils/backup-simple.js:79-103 | PBKDF2 with salt `userId + "-backup-securechat-v1"`, 600000 rounds, AES-256 |
| SimpleBackup.AllMessagesFields | frontend/src/utils/backup-simple.js:116-121 | one entry per stored key, in key order, holding the stored value |
| SimpleBackup.AllMessagesLookup | frontend/src/utils/backup-simple.js:115-121 | the snapshot holds every stored chat with its stored value |
| SimpleBackup.ExportFields | frontend/src/utils/backup-simple.js:123-129 | the snapshot names the user and carries all chats |
| SimpleBackup.AllMessagesCount | frontend/src/utils/backup-simple.js:116-128 | the exported entries hold, between them, the messages of the store's lists, `null` chats adding 0 |
| SimpleBackup.ExportCount | frontend/src/utils/backup-simple.js:128 | the snapshot's `messageCount` is the number of messages in the store's lists, a `null` chat counting 0 |
| SimpleBackup.ExportBackupData | frontend/src/utils/backup-simple.js:108-132 | the text is the JSON of the snapshot |
| SimpleBackup.EncryptBackup | frontend/src/utils/backup-simple.js:137-156 | draws a 12-byte IV and builds the version-1 envelope |
| SimpleBackup.SealedBackupFields | frontend/src/utils/backup-simple.js:147-155 | the envelope says version 1, names the owner, carries the IV |
| SimpleBackup.TryOpen | frontend/src/utils/backup-simple.js:247-263 | every failure inside the `try` becomes "Invalid password" |
| SimpleBackup.DecryptBackup | frontend/src/utils/backup-simple.js:236-264 | the result is the envelope opened with the password and the user id |
| SimpleBackup.VersionGate | frontend/src/utils/backup-simple.js:239-241 | anything but version 1 is refused |
| SimpleBackup.OpenText | frontend/src/utils/backup-simple.js:237 | opening the JSON text of an envelope is opening the envelope |
| SimpleBackup.OpenDecoded | frontend/src/utils/backup-simple.js:243-263 | past the gate, the key is derived from the caller's credentials and the `try` block decides |
| SimpleBackup.OpenEnvelope | frontend/src/utils/backup-simple.js:236-264 | a version-1 envelope opens as the `try` block under the caller's key |
| SimpleBackup.OpenSealed | frontend/src/utils/backup-simple.js:236-264 | a sealed envelope opens only under the caller's key and when its plaintext passes the ownership check; every other case is "Invalid password" |
| SimpleBackup.DecryptEncrypt | frontend/src/utils/backup-simple.js:137-264 | decrypting an encrypted snapshot with the same credentials gives it back |
| SimpleBackup.WrongCredentials | frontend/src/utils/backup-simple.js:243-262 | another password or user id reads as "Invalid password" |
| SimpleBackup.WrongOwner | frontend/src/utils/backup-simple.js:256-262 | the ownership error is replaced by "Invalid password" |
| SimpleBackup.RestoreLookup | frontend/src/utils/backup-simple.js:275-277 | after a restore, each chat holds the backup's value for it, else its old value |
| BackupEnvelope.SetAllValid | frontend/src/utils/backup-simple.js:275-277 | the restore loop's `setItem` calls keep the store's keys and key order consistent (shared with google-drive-backup.js) |
| BackupEnvelope.SetAllUnchanged | frontend/src/utils/backup-simple.js:275-277 | `setItem` calls that repeat what the store holds change nothing, key order included (shared with google-drive-backup.js) |
| SimpleBackup.RestoreEntries | frontend/src/utils/backup-simple.js:275 | `null` data throws; otherwise the entries of `backupData.messages`, which throw when it is `null` or missing |
| SimpleBackup.RestoreBackupData | frontend/src/utils/backup-simple.js:269-284 | writes every chat of the backup and reports its `messageCount`; on a throw nothing changes |
| SimpleBackup.RestoreExported | frontend/src/utils/backup-simple.js:108-284 | restoring an exported snapshot into the same store changes nothing |
| SimpleBackup.BackupThenRestore | frontend/src/utils/backup-simple.js:108-284 | export, encrypt, decrypt and restore give back the snapshot and the store |
| BackupVariants.KeysApart | frontend/src/utils/backup.js:62 | the three managers derive three different keys from the same credentials |
| BackupVariants.DriveRejectsVersionOne | frontend/src/utils/google-drive-backup.js:347-373 | the Drive manager accepts version 1, yet a version-1 backup from either other manager reads there as "Invalid password" |
| BackupVariants.DriveVersion | frontend/src/utils/google-drive-backup.js:235-243 | a Drive backup is a version-2 envelope |
| BackupVariants.OthersRejectVersionTwo | frontend/src/utils/backup.js:265-267 | a Drive backup is refused by the other two as an unsupported version |
| BackupVariants.VersionOneApart | frontend/src/utils/backup-simple.js:239-262 | `backup.js` and `backup-simple.js` cannot open each other's version-1 backups |
| Dashboard.ChatIdOf | frontend/src/components/Dashboard/Dashboard.js:84 | the chat id is readable exactly when the message is not `null` |
| Dashboard.ConversationOneChat | frontend/src/components/Dashboard/Dashboard.js:84 | the user's messages to a peer and the peer's to the user file under the same chat, the peer |
| Dashboard.WithText | frontend/src/components/Dashboard/Dashboard.js:102-105 | the spread copy carries `decryptedText` |
| Dashboard.WithTextKeeps | frontend/src/components/Dashboard/Dashboard.js:102-105 | the copy keeps every other property of the message |
| Dashboard.Appended | frontend/src/components/Dashboard/Dashboard.js:107-110 | the chat's list gains the message at the end, and other chats are unchanged |
| Dashboard.IncomingKey | frontend/src/components/Dashboard/Dashboard.js:87-94 | a cached key is used as is |
| Dashboard.ReceivedNull | frontend/src/components/Dashboard/Dashboard.js:84-116 | a `null` message throws before any change |
| Dashboard.ReceivedShown | frontend/src/components/Dashboard/Dashboard.js:82-117 | a received message is shown last in its chat, decrypted with the chat's key, which is cached; it is also saved in the store; other chats are untouched |
| Dashboard.ReceivedKeyReused | frontend/src/components/Dashboard/Dashboard.js:87-94 | the next message in the chat uses the cached key |
| Dashboard.AliceReadsBob | frontend/src/components/Dashboard/Dashboard.js:82-100 | a message Bob sealed for Alice, carrying Bob's public key, decrypts on Alice's side to Bob's text |
| Dashboard.Dashboard.constructor | frontend/src/components/Dashboard/Dashboard.js:21-24 | the dashboard starts with no contacts, no active chat, no messages and no keys |
| Dashboard.Dashboard.NewMessage | frontend/src/components/Dashboard/Dashboard.js:82-117 | the new state is the received-message specification applied to the old state |
| Dashboard.Dashboard.Deliver | frontend/src/components/Dashboard/Dashboard.js:107-113 | the message is shown, then saved; a failed save is reported and leaves the store as it was |
| Dashboard.Dashboard.CachedKey | frontend/src/components/Dashboard/Dashboard.js:87-94 | the key is the cached or derived one, and a derived key is cached |
| Dashboard.FindContact | frontend/src/components/Dashboard/Dashboard.js:153 | `find` returns the first contact with the id; `undefined` when none has it; a `null` contact before any match throws |
| Dashboard.DecryptAll | frontend/src/components/Dashboard/Dashboard.js:159-172 | one shown message per server message, in order |
| Dashboard.DecryptAllShown | frontend/src/components/Dashboard/Dashboard.js:159-172 | each message is shown with its decrypted text and its other properties; a `null` one is shown as `[Decryption failed]` only |
| Dashboard.OpenBodyOf | frontend/src/components/Dashboard/Dashboard.js:162-166 | the text is `decryptMessage` of the message's content and IV |
| Dashboard.DecryptOne | frontend/src/components/Dashboard/Dashboard.js:160-170 | one message decrypted, or marked failed |
| Dashboard.DecryptServerMessages | frontend/src/components/Dashboard/Dashboard.js:159-172 | the loop decrypts every server message in order |
| Dashboard.LoadedOnlyThisChat | frontend/src/components/Dashboard/Dashboard.js:136-178 | loading a conversation changes no other chat |
| Dashboard.LoadedFromServer | frontend/src/components/Dashboard/Dashboard.js:150-174 | after a successful fetch the chat shows the decrypted server messages, whatever was stored |
| Dashboard.LoadedFromStore | frontend/src/components/Dashboard/Dashboard.js:139-143 | when the fetch or the key fails, a non-empty stored list is shown; otherwise nothing changes |
| Dashboard.Dashboard.AgreeKey | frontend/src/components/Dashboard/Dashboard.js:153-155 | the key is agreed with the contact's public key, or throws |
| Dashboard.Dashboard.LoadMessages | frontend/src/components/Dashboard/Dashboard.js:136-178 | the chats are the load specification of the old chats; the key is cached exactly when fetching and agreeing both succeed |
| Dashboard.Outgoing | frontend/src/components/Dashboard/Dashboard.js:197-207 | the request body can be built exactly with an AES key, an IV and the user's own public key |
| Dashboard.Compose | frontend/src/components/Dashboard/Dashboard.js:197-207 | draws the 12-byte IV and builds the request body |
| Dashboard.SendRequestFields | frontend/src/components/Dashboard/Dashboard.js:202-207 | the body carries the receiver, the ciphertext, the IV and the sender's public key |
| Dashboard.OutgoingOpens | frontend/src/components/Dashboard/Dashboard.js:197-207 | the receiver decrypts the body with the shared key to the text sent |
| Dashboard.OutgoingAddressed | frontend/src/components/Dashboard/Dashboard.js:202-207 | the body is addressed to the active chat and carries the user's exported public key |
| Dashboard.Delivered | frontend/src/components/Dashboard/Dashboard.js:197-228 | past the key check, a send either succeeds with the built request or fails with nothing changed when building or posting throws |
| Dashboard.PostedIgnored | frontend/src/components/Dashboard/Dashboard.js:188 | a send is ignored exactly when there is no active chat or the text is all white space, and then nothing changes |
| Dashboard.PostedNoKey | frontend/src/components/Dashboard/Dashboard.js:191-195 | without a key for the chat, the send stops and no message is shown |
| Dashboard.PostedSent | frontend/src/components/Dashboard/Dashboard.js:187-211 | a posted message had an active chat, real text and a key, and it decrypts to the text |
| Dashboard.DeliveredSent | frontend/src/components/Dashboard/Dashboard.js:213-224 | after a post, the server's record with the text is shown and saved; other chats and keys are unchanged |
| Dashboard.PostedShownThoughUnsaved | frontend/src/components/Dashboard/Dashboard.js:218-227 | when saving throws, the message is already shown, yet the send is reported as failed |
| Dashboard.Dashboard.SendMessage | frontend/src/components/Dashboard/Dashboard.js:187-229 | the result and new state are the send specification; IV bytes are drawn only when encryption is attempted |
| ChatWindow.Composer.constructor | frontend/src/components/Dashboard/ChatWindow.js:10 | the composer starts empty |
| ChatWindow.Composer.Type | frontend/src/components/Dashboard/ChatWindow.js:121-122 | typing replaces the text |
| ChatWindow.Composer.HandleSend | frontend/src/components/Dashboard/ChatWindow.js:19-25 | text that is not all white space is handed on exactly as typed and the input is cleared; otherwise nothing changes |
| ChatWindow.HandedOnNotIgnored | frontend/src/components/Dashboard/ChatWindow.js:21-22 | whatever the composer hands on, the dashboard does not ignore as blank |
| ChatWindow.FirstsSplit | frontend/src/components/Dashboard/ChatWindow.js:28 | the first characters of the space-separated pieces are the characters that start a word |
| ChatWindow.Initials | frontend/src/components/Dashboard/ChatWindow.js:27-29 | `??` for a missing name or one without a word, otherwise the word starts upper-cased; never empty |
| ChatWindow.IgnoresSpaces | frontend/src/components/Dashboard/ChatWindow.js:28 | leading and trailing spaces add no initial, and a name of spaces has none |
| ChatWindow.WordStarts | frontend/src/components/Dashboard/ChatWindow.js:28 | the initials are no longer than the name and contain no space |
| ChatWindow.IsSent | frontend/src/components/Dashboard/ChatWindow.js:75 | reading the side throws exactly for a `null` message or user |
| ChatWindow.SideKept | frontend/src/components/Dashboard/ChatWindow.js:75 | a shown message is on the user's side exactly when its `sender_id` is the user's id |
| ChatWindow.SideMatchesChat | frontend/src/components/Dashboard/Dashboard.js:84 | a message on the user's side is filed under its receiver, any other under its sender |
| ChatWindow.TicksOf | frontend/src/components/Dashboard/ChatWindow.js:96-105 | read gives two solid ticks, else delivered gives two faded ticks, else one tick |
| ChatWindow.FreshMessageOneTick | frontend/src/components/Dashboard/ChatWindow.js:96-105 | a message just sent, without either flag, shows one tick |
| Words.JoinSplit | frontend/src/components/Dashboard/AuditLogs.js:46-48 | joining the pieces of a split with the separator gives the text back |
| Words.UpperAll | frontend/src/components/Dashboard/ChatWindow.js:28 | upper-casing keeps the length and maps each character |
| AuditLogs.EventIcon | frontend/src/components/Dashboard/AuditLogs.js:34-43 | `screenshot_attempt` gets the alert icon, `login` the primary eye, and everything else the muted eye |
| AuditLogs.FormatEventType | frontend/src/components/Dashboard/AuditLogs.js:45-49 | a string event type gives the character-wise title; `null` or `undefined` throws, and so does any value without `split` |
| AuditLogs.Title | frontend/src/components/Dashboard/AuditLogs.js:45-49 | same length; each `_` becomes a space; a character after `_` or at the start is upper-cased; the others are kept |
| AuditLogs.TitleOfWords | frontend/src/components/Dashboard/AuditLogs.js:46-48 | split on `_`, capitalize, join with spaces is the character-wise title |
| AuditLogs.SplitTitle | frontend/src/components/Dashboard/AuditLogs.js:46-48 | for an event type without spaces, the label splits on spaces into the capitalized words, as many as there were |
| AuditLogs.Capitalize | frontend/src/components/Dashboard/AuditLogs.js:47 | the first character is upper-cased and the rest are kept; the empty word stays empty |
| AuditLogs.TwoWordLabel | frontend/src/components/Dashboard/AuditLogs.js:45-49 | two words joined by `_` read as the two words capitalized with a space between them |
| AuditLogs.TitleAtUnderscore | frontend/src/components/Dashboard/AuditLogs.js:46-48 | the label of `a_b` is the label of `a`, a space, and the label of `b` as a fresh word |
| AuditLogs.TitleOfWord | frontend/src/components/Dashboard/AuditLogs.js:47 | a word without `_` is labelled by capitalizing it |
| AuditLogs.ScreenshotLabel | frontend/src/components/Dashboard/AuditLogs.js:34-49 | `screenshot_attempt` reads "Screenshot Attempt" with the alert icon |
| AuditLogs.DeviceInfo | frontend/src/components/Dashboard/AuditLogs.js:84-90 | falsy info gives `{}`; info that does not parse gives `{ raw: info }` |
| AuditLogs.DeviceInfoStored | frontend/src/components/Dashboard/AuditLogs.js:87 | info stored as JSON text reads back as the value written |
| AuditLogs.ChatIdLabel | frontend/src/components/Dashboard/AuditLogs.js:109 | a string id shows as its first eight characters (or fewer) then `...`; a falsy id shows nothing; another truthy value throws |
| AuditLogs.Shown | frontend/src/components/Dashboard/AuditLogs.js:110-111 | a value is shown exactly when it is truthy |
| AuditLogs.LineOf | frontend/src/components/Dashboard/AuditLogs.js:102-111 | a line renders exactly for a string event type, a chat id that is a string or falsy, and device info that is not `null`; it carries the event's icon and title |
| AuditLogs.LogLine | frontend/src/components/Dashboard/AuditLogs.js:82-117 | an entry renders as the line of its event type, chat id and parsed device info; a `null` entry throws |
| AuditLogs.StoredEntryRenders | frontend/src/components/Dashboard/AuditLogs.js:82-117 | an entry as the server stores it renders and shows its device's truthy `method` and `platform` |
| AuditLogs.NullDeviceInfoThrows | frontend/src/components/Dashboard/AuditLogs.js:87-110 | device info `"null"` parses to `null`, so reading its `method` throws |
| Register.PasswordError | frontend/src/components/Auth/Register.js:20-28 | no complaint exactly when the passwords match and have at least 8 UTF-16 units; a mismatch is reported first |
| Register.RegistersOnlyValid | frontend/src/components/Auth/Register.js:20-32 | `register` is called, with what was typed, exactly when both checks pass; otherwise no call is made |
| Register.MismatchFirst | frontend/src/components/Auth/Register.js:20-23 | a mismatch shows its error whatever the length, and nothing else changes |
| Register.EightIsEnough | frontend/src/components/Auth/Register.js:25-28 | a matching password of 8 units is sent; one of 7 is not |
| Register.LoadingAfterSubmit | frontend/src/components/Auth/Register.js:30-44 | after a call the form stays busy unless registration failed; a refused submit leaves the flag alone |
| Register.CallsValid | frontend/src/components/Auth/Register.js:20-32 | every `register` call carries a password of at least 8 units |
| Register.RegisterForm.constructor | frontend/src/components/Auth/Register.js:10-14 | the form starts empty and idle |
| Register.RegisterForm.Fill | frontend/src/components/Auth/Register.js:66-114 | the inputs' `onChange` handlers set the four fields |
| Register.RegisterForm.HandleSubmit | frontend/src/components/Auth/Register.js:17-45 | the new form state is the submit specification of the old one |

## Left out

- Network and React plumbing are not modelled: the socket, axios, toasts'
  rendering, the Google OAuth and Drive upload/download/list/delete calls, and
  the re-rendering of components. Server responses and `register`'s result
  are parameters. `AuthContext` is not part of this model.
- Asynchrony and interleaving: each async handler runs to completion in one
  step. Two handlers racing on the same state (two `new_message` events, or a
  message arriving during `loadMessages`) is not modelled.
- Dashboard.Dashboard.NewMessage: the socket handler reads the `sharedKeys`
  captured when the listener was registered. The model reads the current
  `sharedKeys`, so it does not capture the stale closure that makes the cache
  miss in the running app.
- Dashboard.Dashboard.LoadMessages: a stored value that is truthy but not an
  array (a string, say) is compared by `.length` in the source. The model shows
  only non-empty arrays.
- Dashboard: `sharedKeys[chatId]` on a plain object would also find inherited
  keys such as `constructor`. The model looks keys up in a map.
- Dashboard: the active chat is an optional JSON value. `handleSelectContact`
  and the sidebar that set it are not modelled.
- Numbers are integers. JSON fractions and exponents are not parsed, so inputs
  using them read as syntax errors (white space between tokens is accepted).
  A `\uXXXX` escape of a surrogate code unit is also rejected as a syntax
  error, even a valid pair such as `\ud83d\ude00`, which `JSON.parse` decodes
  to one character. `Stringify` writes `\u` escapes only for control
  characters, so the round trip does not meet these inputs.
- Object properties keep insertion order. A duplicate key keeps its last value
  on lookup, but `Object.entries` of such an object would list it once in
  JavaScript and twice here. Numeric keys are not moved first.
- localforage key order: `keys()` is modelled in insertion order. The browser's
  IndexedDB returns keys sorted; only the export order of the snapshot depends
  on it.
- Backup.ExportBackupData and SimpleBackup.ExportBackupData: require that every
  stored chat is a list (or `null`), which is what the client itself stores.
  Other stored values are not modelled.
- Web Crypto is symbolic. ECDH, AES-GCM and PBKDF2 are not computed. Keys
  record their derivation, and a ciphertext records key, IV and plaintext.
  Security properties (secrecy, forgery) are out of scope. The elliptic-curve
  point is taken equal to the private scalar.
- Time: `Date.now()`, `new Date().toISOString()`, `toLocaleTimeString` and
  `formatDistanceToNow` are not modelled. Timestamps are parameters, and the
  audit line's relative time and clock time are not part of `AuditLogs.Line`.
- Words.Upper and AuditLogs.Capitalize: only ASCII letters are upper-cased. The
  full Unicode mapping of `toUpperCase` is not modelled, such as `ß` becoming
  `SS`.
- ChatWindow.Initials, AuditLogs.ChatIdLabel, Words.Split and Js.Entries work
  on Unicode scalar values. JavaScript indexes UTF-16 code units, so a character
  outside the Basic Multilingual Plane would be split in half there; for
  `Js.Entries` this matters when a backup's `messages` is a string, which the
  imports of `Backup.ImportEffect` and `DriveBackup.RestoreEntries` then read
  one entry per scalar rather than per code unit. (`for…of`, modelled by
  `Js.Iterate`, does visit code points.) `Register` does
  count UTF-16 units.
- ChatWindow.Initials takes a string or nothing. A `username` that is another
  JSON value, which would make `split` throw, is not modelled.
- The screenshot detectors, the sidebar, user search, settings and login screens
  are not part of this model.

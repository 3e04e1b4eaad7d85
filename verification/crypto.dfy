/**
 * `CryptoManager` of the chat client: an ECDH P-384 key pair kept in a field,
 * shared AES-GCM keys agreed with a peer's public key, and message encryption
 * whose ciphertext and IV travel as base64 text.
 *
 * The two buffer/base64 helpers are the loops the client writes around
 * `btoa`/`atob`; the backup managers carry verbatim copies of them, and this
 * module is where all of those copies are modelled.
 */
module Crypto {
  import opened Js
  import Base64
  import TextCodec
  import opened WebCrypto

  /** What `decryptMessage` returns in place of a text it could not decrypt. */
  const DecryptionFailed := "[Decryption failed]"

  /** Bytes of the IV drawn for every message. */
  const MessageIvBytes := 12

  /** Bytes drawn for a nonce. */
  const NonceBytes := 16

  datatype EncryptedMessage = EncryptedMessage(encrypted: string, iv: string)

  /**
   * `arrayBufferToBase64(buffer)`: each byte becomes the character with that code,
   * and the resulting binary string goes through `btoa`.
   */
  method ArrayBufferToBase64(buffer: seq<Byte>) returns (r: string)
    ensures r == Base64.Encode(buffer)
  {
    var binary := "";
    var i := 0;
    while i < |buffer|
      invariant 0 <= i <= |buffer|
      invariant |binary| == i
      invariant forall j :: 0 <= j < i ==> binary[j] as int == buffer[j]
    {
      binary := binary + [buffer[i] as char];
      i := i + 1;
    }
    var encoded := Base64.Btoa(binary);
    assert Base64.BinaryBytes(binary) == buffer;
    r := encoded.value;
  }

  /**
   * `base64ToArrayBuffer(base64)`: `atob`, then a `Uint8Array` of the same length
   * filled with the character codes. `atob` throws on text that is not base64.
   */
  method Base64ToArrayBuffer(base64: string) returns (r: Result<seq<Byte>>)
    ensures r == Base64.Decode(base64)
  {
    var decoded := Base64.Atob(base64);
    if decoded.Err? {
      return Err(decoded.error);
    }
    var binary := decoded.value;
    ghost var expected := Base64.Decode(base64).value;
    // `binary.length` counts UTF-16 code units; every character is below U+0100, so it is |binary|.
    var bytes := new Byte[|binary|];
    var i := 0;
    while i < |binary|
      invariant 0 <= i <= |binary| == |expected|
      invariant forall j :: 0 <= j < i ==> bytes[j] == expected[j]
    {
      bytes[i] := binary[i] as int;
      i := i + 1;
    }
    assert bytes[..] == expected;
    r := Ok(bytes[..]);
  }

  /** The text `exportPublicKey` produces for `key`: base64 of its SubjectPublicKeyInfo. */
  function PublicKeyText(key: CryptoKey): (r: Result<string>)
    ensures r.Ok? <==> key.EcdhPublicKey?
  {
    match ExportSpki(key)
    case Ok(spki) => Ok(Base64.Encode(spki))
    case Err(e) => Err(e)
  }

  /** The key `importPublicKey` makes of `text`. */
  function PublicKeyOf(text: string): Result<CryptoKey> {
    match Base64.Decode(text)
    case Ok(spki) => ImportSpki(spki)
    case Err(e) => Err(e)
  }

  /** A public key survives export and import. */
  lemma PublicKeyRoundTrip(point: nat)
    ensures PublicKeyText(EcdhPublicKey(point)).Ok?
    ensures PublicKeyOf(PublicKeyText(EcdhPublicKey(point)).value) == Ok(EcdhPublicKey(point))
  {
    Base64.DecodeEncode(SpkiBytes(point));
    ImportExportSpki(point);
  }

  /** The ciphertext and IV `encryptMessage` returns for `message` under `key`, given the IV it drew. */
  function SealMessage(message: string, key: CryptoKey, iv: seq<Byte>): (r: Result<EncryptedMessage>)
    ensures r.Ok? <==> key.AesGcmKey? && |iv| > 0
  {
    match Encrypt(key, iv, TextCodec.Encode(message))
    case Ok(c) => Ok(EncryptedMessage(Base64.Encode(c), Base64.Encode(iv)))
    case Err(e) => Err(e)
  }

  /** What `decryptMessage` returns: the text, or the sentinel when any step throws. */
  function OpenMessage(encryptedData: string, iv: string, key: CryptoKey): string {
    match (Base64.Decode(encryptedData), Base64.Decode(iv))
    case (Ok(c), Ok(ivBytes)) =>
      (match Decrypt(key, ivBytes, c)
       case Ok(p) => TextCodec.Decode(p)
       case Err(_) => DecryptionFailed)
    case _ => DecryptionFailed
  }

  /**
   * A message opens to itself under the key it was sealed with, and to the sentinel
   * under any other AES key. A text starting with U+FEFF is excepted: the decoder
   * drops a leading byte order mark.
   */
  lemma MessageRoundTrip(message: string, key: CryptoKey, iv: seq<Byte>, key2: CryptoKey)
    requires key.AesGcmKey? && key2.AesGcmKey? && |iv| > 0
    requires |message| == 0 || message[0] != TextCodec.ByteOrderMark
    ensures SealMessage(message, key, iv).Ok?
    ensures var e := SealMessage(message, key, iv).value;
      OpenMessage(e.encrypted, e.iv, key2) == if key2 == key then message else DecryptionFailed
  {
    var data := TextCodec.Encode(message);
    var c := Encrypt(key, iv, data).value;
    Base64.DecodeEncode(c);
    Base64.DecodeEncode(iv);
    DecryptEncrypt(key, iv, data, key2, iv);
    TextCodec.DecodeEncode(message);
  }

  /** Text that is not base64 never reaches decryption: the result is the sentinel. */
  lemma OpenMessageRejectsBase64(encryptedData: string, iv: string, key: CryptoKey)
    requires Base64.Decode(encryptedData).Err? || Base64.Decode(iv).Err?
    ensures OpenMessage(encryptedData, iv, key) == DecryptionFailed
  {
  }

  /** A key pair as ECDH generation makes it: the public point belongs to the private scalar. */
  predicate WellFormedPair(kp: KeyPair) {
    kp.publicKey.EcdhPublicKey? && kp.privateKey.EcdhPrivateKey? && kp.publicKey.point == kp.privateKey.scalar
  }

  class CryptoManager {
    /** `this.keyPair`: `null` until `generateKeyPair` has run. */
    var keyPair: Option<KeyPair>

    constructor ()
      ensures keyPair == None
    {
      keyPair := None;
    }

    /** `generateKeyPair()`: draws a fresh P-384 pair and replaces the stored one. */
    method GenerateKeyPair(rng: RandomSource) returns (kp: KeyPair)
      modifies this, rng
      ensures kp == KeyPairOf(BigEndian(Window(rng.tape, old(rng.drawn), P384ScalarBytes)))
      ensures WellFormedPair(kp)
      ensures keyPair == Some(kp)
      ensures rng.drawn == old(rng.drawn) + P384ScalarBytes
    {
      kp := GenerateEcdhKeyPair(rng);
      keyPair := Some(kp);
    }

    /**
     * `exportPublicKey(publicKey)`: the given key, or else the manager's own public
     * key, which must exist (`this.keyPair.publicKey` throws on `null`).
     */
    method ExportPublicKey(publicKey: Option<CryptoKey>) returns (r: Result<string>)
      ensures publicKey.Some? ==> r == PublicKeyText(publicKey.value)
      ensures publicKey.None? && keyPair.None? ==> r == Err(NullAccess)
      ensures publicKey.None? && keyPair.Some? ==> r == PublicKeyText(keyPair.value.publicKey)
    {
      var key: CryptoKey;
      if publicKey.Some? {
        key := publicKey.value;
      } else if keyPair.None? {
        return Err(NullAccess);
      } else {
        key := keyPair.value.publicKey;
      }
      var spki := ExportSpki(key);
      if spki.Err? {
        return Err(spki.error);
      }
      var text := ArrayBufferToBase64(spki.value);
      r := Ok(text);
    }

    /** `importPublicKey(base64Key)`. */
    method ImportPublicKey(base64Key: string) returns (r: Result<CryptoKey>)
      ensures r == PublicKeyOf(base64Key)
      ensures r.Ok? ==> r.value.EcdhPublicKey?
    {
      var keyData := Base64ToArrayBuffer(base64Key);
      if keyData.Err? {
        return Err(keyData.error);
      }
      r := ImportSpki(keyData.value);
    }

    /** `deriveSharedSecret(theirPublicKey)`: a 256-bit AES-GCM key from the stored private key, which must exist. */
    function DeriveSharedSecret(theirPublicKey: CryptoKey): (r: Result<CryptoKey>)
      reads this
      ensures keyPair.None? ==> r == Err(NullAccess)
      ensures keyPair.Some? ==> r == DeriveEcdh(theirPublicKey, keyPair.value.privateKey, 256)
    {
      if keyPair.None? then Err(NullAccess) else DeriveEcdh(theirPublicKey, keyPair.value.privateKey, 256)
    }

    /** `encryptMessage(message, sharedKey)`: a fresh 12-byte IV for every call. */
    method EncryptMessage(message: string, sharedKey: CryptoKey, rng: RandomSource) returns (r: Result<EncryptedMessage>)
      modifies rng
      ensures rng.drawn == old(rng.drawn) + MessageIvBytes
      ensures r == SealMessage(message, sharedKey, Window(rng.tape, old(rng.drawn), MessageIvBytes))
    {
      var iv := rng.GetRandomValues(MessageIvBytes);
      var encodedMessage := TextCodec.Encode(message);
      var encryptedContent := Encrypt(sharedKey, iv, encodedMessage);
      if encryptedContent.Err? {
        return Err(encryptedContent.error);
      }
      var encrypted := ArrayBufferToBase64(encryptedContent.value);
      var ivText := ArrayBufferToBase64(iv);
      r := Ok(EncryptedMessage(encrypted, ivText));
    }

    /** `decryptMessage(encryptedData, iv, sharedKey)`: never throws. */
    method DecryptMessage(encryptedData: string, iv: string, sharedKey: CryptoKey) returns (r: string)
      ensures r == OpenMessage(encryptedData, iv, sharedKey)
    {
      var encryptedBuffer := Base64ToArrayBuffer(encryptedData);
      if encryptedBuffer.Err? {
        return DecryptionFailed;
      }
      var ivBuffer := Base64ToArrayBuffer(iv);
      if ivBuffer.Err? {
        return DecryptionFailed;
      }
      var decryptedContent := Decrypt(sharedKey, ivBuffer.value, encryptedBuffer.value);
      if decryptedContent.Err? {
        return DecryptionFailed;
      }
      r := TextCodec.Decode(decryptedContent.value);
    }

    /** `generateNonce()`: base64 of 16 freshly drawn bytes, 24 characters long. */
    method GenerateNonce(rng: RandomSource) returns (r: string)
      modifies rng
      ensures rng.drawn == old(rng.drawn) + NonceBytes
      ensures r == Base64.Encode(Window(rng.tape, old(rng.drawn), NonceBytes))
      ensures |r| == 24
    {
      var bytes := rng.GetRandomValues(NonceBytes);
      r := ArrayBufferToBase64(bytes);
      Base64.EncodeLength(bytes);
    }
  }

  /** Two managers holding generated pairs agree on the key between them. */
  lemma SharedSecretAgrees(alice: CryptoManager, bob: CryptoManager)
    requires alice.keyPair.Some? && WellFormedPair(alice.keyPair.value)
    requires bob.keyPair.Some? && WellFormedPair(bob.keyPair.value)
    ensures alice.DeriveSharedSecret(bob.keyPair.value.publicKey).Ok?
    ensures alice.DeriveSharedSecret(bob.keyPair.value.publicKey) == bob.DeriveSharedSecret(alice.keyPair.value.publicKey)
  {
    EcdhAgreement(alice.keyPair.value.privateKey.scalar, bob.keyPair.value.privateKey.scalar, 0);
  }

  /** Without a stored pair, no shared secret can be derived. */
  lemma SharedSecretNeedsKeyPair(m: CryptoManager, theirs: CryptoKey)
    requires m.keyPair.None?
    ensures m.DeriveSharedSecret(theirs).Err?
  {
  }
}

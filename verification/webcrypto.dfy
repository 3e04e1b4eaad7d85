/**
 * The parts of the Web Cryptography API the chat client calls: `getRandomValues`,
 * `importKey`/`exportKey`, `generateKey` and `deriveKey` for ECDH on P-384 and for
 * PBKDF2, and `encrypt`/`decrypt` with AES-GCM.
 *
 * The primitives are symbolic. A key remembers how it was made (the password,
 * salt, iteration count and hash of PBKDF2; the two scalars of an ECDH
 * agreement), and an AES-GCM ciphertext is a header naming the key and the IV
 * followed by the plaintext. Decryption reads the header back and fails with an
 * OperationError unless it names the very key and IV it is given, which is the
 * behaviour of an authentication-tag check. Nothing here is secret or hard to
 * invert; the model only pins down which key opens which ciphertext.
 */
module WebCrypto {
  import opened Js

  const OperationError := JsError("OperationError", "The operation failed for an operation-specific reason")
  const InvalidAccessError := JsError("InvalidAccessError", "The requested operation is not valid for the provided key")
  const DataError := JsError("DataError", "Data provided to an operation does not meet requirements")

  datatype HashAlg = Sha1 | Sha256 | Sha384 | Sha512

  /** What an AES key was derived from. The ECDH scalars are kept in order, so both sides of an agreement hold the same secret. */
  datatype Secret =
    | Pbkdf2Secret(password: seq<Byte>, salt: seq<Byte>, iterations: nat, hash: HashAlg)
    | EcdhSecret(low: nat, high: nat)

  datatype CryptoKey =
    | Pbkdf2Material(raw: seq<Byte>)          // importKey('raw', password, 'PBKDF2')
    | AesGcmKey(secret: Secret, length: nat)  // an AES-GCM key of `length` bits
    | EcdhPublicKey(point: nat)               // the public point of scalar `point` on P-384
    | EcdhPrivateKey(scalar: nat)

  datatype KeyPair = KeyPair(publicKey: CryptoKey, privateKey: CryptoKey)

  /** Number of random bytes a P-384 private scalar is drawn from. */
  const P384ScalarBytes := 48

  // ---------------------------------------------------------------------------
  // Randomness

  /** The bytes at positions `from` .. `from + n - 1` of a random tape. */
  function Window(tape: nat -> Byte, from: nat, n: nat): (r: seq<Byte>)
    ensures |r| == n && forall i :: 0 <= i < n ==> r[i] == tape(from + i)
  {
    seq(n, i requires 0 <= i < n => tape(from + i))
  }

  /**
   * `window.crypto.getRandomValues`: the source reads a fixed tape front to back,
   * so every call receives bytes no earlier call has seen.
   */
  class RandomSource {
    const tape: nat -> Byte
    var drawn: nat

    constructor (tape: nat -> Byte)
      ensures this.tape == tape && drawn == 0
    {
      this.tape := tape;
      drawn := 0;
    }

    method GetRandomValues(n: nat) returns (r: seq<Byte>)
      modifies this
      ensures r == Window(tape, old(drawn), n)
      ensures drawn == old(drawn) + n
    {
      r := Window(tape, drawn, n);
      drawn := drawn + n;
    }
  }

  /** Two draws at different times read disjoint stretches of the tape. */
  lemma DrawsDisjoint(first: nat, n: nat, second: nat, i: nat, j: nat)
    requires first + n <= second
    requires i < n
    ensures first + i != second + j
  {
  }

  // ---------------------------------------------------------------------------
  // Byte encodings used by the symbolic ciphertexts and key exports.
  // Each encoder takes the bytes that follow it, so that a parser can hand them back untouched.

  /** A natural number in bytes: a run of 255s, each worth 255, closed by a byte below 255. */
  function EncNat(n: nat, rest: seq<Byte>): (r: seq<Byte>)
    ensures |r| > |rest|
    decreases n
  {
    if n < 255 then [n] + rest else [255] + EncNat(n - 255, rest)
  }

  function ParseNat(b: seq<Byte>): Option<(nat, seq<Byte>)>
    decreases |b|
  {
    if |b| == 0 then None
    else if b[0] < 255 then Some((b[0], b[1..]))
    else match ParseNat(b[1..])
      case None => None
      case Some((n, rest)) => Some((n + 255, rest))
  }

  lemma {:induction false} ParseEncNat(n: nat, rest: seq<Byte>)
    ensures ParseNat(EncNat(n, rest)) == Some((n, rest))
    decreases n
  {
    if n < 255 {
      assert EncNat(n, rest)[1..] == rest;
    } else {
      assert EncNat(n, rest)[1..] == EncNat(n - 255, rest);
      ParseEncNat(n - 255, rest);
    }
  }

  /** A byte string preceded by its length. */
  function EncBytes(x: seq<Byte>, rest: seq<Byte>): seq<Byte> {
    EncNat(|x|, x + rest)
  }

  function ParseBytes(b: seq<Byte>): Option<(seq<Byte>, seq<Byte>)> {
    match ParseNat(b)
    case None => None
    case Some((n, after)) => if n <= |after| then Some((after[..n], after[n..])) else None
  }

  lemma ParseEncBytes(x: seq<Byte>, rest: seq<Byte>)
    ensures ParseBytes(EncBytes(x, rest)) == Some((x, rest))
  {
    ParseEncNat(|x|, x + rest);
    assert (x + rest)[..|x|] == x && (x + rest)[|x|..] == rest;
  }

  function HashTag(h: HashAlg): Byte {
    match h
    case Sha1 => 1
    case Sha256 => 2
    case Sha384 => 3
    case Sha512 => 4
  }

  function TagHash(t: Byte): Option<HashAlg> {
    if t == 1 then Some(Sha1)
    else if t == 2 then Some(Sha256)
    else if t == 3 then Some(Sha384)
    else if t == 4 then Some(Sha512)
    else None
  }

  function EncSecret(s: Secret, rest: seq<Byte>): seq<Byte> {
    match s
    case Pbkdf2Secret(password, salt, iterations, hash) =>
      [0] + EncBytes(password, EncBytes(salt, EncNat(iterations, [HashTag(hash)] + rest)))
    case EcdhSecret(low, high) =>
      [1] + EncNat(low, EncNat(high, rest))
  }

  function ParseSecret(b: seq<Byte>): Option<(Secret, seq<Byte>)> {
    if |b| == 0 then None
    else if b[0] == 0 then ParsePbkdf2(b[1..])
    else if b[0] == 1 then ParseEcdh(b[1..])
    else None
  }

  /** The fields of a PBKDF2 secret, after its tag. */
  function ParsePbkdf2(b: seq<Byte>): Option<(Secret, seq<Byte>)> {
    match ParseBytes(b)
    case None => None
    case Some((password, r1)) =>
      match ParseBytes(r1)
      case None => None
      case Some((salt, r2)) =>
        match ParseNat(r2)
        case None => None
        case Some((iterations, r3)) =>
          if |r3| == 0 then None
          else match TagHash(r3[0])
            case None => None
            case Some(hash) => Some((Pbkdf2Secret(password, salt, iterations, hash), r3[1..]))
  }

  /** The fields of an ECDH secret, after its tag. */
  function ParseEcdh(b: seq<Byte>): Option<(Secret, seq<Byte>)> {
    match ParseNat(b)
    case None => None
    case Some((low, r1)) =>
      match ParseNat(r1)
      case None => None
      case Some((high, r2)) => Some((EcdhSecret(low, high), r2))
  }

  lemma ParseEncSecret(s: Secret, rest: seq<Byte>)
    ensures ParseSecret(EncSecret(s, rest)) == Some((s, rest))
  {
    match s
    case Pbkdf2Secret(password, salt, iterations, hash) =>
      ParseEncPbkdf2(password, salt, iterations, hash, rest);
    case EcdhSecret(low, high) =>
      var b := EncSecret(s, rest);
      assert b[1..] == EncNat(low, EncNat(high, rest));
      ParseEncNat(low, EncNat(high, rest));
      ParseEncNat(high, rest);
  }

  lemma ParseEncPbkdf2(password: seq<Byte>, salt: seq<Byte>, iterations: nat, hash: HashAlg, rest: seq<Byte>)
    ensures ParseSecret(EncSecret(Pbkdf2Secret(password, salt, iterations, hash), rest))
         == Some((Pbkdf2Secret(password, salt, iterations, hash), rest))
  {
    var b := EncSecret(Pbkdf2Secret(password, salt, iterations, hash), rest);
    var r1 := EncBytes(salt, EncNat(iterations, [HashTag(hash)] + rest));
    assert b[0] == 0 && b[1..] == EncBytes(password, r1);
    ParsePbkdf2Fields(password, salt, iterations, hash, rest);
  }

  lemma ParsePbkdf2Fields(password: seq<Byte>, salt: seq<Byte>, iterations: nat, hash: HashAlg, rest: seq<Byte>)
    ensures ParsePbkdf2(EncBytes(password, EncBytes(salt, EncNat(iterations, [HashTag(hash)] + rest))))
         == Some((Pbkdf2Secret(password, salt, iterations, hash), rest))
  {
    var tail := [HashTag(hash)] + rest;
    var r2 := EncNat(iterations, tail);
    var r1 := EncBytes(salt, r2);
    ParseEncBytes(password, r1);
    ParseEncBytes(salt, r2);
    ParseEncNat(iterations, tail);
    assert tail[0] == HashTag(hash) && tail[1..] == rest;
    assert TagHash(HashTag(hash)) == Some(hash);
  }

  // ---------------------------------------------------------------------------
  // AES-GCM

  /** The ciphertext of `plaintext` under an AES key made from `secret` and `length`, with `iv`. */
  function Sealed(secret: Secret, length: nat, iv: seq<Byte>, plaintext: seq<Byte>): seq<Byte> {
    EncSecret(secret, EncNat(length, EncBytes(iv, plaintext)))
  }

  function ParseSealed(c: seq<Byte>): Option<(Secret, nat, seq<Byte>, seq<Byte>)> {
    match ParseSecret(c)
    case None => None
    case Some((secret, r1)) =>
      match ParseNat(r1)
      case None => None
      case Some((length, r2)) =>
        match ParseBytes(r2)
        case None => None
        case Some((iv, plaintext)) => Some((secret, length, iv, plaintext))
  }

  lemma ParseOfSealed(secret: Secret, length: nat, iv: seq<Byte>, p: seq<Byte>)
    ensures ParseSealed(Sealed(secret, length, iv, p)) == Some((secret, length, iv, p))
  {
    ParseEncSecret(secret, EncNat(length, EncBytes(iv, p)));
    ParseEncNat(length, EncBytes(iv, p));
    ParseEncBytes(iv, p);
  }

  /** `crypto.subtle.encrypt({name: 'AES-GCM', iv}, key, data)`. */
  function Encrypt(key: CryptoKey, iv: seq<Byte>, data: seq<Byte>): (r: Result<seq<Byte>>)
    ensures r.Ok? <==> key.AesGcmKey? && |iv| > 0
    ensures r.Ok? ==> |r.value| > |data|
  {
    if !key.AesGcmKey? then Err(InvalidAccessError)
    else if |iv| == 0 then Err(OperationError)
    else Ok(Sealed(key.secret, key.length, iv, data))
  }

  /** `crypto.subtle.decrypt({name: 'AES-GCM', iv}, key, data)`: an OperationError when the tag does not check. */
  function Decrypt(key: CryptoKey, iv: seq<Byte>, data: seq<Byte>): (r: Result<seq<Byte>>)
    ensures r.Err? && key.AesGcmKey? ==> r.error == OperationError
    ensures !key.AesGcmKey? ==> r == Err(InvalidAccessError)
  {
    if !key.AesGcmKey? then Err(InvalidAccessError)
    else if |iv| == 0 then Err(OperationError)
    else match ParseSealed(data)
      case Some((secret, length, iv0, plaintext)) =>
        if secret == key.secret && length == key.length && iv0 == iv then Ok(plaintext) else Err(OperationError)
      case None => Err(OperationError)
  }

  /**
   * What a ciphertext opens to: the plaintext under the key and IV it was made with,
   * an OperationError under any other AES key or IV.
   */
  lemma DecryptEncrypt(key: CryptoKey, iv: seq<Byte>, p: seq<Byte>, key2: CryptoKey, iv2: seq<Byte>)
    requires Encrypt(key, iv, p).Ok?
    requires key2.AesGcmKey? && |iv2| > 0
    ensures Decrypt(key2, iv2, Encrypt(key, iv, p).value) == (if key2 == key && iv2 == iv then Ok(p) else Err(OperationError))
  {
    ParseOfSealed(key.secret, key.length, iv, p);
  }

  // ---------------------------------------------------------------------------
  // PBKDF2

  /** `crypto.subtle.importKey('raw', password, 'PBKDF2', false, ['deriveKey'])`. */
  function ImportPbkdf2(password: seq<Byte>): CryptoKey {
    Pbkdf2Material(password)
  }

  /** `crypto.subtle.deriveKey({name: 'PBKDF2', salt, iterations, hash}, base, {name: 'AES-GCM', length}, ...)`. */
  function DerivePbkdf2(base: CryptoKey, salt: seq<Byte>, iterations: nat, hash: HashAlg, length: nat): (r: Result<CryptoKey>)
    ensures r.Ok? <==> base.Pbkdf2Material? && iterations > 0 && length in {128, 192, 256}
    ensures r.Ok? ==> r.value == AesGcmKey(Pbkdf2Secret(base.raw, salt, iterations, hash), length)
  {
    if !base.Pbkdf2Material? then Err(InvalidAccessError)
    else if iterations == 0 || length !in {128, 192, 256} then Err(OperationError)
    else Ok(AesGcmKey(Pbkdf2Secret(base.raw, salt, iterations, hash), length))
  }

  // ---------------------------------------------------------------------------
  // ECDH on P-384

  /** The private scalar a run of random bytes stands for, read big-endian. */
  function BigEndian(b: seq<Byte>): nat {
    if |b| == 0 then 0 else BigEndian(b[..|b| - 1]) * 256 + b[|b| - 1]
  }

  function KeyPairOf(scalar: nat): (kp: KeyPair)
    ensures kp.publicKey.EcdhPublicKey? && kp.privateKey.EcdhPrivateKey?
    ensures kp.publicKey.point == kp.privateKey.scalar == scalar
  {
    KeyPair(EcdhPublicKey(scalar), EcdhPrivateKey(scalar))
  }

  /** `crypto.subtle.generateKey({name: 'ECDH', namedCurve: 'P-384'}, true, ...)`. */
  method GenerateEcdhKeyPair(rng: RandomSource) returns (kp: KeyPair)
    modifies rng
    ensures kp == KeyPairOf(BigEndian(Window(rng.tape, old(rng.drawn), P384ScalarBytes)))
    ensures rng.drawn == old(rng.drawn) + P384ScalarBytes
  {
    var bytes := rng.GetRandomValues(P384ScalarBytes);
    kp := KeyPairOf(BigEndian(bytes));
  }

  /** `crypto.subtle.deriveKey({name: 'ECDH', public}, privateKey, {name: 'AES-GCM', length}, ...)`. */
  function DeriveEcdh(publicKey: CryptoKey, privateKey: CryptoKey, length: nat): (r: Result<CryptoKey>)
    ensures r.Ok? <==> publicKey.EcdhPublicKey? && privateKey.EcdhPrivateKey? && length in {128, 192, 256}
    ensures r.Ok? ==> r.value.AesGcmKey? && r.value.length == length && r.value.secret.EcdhSecret?
  {
    if !publicKey.EcdhPublicKey? || !privateKey.EcdhPrivateKey? then Err(InvalidAccessError)
    else if length !in {128, 192, 256} then Err(OperationError)
    else
      var a := privateKey.scalar;
      var b := publicKey.point;
      Ok(AesGcmKey(if a <= b then EcdhSecret(a, b) else EcdhSecret(b, a), length))
  }

  /**
   * Both parties of an exchange derive the same key, and it differs from a key
   * agreed with anyone else. These are laws of the symbolic model, where a public
   * point is its private scalar and the shared secret is the unordered pair of
   * scalars; they are not derived from elliptic-curve arithmetic.
   */
  lemma EcdhAgreement(a: nat, b: nat, c: nat)
    ensures DeriveEcdh(EcdhPublicKey(b), EcdhPrivateKey(a), 256) == DeriveEcdh(EcdhPublicKey(a), EcdhPrivateKey(b), 256)
    ensures c != a && c != b ==> DeriveEcdh(EcdhPublicKey(c), EcdhPrivateKey(a), 256) != DeriveEcdh(EcdhPublicKey(b), EcdhPrivateKey(a), 256)
  {
  }

  /** The SubjectPublicKeyInfo bytes of a public key, in this model an uncompressed-point marker and the point. */
  function SpkiBytes(point: nat): (r: seq<Byte>)
    ensures |r| > 1 && r[0] == 0x04
  {
    [0x04] + EncNat(point, [])
  }

  /** `crypto.subtle.exportKey('spki', key)`: only a public key has SubjectPublicKeyInfo. */
  function ExportSpki(key: CryptoKey): (r: Result<seq<Byte>>)
    ensures r.Ok? <==> key.EcdhPublicKey?
  {
    if key.EcdhPublicKey? then Ok(SpkiBytes(key.point)) else Err(InvalidAccessError)
  }

  /** `crypto.subtle.importKey('spki', data, {name: 'ECDH', namedCurve: 'P-384'}, ...)`: a DataError for bytes that are not a public key. */
  function ImportSpki(data: seq<Byte>): (r: Result<CryptoKey>)
    ensures r.Ok? ==> r.value.EcdhPublicKey? && data == SpkiBytes(r.value.point)
    ensures r.Err? ==> r.error == DataError
  {
    if |data| == 0 || data[0] != 0x04 then Err(DataError)
    else match ParseNat(data[1..])
      case Some((point, rest)) =>
        if rest == [] then
          ImportSpkiShape(data, point);
          Ok(EcdhPublicKey(point))
        else Err(DataError)
      case None => Err(DataError)
  }

  /** A successful parse of the point means the bytes are exactly its encoding. */
  lemma ImportSpkiShape(data: seq<Byte>, point: nat)
    requires |data| > 0 && data[0] == 0x04 && ParseNat(data[1..]) == Some((point, []))
    ensures data == SpkiBytes(point)
  {
    ParseNatShape(data[1..]);
    assert data == [0x04] + data[1..];
  }

  lemma {:induction false} ParseNatShape(b: seq<Byte>)
    requires ParseNat(b).Some?
    ensures b == EncNat(ParseNat(b).value.0, ParseNat(b).value.1)
    decreases |b|
  {
    if b[0] < 255 {
      assert b == [b[0]] + b[1..];
    } else {
      ParseNatShape(b[1..]);
      assert b == [b[0]] + b[1..];
    }
  }

  /** Importing what was exported gives the public key back. */
  lemma ImportExportSpki(point: nat)
    ensures ImportSpki(SpkiBytes(point)) == Ok(EcdhPublicKey(point))
  {
    var data := SpkiBytes(point);
    assert data[1..] == EncNat(point, []);
    ParseEncNat(point, []);
  }
}

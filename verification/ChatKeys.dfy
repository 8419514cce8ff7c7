/** Wrapping of a chat key for storage on the server: nonce and salt framing around an abstract AEAD, in base64. */
module ChatKeys {
  import opened Options
  import opened Codec

  type Bytes = seq<Byte>

  /** AES-GCM (NIST SP 800-38D) seen from outside: key, nonce, text. Opening may fail. */
  datatype Aead = Aead(seal: (Bytes, Bytes, Bytes) -> Bytes, open_: (Bytes, Bytes, Bytes) -> Option<Bytes>)

  ghost predicate Correct(aead: Aead) {
    forall key, nonce, text :: aead.open_(key, nonce, aead.seal(key, nonce, text)) == Some(text)
  }

  const NONCE_BYTES := 12
  const SALT_BYTES := 16

  /** The lengths importKey accepts as an AES key. */
  predicate AesKey(key: Bytes) {
    |key| == 16 || |key| == 24 || |key| == 32
  }

  /** TypedArray.slice: positions past the end stand for the end. */
  function Slice(b: Bytes, from: nat, to: nat): Bytes {
    var end := if to < |b| then to else |b|;
    if from < end then b[from..end] else []
  }

  // ---- Under the private key: nonce, sealed key ----

  /** None: importKey throws. */
  function Wrapped(aead: Aead, chatKey: Bytes, privateKey: Bytes, nonce: Bytes): Option<string> {
    if AesKey(privateKey) then Some(Encode64(nonce + aead.seal(privateKey, nonce, chatKey))) else None
  }

  /** None: atob, importKey or decrypt throws. */
  function Unwrapped(aead: Aead, encryptedKey: string, privateKey: Bytes): Option<Bytes> {
    match Atob64(encryptedKey)
    case None => None
    case Some(combined) =>
      if AesKey(privateKey)
      then aead.open_(privateKey, Slice(combined, 0, NONCE_BYTES), Slice(combined, NONCE_BYTES, |combined|))
      else None
  }

  /** A wrapped chat key is unwrapped to the same chat key, through base64 and the slice at 12. */
  lemma {:induction false} WrapRoundTrip(aead: Aead, chatKey: Bytes, privateKey: Bytes, nonce: Bytes)
    requires Correct(aead) && |nonce| == NONCE_BYTES && AesKey(privateKey)
    ensures Wrapped(aead, chatKey, privateKey, nonce).Some?
    ensures Unwrapped(aead, Wrapped(aead, chatKey, privateKey, nonce).value, privateKey) == Some(chatKey)
  {
    var sealed := aead.seal(privateKey, nonce, chatKey);
    var combined := nonce + sealed;
    Base64RoundTrip(combined);
    assert Slice(combined, 0, NONCE_BYTES) == nonce;
    assert Slice(combined, NONCE_BYTES, |combined|) == sealed;
  }

  // ---- Under a password: salt, nonce, sealed key ----

  /** PBKDF2 of a password and a salt, to a 256-bit key. */
  type Kdf = (Bytes, Bytes) -> Bytes

  function PasswordWrapped(aead: Aead, kdf: Kdf, chatKey: Bytes, password: Bytes, salt: Bytes, nonce: Bytes): string {
    Encode64(salt + nonce + aead.seal(kdf(password, salt), nonce, chatKey))
  }

  function PasswordUnwrapped(aead: Aead, kdf: Kdf, encryptedKey: string, password: Bytes): Option<Bytes> {
    match Atob64(encryptedKey)
    case None => None
    case Some(combined) =>
      aead.open_(kdf(password, Slice(combined, 0, SALT_BYTES)),
                 Slice(combined, SALT_BYTES, SALT_BYTES + NONCE_BYTES),
                 Slice(combined, SALT_BYTES + NONCE_BYTES, |combined|))
  }

  /** The same for passwords, with slices at 16 and 28. */
  lemma {:induction false} PasswordWrapRoundTrip(aead: Aead, kdf: Kdf, chatKey: Bytes, password: Bytes, salt: Bytes, nonce: Bytes)
    requires Correct(aead) && |salt| == SALT_BYTES && |nonce| == NONCE_BYTES
    ensures PasswordUnwrapped(aead, kdf, PasswordWrapped(aead, kdf, chatKey, password, salt, nonce), password) == Some(chatKey)
  {
    var sealed := aead.seal(kdf(password, salt), nonce, chatKey);
    var combined := salt + nonce + sealed;
    Base64RoundTrip(combined);
    assert Slice(combined, 0, SALT_BYTES) == salt;
    assert Slice(combined, SALT_BYTES, SALT_BYTES + NONCE_BYTES) == nonce;
    assert Slice(combined, SALT_BYTES + NONCE_BYTES, |combined|) == sealed;
  }

  // ---- The client's code over arrays ----

  /** TypedArray.set. */
  method Set(target: array<Byte>, part: Bytes, offset: nat)
    requires offset + |part| <= target.Length
    modifies target
    ensures target[..] == old(target[..offset]) + part + old(target[offset + |part|..])
  {
    forall i | 0 <= i < |part| {
      target[offset + i] := part[i];
    }
  }

  method EncryptChatKeyWithPrivateKey(aead: Aead, chatKey: Bytes, privateKey: Bytes, nonce: Bytes) returns (r: Option<string>)
    ensures r == Wrapped(aead, chatKey, privateKey, nonce)
    ensures r.Some? <==> |privateKey| in {16, 24, 32}
    ensures r.Some? ==> r.value == Encode64(nonce + aead.seal(privateKey, nonce, chatKey))
  {
    hide Encode64, Atob64;
    if !AesKey(privateKey) {
      return None;
    }
    var encrypted := aead.seal(privateKey, nonce, chatKey);
    var combined := new Byte[|nonce| + |encrypted|];
    Set(combined, nonce, 0);
    Set(combined, encrypted, |nonce|);
    assert combined[..] == nonce + encrypted;
    var ciphertext := ArrayBufferToBase64(combined);
    r := Some(ciphertext);
  }

  method EncryptChatKey(aead: Aead, kdf: Kdf, chatKey: Bytes, password: Bytes, salt: Bytes, nonce: Bytes) returns (r: string)
    ensures r == PasswordWrapped(aead, kdf, chatKey, password, salt, nonce)
    ensures r == Encode64(salt + nonce + aead.seal(kdf(password, salt), nonce, chatKey))
  {
    hide Encode64, Atob64;
    var encrypted := aead.seal(kdf(password, salt), nonce, chatKey);
    var combined := new Byte[|salt| + |nonce| + |encrypted|];
    Set(combined, salt, 0);
    assert combined[..|salt|] == combined[..][..|salt|] == salt;
    Set(combined, nonce, |salt|);
    assert combined[..|salt| + |nonce|] == combined[..][..|salt| + |nonce|] == salt + nonce;
    Set(combined, encrypted, |salt| + |nonce|);
    assert combined[..] == salt + nonce + encrypted;
    r := ArrayBufferToBase64(combined);
  }

  method DecryptChatKeyWithPrivateKey(aead: Aead, encryptedKey: string, privateKey: Bytes) returns (r: Option<Bytes>)
    ensures r == Unwrapped(aead, encryptedKey, privateKey)
    ensures Atob64(encryptedKey).None? || |privateKey| !in {16, 24, 32} ==> r == None
    ensures Atob64(encryptedKey).Some? && |Atob64(encryptedKey).value| >= 12 && |privateKey| in {16, 24, 32} ==>
              var combined := Atob64(encryptedKey).value;
              r == aead.open_(privateKey, combined[..12], combined[12..])
  {
    var combined := Base64ToArrayBuffer(encryptedKey);
    if combined.None? || !AesKey(privateKey) {
      return None;
    }
    var bytes := combined.value[..];
    var nonce := Slice(bytes, 0, NONCE_BYTES);
    assert |bytes| >= 12 ==> nonce == bytes[..12] && Slice(bytes, NONCE_BYTES, |bytes|) == bytes[12..];
    var encrypted := Slice(bytes, NONCE_BYTES, |bytes|);
    r := aead.open_(privateKey, nonce, encrypted);
  }

  method DecryptChatKey(aead: Aead, kdf: Kdf, encryptedKey: string, password: Bytes) returns (r: Option<Bytes>)
    ensures r == PasswordUnwrapped(aead, kdf, encryptedKey, password)
    ensures Atob64(encryptedKey).None? ==> r == None
    ensures Atob64(encryptedKey).Some? && |Atob64(encryptedKey).value| >= 28 ==>
              var combined := Atob64(encryptedKey).value;
              r == aead.open_(kdf(password, combined[..16]), combined[16..28], combined[28..])
  {
    var combined := Base64ToArrayBuffer(encryptedKey);
    if combined.None? {
      return None;
    }
    var bytes := combined.value[..];
    var salt := Slice(bytes, 0, SALT_BYTES);
    var nonce := Slice(bytes, SALT_BYTES, SALT_BYTES + NONCE_BYTES);
    var encrypted := Slice(bytes, SALT_BYTES + NONCE_BYTES, |bytes|);
    assert |bytes| >= 28 ==> salt == bytes[..16] && nonce == bytes[16..28] && encrypted == bytes[28..];
    r := aead.open_(kdf(password, salt), nonce, encrypted);
  }
}

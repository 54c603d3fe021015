/** Sealing keys per application and the encrypted columns of src/apps/encryption.ts. */
module Columns {
  import opened Wrappers
  import opened Bytes
  import opened Utf8
  import opened Aead
  import opened SealedToken

  /** HKDF with its fixed info and 32-byte output: (master key, salt) to key bytes. */
  type Kdf = (bytes, bytes) -> bytes

  ghost predicate LawfulKdf(kdf: Kdf)
  {
    forall secret, salt :: |kdf(secret, salt)| == KEY_BYTES
  }

  datatype KeyError = NoAppId | MasterKeyTooShort

  function DeriveSealingKey(kdf: Kdf, masterKey: bytes, appId: string): Result<bytes, KeyError>
  {
    if appId == "" then Err(NoAppId)
    else if |masterKey| < 32 then Err(MasterKeyTooShort)
    else Ok(kdf(masterKey, Encode(appId)))
  }

  datatype ColumnError = ColumnKeyLength | TooShort | OpenFailed

  /** Nonce, ciphertext, tag; with the box the cipher made. */
  datatype Column = Column(stored: bytes, box: Box)

  function EncryptColumn(cipher: Cipher, key: bytes, plain: bytes, aad: bytes, iv: nonce): Result<Column, ColumnError>
  {
    if |key| != KEY_BYTES then Err(ColumnKeyLength)
    else
      var box := Seal(cipher, key, iv, aad, plain);
      Ok(Column(iv + box.ciphertext + box.tag, box))
  }

  function DecryptColumn(log: Log, key: bytes, stored: bytes, aad: bytes): Result<bytes, ColumnError>
  {
    if |key| != KEY_BYTES then Err(ColumnKeyLength)
    else if |stored| < IV_BYTES + TAG_BYTES then Err(TooShort)
    else
      var iv, tag := stored[..IV_BYTES], stored[|stored| - TAG_BYTES..];
      match Open(log, Box(key, iv, aad, stored[IV_BYTES..|stored| - TAG_BYTES], tag))
      case None => Err(OpenFailed)
      case Some(plain) => Ok(plain)
  }

  /** A column opens to a plaintext exactly when it is the layout of a logged box for that key and context. */
  lemma DecryptsExactlyLoggedColumns(log: Log, key: bytes, stored: bytes, aad: bytes, plain: bytes)
    ensures DecryptColumn(log, key, stored, aad) == Ok(plain)
      <==> |key| == KEY_BYTES
           && exists box :: box in log && box.key == key && box.aad == aad
                            && |box.iv| == IV_BYTES && |box.tag| == TAG_BYTES
                            && stored == box.iv + box.ciphertext + box.tag && log[box] == plain
  {
    if DecryptColumn(log, key, stored, aad) == Ok(plain) {
      var box := Box(key, stored[..IV_BYTES], aad, stored[IV_BYTES..|stored| - TAG_BYTES],
                     stored[|stored| - TAG_BYTES..]);
      assert box in log && stored == box.iv + box.ciphertext + box.tag;
    }
    if box :| |key| == KEY_BYTES && box in log && box.key == key && box.aad == aad && |box.iv| == IV_BYTES
              && |box.tag| == TAG_BYTES && stored == box.iv + box.ciphertext + box.tag && log[box] == plain {
      assert stored[..IV_BYTES] == box.iv && stored[|stored| - TAG_BYTES..] == box.tag;
      assert stored[IV_BYTES..|stored| - TAG_BYTES] == box.ciphertext;
    }
  }

  /** Every later log opens a stored column to what was encrypted. */
  lemma ColumnRoundTrip(cipher: Cipher, log: Log, key: bytes, plain: bytes, aad: bytes, iv: nonce)
    requires Lawful(cipher) && |key| == KEY_BYTES
    requires var box := Seal(cipher, key, iv, aad, plain); box in log && log[box] == plain
    ensures DecryptColumn(log, key, EncryptColumn(cipher, key, plain, aad, iv).value.stored, aad) == Ok(plain)
  {
    var box := Seal(cipher, key, iv, aad, plain);
    DecryptsExactlyLoggedColumns(log, key, iv + box.ciphertext + box.tag, aad, plain);
  }

  lemma DecryptionLasts(log: Log, later: Log, key: bytes, stored: bytes, aad: bytes, plain: bytes)
    requires Extends(later, log) && DecryptColumn(log, key, stored, aad) == Ok(plain)
    ensures DecryptColumn(later, key, stored, aad) == Ok(plain)
  {
  }
}

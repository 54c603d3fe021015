/**
 * AES-256-GCM as an ideal authenticated cipher. The cipher itself is a parameter; what was sealed so far is a log, and
 * only a logged box opens. Keys and nonces are plain byte sequences chosen by the caller.
 */
module Aead {
  import opened Wrappers
  import opened Bytes

  const KEY_BYTES := 32
  const IV_BYTES := 12
  const TAG_BYTES := 16

  datatype Sealed = Sealed(ciphertext: bytes, tag: bytes)

  /** (key, iv, aad, plaintext) to ciphertext and tag. */
  type Cipher = (bytes, bytes, bytes, bytes) -> Sealed

  /** Everything a receiver presents to open. */
  datatype Box = Box(key: bytes, iv: bytes, aad: bytes, ciphertext: bytes, tag: bytes)

  /** The plaintext of every box sealed so far. */
  type Log = map<Box, bytes>

  /**
   * A counter-mode cipher with a 16-byte tag: the ciphertext is as long as the plaintext, and under one key and nonce
   * it determines the plaintext.
   */
  ghost predicate Lawful(cipher: Cipher)
  {
    && (forall key, iv, aad, plain ::
          |cipher(key, iv, aad, plain).ciphertext| == |plain| && |cipher(key, iv, aad, plain).tag| == TAG_BYTES)
    && (forall key, iv, aad, plain, aad', plain' ::
          cipher(key, iv, aad, plain).ciphertext == cipher(key, iv, aad', plain').ciphertext ==> plain == plain')
  }

  function Seal(cipher: Cipher, key: bytes, iv: bytes, aad: bytes, plain: bytes): Box
  {
    var s := cipher(key, iv, aad, plain);
    Box(key, iv, aad, s.ciphertext, s.tag)
  }

  function Open(log: Log, box: Box): Option<bytes>
  {
    if box in log then Some(log[box]) else None
  }

  /** Every logged box was made by the cipher from the plaintext it opens to. */
  ghost predicate Honest(cipher: Cipher, log: Log)
  {
    forall box :: box in log ==> box == Seal(cipher, box.key, box.iv, box.aad, log[box])
  }

  /** The later log still opens everything the earlier one opened, to the same plaintext. */
  ghost predicate Extends(later: Log, earlier: Log)
  {
    forall box :: box in earlier ==> box in later && later[box] == earlier[box]
  }

  lemma ExtendsTransitive(a: Log, b: Log, c: Log)
    requires Extends(a, b) && Extends(b, c)
    ensures Extends(a, c)
  {
  }

  /** Sealing keeps the log honest and forgets nothing. */
  lemma SealingExtends(cipher: Cipher, log: Log, key: bytes, iv: bytes, aad: bytes, plain: bytes)
    requires Lawful(cipher) && Honest(cipher, log)
    ensures var log' := log[Seal(cipher, key, iv, aad, plain) := plain];
            Honest(cipher, log') && Extends(log', log)
  {
    var box := Seal(cipher, key, iv, aad, plain);
    if box in log {
      assert box == Seal(cipher, key, iv, aad, log[box]);
    }
  }

  /** Under one key and nonce a ciphertext opens to one plaintext whatever the associated data. */
  lemma CiphertextFixesPlaintext(cipher: Cipher, log: Log, a: Box, b: Box)
    requires Lawful(cipher) && Honest(cipher, log)
    requires a in log && b in log && a.key == b.key && a.iv == b.iv && a.ciphertext == b.ciphertext
    ensures log[a] == log[b]
  {
    assert a == Seal(cipher, a.key, a.iv, a.aad, log[a]);
    assert b == Seal(cipher, b.key, b.iv, b.aad, log[b]);
  }

  /** The laws can be met: copying the plaintext with a constant tag obeys them. */
  lemma LawsCanBeMet()
    ensures exists cipher: Cipher :: Lawful(cipher)
  {
    var copy: Cipher := (key: bytes, iv: bytes, aad: bytes, plain: bytes) => Sealed(plain, seq(TAG_BYTES, _ => 0));
    assert Lawful(copy);
  }
}

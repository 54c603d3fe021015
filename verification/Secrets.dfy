/** Client secrets and API tokens: src/apps/secrets.ts. */
module Secrets {
  import opened Wrappers
  import opened Bytes
  import opened Utf8
  import Base64

  type Digest = bytes -> bytes

  const BCRYPT_KEY_BYTES := 72

  /** What bcrypt hashes: the encoded text with a NUL terminator, repeated and cut to 72 bytes. */
  function BcryptKey(s: string): (k: bytes)
    ensures |k| == BCRYPT_KEY_BYTES
  {
    var b := Encode(s) + [0];
    seq(BCRYPT_KEY_BYTES, i requires 0 <= i => b[i % |b|])
  }

  /** bcrypt as a salted hash and a comparison. */
  datatype Bcrypt = Bcrypt(hash: (string, bytes) -> string, compare: (string, string) -> bool)
  {
    /** The comparison accepts exactly the texts that share the key of the text that was hashed. */
    ghost predicate Lawful()
    {
      forall secret, salt, plain :: compare(plain, hash(secret, salt)) <==> BcryptKey(plain) == BcryptKey(secret)
    }
  }

  const NUL: char := 0 as char

  predicate NulFree(s: string) { NUL !in s }

  predicate IsGenerated(secret: string)
  {
    |secret| == 43 && Base64.Canonical(secret)
  }

  /** The secret itself, or a text that goes on with a NUL and the secret's first 28 characters: 72 bytes in all. */
  predicate Matches(plain: string, secret: string)
    requires |secret| >= 28
  {
    plain == secret || secret + [NUL] + secret[..28] <= plain
  }

  predicate IsAscii(s: string)
  {
    forall i :: 0 <= i < |s| ==> s[i] as int < 0x80
  }

  /** ASCII text encodes to its character codes, and is a prefix of a text exactly when its encoding is. */
  lemma {:induction false} AsciiPrefix(t: string, s: string)
    requires IsAscii(t)
    ensures |Encode(t)| == |t| && forall i :: 0 <= i < |t| ==> Encode(t)[i] == t[i] as int
    ensures Encode(t) <= Encode(s) <==> t <= s
  {
    if t == "" {
    } else if s == "" || EncodeChar(s[0])[0] != t[0] as int {
      AsciiPrefix(t[1..], s);
      assert Encode(t)[0] == t[0] as int;
      assert s != "" ==> Encode(s)[0] == EncodeChar(s[0])[0];
    } else {
      AsciiPrefix(t[1..], s[1..]);
      assert s[0] == t[0] && EncodeChar(s[0]) == [t[0] as int];
      assert Encode(s)[1..] == Encode(s[1..]) && Encode(t)[1..] == Encode(t[1..]);
      assert t <= s <==> t[1..] <= s[1..] by {
        assert t == [t[0]] + t[1..] && s == [s[0]] + s[1..];
      }
      assert Encode(t) <= Encode(s) <==> Encode(t[1..]) <= Encode(s[1..]) by {
        assert Encode(t) == [t[0] as int] + Encode(t[1..]) && Encode(s) == [t[0] as int] + Encode(s[1..]);
      }
    }
  }

  /** A generated secret is 43 ASCII characters and no NUL. */
  lemma GeneratedIsAscii(secret: string)
    requires IsGenerated(secret)
    ensures IsAscii(secret) && NulFree(secret)
  {
    assert forall i :: 0 <= i < |secret| ==> Base64.IsUrlChar(secret[i]);
  }

  /** The first 72 bytes bcrypt repeats a generated secret to. */
  lemma KeyOfGenerated(secret: string)
    requires IsGenerated(secret)
    ensures BcryptKey(secret) == Encode(secret + [NUL] + secret[..28])
    ensures forall i :: 0 <= i < BCRYPT_KEY_BYTES ==> (BcryptKey(secret)[i] == 0 <==> i == 43)
  {
    GeneratedIsAscii(secret);
    var t := secret + [NUL] + secret[..28];
    AsciiPrefix(secret, secret);
    AsciiPrefix(t, t);
    var key := BcryptKey(secret);
    forall i | 0 <= i < BCRYPT_KEY_BYTES ensures key[i] == Encode(t)[i] && (key[i] == 0 <==> i == 43) {
      assert i % 44 == if i < 44 then i else i - 44;
    }
  }

  lemma SmallRemainder(i: nat, n: nat)
    requires i < n
    ensures i % n == i
  {
  }

  /** Byte i of the key before the text's terminator is repeated. */
  lemma KeyAt(s: string, i: nat)
    requires i < BCRYPT_KEY_BYTES && i <= |Encode(s)|
    ensures BcryptKey(s)[i] == if i < |Encode(s)| then Encode(s)[i] else 0
  {
    var b := Encode(s) + [0];
    SmallRemainder(i, |b|);
  }

  /** A text of 72 bytes or more is cut, a shorter one shows its terminator. */
  lemma KeyOfText(s: string)
    ensures |Encode(s)| >= BCRYPT_KEY_BYTES ==> BcryptKey(s) == Encode(s)[..BCRYPT_KEY_BYTES]
    ensures |Encode(s)| < BCRYPT_KEY_BYTES ==> BcryptKey(s)[..|Encode(s)| + 1] == Encode(s) + [0]
  {
    forall i | 0 <= i < BCRYPT_KEY_BYTES && i <= |Encode(s)|
      ensures BcryptKey(s)[i] == if i < |Encode(s)| then Encode(s)[i] else 0
    {
      KeyAt(s, i);
    }
  }

  /** A text that bcrypt does not tell from a generated secret: exactly the secret or its continuation past a NUL. */
  lemma SameKeyExactly(secret: string, plain: string)
    requires IsGenerated(secret)
    ensures BcryptKey(plain) == BcryptKey(secret) <==> Matches(plain, secret)
  {
    KeyOfGenerated(secret);
    GeneratedIsAscii(secret);
    KeyOfText(plain);
    var t := secret + [NUL] + secret[..28];
    AsciiPrefix(t, plain);
    if |Encode(plain)| >= BCRYPT_KEY_BYTES {
      assert plain != secret by { AsciiPrefix(secret, secret); }
      assert Encode(t) <= Encode(plain) <==> Encode(plain)[..BCRYPT_KEY_BYTES] == Encode(t);
    } else if BcryptKey(plain) == BcryptKey(secret) {
      ShortKeyIsTheSecret(secret, plain);
    }
  }

  lemma ShortKeyIsTheSecret(secret: string, plain: string)
    requires IsGenerated(secret) && BcryptKey(plain) == BcryptKey(secret) && |Encode(plain)| < BCRYPT_KEY_BYTES
    ensures plain == secret
  {
    GeneratedIsAscii(secret);
    AsciiPrefix(secret, secret);
    var e := Encode(plain);
    assert |e| == 43 by {
      KeyAt(plain, |e|);
      KeyOfGenerated(secret);
    }
    forall i | 0 <= i < 43 ensures e[i] == Encode(secret)[i] {
      KeyAt(plain, i);
      KeyAt(secret, i);
    }
    assert e == Encode(secret);
    EncodeInjective(plain, secret);
  }

  lemma NulFreeMatch(secret: string, plain: string)
    requires |secret| >= 28 && NulFree(plain)
    ensures Matches(plain, secret) <==> plain == secret
  {
    assert (secret + [NUL] + secret[..28])[|secret|] == NUL;
  }

  type random32 = r: bytes | |r| == 32 witness seq(32, _ => 0)

  function GenerateClientSecret(random: random32): (r: string)
    ensures IsGenerated(r)
  {
    Base64.Base64UrlRoundTrip(random);
    Base64.UrlText(random)
  }

  function VerifyClientSecret(bcrypt: Bcrypt, plain: string, hashes: seq<string>): (r: bool)
    ensures r <==> exists i :: 0 <= i < |hashes| && bcrypt.compare(plain, hashes[i])
  {
    if hashes == [] then false
    else if bcrypt.compare(plain, hashes[0]) then true
    else
      assert forall i :: 0 <= i < |hashes| - 1 ==> hashes[1..][i] == hashes[i + 1];
      assert forall i :: 1 <= i < |hashes| ==> hashes[i] == hashes[1..][i - 1];
      VerifyClientSecret(bcrypt, plain, hashes[1..])
  }

  function GenerateApiToken(random: random32): (r: string)
    ensures "tok_" <= r
  {
    "tok_" + Base64.UrlText(random)
  }

  /** Both kinds of generated text spell out the random bytes they were drawn from. */
  lemma GeneratedFromRandom(random: random32)
    ensures Base64.UrlBytes(GenerateClientSecret(random)) == Ok(random)
    ensures Base64.UrlBytes(GenerateApiToken(random)[4..]) == Ok(random)
  {
    Base64.Base64UrlRoundTrip(random);
    assert GenerateApiToken(random)[4..] == Base64.UrlText(random);
  }

  function HashApiToken(digest: Digest, token: string): string
  {
    HexOf(digest(Encode(token)))
  }

  method VerifyApiToken(digest: Digest, plain: string, hash: string) returns (r: Result<bool, HexError>)
    ensures r == match HexBytes(hash)
                 case Err(e) => Err(e)
                 case Ok(expected) => Ok(digest(Encode(plain)) == expected)
  {
    var computedHex := ToHex(digest(Encode(plain)));
    var computed := FromHex(computedHex);
    HexRoundTrip(digest(Encode(plain)));
    var expected := FromHex(hash);
    if expected.Err? {
      return Err(expected.error);
    }
    var same := ConstantTimeEquals(computed.value, expected.value);
    return Ok(same);
  }

  /** Verifying a token against the stored hash of another compares their digests. */
  method VerifyStoredToken(digest: Digest, plain: string, token: string) returns (r: Result<bool, HexError>)
    ensures r == Ok(digest(Encode(plain)) == digest(Encode(token)))
  {
    HexRoundTrip(digest(Encode(token)));
    r := VerifyApiToken(digest, plain, HashApiToken(digest, token));
  }

  /** Different tokens share a stored hash exactly when their digests collide. */
  lemma ApiTokenHashesDiffer(digest: Digest, a: string, b: string)
    ensures HashApiToken(digest, a) == HashApiToken(digest, b) <==> digest(Encode(a)) == digest(Encode(b))
  {
    HexRoundTrip(digest(Encode(a)));
    HexRoundTrip(digest(Encode(b)));
  }
}

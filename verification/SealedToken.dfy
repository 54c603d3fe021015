/** The sealed token format of src/oidc/sealed-token.ts. */
module SealedToken {
  import opened Wrappers
  import opened Bytes
  import opened Utf8
  import opened Aead
  import Base64

  datatype TokenType = Access | Refresh

  function TypeName(t: TokenType): string
  {
    match t
    case Access => "access"
    case Refresh => "refresh"
  }

  datatype Payload = Payload(
    appId: string, tossUserKey: string, tossAt: string, tossRt: string,
    tossAtExp: int, issuedAt: int, tokenType: TokenType)

  /** JSON.stringify of a payload and JSON.parse back, None where the latter throws. */
  datatype Json = Json(stringify: Payload -> string, parse: string -> Option<Payload>)
  {
    /** Parsing is a left inverse, and the text of an object starts with a brace. */
    ghost predicate Lawful()
    {
      && (forall p :: parse(stringify(p)) == Some(p))
      && (forall p :: stringify(p) != "" && stringify(p)[0] == '{')
    }
  }

  // ---- the layout ----------------------------------------------------------

  /** The raw slices of a sealed buffer. */
  datatype Raw = Raw(version: byte, appId: bytes, userKey: bytes, iv: bytes, ciphertext: bytes, tag: bytes)
  {
    predicate Valid()
    {
      |appId| < 256 && |userKey| < 256 && |iv| == IV_BYTES && |tag| == TAG_BYTES && |ciphertext| >= 1
    }

    /** version, id length, id, key length, key, nonce, ciphertext, tag. */
    function Layout(): bytes
      requires |appId| < 256 && |userKey| < 256
    {
      [version] + [|appId|] + appId + [|userKey|] + userKey + iv + ciphertext + tag
    }
  }

  datatype TokenError = BadFormat | Tampered | BadKey | BadPayload

  /** Reads the slices at a moving offset and rejects a buffer that ends too early. */
  method ReadLayout(buf: bytes) returns (r: Result<Raw, TokenError>)
    ensures r == Slices(buf)
  {
    var off := 0;
    if |buf| < off + 1 { return Err(BadFormat); }
    var version := buf[off];
    off := off + 1;
    if |buf| < off + 1 { return Err(BadFormat); }
    var appIdLen := buf[off];
    off := off + 1;
    if |buf| < off + appIdLen { return Err(BadFormat); }
    var appId := buf[off..off + appIdLen];
    off := off + appIdLen;
    if |buf| < off + 1 { return Err(BadFormat); }
    var userKeyLen := buf[off];
    off := off + 1;
    if |buf| < off + userKeyLen { return Err(BadFormat); }
    var userKey := buf[off..off + userKeyLen];
    off := off + userKeyLen;
    if |buf| < off + IV_BYTES + TAG_BYTES + 1 { return Err(BadFormat); }
    var iv := buf[off..off + IV_BYTES];
    off := off + IV_BYTES;
    var tag := buf[|buf| - TAG_BYTES..];
    var ciphertext := buf[off..|buf| - TAG_BYTES];
    return Ok(Raw(version, appId, userKey, iv, ciphertext, tag));
  }

  /** The buffer has room for both counted fields, a nonce, a tag and one byte of ciphertext. */
  predicate HasLayout(buf: bytes)
  {
    && |buf| >= 2
    && |buf| >= buf[1] as int + 3
    && |buf| >= buf[1] as int + 3 + buf[buf[1] as int + 2] + IV_BYTES + TAG_BYTES + 1
  }

  function Slices(buf: bytes): Result<Raw, TokenError>
  {
    if !HasLayout(buf) then Err(BadFormat)
    else
      var user := buf[1] as int + 3;
      var iv := user + buf[user - 1];
      Ok(Raw(buf[0], buf[2..user - 1], buf[user..iv], buf[iv..iv + IV_BYTES],
             buf[iv + IV_BYTES..|buf| - TAG_BYTES], buf[|buf| - TAG_BYTES..]))
  }

  /** Reading recovers every part of a buffer the wrapper laid out. */
  lemma SlicesOfLayout(p: Raw)
    requires p.Valid()
    ensures Slices(p.Layout()) == Ok(p)
  {
    var buf := p.Layout();
    var user := 3 + |p.appId|;
    var iv := user + |p.userKey|;
    assert buf[0] == p.version && buf[1] == |p.appId| && buf[user - 1] == |p.userKey|;
    assert buf[2..user - 1] == p.appId;
    assert buf[user..iv] == p.userKey;
    assert buf[iv..iv + IV_BYTES] == p.iv;
    assert buf[|buf| - TAG_BYTES..] == p.tag;
    assert buf[iv + IV_BYTES..|buf| - TAG_BYTES] == p.ciphertext;
  }

  /** The layout is what concat builds from the eight parts the wrapper hands it. */
  lemma LayoutIsConcatenation(p: Raw)
    requires |p.appId| < 256 && |p.userKey| < 256
    ensures Flatten([[p.version], [|p.appId|], p.appId, [|p.userKey|], p.userKey, p.iv, p.ciphertext, p.tag])
            == p.Layout()
  {
    var head: seq<bytes> := [[p.version], [|p.appId|], p.appId, [|p.userKey|]];
    var tail := [p.userKey, p.iv, p.ciphertext, p.tag];
    FlattenFour([p.version], [|p.appId|], p.appId, [|p.userKey|]);
    FlattenFour(p.userKey, p.iv, p.ciphertext, p.tag);
    FlattenAppend(head, tail);
    assert head + tail == [[p.version], [|p.appId|], p.appId, [|p.userKey|], p.userKey, p.iv, p.ciphertext, p.tag];
    Regroup([p.version] + [|p.appId|] + p.appId + [|p.userKey|], p.userKey, p.iv, p.ciphertext, p.tag);
  }

  lemma Regroup(front: bytes, a: bytes, b: bytes, c: bytes, d: bytes)
    ensures front + (a + b + c + d) == front + a + b + c + d
  {
  }

  lemma FlattenFour(a: bytes, b: bytes, c: bytes, d: bytes)
    ensures Flatten([a, b, c, d]) == a + b + c + d
  {
    FlattenPair(a, b);
    FlattenSnoc([a, b], c);
    FlattenSnoc([a, b, c], d);
    assert [a, b] + [c] == [a, b, c] && [a, b, c] + [d] == [a, b, c, d];
  }

  lemma FlattenPair(x: bytes, y: bytes)
    ensures Flatten([x, y]) == x + y
  {
    assert [x, y][..1] == [x] && [x][..0] == [] && Flatten([x]) == [] + x == x;
  }

  lemma FlattenSnoc(parts: seq<bytes>, last: bytes)
    ensures Flatten(parts + [last]) == Flatten(parts) + last
  {
    assert (parts + [last])[..|parts|] == parts;
  }

  /** An accepted buffer is rebuilt byte for byte from its slices. */
  lemma LayoutOfSlices(buf: bytes)
    requires HasLayout(buf)
    ensures Slices(buf).value.Valid() && Slices(buf).value.Layout() == buf
  {
  }

  /** A buffer is accepted exactly when it is the layout of some parts. */
  lemma AcceptedExactlyOnLayouts(buf: bytes)
    ensures Slices(buf).Ok? <==> exists p: Raw :: p.Valid() && p.Layout() == buf
  {
    if Slices(buf).Ok? {
      LayoutOfSlices(buf);
    }
    if p: Raw :| p.Valid() && p.Layout() == buf {
      SlicesOfLayout(p);
    }
  }

  // ---- tokens --------------------------------------------------------------

  const PREFIX := "ait_"

  datatype Parsed = Parsed(
    version: byte, appId: string, userKey: string, iv: bytes, ciphertext: bytes, tag: bytes)

  function TokenSlices(token: string): Result<Raw, TokenError>
  {
    if !(PREFIX <= token) then Err(BadFormat)
    else match Base64.UrlBytes(token[4..])
         case Err(_) => Err(BadFormat)
         case Ok(buf) => Slices(buf)
  }

  function ToParsed(raw: Raw): Parsed
  {
    Parsed(raw.version, Decode(raw.appId), Decode(raw.userKey), raw.iv, raw.ciphertext, raw.tag)
  }

  function Parse(token: string): Result<Parsed, TokenError>
  {
    match TokenSlices(token)
    case Err(e) => Err(e)
    case Ok(raw) => Ok(ToParsed(raw))
  }

  method ParseSealed(token: string) returns (r: Result<Parsed, TokenError>)
    ensures r == Parse(token)
  {
    if !(PREFIX <= token) {
      return Err(BadFormat);
    }
    var buf := Base64.FromBase64Url(token[4..]);
    if buf.Err? {
      return Err(BadFormat);
    }
    var raw := ReadLayout(buf.value);
    if raw.Err? {
      return Err(raw.error);
    }
    return Ok(ToParsed(raw.value));
  }

  // ---- associated data -----------------------------------------------------

  /** The decimal digits of a number, as a template string prints it. */
  function Decimal(n: nat): string
  {
    if n < 10 then [('0' as int + n) as char] else Decimal(n / 10) + [('0' as int + n % 10) as char]
  }

  function AadText(appId: string, userKey: string, version: nat, t: TokenType): string
  {
    appId + " " + userKey + " " + Decimal(version) + " " + TypeName(t)
  }

  function BuildAad(appId: string, userKey: string, version: nat, t: TokenType): bytes
  {
    Encode(AadText(appId, userKey, version, t))
  }

  predicate SpaceFree(s: string)
  {
    ' ' !in s
  }

  lemma {:induction false} DecimalIsSpaceFree(n: nat)
    ensures SpaceFree(Decimal(n)) && Decimal(n) != ""
  {
    if n >= 10 {
      DecimalIsSpaceFree(n / 10);
    }
  }

  lemma {:induction false} DecimalInjective(m: nat, n: nat)
    requires Decimal(m) == Decimal(n)
    ensures m == n
  {
    DecimalIsSpaceFree(m / 10);
    DecimalIsSpaceFree(n / 10);
    var dm, dn := Decimal(m), Decimal(n);
    assert dm[|dm| - 1] == dn[|dn| - 1];
    if m >= 10 && n >= 10 {
      assert Decimal(m / 10) == dm[..|dm| - 1] == dn[..|dn| - 1] == Decimal(n / 10);
      DecimalInjective(m / 10, n / 10);
    }
  }

  lemma SplitAtFirstSpace(a: string, rest: string, a': string, rest': string)
    requires SpaceFree(a) && SpaceFree(a')
    requires a + " " + rest == a' + " " + rest'
    ensures a == a' && rest == rest'
  {
    var s, s' := a + " " + rest, a' + " " + rest';
    assert s[|a|] == ' ' && s'[|a'|] == ' ';
    assert forall i :: 0 <= i < |a| ==> s[i] == a[i];
    assert forall i :: 0 <= i < |a'| ==> s'[i] == a'[i];
    assert |a| == |a'|;
    assert a == s[..|a|] && rest == s[|a| + 1..];
    assert a' == s'[..|a|] && rest' == s'[|a| + 1..];
  }

  lemma SplitAtLastSpace(front: string, b: string, front': string, b': string)
    requires SpaceFree(b) && SpaceFree(b')
    requires front + " " + b == front' + " " + b'
    ensures front == front' && b == b'
  {
    var s, s' := front + " " + b, front' + " " + b';
    var n := |s|;
    assert s[n - 1 - |b|] == ' ' && s'[n - 1 - |b'|] == ' ';
    assert forall j :: n - |b| <= j < n ==> s[j] == b[j - (n - |b|)];
    assert forall j :: n - |b'| <= j < n ==> s'[j] == b'[j - (n - |b'|)];
    assert |b| == |b'|;
    assert front == s[..n - 1 - |b|] && b == s[n - |b|..];
    assert front' == s'[..n - 1 - |b|] && b' == s'[n - |b|..];
  }

  /** Two tokens share their associated data exactly when only the split between id and user key may differ. */
  lemma AadEqualExactly(
    appId: string, userKey: string, version: nat, t: TokenType,
    appId': string, userKey': string, version': nat, t': TokenType)
    ensures BuildAad(appId, userKey, version, t) == BuildAad(appId', userKey', version', t')
            <==> appId + " " + userKey == appId' + " " + userKey' && version == version' && t == t'
  {
    if BuildAad(appId, userKey, version, t) == BuildAad(appId', userKey', version', t') {
      EncodeInjective(AadText(appId, userKey, version, t), AadText(appId', userKey', version', t'));
      DecimalIsSpaceFree(version);
      DecimalIsSpaceFree(version');
      SplitAtLastSpace(appId + " " + userKey + " " + Decimal(version), TypeName(t),
                       appId' + " " + userKey' + " " + Decimal(version'), TypeName(t'));
      SplitAtLastSpace(appId + " " + userKey, Decimal(version), appId' + " " + userKey', Decimal(version'));
      DecimalInjective(version, version');
      assert t == t' by { assert TypeName(t)[0] == TypeName(t')[0]; }
    }
  }

  /** The associated data determines application, user key, version and type when application ids hold no space. */
  lemma AadInjective(
    appId: string, userKey: string, version: nat, t: TokenType,
    appId': string, userKey': string, version': nat, t': TokenType)
    requires SpaceFree(appId) && SpaceFree(appId')
    requires BuildAad(appId, userKey, version, t) == BuildAad(appId', userKey', version', t')
    ensures appId == appId' && userKey == userKey' && version == version' && t == t'
  {
    AadEqualExactly(appId, userKey, version, t, appId', userKey', version', t');
    SplitAtFirstSpace(appId, userKey, appId', userKey');
  }

  /** With a space in the application id two different tokens share their associated data. */
  lemma AadCollidesWithSpaces(a: string, b: string, c: string, version: nat, t: TokenType)
    ensures BuildAad(a + " " + b, c, version, t) == BuildAad(a, b + " " + c, version, t)
  {
    assert (a + " " + b) + " " + c == a + " " + (b + " " + c);
  }

  /** A column sealed under a bare application id never shares the associated data of a token. */
  lemma AadIsNotAColumn(appId: string, userKey: string, version: nat, t: TokenType, column: string)
    requires SpaceFree(column)
    ensures BuildAad(appId, userKey, version, t) != Encode(column)
  {
    var text := AadText(appId, userKey, version, t);
    assert text[|appId|] == ' ';
    if Encode(text) == Encode(column) {
      EncodeInjective(text, column);
      assert false;
    }
  }

  // ---- wrap and unwrap -----------------------------------------------------

  type nonce = iv: bytes | |iv| == IV_BYTES witness [0, 0, 0, 0, 0, 0, 0, 0, 0, 0, 0, 0]

  datatype WrapError = KeyLength | VersionRange | AppIdLength | UserKeyLength | TagLength

  /** A sealed token with the box the cipher made for it and what that box holds. */
  datatype Wrapped = Wrapped(token: string, box: Box, plain: bytes)

  function Wrap(cipher: Cipher, json: Json, key: bytes, version: int, payload: Payload, iv: nonce)
    : Result<Wrapped, WrapError>
  {
    var appId, userKey := Encode(payload.appId), Encode(payload.tossUserKey);
    if |key| != KEY_BYTES then Err(KeyLength)
    else if version < 1 || version > 255 then Err(VersionRange)
    else if |appId| == 0 || |appId| > 255 then Err(AppIdLength)
    else if |userKey| == 0 || |userKey| > 255 then Err(UserKeyLength)
    else
      var aad := BuildAad(payload.appId, payload.tossUserKey, version, payload.tokenType);
      var plain := Encode(json.stringify(payload));
      var box := Seal(cipher, key, iv, aad, plain);
      if |box.tag| != TAG_BYTES then Err(TagLength)
      else
        var raw := Raw(version, appId, userKey, iv, box.ciphertext, box.tag);
        Ok(Wrapped(PREFIX + Base64.UrlText(raw.Layout()), box, plain))
  }

  /** Decrypts the parsed parts and compares the payload with what the caller expects. */
  function DecryptOrThrow(
    json: Json, log: Log, parts: Parsed, resolveKey: int -> bytes, expectedAppId: string, expectedType: TokenType)
    : Result<Payload, TokenError>
  {
    var key := resolveKey(parts.version);
    if |key| != KEY_BYTES then Err(BadKey)
    else
      var aad := BuildAad(expectedAppId, parts.userKey, parts.version, expectedType);
      match Open(log, Box(key, parts.iv, aad, parts.ciphertext, parts.tag))
      case None => Err(Tampered)
      case Some(plain) =>
        match json.parse(Decode(plain))
        case None => Err(BadPayload)
        case Some(payload) =>
          if payload.appId != expectedAppId || payload.tossUserKey != parts.userKey || payload.tokenType != expectedType
          then Err(Tampered)
          else Ok(payload)
  }

  function Unwrap(
    json: Json, log: Log, token: string, resolveKey: int -> bytes, expectedAppId: string, expectedType: TokenType)
    : Result<Payload, TokenError>
  {
    match Parse(token)
    case Err(e) => Err(e)
    case Ok(parts) =>
      if parts.appId != expectedAppId then Err(Tampered)
      else DecryptOrThrow(json, log, parts, resolveKey, expectedAppId, expectedType)
  }

  /**
   * What a wrapped token is, byte for byte: the prefix and the base64url text of version, counted ids, nonce,
   * ciphertext and tag, sealed with id, user key, version and type, between spaces, as associated data.
   */
  lemma WrappedTokenText(cipher: Cipher, json: Json, key: bytes, version: int, payload: Payload, iv: nonce)
    requires Wrap(cipher, json, key, version, payload, iv).Ok?
    ensures 1 <= version <= 255 && |Encode(payload.appId)| <= 255 && |Encode(payload.tossUserKey)| <= 255
    ensures var w := Wrap(cipher, json, key, version, payload, iv).value;
            var (appId, userKey) := (Encode(payload.appId), Encode(payload.tossUserKey));
            var kind := if payload.tokenType == Access then "access" else "refresh";
            var aad := Encode(payload.appId + " " + payload.tossUserKey + " " + Decimal(version) + " " + kind);
            var sealed := cipher(key, iv, aad, Encode(json.stringify(payload)));
            && w.token == "ait_" + Base64.UrlText([version] + [|appId|] + appId + [|userKey|] + userKey + iv
                                                  + sealed.ciphertext + sealed.tag)
            && w.box == Box(key, iv, aad, sealed.ciphertext, sealed.tag)
            && w.plain == Encode(json.stringify(payload))
  {
  }

  /** A wrapped token parses to its own parts; the ids lose a leading byte order mark. */
  lemma WrappedTokenParses(cipher: Cipher, json: Json, key: bytes, version: int, payload: Payload, iv: nonce)
    requires Lawful(cipher) && json.Lawful()
    requires Wrap(cipher, json, key, version, payload, iv).Ok?
    ensures var w := Wrap(cipher, json, key, version, payload, iv).value;
            Parse(w.token) == Ok(Parsed(version, Decode(Encode(payload.appId)), Decode(Encode(payload.tossUserKey)),
                                        iv, w.box.ciphertext, w.box.tag))
  {
    var w := Wrap(cipher, json, key, version, payload, iv).value;
    var raw := Raw(version, Encode(payload.appId), Encode(payload.tossUserKey), iv, w.box.ciphertext, w.box.tag);
    assert |w.plain| >= 1 && raw.Valid();
    SlicesOfLayout(raw);
    Base64.Base64UrlRoundTrip(raw.Layout());
    assert w.token[4..] == Base64.UrlText(raw.Layout());
  }

  lemma PayloadSurvivesText(json: Json, payload: Payload)
    requires json.Lawful()
    ensures json.parse(Decode(Encode(json.stringify(payload)))) == Some(payload)
  {
    Utf8RoundTrip(json.stringify(payload));
  }

  /** Opening any box that shares nonce and ciphertext with a wrapped token yields the wrapped payload or nothing. */
  lemma OnlyTheWrappedPayload(
    cipher: Cipher, json: Json, log: Log, key: bytes, version: int, payload: Payload, iv: nonce, aad: bytes)
    requires Lawful(cipher) && json.Lawful() && Honest(cipher, log)
    requires Wrap(cipher, json, key, version, payload, iv).Ok?
    requires var w := Wrap(cipher, json, key, version, payload, iv).value; w.box in log && log[w.box] == w.plain
    ensures var w := Wrap(cipher, json, key, version, payload, iv).value;
            var box := Box(key, iv, aad, w.box.ciphertext, w.box.tag);
            box in log ==> json.parse(Decode(log[box])) == Some(payload)
  {
    var w := Wrap(cipher, json, key, version, payload, iv).value;
    var box := Box(key, iv, aad, w.box.ciphertext, w.box.tag);
    PayloadSurvivesText(json, payload);
    if box in log {
      CiphertextFixesPlaintext(cipher, log, box, w.box);
    }
  }

  /**
   * Sealing then opening. A wrapped token opens to its payload, for the right application and type, in every honest
   * log that holds its box, exactly when neither id starts with a byte order mark.
   */
  lemma SealRoundTrip(
    cipher: Cipher, json: Json, log: Log, key: bytes, version: int, payload: Payload, iv: nonce,
    resolveKey: int -> bytes)
    requires Lawful(cipher) && json.Lawful() && Honest(cipher, log)
    requires Wrap(cipher, json, key, version, payload, iv).Ok? && resolveKey(version) == key
    requires var w := Wrap(cipher, json, key, version, payload, iv).value; w.box in log && log[w.box] == w.plain
    ensures var token := Wrap(cipher, json, key, version, payload, iv).value.token;
            (Unwrap(json, log, token, resolveKey, payload.appId, payload.tokenType) == Ok(payload))
            <==> (!StartsWithBom(payload.appId) && !StartsWithBom(payload.tossUserKey))
  {
    WrappedTokenParses(cipher, json, key, version, payload, iv);
    Utf8RoundTrip(payload.appId);
    Utf8RoundTrip(payload.tossUserKey);
    PayloadSurvivesText(json, payload);
    if StartsWithBom(payload.tossUserKey) {
      OnlyTheWrappedPayload(cipher, json, log, key, version, payload, iv,
                            BuildAad(payload.appId, Decode(Encode(payload.tossUserKey)), version, payload.tokenType));
    }
  }

  /** Any other application or type is refused. */
  lemma WrongExpectationFails(
    cipher: Cipher, json: Json, log: Log, key: bytes, version: int, payload: Payload, iv: nonce,
    resolveKey: int -> bytes, expectedAppId: string, expectedType: TokenType)
    requires Lawful(cipher) && json.Lawful() && Honest(cipher, log)
    requires Wrap(cipher, json, key, version, payload, iv).Ok? && resolveKey(version) == key
    requires var w := Wrap(cipher, json, key, version, payload, iv).value; w.box in log && log[w.box] == w.plain
    requires expectedAppId != payload.appId || expectedType != payload.tokenType
    ensures var token := Wrap(cipher, json, key, version, payload, iv).value.token;
            Unwrap(json, log, token, resolveKey, expectedAppId, expectedType) == Err(Tampered)
  {
    WrappedTokenParses(cipher, json, key, version, payload, iv);
    OnlyTheWrappedPayload(cipher, json, log, key, version, payload, iv,
                          BuildAad(expectedAppId, Decode(Encode(payload.tossUserKey)), version, expectedType));
  }

  /** Wrapping succeeds exactly on a 32-byte key, a one-byte positive version and ids of 1 to 255 bytes. */
  lemma WrapSucceedsExactly(cipher: Cipher, json: Json, key: bytes, version: int, payload: Payload, iv: nonce)
    requires Lawful(cipher)
    ensures Wrap(cipher, json, key, version, payload, iv).Ok?
      <==> |key| == 32 && 1 <= version <= 255
           && 1 <= |Encode(payload.appId)| <= 255 && 1 <= |Encode(payload.tossUserKey)| <= 255
  {
  }
}

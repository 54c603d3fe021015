/**
 * base64url as src/core/bytes.ts builds it on btoa and atob: the standard alphabet of section 4 of RFC 4648,
 * then the url-safe alphabet of section 5 without padding. atob is the forgiving decoder of the WHATWG Infra
 * Standard: it drops ASCII white space, tolerates missing padding and ignores non-zero trailing bits.
 */
module Base64 {
  import opened Wrappers
  import opened Bytes

  /** Table 1 of RFC 4648. */
  function StdChar(v: int): (c: char)
    requires 0 <= v < 64
    ensures StdValue(c) == Some(v) && c != '=' && c != '-' && c != '_' && !IsAsciiSpace(c)
  {
    if v < 26 then (65 + v) as char
    else if v < 52 then (71 + v) as char
    else if v < 62 then (v - 4) as char
    else if v == 62 then '+'
    else '/'
  }

  /** Table 2 of RFC 4648. */
  function UrlChar(v: int): (c: char)
    requires 0 <= v < 64
    ensures IsUrlChar(c) && UrlValue(c) == v
    ensures var std := StdChar(v); c == if std == '+' then '-' else if std == '/' then '_' else std
  {
    if v == 62 then '-' else if v == 63 then '_' else StdChar(v)
  }

  function StdValue(c: char): (v: Option<int>)
    ensures v.Some? ==> 0 <= v.value < 64
  {
    if 'A' <= c <= 'Z' then Some(c as int - 65)
    else if 'a' <= c <= 'z' then Some(c as int - 71)
    else if '0' <= c <= '9' then Some(c as int + 4)
    else if c == '+' then Some(62)
    else if c == '/' then Some(63)
    else None
  }

  const UPPER := "ABCDEFGHIJKLMNOPQRSTUVWXYZ"
  const LOWER := "abcdefghijklmnopqrstuvwxyz"
  const DIGITS := "0123456789"

  lemma UpperLetters(v: int)
    requires 0 <= v < 26
    ensures (65 + v) as char == UPPER[v]
  {
  }

  lemma LowerLetters(v: int)
    requires 0 <= v < 26
    ensures (97 + v) as char == LOWER[v]
  {
  }

  lemma DigitsOfTen(v: int)
    requires 0 <= v < 10
    ensures (48 + v) as char == DIGITS[v]
  {
  }

  /** The two alphabets, in the order the tables of RFC 4648 list them. */
  lemma Alphabets(v: int)
    requires 0 <= v < 64
    ensures StdChar(v) == (UPPER + LOWER + DIGITS + "+/")[v]
    ensures UrlChar(v) == (UPPER + LOWER + DIGITS + "-_")[v]
  {
    if v < 26 {
      UpperLetters(v);
    } else if v < 52 {
      LowerLetters(v - 26);
    } else if v < 62 {
      DigitsOfTen(v - 52);
    }
  }

  // ---- the bits ------------------------------------------------------------

  /** Characters needed for n bytes without padding: the ceiling of 4n/3. */
  function UnpaddedLength(n: nat): nat { (4 * n + 2) / 3 }

  function ByteOrZero(u: bytes, i: nat): byte { if i < |u| then u[i] else 0 }

  /** Bits 6k to 6k+5 of the buffer read as one bit string followed by zeros. */
  function Sextet(u: bytes, k: nat): (v: int)
    ensures 0 <= v < 64
  {
    var i := k / 4 * 3;
    match k % 4
    case 0 => ByteOrZero(u, i) / 4
    case 1 => ByteOrZero(u, i) % 4 * 16 + ByteOrZero(u, i + 1) / 16
    case 2 => ByteOrZero(u, i + 1) % 16 * 4 + ByteOrZero(u, i + 2) / 64
    case _ => ByteOrZero(u, i + 2) % 64
  }

  type sextets = d: seq<int> | forall j :: 0 <= j < |d| ==> 0 <= d[j] < 64

  /** Bits 8i to 8i+7 of the sextets read as one bit string. */
  function Octet(d: sextets, i: nat): byte
    requires i < |d| * 3 / 4
  {
    var j := i / 3 * 4;
    match i % 3
    case 0 => d[j] * 4 + d[j + 1] / 16
    case 1 => d[j + 1] % 16 * 16 + d[j + 2] / 4
    case _ => d[j + 2] % 4 * 64 + d[j + 3]
  }

  function Octets(d: sextets): bytes
  {
    seq(|d| * 3 / 4, i requires 0 <= i < |d| * 3 / 4 => Octet(d, i))
  }

  function Sextets(u: bytes): (d: sextets)
    ensures |d| == UnpaddedLength(|u|)
  {
    seq(UnpaddedLength(|u|), k requires 0 <= k < UnpaddedLength(|u|) => Sextet(u, k))
  }

  /** The bits left over after the last whole byte are zero. */
  predicate NoStrayBits(d: sextets)
  {
    && |d| % 4 != 1
    && (|d| % 4 == 2 ==> d[|d| - 1] % 16 == 0)
    && (|d| % 4 == 3 ==> d[|d| - 1] % 4 == 0)
  }

  lemma OctetsOfSextets(u: bytes)
    ensures Octets(Sextets(u)) == u && NoStrayBits(Sextets(u))
  {
    var d := Sextets(u);
    forall i | 0 <= i < |u| ensures Octets(d)[i] == u[i] {
      OctetOfSextets(u, i);
    }
    assert Octets(d) == u;
    StrayBitsAreZero(u);
  }

  lemma SextetGroup(u: bytes, q: nat)
    ensures Sextet(u, 4 * q) == ByteOrZero(u, 3 * q) / 4
    ensures Sextet(u, 4 * q + 1) == ByteOrZero(u, 3 * q) % 4 * 16 + ByteOrZero(u, 3 * q + 1) / 16
    ensures Sextet(u, 4 * q + 2) == ByteOrZero(u, 3 * q + 1) % 16 * 4 + ByteOrZero(u, 3 * q + 2) / 64
    ensures Sextet(u, 4 * q + 3) == ByteOrZero(u, 3 * q + 2) % 64
  {
    assert 4 * q / 4 == q && (4 * q + 1) / 4 == q && (4 * q + 2) / 4 == q && (4 * q + 3) / 4 == q;
  }

  lemma OctetGroup(d: sextets, q: nat)
    ensures 3 * q < |d| * 3 / 4 ==> Octet(d, 3 * q) == d[4 * q] * 4 + d[4 * q + 1] / 16
    ensures 3 * q + 1 < |d| * 3 / 4 ==> Octet(d, 3 * q + 1) == d[4 * q + 1] % 16 * 16 + d[4 * q + 2] / 4
    ensures 3 * q + 2 < |d| * 3 / 4 ==> Octet(d, 3 * q + 2) == d[4 * q + 2] % 4 * 64 + d[4 * q + 3]
  {
    assert 3 * q / 3 == q && (3 * q + 1) / 3 == q && (3 * q + 2) / 3 == q;
    assert 3 * q % 3 == 0 && (3 * q + 1) % 3 == 1 && (3 * q + 2) % 3 == 2;
  }

  /** Splitting three bytes into four sextets and joining them again. */
  lemma SplitJoin(b0: byte, b1: byte, b2: byte)
    ensures b0 / 4 * 4 + (b0 % 4 * 16 + b1 / 16) / 16 == b0
    ensures (b0 % 4 * 16 + b1 / 16) % 16 * 16 + (b1 % 16 * 4 + b2 / 64) / 4 == b1
    ensures (b1 % 16 * 4 + b2 / 64) % 4 * 64 + b2 % 64 == b2
  {
  }

  /** Joining four sextets into three bytes and splitting them again. */
  lemma JoinSplit(d0: int, d1: int, d2: int, d3: int)
    requires 0 <= d0 < 64 && 0 <= d1 < 64 && 0 <= d2 < 64 && 0 <= d3 < 64
    ensures (d0 * 4 + d1 / 16) / 4 == d0
    ensures (d0 * 4 + d1 / 16) % 4 * 16 + (d1 % 16 * 16 + d2 / 4) / 16 == d1
    ensures (d1 % 16 * 16 + d2 / 4) % 16 * 4 + (d2 % 4 * 64 + d3) / 64 == d2
    ensures (d2 % 4 * 64 + d3) % 64 == d3
  {
  }

  function SextetOrZero(d: sextets, k: nat): (v: int)
    ensures 0 <= v < 64
  {
    if k < |d| then d[k] else 0
  }

  /** Which places of group q exist among n sextets and the bytes they make. */
  lemma GroupOfSextets(n: nat, q: nat)
    requires n % 4 != 1
    ensures 4 * q < n <==> 3 * q < n * 3 / 4
    ensures 4 * q + 1 < n <==> 3 * q < n * 3 / 4
    ensures 4 * q + 2 < n <==> 3 * q + 1 < n * 3 / 4
    ensures 4 * q + 3 < n <==> 3 * q + 2 < n * 3 / 4
  {
  }

  /** Which places of group q exist among n bytes and the sextets they make. */
  lemma GroupOfBytes(n: nat, q: nat)
    ensures 3 * q < n <==> 4 * q < UnpaddedLength(n)
    ensures 3 * q < n <==> 4 * q + 1 < UnpaddedLength(n)
    ensures 3 * q + 1 < n <==> 4 * q + 2 < UnpaddedLength(n)
    ensures 3 * q + 2 < n <==> 4 * q + 3 < UnpaddedLength(n)
  {
  }

  lemma MissingSextets(d: sextets, q: nat)
    requires NoStrayBits(d) && 4 * q < |d|
    ensures SextetOrZero(d, 4 * q) == d[4 * q] && 4 * q + 1 < |d|
    ensures 4 * q + 2 >= |d| ==> d[4 * q + 1] % 16 == 0
    ensures 4 * q + 2 < |d| && 4 * q + 3 >= |d| ==> d[4 * q + 2] % 4 == 0
  {
  }

  /** With zeros for what is missing, every group of three bytes joins its group of four sextets. */
  lemma OctetGroupPadded(d: sextets, q: nat)
    requires NoStrayBits(d) && 4 * q < |d|
    ensures ByteOrZero(Octets(d), 3 * q) == SextetOrZero(d, 4 * q) * 4 + SextetOrZero(d, 4 * q + 1) / 16
    ensures ByteOrZero(Octets(d), 3 * q + 1) == SextetOrZero(d, 4 * q + 1) % 16 * 16 + SextetOrZero(d, 4 * q + 2) / 4
    ensures ByteOrZero(Octets(d), 3 * q + 2) == SextetOrZero(d, 4 * q + 2) % 4 * 64 + SextetOrZero(d, 4 * q + 3)
  {
    OctetGroup(d, q);
    GroupOfSextets(|d|, q);
    MissingSextets(d, q);
    assert 3 * q < |Octets(d)| ==> Octets(d)[3 * q] == Octet(d, 3 * q);
    assert 3 * q + 1 < |Octets(d)| ==> Octets(d)[3 * q + 1] == Octet(d, 3 * q + 1);
    assert 3 * q + 2 < |Octets(d)| ==> Octets(d)[3 * q + 2] == Octet(d, 3 * q + 2);
  }

  /** The sextets of group q, with zeros past the end. */
  lemma SextetGroupOf(u: bytes, q: nat)
    ensures SextetOrZero(Sextets(u), 4 * q) == ByteOrZero(u, 3 * q) / 4
    ensures SextetOrZero(Sextets(u), 4 * q + 1) == ByteOrZero(u, 3 * q) % 4 * 16 + ByteOrZero(u, 3 * q + 1) / 16
    ensures SextetOrZero(Sextets(u), 4 * q + 2) == ByteOrZero(u, 3 * q + 1) % 16 * 4 + ByteOrZero(u, 3 * q + 2) / 64
    ensures SextetOrZero(Sextets(u), 4 * q + 3) == ByteOrZero(u, 3 * q + 2) % 64
  {
    SextetGroup(u, q);
    GroupOfBytes(|u|, q);
  }

  lemma OctetOfSextets(u: bytes, i: nat)
    requires i < |u|
    ensures Octet(Sextets(u), i) == u[i]
  {
    var d, q := Sextets(u), i / 3;
    StrayBitsAreZero(u);
    var b0, b1, b2 := ByteOrZero(u, 3 * q), ByteOrZero(u, 3 * q + 1), ByteOrZero(u, 3 * q + 2);
    assert ByteOrZero(Octets(d), 3 * q) == b0 && ByteOrZero(Octets(d), 3 * q + 1) == b1
           && ByteOrZero(Octets(d), 3 * q + 2) == b2 by {
      SextetGroupOf(u, q);
      OctetGroupPadded(d, q);
      SplitJoin(b0, b1, b2);
    }
    assert i == 3 * q || i == 3 * q + 1 || i == 3 * q + 2;
    assert Octets(d)[i] == Octet(d, i);
  }

  lemma StrayBitsAreZero(u: bytes)
    ensures NoStrayBits(Sextets(u))
  {
    var d, q := Sextets(u), |u| / 3;
    assert |u| == 3 * q + |u| % 3;
    assert |d| == 4 * q + (if |u| % 3 == 0 then 0 else |u| % 3 + 1);
    if |u| % 3 != 0 {
      var k := |d| - 1;
      assert k / 4 == q && k % 4 == |u| % 3;
    }
  }

  lemma SextetsOfOctets(d: sextets)
    requires NoStrayBits(d)
    ensures Sextets(Octets(d)) == d
  {
    var u, q := Octets(d), |d| / 4;
    assert |d| == 4 * q + |d| % 4;
    assert |u| == 3 * q + (if |d| % 4 == 0 then 0 else |d| % 4 - 1);
    forall k | 0 <= k < |d| ensures Sextets(u)[k] == d[k] {
      SextetOfOctets(d, k);
    }
    assert Sextets(u) == d;
  }

  lemma SextetGroupOfOctets(d: sextets, q: nat)
    requires NoStrayBits(d) && 4 * q < |d|
    ensures Sextet(Octets(d), 4 * q) == SextetOrZero(d, 4 * q)
    ensures Sextet(Octets(d), 4 * q + 1) == SextetOrZero(d, 4 * q + 1)
    ensures Sextet(Octets(d), 4 * q + 2) == SextetOrZero(d, 4 * q + 2)
    ensures Sextet(Octets(d), 4 * q + 3) == SextetOrZero(d, 4 * q + 3)
  {
    SextetGroup(Octets(d), q);
    OctetGroupPadded(d, q);
    JoinSplit(SextetOrZero(d, 4 * q), SextetOrZero(d, 4 * q + 1), SextetOrZero(d, 4 * q + 2),
              SextetOrZero(d, 4 * q + 3));
  }

  lemma SextetOfOctets(d: sextets, k: nat)
    requires NoStrayBits(d) && k < |d|
    ensures Sextet(Octets(d), k) == d[k]
  {
    var q := k / 4;
    SextetGroupOfOctets(d, q);
    assert SextetOrZero(d, k) == d[k];
    if k % 4 == 0 {
      assert k == 4 * q;
    } else if k % 4 == 1 {
      assert k == 4 * q + 1;
    } else if k % 4 == 2 {
      assert k == 4 * q + 2;
    } else {
      assert k == 4 * q + 3;
    }
  }

  // ---- btoa and atob -------------------------------------------------------

  function BinaryBytes(bin: string): (r: Option<bytes>)
    ensures r.Some? ==> |r.value| == |bin|
  {
    if forall i :: 0 <= i < |bin| ==> bin[i] as int < 256
    then Some(seq(|bin|, i requires 0 <= i < |bin| => if bin[i] as int < 256 then bin[i] as int else 0))
    else None
  }

  function BinaryString(u: bytes): (s: string)
    ensures |s| == |u|
  {
    seq(|u|, i requires 0 <= i < |u| => u[i] as char)
  }

  /** btoa: padded standard base64 of a binary string, None where it throws. */
  function Btoa(bin: string): Option<string>
  {
    match BinaryBytes(bin)
    case None => None
    case Some(u) =>
      var n := UnpaddedLength(|u|);
      Some(seq((|u| + 2) / 3 * 4, k requires 0 <= k => if k < n then StdChar(Sextet(u, k)) else '='))
  }

  predicate IsAsciiSpace(c: char)
  {
    c == '\t' || c == '\n' || c as int == 0x0C || c == '\r' || c == ' '
  }

  function WithoutSpaces(s: string): (r: string)
    ensures (forall i :: 0 <= i < |s| ==> !IsAsciiSpace(s[i])) ==> r == s
  {
    if s == "" then ""
    else if IsAsciiSpace(s[0]) then WithoutSpaces(s[1..])
    else
      assert (forall i :: 0 <= i < |s| ==> !IsAsciiSpace(s[i]))
        ==> forall i :: 0 <= i < |s[1..]| ==> !IsAsciiSpace(s[1..][i]);
      [s[0]] + WithoutSpaces(s[1..])
  }

  predicate IsStd(s: string)
  {
    forall k :: 0 <= k < |s| ==> StdValue(s[k]).Some?
  }

  function Values(s: string): sextets
    requires IsStd(s)
  {
    seq(|s|, k requires 0 <= k < |s| => StdValue(s[k]).value)
  }

  /** One or two '=' at the end count as padding when the length is a multiple of four. */
  function Unpadded(s: string): string
  {
    if |s| > 0 && |s| % 4 == 0 && s[|s| - 1] == '='
    then if s[|s| - 2] == '=' then s[..|s| - 2] else s[..|s| - 1]
    else s
  }

  /** atob: the forgiving decoder, None where it throws. */
  function Atob(s: string): (r: Option<string>)
    ensures r.Some? ==> forall i :: 0 <= i < |r.value| ==> r.value[i] as int < 256
  {
    var data := Unpadded(WithoutSpaces(s));
    if |data| % 4 == 1 || !IsStd(data) then None else Some(BinaryString(Octets(Values(data))))
  }

  lemma {:induction false} SpacesDropped(a: string, c: char, b: string)
    requires IsAsciiSpace(c)
    ensures WithoutSpaces(a + [c] + b) == WithoutSpaces(a + b)
  {
    if a == "" {
      assert (a + [c] + b)[1..] == b && a + b == b;
    } else {
      SpacesDropped(a[1..], c, b);
      assert (a + [c] + b)[1..] == a[1..] + [c] + b && (a + b)[1..] == a[1..] + b;
    }
  }

  /** ASCII white space anywhere makes no difference to the decoder. */
  lemma AtobIgnoresSpaces(a: string, c: char, b: string)
    requires IsAsciiSpace(c)
    ensures Atob(a + [c] + b) == Atob(a + b)
  {
    SpacesDropped(a, c, b);
  }

  // ---- the url-safe form ---------------------------------------------------

  function Replace(s: string, from: char, to: char): (r: string)
    ensures |r| == |s|
  {
    seq(|s|, k requires 0 <= k < |s| => if s[k] == from then to else s[k])
  }

  function StripPadding(s: string): (r: string)
    ensures |r| <= |s| && r == s[..|r|]
    ensures r != "" ==> r[|r| - 1] != '='
    ensures forall k :: |r| <= k < |s| ==> s[k] == '='
  {
    if s != "" && s[|s| - 1] == '=' then StripPadding(s[..|s| - 1]) else s
  }

  lemma {:induction false} StripPaddingAt(s: string, n: nat)
    requires n <= |s|
    requires n > 0 ==> s[n - 1] != '='
    requires forall k :: n <= k < |s| ==> s[k] == '='
    ensures StripPadding(s) == s[..n]
  {
    if n < |s| {
      StripPaddingAt(s[..|s| - 1], n);
      assert s[..|s| - 1][..n] == s[..n];
    } else {
      assert s[..n] == s;
    }
  }

  function TextOf(d: sextets): (s: string)
    ensures |s| == |d|
  {
    seq(|d|, k requires 0 <= k < |d| => UrlChar(d[k]))
  }

  /** Character k carries bits 6k to 6k+5 of the buffer; nothing else is written. */
  function UrlText(u: bytes): string
  {
    TextOf(Sextets(u))
  }

  method ToBase64Url(u: bytes) returns (s: string)
    ensures s == UrlText(u)
  {
    var bin := "";
    for i := 0 to |u|
      invariant |bin| == i && forall k :: 0 <= k < i ==> bin[k] == u[k] as char
    {
      bin := bin + [u[i] as char];
    }
    assert BinaryBytes(bin) == Some(u) by {
      assert BinaryBytes(bin).Some?;
      assert BinaryBytes(bin).value == u;
    }
    var std := Btoa(bin).value;
    var text := UrlText(u);
    ghost var out := Replace(Replace(std, '+', '-'), '/', '_');
    assert forall k :: 0 <= k < |out| ==> out[k] == if k < |text| then text[k] else '=';
    StripPaddingAt(out, |text|);
    assert out[..|text|] == text;
    s := StripPadding(Replace(Replace(std, '+', '-'), '/', '_'));
  }

  datatype Base64Error = InvalidLength | InvalidCharacter

  function Padded(std: string): Option<string>
  {
    match |std| % 4
    case 0 => Some(std)
    case 2 => Some(std + "==")
    case 3 => Some(std + "=")
    case _ => None
  }

  /** The standard-alphabet body of a url-safe text: both alphabets folded, trailing padding dropped. */
  function Body(s: string): string
  {
    StripPadding(Replace(Replace(s, '-', '+'), '_', '/'))
  }

  function UrlBytes(s: string): Result<bytes, Base64Error>
  {
    match Padded(Body(s))
    case None => Err(InvalidLength)
    case Some(std) =>
      match Atob(std)
      case None => Err(InvalidCharacter)
      case Some(bin) => match BinaryBytes(bin) case Some(u) => Ok(u) case None => Err(InvalidCharacter)
  }

  /** Copies the character codes of a binary string into a buffer. */
  method BinaryToBytes(bin: string) returns (u: bytes)
    requires forall i :: 0 <= i < |bin| ==> bin[i] as int < 256
    ensures BinaryBytes(bin) == Some(u)
  {
    var out := new byte[|bin|];
    for i := 0 to |bin|
      invariant forall k :: 0 <= k < i ==> out[k] == bin[k] as int
    {
      out[i] := bin[i] as int;
    }
    u := out[..];
    assert u == BinaryBytes(bin).value;
  }

  method PadToGroup(std: string) returns (r: Option<string>)
    ensures r == Padded(std)
  {
    var pad := |std| % 4;
    if pad == 2 {
      return Some(std + "==");
    } else if pad == 3 {
      return Some(std + "=");
    } else if pad == 1 {
      return None;
    }
    return Some(std);
  }

  method FromBase64Url(s: string) returns (r: Result<bytes, Base64Error>)
    ensures r == UrlBytes(s)
  {
    var std := PadToGroup(StripPadding(Replace(Replace(s, '-', '+'), '_', '/')));
    if std.None? {
      return Err(InvalidLength);
    }
    var bin := Atob(std.value);
    if bin.None? {
      return Err(InvalidCharacter);
    }
    var out := BinaryToBytes(bin.value);
    return Ok(out);
  }

  /** The whole decoder on text without white space: what is accepted, and what it denotes. */
  lemma UrlBytesOfPlainText(s: string)
    requires forall k :: 0 <= k < |s| ==> !IsAsciiSpace(s[k])
    ensures var body := Body(s);
            UrlBytes(s) ==
            if |body| % 4 == 1 then Err(InvalidLength)
            else if !IsStd(body) then Err(InvalidCharacter)
            else Ok(Octets(Values(body)))
  {
    var body := Body(s);
    if |body| % 4 != 1 {
      var std := Padded(body).value;
      assert forall k :: 0 <= k < |std| ==> !IsAsciiSpace(std[k]);
      AtobOfPadded(body);
      if IsStd(body) {
        BinaryRoundTrip(Octets(Values(body)));
      }
    }
  }

  lemma UnpaddedOfPadded(body: string)
    requires |body| % 4 != 1
    requires body != "" ==> body[|body| - 1] != '='
    ensures Unpadded(Padded(body).value) == body
  {
    var std := Padded(body).value;
    assert std[..|body|] == body;
  }

  lemma AtobOfPadded(body: string)
    requires |body| % 4 != 1
    requires body != "" ==> body[|body| - 1] != '='
    requires forall k :: 0 <= k < |body| ==> !IsAsciiSpace(body[k])
    ensures Atob(Padded(body).value) == if IsStd(body) then Some(BinaryString(Octets(Values(body)))) else None
  {
    assert WithoutSpaces(Padded(body).value) == Padded(body).value;
    UnpaddedOfPadded(body);
  }

  lemma BinaryRoundTrip(u: bytes)
    ensures BinaryBytes(BinaryString(u)) == Some(u)
  {
    var bin := BinaryString(u);
    assert forall i :: 0 <= i < |bin| ==> bin[i] as int == u[i];
    assert BinaryBytes(bin).Some?;
    assert BinaryBytes(bin).value == u;
  }

  // ---- the round trips -----------------------------------------------------

  predicate IsUrlChar(c: char)
  {
    'A' <= c <= 'Z' || 'a' <= c <= 'z' || '0' <= c <= '9' || c == '-' || c == '_'
  }

  function UrlValue(c: char): (v: int)
    requires IsUrlChar(c)
    ensures 0 <= v < 64
    ensures StdValue(if c == '-' then '+' else if c == '_' then '/' else c) == Some(v)
  {
    if c == '-' then 62 else if c == '_' then 63 else StdValue(c).value
  }

  lemma UrlCharOfValue(c: char)
    requires IsUrlChar(c)
    ensures UrlChar(UrlValue(c)) == c
  {
  }

  /** Unpadded url-safe text of an encodable length whose left-over bits are zero. */
  predicate Canonical(s: string)
  {
    && |s| % 4 != 1
    && (forall k :: 0 <= k < |s| ==> IsUrlChar(s[k]))
    && (|s| % 4 == 2 ==> UrlValue(s[|s| - 1]) % 16 == 0)
    && (|s| % 4 == 3 ==> UrlValue(s[|s| - 1]) % 4 == 0)
  }

  lemma BodyOfUrlText(s: string)
    requires forall k :: 0 <= k < |s| ==> IsUrlChar(s[k])
    ensures IsStd(Body(s)) && |Body(s)| == |s|
    ensures forall k :: 0 <= k < |s| ==> Values(Body(s))[k] == UrlValue(s[k])
    ensures forall k :: 0 <= k < |s| ==> !IsAsciiSpace(s[k])
  {
    var t := Replace(Replace(s, '-', '+'), '_', '/');
    assert forall k :: 0 <= k < |s| ==> StdValue(t[k]) == Some(UrlValue(s[k])) && t[k] != '=';
    StripPaddingAt(t, |t|);
    assert t[..|t|] == t;
  }

  lemma UrlBytesOfUrlText(s: string)
    requires forall k :: 0 <= k < |s| ==> IsUrlChar(s[k])
    requires |s| % 4 != 1
    ensures IsStd(Body(s)) && UrlBytes(s) == Ok(Octets(Values(Body(s))))
  {
    BodyOfUrlText(s);
    UrlBytesOfPlainText(s);
  }

  /** What is written is canonical, and reading it back gives the same bytes. */
  lemma Base64UrlRoundTrip(u: bytes)
    ensures Canonical(UrlText(u))
    ensures UrlBytes(UrlText(u)) == Ok(u)
    ensures |UrlText(u)| == (4 * |u| + 2) / 3
  {
    var s, d := UrlText(u), Sextets(u);
    assert forall k :: 0 <= k < |s| ==> IsUrlChar(s[k]) && UrlValue(s[k]) == d[k];
    OctetsOfSextets(u);
    UrlBytesOfUrlText(s);
    BodyOfUrlText(s);
    assert Values(Body(s)) == d;
  }

  lemma CanonicalSurvives(s: string)
    requires Canonical(s)
    ensures UrlBytes(s).Ok? && UrlText(UrlBytes(s).value) == s
  {
    UrlBytesOfUrlText(s);
    BodyOfUrlText(s);
    var d := Values(Body(s));
    SextetsOfOctets(d);
    forall k | 0 <= k < |s| ensures TextOf(d)[k] == s[k] {
      UrlCharOfValue(s[k]);
    }
    assert TextOf(d) == s;
  }

  /** A text survives reading and writing back exactly when it is canonical. */
  lemma Base64UrlRightInverse(s: string)
    ensures UrlBytes(s).Ok? && UrlText(UrlBytes(s).value) == s <==> Canonical(s)
  {
    if Canonical(s) {
      CanonicalSurvives(s);
    } else if UrlBytes(s).Ok? {
      Base64UrlRoundTrip(UrlBytes(s).value);
    }
  }

  /** The sextets with the bits after the last whole byte cleared. */
  function Cleared(d: sextets): (r: sextets)
    requires |d| % 4 != 1
    ensures |r| == |d| && NoStrayBits(r)
  {
    if d == [] then d
    else
      var last := d[|d| - 1];
      d[|d| - 1 := if |d| % 4 == 2 then last / 16 * 16 else if |d| % 4 == 3 then last / 4 * 4 else last]
  }

  lemma OctetOfCleared(d: sextets, i: nat)
    requires |d| % 4 != 1 && i < |d| * 3 / 4
    ensures Octet(Cleared(d), i) == Octet(d, i)
  {
    var q := i / 3;
    OctetGroup(d, q);
    OctetGroup(Cleared(d), q);
    assert i == 3 * q || i == 3 * q + 1 || i == 3 * q + 2;
    GroupOfSextets(|d|, q);
  }

  /** Sextets denote the same bytes exactly when they agree up to the bits after the last whole byte. */
  lemma OctetsEqualExactly(d: sextets, e: sextets)
    requires |d| % 4 != 1 && |e| % 4 != 1
    ensures Octets(d) == Octets(Cleared(d))
    ensures Octets(d) == Octets(e) <==> Cleared(d) == Cleared(e)
  {
    forall i | 0 <= i < |d| * 3 / 4 ensures Octets(Cleared(d))[i] == Octets(d)[i] {
      OctetOfCleared(d, i);
    }
    forall i | 0 <= i < |e| * 3 / 4 ensures Octets(Cleared(e))[i] == Octets(e)[i] {
      OctetOfCleared(e, i);
    }
    assert Octets(d) == Octets(Cleared(d)) && Octets(e) == Octets(Cleared(e));
    SextetsOfOctets(Cleared(d));
    SextetsOfOctets(Cleared(e));
  }

  /** Equal but for the bits of the last character that lie after the last whole byte. */
  predicate SameUpToTrailingBits(s: string, t: string)
    requires |s| % 4 != 1 && forall k :: 0 <= k < |s| ==> IsUrlChar(s[k])
    requires |t| % 4 != 1 && forall k :: 0 <= k < |t| ==> IsUrlChar(t[k])
  {
    && |s| == |t|
    && (forall k :: 0 <= k < |s| - 1 ==> s[k] == t[k])
    && (s != "" ==>
          var (v, w) := (UrlValue(s[|s| - 1]), UrlValue(t[|t| - 1]));
          match |s| % 4 case 2 => v / 16 == w / 16 case 3 => v / 4 == w / 4 case _ => v == w)
  }

  lemma UrlValueInjective(c: char, d: char)
    requires IsUrlChar(c) && IsUrlChar(d)
    ensures UrlValue(c) == UrlValue(d) <==> c == d
  {
    UrlCharOfValue(c);
    UrlCharOfValue(d);
  }

  lemma ClearedEqualExactly(s: string, t: string, d: sextets, e: sextets)
    requires |s| == |d| && |t| == |e| && |s| % 4 != 1 && |t| % 4 != 1
    requires forall k :: 0 <= k < |s| ==> IsUrlChar(s[k]) && UrlValue(s[k]) == d[k]
    requires forall k :: 0 <= k < |t| ==> IsUrlChar(t[k]) && UrlValue(t[k]) == e[k]
    ensures Cleared(d) == Cleared(e) <==> SameUpToTrailingBits(s, t)
  {
    forall k | 0 <= k < |s| && k < |t| ensures d[k] == e[k] <==> s[k] == t[k] {
      UrlValueInjective(s[k], t[k]);
    }
    var c, c' := Cleared(d), Cleared(e);
    if c == c' {
      forall k | 0 <= k < |s| - 1 ensures s[k] == t[k] {
        assert c[k] == d[k] && c'[k] == e[k];
      }
      if s != "" {
        assert c[|s| - 1] == c'[|s| - 1];
      }
    }
    if SameUpToTrailingBits(s, t) {
      assert forall k :: 0 <= k < |s| ==> c[k] == c'[k];
    }
  }

  /** Two url-safe texts of acceptable length denote the same bytes exactly when they differ in trailing bits only. */
  lemma TrailingBitsAreIgnored(s: string, t: string)
    requires |s| % 4 != 1 && forall k :: 0 <= k < |s| ==> IsUrlChar(s[k])
    requires |t| % 4 != 1 && forall k :: 0 <= k < |t| ==> IsUrlChar(t[k])
    ensures UrlBytes(s).Ok? && UrlBytes(t).Ok?
    ensures UrlBytes(s) == UrlBytes(t) <==> SameUpToTrailingBits(s, t)
  {
    UrlBytesOfUrlText(s);
    UrlBytesOfUrlText(t);
    BodyOfUrlText(s);
    BodyOfUrlText(t);
    var d, e := Values(Body(s)), Values(Body(t));
    OctetsEqualExactly(d, e);
    ClearedEqualExactly(s, t, d, e);
  }
}

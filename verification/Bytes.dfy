/** The byte layer of src/core/bytes.ts: buffers, hex, and comparison. */
module Bytes {
  import opened Wrappers

  type byte = b: int | 0 <= b < 256

  type bytes = seq<byte>

  // ---- concatenation -------------------------------------------------------

  /** The parts one after the other. */
  function Flatten(parts: seq<bytes>): (r: bytes)
  {
    if parts == [] then [] else Flatten(parts[..|parts| - 1]) + parts[|parts| - 1]
  }

  /** Allocates one buffer of the total length and copies each part in at a moving offset. */
  method Concat(parts: seq<bytes>) returns (out: array<byte>)
    ensures fresh(out)
    ensures out[..] == Flatten(parts)
  {
    var total := 0;
    for i := 0 to |parts|
      invariant total == |Flatten(parts[..i])|
    {
      assert parts[..i + 1][..i] == parts[..i];
      total := total + |parts[i]|;
    }
    assert parts[..|parts|] == parts;
    out := new byte[total];
    var off := 0;
    for i := 0 to |parts|
      invariant 0 <= off == |Flatten(parts[..i])|
      invariant off <= total
      invariant out[..off] == Flatten(parts[..i])
    {
      var p := parts[i];
      assert parts[..i + 1][..i] == parts[..i];
      assert off + |p| <= total by { FlattenPrefix(parts, i + 1); }
      forall k | 0 <= k < |p| { out[off + k] := p[k]; }
      assert out[..off + |p|] == Flatten(parts[..i]) + p;
      off := off + |p|;
    }
    assert out[..off] == out[..];
  }

  lemma {:induction false} FlattenPrefix(parts: seq<bytes>, i: nat)
    requires i <= |parts|
    ensures |Flatten(parts[..i])| <= |Flatten(parts)|
    decreases |parts| - i
  {
    if i < |parts| {
      assert parts[..i + 1][..i] == parts[..i];
      FlattenPrefix(parts, i + 1);
    } else {
      assert parts[..i] == parts;
    }
  }

  lemma {:induction false} FlattenAppend(a: seq<bytes>, b: seq<bytes>)
    ensures Flatten(a + b) == Flatten(a) + Flatten(b)
  {
    if b == [] {
      assert a + b == a;
    } else {
      var front := b[..|b| - 1];
      FlattenAppend(a, front);
      assert (a + b)[..|a + b| - 1] == a + front;
    }
  }

  // ---- comparison ----------------------------------------------------------

  /** Stops at the first differing byte. */
  method Equals(a: bytes, b: bytes) returns (r: bool)
    ensures r <==> a == b
  {
    if |a| != |b| {
      return false;
    }
    for i := 0 to |a|
      invariant a[..i] == b[..i]
    {
      if a[i] != b[i] {
        return false;
      }
    }
    assert a == a[..|a|] && b == b[..|a|];
    return true;
  }

  /** Bitwise exclusive or of non-negative integers, bit by bit. */
  function BitXor(a: nat, b: nat): nat
  {
    if a == 0 && b == 0 then 0 else (a + b) % 2 + 2 * BitXor(a / 2, b / 2)
  }

  /** Bitwise or of non-negative integers, bit by bit. */
  function BitOr(a: nat, b: nat): nat
  {
    if a == 0 && b == 0 then 0
    else (if a % 2 == 1 || b % 2 == 1 then 1 else 0) + 2 * BitOr(a / 2, b / 2)
  }

  lemma {:induction false} XorIsZeroExactlyOnEquals(a: nat, b: nat)
    ensures BitXor(a, b) == 0 <==> a == b
    decreases a + b
  {
    if a != 0 || b != 0 {
      XorIsZeroExactlyOnEquals(a / 2, b / 2);
    }
  }

  lemma {:induction false} OrIsZeroExactlyOnZeros(a: nat, b: nat)
    ensures BitOr(a, b) == 0 <==> a == 0 && b == 0
    decreases a + b
  {
    if a != 0 || b != 0 {
      OrIsZeroExactlyOnZeros(a / 2, b / 2);
    }
  }

  /** Visits every byte and collects all differences in one accumulator. */
  method ConstantTimeEquals(a: bytes, b: bytes) returns (r: bool)
    ensures r <==> a == b
  {
    if |a| != |b| {
      return false;
    }
    var diff: nat := 0;
    for i := 0 to |a|
      invariant diff == 0 <==> a[..i] == b[..i]
    {
      XorIsZeroExactlyOnEquals(a[i], b[i]);
      OrIsZeroExactlyOnZeros(diff, BitXor(a[i], b[i]));
      assert a[..i + 1] == a[..i] + [a[i]] && b[..i + 1] == b[..i] + [b[i]];
      diff := BitOr(diff, BitXor(a[i], b[i]));
    }
    assert a == a[..|a|] && b == b[..|a|];
    return diff == 0;
  }

  // ---- hex -----------------------------------------------------------------

  const HEX_CHARS := "0123456789abcdef"

  /** Two lower-case digits per byte, high nibble first. */
  function HexOf(u: bytes): (s: string)
    ensures |s| == 2 * |u|
  {
    seq(2 * |u|, k requires 0 <= k < 2 * |u| =>
      HEX_CHARS[if k % 2 == 0 then u[k / 2] / 16 else u[k / 2] % 16])
  }

  method ToHex(u: bytes) returns (s: string)
    ensures s == HexOf(u)
  {
    s := "";
    for i := 0 to |u|
      invariant |s| == 2 * i
      invariant forall k :: 0 <= k < 2 * i ==> s[k] == HexOf(u)[k]
    {
      var b := u[i];
      s := s + [HEX_CHARS[b / 16]];
      s := s + [HEX_CHARS[b % 16]];
    }
  }

  function HexNibble(c: char): (r: Option<int>)
    ensures r.Some? ==> 0 <= r.value < 16
  {
    var code := c as int;
    if 0x30 <= code <= 0x39 then Some(code - 0x30)
    else if 0x61 <= code <= 0x66 then Some(code - 0x61 + 10)
    else if 0x41 <= code <= 0x46 then Some(code - 0x41 + 10)
    else None
  }

  datatype HexError = OddLength | NonHexCharacter

  predicate IsHex(s: string)
  {
    forall k :: 0 <= k < |s| ==> HexNibble(s[k]).Some?
  }

  /** What a hex text denotes, digits of either case. */
  function HexBytes(s: string): (r: Result<bytes, HexError>)
  {
    if |s| % 2 != 0 then Err(OddLength)
    else if !IsHex(s) then Err(NonHexCharacter)
    else Ok(seq(|s| / 2, i requires 0 <= i < |s| / 2 =>
              HexNibble(s[2 * i]).value * 16 + HexNibble(s[2 * i + 1]).value))
  }

  method FromHex(s: string) returns (r: Result<bytes, HexError>)
    ensures r == HexBytes(s)
  {
    if |s| % 2 != 0 {
      return Err(OddLength);
    }
    var out := new byte[|s| / 2];
    for i := 0 to out.Length
      invariant forall k :: 0 <= k < 2 * i ==> HexNibble(s[k]).Some?
      invariant forall k :: 0 <= k < i ==> out[k] == HexNibble(s[2 * k]).value * 16 + HexNibble(s[2 * k + 1]).value
    {
      var hi := HexNibble(s[i * 2]);
      var lo := HexNibble(s[i * 2 + 1]);
      if hi.None? || lo.None? {
        return Err(NonHexCharacter);
      }
      out[i] := hi.value * 16 + lo.value;
    }
    assert IsHex(s) && out[..] == HexBytes(s).value;
    return Ok(out[..]);
  }

  /** Reading back what was written gives the same bytes. */
  lemma HexRoundTrip(u: bytes)
    ensures HexBytes(HexOf(u)) == Ok(u)
  {
    var s := HexOf(u);
    forall k | 0 <= k < |s|
      ensures HexNibble(s[k]) == Some(if k % 2 == 0 then u[k / 2] / 16 else u[k / 2] % 16)
    {
      HexDigitValue(if k % 2 == 0 then u[k / 2] / 16 else u[k / 2] % 16);
    }
    forall i | 0 <= i < |u| ensures HexBytes(s).value[i] == u[i] {
      assert (2 * i + 1) / 2 == i && (2 * i) / 2 == i;
    }
    assert HexBytes(s).value == u;
  }

  lemma HexDigitValue(n: int)
    requires 0 <= n < 16
    ensures HexNibble(HEX_CHARS[n]) == Some(n)
  {
  }

  predicate LowerHex(s: string)
  {
    |s| % 2 == 0 && forall k :: 0 <= k < |s| ==> '0' <= s[k] <= '9' || 'a' <= s[k] <= 'f'
  }

  /** A text is the output of the writer exactly when it is an even number of lower-case hex digits. */
  lemma HexCanonical(s: string)
    ensures (exists u: bytes :: HexOf(u) == s) <==> LowerHex(s)
  {
    if u: bytes :| HexOf(u) == s {
      forall k | 0 <= k < |s| ensures '0' <= s[k] <= '9' || 'a' <= s[k] <= 'f' {
        HexDigitIsLower(if k % 2 == 0 then u[k / 2] / 16 else u[k / 2] % 16);
      }
    }
    if LowerHex(s) {
      var u := HexRead(s);
    }
  }

  lemma HexDigitIsLower(n: int)
    requires 0 <= n < 16
    ensures '0' <= HEX_CHARS[n] <= '9' || 'a' <= HEX_CHARS[n] <= 'f'
  {
  }

  /** Lower-case hex is read and written back unchanged. */
  lemma HexRead(s: string) returns (u: bytes)
    requires LowerHex(s)
    ensures HexBytes(s) == Ok(u) && HexOf(u) == s
  {
    forall k | 0 <= k < |s| ensures HexNibble(s[k]).Some? && HEX_CHARS[HexNibble(s[k]).value] == s[k] {
      HexDigitOfValue(s[k]);
    }
    u := HexBytes(s).value;
    var w := HexOf(u);
    forall k | 0 <= k < |s| ensures w[k] == s[k] {
      var i := k / 2;
      assert u[i] / 16 == HexNibble(s[2 * i]).value && u[i] % 16 == HexNibble(s[2 * i + 1]).value;
      assert k == 2 * i || k == 2 * i + 1;
    }
    assert w == s;
  }

  lemma HexDigitOfValue(c: char)
    requires '0' <= c <= '9' || 'a' <= c <= 'f'
    ensures HexNibble(c).Some? && HEX_CHARS[HexNibble(c).value] == c
  {
    var n := HexNibble(c).value;
    assert HEX_CHARS[n] == if n < 10 then (0x30 + n) as char else (0x61 + n - 10) as char;
  }

  predicate IsHexDigit(c: char) { '0' <= c <= '9' || 'a' <= c <= 'f' || 'A' <= c <= 'F' }

  function LowerCase(s: string): (r: string)
    ensures |r| == |s|
  {
    seq(|s|, i requires 0 <= i < |s| => if 'A' <= s[i] <= 'Z' then (s[i] as int + 32) as char else s[i])
  }

  /** Which texts are refused and why; digits count in either case. */
  lemma HexErrorsExactly(s: string)
    ensures HexBytes(s) == Err(OddLength) <==> |s| % 2 == 1
    ensures HexBytes(s) == Err(NonHexCharacter) <==> |s| % 2 == 0 && exists i :: 0 <= i < |s| && !IsHexDigit(s[i])
    ensures HexBytes(s).Ok? ==> HexBytes(LowerCase(s)) == HexBytes(s)
  {
    forall i | 0 <= i < |s|
      ensures HexNibble(s[i]).Some? <==> IsHexDigit(s[i])
      ensures HexNibble(s[i]).Some? ==> HexNibble(LowerCase(s)[i]) == HexNibble(s[i])
    {
    }
    if HexBytes(s).Ok? {
      assert IsHex(LowerCase(s));
      assert HexBytes(LowerCase(s)).value == HexBytes(s).value;
    }
  }
}

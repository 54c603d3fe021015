/**
 * TextEncoder and the non-fatal TextDecoder('utf-8') behind fromUtf8 and toUtf8, as the WHATWG Encoding Standard
 * defines them: a malformed sequence becomes U+FFFD and a leading byte order mark is dropped. A string is a sequence
 * of Unicode scalar values.
 */
module Utf8 {
  import opened Bytes

  const REPLACEMENT: char := 0xFFFD as char
  const BOM: char := 0xFEFF as char

  function EncodeChar(c: char): (r: bytes)
    ensures 1 <= |r| <= 4
  {
    var n := c as int;
    if n < 0x80 then [n]
    else if n < 0x800 then [0xC0 + n / 64, 0x80 + n % 64]
    else if n < 0x1_0000 then [0xE0 + n / 4096, 0x80 + n / 64 % 64, 0x80 + n % 64]
    else [0xF0 + n / 262144, 0x80 + n / 4096 % 64, 0x80 + n / 64 % 64, 0x80 + n % 64]
  }

  /** fromUtf8. */
  function Encode(s: string): (r: bytes)
    ensures |r| >= |s|
  {
    if s == "" then [] else EncodeChar(s[0]) + Encode(s[1..])
  }

  predicate IsScalar(n: int)
  {
    0 <= n < 0xD800 || 0xE000 <= n < 0x11_0000
  }

  /** What the decoder keeps between bytes: how many more it needs, the value so far, bounds on the next byte. */
  datatype Decoder = Decoder(need: nat, point: nat, lower: byte, upper: byte)
  {
    /** Every continuation the bounds allow ends in a scalar value. */
    ghost predicate Valid()
    {
      && 0x80 <= lower <= upper <= 0xBF
      && match need
         case 0 => true
         case 1 => Scalars(point * 64 + lower - 0x80, point * 64 + upper - 0x80)
         case 2 => Scalars((point * 64 + lower - 0x80) * 64, (point * 64 + upper - 0x80) * 64 + 63)
         case 3 => Scalars((point * 64 + lower - 0x80) * 4096, (point * 64 + upper - 0x80) * 4096 + 4095)
         case _ => false
    }

    ghost predicate Scalars(first: int, last: int)
    {
      0 <= first && (last < 0xD800 || (0xE000 <= first && last < 0x11_0000))
    }
  }

  const START := Decoder(0, 0, 0x80, 0xBF)

  datatype Lead = Plain(c: char) | Opens(state: Decoder) | Bad

  /** The first byte of a sequence. */
  function ReadLead(x: byte): (r: Lead)
    ensures r.Opens? ==> r.state.Valid() && r.state.need > 0
  {
    if x <= 0x7F then Plain(x as char)
    else if 0xC2 <= x <= 0xDF then Opens(Decoder(1, x - 0xC0, 0x80, 0xBF))
    else if 0xE0 <= x <= 0xEF then
      Opens(Decoder(2, x - 0xE0, if x == 0xE0 then 0xA0 else 0x80, if x == 0xED then 0x9F else 0xBF))
    else if 0xF0 <= x <= 0xF4 then
      Opens(Decoder(3, x - 0xF0, if x == 0xF0 then 0x90 else 0x80, if x == 0xF4 then 0x8F else 0xBF))
    else Bad
  }

  function DecodeFrom(b: bytes, st: Decoder): string
    requires st.Valid()
    decreases |b|, st.need
  {
    if b == [] then (if st.need == 0 then "" else [REPLACEMENT])
    else if st.need == 0 then
      match ReadLead(b[0])
      case Plain(c) => [c] + DecodeFrom(b[1..], START)
      case Opens(next) => DecodeFrom(b[1..], next)
      case Bad => [REPLACEMENT] + DecodeFrom(b[1..], START)
    else if !(st.lower <= b[0] <= st.upper) then [REPLACEMENT] + DecodeFrom(b, START)
    else
      var point := st.point * 64 + b[0] - 0x80;
      if st.need == 1 then [point as char] + DecodeFrom(b[1..], START)
      else DecodeFrom(b[1..], Decoder(st.need - 1, point, 0x80, 0xBF))
  }

  const BOM_BYTES: bytes := [0xEF, 0xBB, 0xBF]

  /** toUtf8. */
  function Decode(b: bytes): string
  {
    if BOM_BYTES <= b then DecodeFrom(b[3..], START) else DecodeFrom(b, START)
  }

  predicate StartsWithBom(s: string)
  {
    s != "" && s[0] == BOM
  }

  /** One continuation byte x in bounds, with more to follow. */
  lemma ContinueSequence(x: byte, rest: bytes, st: Decoder)
    requires st.Valid() && st.need > 1 && st.lower <= x <= st.upper
    ensures var next := Decoder(st.need - 1, st.point * 64 + x - 0x80, 0x80, 0xBF);
            next.Valid() && DecodeFrom([x] + rest, st) == DecodeFrom(rest, next)
  {
    assert ([x] + rest)[1..] == rest;
  }

  /** The last continuation byte. */
  lemma FinishSequence(x: byte, rest: bytes, st: Decoder)
    requires st.Valid() && st.need == 1 && st.lower <= x <= st.upper
    ensures IsScalar(st.point * 64 + x - 0x80)
    ensures DecodeFrom([x] + rest, st) == [(st.point * 64 + x - 0x80) as char] + DecodeFrom(rest, START)
  {
    assert ([x] + rest)[1..] == rest;
  }

  lemma OpenSequence(x: byte, rest: bytes)
    requires ReadLead(x).Opens?
    ensures DecodeFrom([x] + rest, START) == DecodeFrom(rest, ReadLead(x).state)
  {
    assert ([x] + rest)[1..] == rest;
  }

  lemma DecodeTwoBytes(c: char, rest: bytes)
    requires 0x80 <= c as int < 0x800
    ensures DecodeFrom(EncodeChar(c) + rest, START) == [c] + DecodeFrom(rest, START)
  {
    var e := EncodeChar(c);
    OpenSequence(e[0], [e[1]] + rest);
    FinishSequence(e[1], rest, ReadLead(e[0]).state);
    assert e + rest == [e[0]] + ([e[1]] + rest);
  }

  lemma ThreeByteLead(n: int)
    requires 0x800 <= n < 0xD800 || 0xE000 <= n < 0x1_0000
    ensures var x, y := 0xE0 + n / 4096, 0x80 + n / 64 % 64;
            && ReadLead(x).Opens?
            && var st := ReadLead(x).state;
            st.need == 2 && st.lower <= y <= st.upper && st.point * 64 + y - 0x80 == n / 64
  {
  }

  lemma DecodeThreeBytes(c: char, rest: bytes)
    requires 0x800 <= c as int < 0x1_0000
    ensures DecodeFrom(EncodeChar(c) + rest, START) == [c] + DecodeFrom(rest, START)
  {
    var n, e := c as int, EncodeChar(c);
    var tail := [e[2]] + rest;
    ThreeByteLead(n);
    OpenSequence(e[0], [e[1]] + tail);
    ContinueSequence(e[1], tail, ReadLead(e[0]).state);
    FinishSequence(e[2], rest, Decoder(1, n / 64, 0x80, 0xBF));
    assert e + rest == [e[0]] + ([e[1]] + tail);
  }

  lemma DecodeOneChar(c: char, rest: bytes)
    ensures DecodeFrom(EncodeChar(c) + rest, START) == [c] + DecodeFrom(rest, START)
  {
    if c as int < 0x80 {
      assert (EncodeChar(c) + rest)[1..] == rest;
    } else if c as int < 0x800 {
      DecodeTwoBytes(c, rest);
    } else if c as int < 0x1_0000 {
      DecodeThreeBytes(c, rest);
    } else {
      DecodeFourBytes(c, rest);
    }
  }

  lemma FourByteLead(n: int)
    requires 0x1_0000 <= n < 0x11_0000
    ensures var x, y := 0xF0 + n / 262144, 0x80 + n / 4096 % 64;
            && ReadLead(x).Opens?
            && var st := ReadLead(x).state;
            st.need == 3 && st.lower <= y <= st.upper && st.point * 64 + y - 0x80 == n / 4096
  {
  }

  lemma DecodeFirstTwo(c: char, tail: bytes)
    requires c as int >= 0x1_0000
    ensures var st := Decoder(2, c as int / 4096, 0x80, 0xBF);
            st.Valid() && DecodeFrom([EncodeChar(c)[0]] + ([EncodeChar(c)[1]] + tail), START) == DecodeFrom(tail, st)
  {
    var e := EncodeChar(c);
    FourByteLead(c as int);
    OpenSequence(e[0], [e[1]] + tail);
    ContinueSequence(e[1], tail, ReadLead(e[0]).state);
  }

  lemma DecodeFourBytes(c: char, rest: bytes)
    requires c as int >= 0x1_0000
    ensures DecodeFrom(EncodeChar(c) + rest, START) == [c] + DecodeFrom(rest, START)
  {
    var e := EncodeChar(c);
    DecodeFirstTwo(c, [e[2]] + ([e[3]] + rest));
    DecodeLastTwo(c, rest);
    FourParts(e, rest);
  }

  lemma FourParts(e: bytes, rest: bytes)
    requires |e| == 4
    ensures e + rest == [e[0]] + ([e[1]] + ([e[2]] + ([e[3]] + rest)))
  {
  }

  lemma DecodeLastTwo(c: char, rest: bytes)
    requires c as int >= 0x1_0000
    ensures var n, e := c as int, EncodeChar(c);
            var st := Decoder(2, n / 4096, 0x80, 0xBF);
            st.Valid() && DecodeFrom([e[2]] + ([e[3]] + rest), st) == [c] + DecodeFrom(rest, START)
  {
    var n, e := c as int, EncodeChar(c);
    ContinueSequence(e[2], [e[3]] + rest, Decoder(2, n / 4096, 0x80, 0xBF));
    assert n / 4096 * 64 + e[2] - 0x80 == n / 64;
    FinishSequence(e[3], rest, Decoder(1, n / 64, 0x80, 0xBF));
  }

  lemma {:induction false} DecodeEncoded(s: string)
    ensures DecodeFrom(Encode(s), START) == s
  {
    if s != "" {
      DecodeOneChar(s[0], Encode(s[1..]));
      DecodeEncoded(s[1..]);
    }
  }

  lemma BomBytes(s: string)
    ensures BOM_BYTES <= Encode(s) <==> StartsWithBom(s)
    ensures StartsWithBom(s) ==> Encode(s)[3..] == Encode(s[1..])
  {
    if s != "" {
      var e, n := EncodeChar(s[0]), s[0] as int;
      assert Encode(s) == e + Encode(s[1..]);
      assert e[0] == Encode(s)[0];
      if e[0] == 0xEF {
        assert |e| == 3 && e[0] == 0xE0 + n / 4096;
        assert Encode(s)[..3] == e;
        assert e == BOM_BYTES <==> n == 0xFEFF;
      } else {
        assert n != 0xFEFF;
      }
    }
  }

  /** The decoder undoes the encoder except that it drops a leading byte order mark. */
  lemma Utf8RoundTrip(s: string)
    ensures Decode(Encode(s)) == if StartsWithBom(s) then s[1..] else s
  {
    BomBytes(s);
    DecodeEncoded(s);
    if StartsWithBom(s) {
      DecodeEncoded(s[1..]);
    }
  }

  /** Different strings have different encodings. */
  lemma EncodeInjective(s: string, t: string)
    requires Encode(s) == Encode(t)
    ensures s == t
  {
    DecodeEncoded(s);
    DecodeEncoded(t);
  }

  // ---- malformed input -----------------------------------------------------

  lemma {:induction false} DecodeAfter(s: string, rest: bytes)
    ensures DecodeFrom(Encode(s) + rest, START) == s + DecodeFrom(rest, START)
  {
    if s == "" {
      assert Encode(s) + rest == rest;
    } else {
      assert Encode(s) + rest == EncodeChar(s[0]) + (Encode(s[1..]) + rest);
      DecodeOneChar(s[0], Encode(s[1..]) + rest);
      DecodeAfter(s[1..], rest);
    }
  }

  /** A byte that starts no sequence: a lone continuation, an overlong lead, or one past the last plane. */
  predicate StartsNothing(x: byte) { 0x80 <= x < 0xC2 || 0xF5 <= x }

  /** Such a byte between well-formed stretches becomes one replacement character. */
  lemma BadByteIsReplaced(s: string, x: byte, t: string)
    requires StartsNothing(x)
    ensures DecodeFrom(Encode(s) + [x] + Encode(t), START) == s + [REPLACEMENT] + t
  {
    var rest := [x] + Encode(t);
    assert Encode(s) + [x] + Encode(t) == Encode(s) + rest;
    DecodeAfter(s, rest);
    assert rest[1..] == Encode(t);
    DecodeEncoded(t);
  }

  /** What the decoder makes of the rest once a sequence breaks off. */
  lemma BrokenOff(st: Decoder, t: string)
    requires st.Valid() && st.need > 0
    ensures DecodeFrom(Encode(t), st) == [REPLACEMENT] + t
  {
    DecodeEncoded(t);
    if t != "" {
      assert Encode(t)[0] == EncodeChar(t[0])[0];
      assert EncodeChar(t[0])[0] < 0x80 || EncodeChar(t[0])[0] >= 0xC2;
    }
  }

  lemma TruncatedTail(c: char, n: nat, t: string)
    requires 0 < n < |EncodeChar(c)|
    ensures DecodeFrom(EncodeChar(c)[..n] + Encode(t), START) == [REPLACEMENT] + t
  {
    var e := EncodeChar(c);
    if |e| == 2 {
      assert e[..1] == [e[0]];
      OpenSequence(e[0], Encode(t));
      BrokenOff(ReadLead(e[0]).state, t);
    } else if |e| == 3 {
      ThreeByteLead(c as int);
      TruncatedThree(c, n, t);
    } else {
      FourByteLead(c as int);
      TruncatedFour(c, n, t);
    }
  }

  lemma TruncatedThree(c: char, n: nat, t: string)
    requires |EncodeChar(c)| == 3 && 0 < n < 3
    ensures DecodeFrom(EncodeChar(c)[..n] + Encode(t), START) == [REPLACEMENT] + t
  {
    var e := EncodeChar(c);
    ThreeByteLead(c as int);
    var st := ReadLead(e[0]).state;
    if n == 1 {
      assert e[..1] == [e[0]];
      OpenSequence(e[0], Encode(t));
      BrokenOff(st, t);
    } else {
      assert e[..2] + Encode(t) == [e[0]] + ([e[1]] + Encode(t));
      OpenSequence(e[0], [e[1]] + Encode(t));
      ContinueSequence(e[1], Encode(t), st);
      BrokenOff(Decoder(1, st.point * 64 + e[1] - 0x80, 0x80, 0xBF), t);
    }
  }

  lemma TruncatedFour(c: char, n: nat, t: string)
    requires |EncodeChar(c)| == 4 && 0 < n < 4
    ensures DecodeFrom(EncodeChar(c)[..n] + Encode(t), START) == [REPLACEMENT] + t
  {
    if n == 1 {
      FourByteLead(c as int);
      assert EncodeChar(c)[..1] == [EncodeChar(c)[0]];
      OpenSequence(EncodeChar(c)[0], Encode(t));
      BrokenOff(ReadLead(EncodeChar(c)[0]).state, t);
    } else if n == 2 {
      FourAfterTwo(c, t);
    } else {
      FourAfterThree(c, t);
    }
  }

  lemma FourAfterTwo(c: char, t: string)
    requires |EncodeChar(c)| == 4
    ensures DecodeFrom(EncodeChar(c)[..2] + Encode(t), START) == [REPLACEMENT] + t
  {
    var e := EncodeChar(c);
    DecodeFirstTwo(c, Encode(t));
    assert e[..2] + Encode(t) == [e[0]] + ([e[1]] + Encode(t));
    BrokenOff(Decoder(2, c as int / 4096, 0x80, 0xBF), t);
  }

  lemma FourAfterThree(c: char, t: string)
    requires |EncodeChar(c)| == 4
    ensures DecodeFrom(EncodeChar(c)[..3] + Encode(t), START) == [REPLACEMENT] + t
  {
    var e, st := EncodeChar(c), Decoder(2, c as int / 4096, 0x80, 0xBF);
    var tail := [e[2]] + Encode(t);
    DecodeFirstTwo(c, tail);
    assert e[..3] + Encode(t) == [e[0]] + ([e[1]] + tail);
    ContinueSequence(e[2], Encode(t), st);
    BrokenOff(Decoder(1, st.point * 64 + e[2] - 0x80, 0x80, 0xBF), t);
  }

  /**
   * A sequence that breaks off, before other text or the end, becomes one replacement character and eats nothing
   * else.
   */
  lemma TruncatedCharIsReplaced(s: string, c: char, n: nat, t: string)
    requires 0 < n < |EncodeChar(c)|
    ensures DecodeFrom(Encode(s) + EncodeChar(c)[..n] + Encode(t), START) == s + [REPLACEMENT] + t
  {
    var rest := EncodeChar(c)[..n] + Encode(t);
    assert Encode(s) + EncodeChar(c)[..n] + Encode(t) == Encode(s) + rest;
    DecodeAfter(s, rest);
    TruncatedTail(c, n, t);
  }
}

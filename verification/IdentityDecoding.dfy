/** What the characters of a JSON string stand for (section 7 of RFC 8259, section 3 of
    RFC 3629), and that the rune reader reads exactly that
    (internal/gateway/identity_text_stream.go:26-113). */
module IdentityDecoding {
  import opened JsonGrammar
  import opened IdentityRunes
  import opened Wrappers

  /** A character: a code point that is no surrogate. */
  predicate Scalar(code: int) {
    0 <= code < 0x110000 && !(0xD800 <= code <= 0xDFFF)
  }

  function Utf8(code: int): Bytes
    requires Scalar(code)
  {
    if code < 0x80 then [code]
    else if code < 0x800 then [0xC0 + code / 0x40, 0x80 + code % 0x40]
    else if code < 0x10000 then [0xE0 + code / 0x1000, 0x80 + code / 0x40 % 0x40, 0x80 + code % 0x40]
    else [0xF0 + code / 0x40000, 0x80 + code / 0x1000 % 0x40, 0x80 + code / 0x40 % 0x40, 0x80 + code % 0x40]
  }

  predicate HexOf(x: Byte, v: int) {
    0 <= v < 16 && if v < 10 then x == 0x30 + v else x == 0x61 + (v - 10) || x == 0x41 + (v - 10)
  }

  /** A backslash, a u and the four hexadecimal digits of `u`, the high one first. */
  predicate Escape(raw: Bytes, u: int) {
    && |raw| == 6 && raw[0] == 0x5C && raw[1] == 0x75 && 0 <= u < 0x10000
    && HexOf(raw[2], u / 0x1000) && HexOf(raw[3], u / 0x100 % 16)
    && HexOf(raw[4], u / 0x10 % 16) && HexOf(raw[5], u % 16)
  }

  /** The escapes of one letter: quotation mark, backslash, slash, and b f n r t. */
  const SIMPLE: map<int, int> :=
    map[0x22 := 0x22, 0x5C := 0x5C, 0x2F := 0x2F, 0x62 := 8, 0x66 := 12, 0x6E := 10, 0x72 := 13, 0x74 := 9]

  /** These raw bytes stand for this character: itself in UTF-8, an escape of one letter, an
      escape of its number, or a surrogate pair of two such escapes. */
  predicate Denotes(raw: Bytes, code: int) {
    && Scalar(code)
    && (|| (code != 0x5C && raw == Utf8(code))
        || (|raw| == 2 && raw[0] == 0x5C && raw[1] in SIMPLE && SIMPLE[raw[1]] == code)
        || Escape(raw, code)
        || (|raw| == 12 && code >= 0x10000 && Escape(raw[..6], 0xD800 + (code - 0x10000) / 0x400)
            && Escape(raw[6..], 0xDC00 + (code - 0x10000) % 0x400)))
  }

  lemma HexDigits(x: Byte, v: int)
    ensures HexOf(x, v) <==> IsHex(x) && HexValue(x) == v
  {
  }

  lemma Digits4(u: int, a: int, b: int, c: int, d: int)
    requires 0 <= a < 16 && 0 <= b < 16 && 0 <= c < 16 && 0 <= d < 16
    ensures u == ((a * 16 + b) * 16 + c) * 16 + d
       <==> 0 <= u < 0x10000 && u / 0x1000 == a && u / 0x100 % 16 == b && u / 0x10 % 16 == c && u % 16 == d
  {
  }

  lemma EscapeReads(s: Bytes, k: nat, u: int)
    requires k + 6 <= |s| && s[k] == 0x5C && s[k + 1] == 0x75
    ensures Escape(s[k..k + 6], u) <==> Hex4(s, k + 2) == Some(u)
  {
    HexDigits(s[k + 2], u / 0x1000);
    HexDigits(s[k + 3], u / 0x100 % 16);
    HexDigits(s[k + 4], u / 0x10 % 16);
    HexDigits(s[k + 5], u % 16);
    Digits4(u, HexValue(s[k + 2]), HexValue(s[k + 3]), HexValue(s[k + 4]), HexValue(s[k + 5]));
    hide HexOf, HexValue, IsHex;
  }

  lemma Utf8Size(code: int)
    requires Scalar(code)
    ensures |Utf8(code)| == RuneLen(code)
  {
  }

  lemma Base64(code: int, a: int, b: int)
    requires 0 <= b < 0x40
    ensures code == a * 0x40 + b <==> code / 0x40 == a && code % 0x40 == b
  {
  }

  lemma Base64Twice(code: int, a: int, b: int, c: int)
    requires 0 <= b < 0x40 && 0 <= c < 0x40
    ensures code == (a * 0x40 + b) * 0x40 + c
       <==> code / 0x1000 == a && code / 0x40 % 0x40 == b && code % 0x40 == c
  {
  }

  lemma Base64Thrice(code: int, a: int, b: int, c: int, d: int)
    requires 0 <= b < 0x40 && 0 <= c < 0x40 && 0 <= d < 0x40
    ensures code == ((a * 0x40 + b) * 0x40 + c) * 0x40 + d
       <==> code / 0x40000 == a && code / 0x1000 % 0x40 == b && code / 0x40 % 0x40 == c && code % 0x40 == d
  {
    Base64Twice(code / 0x40, a, b, c);
    assert code / 0x40 / 0x1000 == code / 0x40000 && code / 0x40 / 0x40 == code / 0x1000;
  }

  lemma OneByte(s: Bytes, code: int)
    requires s != [] && 0 <= code < 0x80
    ensures s[..1] == Utf8(code) <==> Utf8Length(s) == 1 && s[0] < 0x80 && Utf8Char(s) == code
  {
  }

  lemma TwoBytes(s: Bytes, code: int)
    requires |s| >= 2 && 0x80 <= code < 0x800
    ensures s[..2] == Utf8(code) <==> Utf8Length(s) == 2 && Utf8Char(s) == code
  {
    if 0x80 <= s[1] <= 0xBF {
      Base64(code, s[0] - 0xC0, s[1] - 0x80);
    }
  }

  lemma ThreeBytes(s: Bytes, code: int)
    requires |s| >= 3 && 0x800 <= code < 0x10000 && Scalar(code)
    ensures s[..3] == Utf8(code) <==> Utf8Length(s) == 3 && Utf8Char(s) == code
  {
    if 0x80 <= s[1] <= 0xBF && 0x80 <= s[2] <= 0xBF {
      Base64Twice(code, s[0] - 0xE0, s[1] - 0x80, s[2] - 0x80);
    }
  }

  lemma FourBytes(s: Bytes, code: int)
    requires |s| >= 4 && 0x10000 <= code < 0x110000
    ensures s[..4] == Utf8(code) <==> Utf8Length(s) == 4 && Utf8Char(s) == code
  {
    if 0x80 <= s[1] <= 0xBF && 0x80 <= s[2] <= 0xBF && 0x80 <= s[3] <= 0xBF {
      Base64Thrice(code, s[0] - 0xF0, s[1] - 0x80, s[2] - 0x80, s[3] - 0x80);
    }
  }

  lemma Utf8Reads(s: Bytes, code: int)
    requires Scalar(code) && Utf8(code) <= s
    ensures Utf8Length(s) == RuneLen(code) == |Utf8(code)| && Utf8Char(s) == code
  {
    Utf8Size(code);
    assert s[..RuneLen(code)] == Utf8(code);
    if code < 0x80 {
      OneByte(s, code);
    } else if code < 0x800 {
      TwoBytes(s, code);
    } else if code < 0x10000 {
      ThreeBytes(s, code);
    } else {
      FourBytes(s, code);
    }
    hide Utf8, Utf8Length, Utf8Char;
  }

  lemma LengthTellsRange(s: Bytes)
    requires s != [] && s[0] >= 0
    ensures var n, code := Utf8Length(s), Utf8Char(s);
            && (n == 2 ==> 0x80 <= code < 0x800)
            && (n == 3 ==> 0x800 <= code < 0x10000 && Scalar(code))
            && (n == 4 ==> 0x10000 <= code < 0x110000)
            && (n == 1 ==> code == if s[0] < 0x80 then s[0] else RUNE_ERROR)
  {
  }

  /** What is not the beginning of any character reads as the replacement character. */
  lemma Utf8ReadBack(s: Bytes)
    requires s != [] && s[0] >= 0
    ensures var n, code := Utf8Length(s), Utf8Char(s);
            if n == 1 && s[0] >= 0x80 then code == RUNE_ERROR else Scalar(code) && s[..n] == Utf8(code)
  {
    LengthTellsRange(s);
    var n, code := Utf8Length(s), Utf8Char(s);
    if n == 1 && s[0] < 0x80 {
      OneByte(s, code);
    } else if n == 2 {
      TwoBytes(s, code);
    } else if n == 3 {
      ThreeBytes(s, code);
    } else if n == 4 {
      FourBytes(s, code);
    }
    hide Utf8, Utf8Length, Utf8Char;
  }

  lemma PairDigits(code: int, high: int, low: int)
    requires 0x10000 <= code < 0x110000
    ensures high == 0xD800 + (code - 0x10000) / 0x400 && low == 0xDC00 + (code - 0x10000) % 0x400
       <==> IsHigh(high) && IsLow(low) && code == 0x10000 + (high - 0xD800) * 0x400 + (low - 0xDC00)
  {
  }

  lemma PairReads(s: Bytes, code: int)
    requires |s| >= 12 && 0x10000 <= code < 0x110000 && s[0] == 0x5C && s[1] == 0x75
    ensures && Escape(s[..12][..6], 0xD800 + (code - 0x10000) / 0x400)
            && Escape(s[..12][6..], 0xDC00 + (code - 0x10000) % 0x400)
       <==> && Hex4(s, 2).Some? && IsHigh(Hex4(s, 2).value) && Pairs(s)
            && code == 0x10000 + (Hex4(s, 2).value - 0xD800) * 0x400 + (Hex4(s, 8).value - 0xDC00)
  {
    var high, low := 0xD800 + (code - 0x10000) / 0x400, 0xDC00 + (code - 0x10000) % 0x400;
    SecondHalf(s, low);
    assert s[..12][..6] == s[0..6] && s[..12][6..] == s[6..12];
    EscapeReads(s, 0, high);
    if Hex4(s, 2).Some? && Hex4(s, 8).Some? {
      PairDigits(code, Hex4(s, 2).value, Hex4(s, 8).value);
    }
    PairDigits(code, high, low);
    hide Escape, Hex4;
  }

  lemma SecondHalf(s: Bytes, low: int)
    requires |s| >= 12
    ensures Escape(s[6..12], low) <==> s[6] == 0x5C && s[7] == 0x75 && Hex4(s, 8) == Some(low)
  {
    if s[6] == 0x5C && s[7] == 0x75 {
      EscapeReads(s, 6, low);
      hide Escape, Hex4;
    }
  }

  lemma PlainIsRead(s: Bytes, n: nat, code: int)
    requires n <= |s| && Scalar(code) && code != 0x5C && s[..n] == Utf8(code)
    ensures s != [] && ReadRune(s) == Some(Made(code, n))
  {
    Utf8Size(code);
    Utf8Reads(s, code);
    assert s[..n][0] == s[0];
    hide Utf8Length, Utf8Char, Hex4, Pairs;
  }

  lemma NumberIsRead(s: Bytes, code: int)
    requires |s| >= 6 && Scalar(code) && Escape(s[..6], code)
    ensures ReadRune(s) == Some(Made(code, 6))
  {
    assert s[0..6] == s[..6] && s[0] == s[..6][0] && s[1] == s[..6][1];
    EscapeReads(s, 0, code);
    hide Escape, Hex4, Pairs, RuneLen;
  }

  lemma PairIsRead(s: Bytes, code: int)
    requires |s| >= 12 && 0x10000 <= code < 0x110000 && Escape(s[..12][..6], 0xD800 + (code - 0x10000) / 0x400)
    requires Escape(s[..12][6..], 0xDC00 + (code - 0x10000) % 0x400)
    ensures ReadRune(s) == Some(Made(code, 12))
  {
    assert s[0] == s[..12][..6][0] && s[1] == s[..12][..6][1];
    PairReads(s, code);
    hide Escape, Hex4, Pairs, RuneLen;
  }

  /** Whatever stands for a character at the front is read as that character, whatever
      follows it. */
  lemma DenotedIsRead(s: Bytes, n: nat, code: int)
    requires n <= |s| && Denotes(s[..n], code)
    ensures s != [] && ReadRune(s) == Some(Made(code, n))
  {
    var raw := s[..n];
    if code != 0x5C && raw == Utf8(code) {
      PlainIsRead(s, n, code);
      hide ReadRune;
    } else if Escape(raw, code) {
      NumberIsRead(s, code);
      hide ReadRune;
    } else if n == 12 {
      PairIsRead(s, code);
      hide ReadRune;
    } else {
      assert s[0] == raw[0] && s[1] == raw[1];
      hide Utf8, Escape, Hex4, RuneLen;
    }
  }

  /** An escape of half a surrogate pair. */
  ghost predicate HalfPair(s: Bytes) {
    |s| >= 6 && exists u :: 0xD800 <= u <= 0xDFFF && Escape(s[..6], u)
  }

  /** Bytes that begin no character of UTF-8. */
  ghost predicate Malformed(s: Bytes) {
    s != [] && s[0] >= 0x80 && forall code | Scalar(code) :: !(Utf8(code) <= s)
  }

  lemma PlainIsExact(s: Bytes)
    requires s != [] && s[0] >= 0x20 && s[0] != BACKSLASH
    ensures var r := ReadRune(s).value;
            ReadRune(s).Some? && (Denotes(s[..r.length], r.code) || (r == Made(RUNE_ERROR, 1) && Malformed(s)))
  {
    Utf8ReadBack(s);
    var r := ReadRune(s).value;
    if r.length == 1 && s[0] >= 0x80 {
      forall code | Scalar(code)
        ensures !(Utf8(code) <= s)
      {
        if Utf8(code) <= s {
          Utf8Reads(s, code);
        }
      }
    } else if r.code == 0x5C {
      Utf8Reads(s, 0x5C);
    }
    hide Utf8, Utf8Length, Utf8Char;
  }

  lemma NumberIsExact(s: Bytes)
    requires |s| >= 2 && s[0] == BACKSLASH && s[1] == 0x75 && ReadRune(s).Some?
    ensures var r := ReadRune(s).value; Denotes(s[..r.length], r.code) || (r == Made(RUNE_ERROR, 6) && HalfPair(s))
  {
    var r, u := ReadRune(s).value, Hex4(s, 2).value;
    EscapeReads(s, 0, u);
    assert s[0..6] == s[..6];
    if r.length == 12 {
      PairDigits(r.code, u, Hex4(s, 8).value);
      PairReads(s, r.code);
    }
    hide Escape, Hex4;
  }

  lemma EscapedIsExact(s: Bytes)
    requires s != [] && s[0] == BACKSLASH && ReadRune(s).Some?
    ensures var r := ReadRune(s).value; Denotes(s[..r.length], r.code) || (r == Made(RUNE_ERROR, 6) && HalfPair(s))
  {
    if s[1] == 0x75 {
      NumberIsExact(s);
      hide ReadRune, Denotes, HalfPair;
    } else {
      hide Escape, Hex4, Utf8, HalfPair;
    }
  }

  /** Reading one character of a string that the grammar allows: if some bytes at its front
      stand for a character, those are taken and that is the character; otherwise the
      replacement character is read, for half a surrogate pair or for one stray byte. */
  lemma DecodingIsExact(s: Bytes)
    requires s != [] && StringOk(s)
    ensures ReadRune(s).Some?
    ensures forall n, code | 0 <= n <= |s| && Denotes(s[..n], code) :: ReadRune(s) == Some(Made(code, n))
    ensures var r := ReadRune(s).value;
            || Denotes(s[..r.length], r.code)
            || (r.code == 0xFFFD && r.length == 6 && HalfPair(s))
            || (r.code == 0xFFFD && r.length == 1 && Malformed(s))
  {
    RuneOfString(s);
    assert CharLength(s) > 0;
    if s[0] == BACKSLASH {
      EscapedIsExact(s);
    } else {
      PlainIsExact(s);
    }
    hide ReadRune, Denotes, StringOk, HalfPair, Malformed;
    forall n, code | 0 <= n <= |s| && Denotes(s[..n], code)
      ensures ReadRune(s) == Some(Made(code, n))
    {
      DenotedIsRead(s, n, code);
    }
  }

  function Concat(pieces: seq<Bytes>): Bytes {
    if pieces == [] then [] else pieces[0] + Concat(pieces[1..])
  }

  /** However its characters were written, a string decodes to the characters. */
  lemma {:induction false} SpelledIsDecoded(pieces: seq<Bytes>, codes: seq<int>)
    requires |pieces| == |codes| && forall i | 0 <= i < |codes| :: Denotes(pieces[i], codes[i])
    ensures Decode(Concat(pieces)) == codes
    decreases |codes|
  {
    hide Denotes, ReadRune;
    if codes == [] {
    } else {
      var s, n := Concat(pieces), |pieces[0]|;
      assert s[..n] == pieces[0] && s[n..] == Concat(pieces[1..]);
      DenotedIsRead(s, n, codes[0]);
      SpelledIsDecoded(pieces[1..], codes[1..]);
      assert codes == [codes[0]] + codes[1..];
    }
  }
}
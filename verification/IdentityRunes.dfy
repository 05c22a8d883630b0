/** Decoding the contents of a JSON string one rune at a time
    (internal/gateway/identity_text_stream.go:26-113): UTF-8 as Go reads it, escapes,
    and surrogate pairs, with the number of raw bytes each rune stands for. */
module IdentityRunes {
  import opened JsonGrammar
  import opened Wrappers

  const RUNE_ERROR := 0xFFFD

  /** `size` is the length of the rune in decoded UTF-8, `length` its raw bytes. */
  datatype Rune = Rune(code: int, size: nat, length: nat)

  function HexValue(x: Byte): (v: int)
    ensures 0 <= v < 16
  {
    if IsDigit(x) then x - 0x30
    else if 0x61 <= x <= 0x66 then x - 0x61 + 10
    else if 0x41 <= x <= 0x46 then x - 0x41 + 10
    else 0
  }

  /** The code unit of the four hex digits at `k`, if they are. */
  function Hex4(s: Bytes, k: nat): Option<int> {
    if k + 4 <= |s| && IsHex(s[k]) && IsHex(s[k + 1]) && IsHex(s[k + 2]) && IsHex(s[k + 3])
    then Some(((HexValue(s[k]) * 16 + HexValue(s[k + 1])) * 16 + HexValue(s[k + 2])) * 16 + HexValue(s[k + 3]))
    else None
  }

  predicate Continues(s: Bytes, k: nat, lo: int, hi: int) {
    k < |s| && lo <= s[k] <= hi
  }

  /** How many bytes the UTF-8 sequence at the start of `s` has; 1 also when it is
      invalid. */
  function Utf8Length(s: Bytes): (n: nat)
    requires s != []
    ensures 1 <= n <= |s| && n <= 4
    ensures forall k | 1 <= k < n :: s[k] >= 0x80
  {
    var x := s[0];
    if 0xC2 <= x <= 0xDF && Continues(s, 1, 0x80, 0xBF) then 2
    else if 0xE0 <= x <= 0xEF
         && Continues(s, 1, if x == 0xE0 then 0xA0 else 0x80, if x == 0xED then 0x9F else 0xBF)
         && Continues(s, 2, 0x80, 0xBF) then 3
    else if 0xF0 <= x <= 0xF4
         && Continues(s, 1, if x == 0xF0 then 0x90 else 0x80, if x == 0xF4 then 0x8F else 0xBF)
         && Continues(s, 2, 0x80, 0xBF) && Continues(s, 3, 0x80, 0xBF) then 4
    else 1
  }

  function Bits(x: int, mark: int): int {
    x - mark
  }

  function Utf8Char(s: Bytes): int
    requires s != []
  {
    var n := Utf8Length(s);
    if n == 1 then if s[0] < 0x80 then s[0] else RUNE_ERROR
    else if n == 2 then Bits(s[0], 0xC0) * 0x40 + Bits(s[1], 0x80)
    else if n == 3 then (Bits(s[0], 0xE0) * 0x40 + Bits(s[1], 0x80)) * 0x40 + Bits(s[2], 0x80)
    else ((Bits(s[0], 0xF0) * 0x40 + Bits(s[1], 0x80)) * 0x40 + Bits(s[2], 0x80)) * 0x40 + Bits(s[3], 0x80)
  }

  function RuneLen(code: int): nat {
    if code < 0x80 then 1 else if code < 0x800 then 2 else if code < 0x10000 then 3 else 4
  }

  function Made(code: int, length: nat): Rune {
    Rune(code, RuneLen(code), length)
  }

  function Unescape(x: Byte): int {
    if x == 0x62 then 8 else if x == 0x66 then 12 else if x == 0x6E then 10
    else if x == 0x72 then 13 else if x == 0x74 then 9 else x
  }

  predicate IsHigh(u: int) {
    0xD800 <= u <= 0xDBFF
  }

  predicate IsLow(u: int) {
    0xDC00 <= u <= 0xDFFF
  }

  /** A surrogate pair continues with another escape. */
  predicate Pairs(s: Bytes) {
    |s| >= 12 && s[6] == BACKSLASH && s[7] == 0x75 && Hex4(s, 8).Some? && IsLow(Hex4(s, 8).value)
  }

  /** The rune at the start of `s`; None where the source reports an invalid escape. */
  function ReadRune(s: Bytes): (r: Option<Rune>)
    requires s != []
    ensures r.Some? ==> 1 <= r.value.length <= |s|
  {
    if s[0] != BACKSLASH then Some(Made(Utf8Char(s), Utf8Length(s)))
    else if |s| < 2 then None
    else if IsSimpleEscape(s[1]) then Some(Made(Unescape(s[1]), 2))
    else if s[1] != 0x75 || Hex4(s, 2).None? then None
    else
      var u := Hex4(s, 2).value;
      if IsHigh(u) && Pairs(s) then Some(Made(0x10000 + (u - 0xD800) * 0x400 + (Hex4(s, 8).value - 0xDC00), 12))
      else if IsHigh(u) || IsLow(u) then Some(Made(RUNE_ERROR, 6))
      else Some(Made(u, 6))
  }

  /** Contents that the grammar allows never fail to decode, and what follows the first
      rune is again allowed. */
  lemma RuneOfString(s: Bytes)
    requires s != [] && StringOk(s)
    ensures ReadRune(s).Some? && StringOk(s[ReadRune(s).value.length..])
  {
    if s[0] != BACKSLASH {
      PlainBytes(s, Utf8Length(s));
    } else if s[1] == 0x75 && Hex4(s, 2).Some? && IsHigh(Hex4(s, 2).value) && Pairs(s) {
      var t := s[6..];
      assert CharLength(t) == 6;
      assert t[6..] == s[12..];
    }
  }

  lemma {:induction false} PlainBytes(s: Bytes, n: nat)
    requires s != [] && StringOk(s) && s[0] != BACKSLASH && 1 <= n <= |s|
    requires forall k | 1 <= k < n :: s[k] >= 0x80
    ensures StringOk(s[n..])
    decreases n
  {
    assert CharLength(s) == 1;
    if n > 1 {
      var t := s[1..];
      assert t[0] == s[1];
      PlainBytes(t, n - 1);
      assert t[n - 1..] == s[n..];
    }
  }

  /** The decoded characters of a string's contents, as far as they decode. */
  function Decode(s: Bytes): seq<int>
    decreases |s|
  {
    if s == [] || ReadRune(s).None? then []
    else [ReadRune(s).value.code] + Decode(s[ReadRune(s).value.length..])
  }
}

/** Looking for removable phrases in one JSON string, rune by rune with raw offsets
    (internal/gateway/identity_text_stream.go:140-275).  The two regular expressions and
    the Unicode classes are parameters. */
module IdentityText {
  import opened JsonGrammar
  import opened IdentityRunes
  import opened IdentityScan
  import opened Wrappers

  /** `opening` gives the decoded end of the opening phrase; `qualifier` gives the decoded
      start and end of a match in the text it is shown. */
  datatype Matchers = Matchers(
    opening: seq<int> -> Option<nat>,
    qualifier: seq<int> -> Option<(nat, nat)>,
    isLetter: int -> bool,
    isDigit: int -> bool,
    isSpace: int -> bool,
    isSeparator: int -> bool)

  predicate WordLike(m: Matchers, code: int) {
    m.isLetter(code) || m.isDigit(code)
  }

  function Size(codes: seq<int>): nat {
    if codes == [] then 0 else RuneLen(codes[0]) + Size(codes[1..])
  }

  /** What the regular expression engine promises: a match is nonempty and both its ends
      are ends of runes of the text. */
  ghost predicate Sound(m: Matchers) {
    forall codes: seq<int> :: m.qualifier(codes).Some? ==> MatchInside(codes, m.qualifier(codes).value)
  }

  ghost predicate MatchInside(codes: seq<int>, match': (nat, nat)) {
    exists i, j :: 0 <= i < j <= |codes| && match'.0 == Size(codes[..i]) && match'.1 == Size(codes[..j])
  }

  /** The rune at `p` when reading stops at `hi`. */
  function At(b: Bytes, p: nat, hi: nat): Option<Rune>
    requires p <= hi <= |b|
  {
    if p == hi then None else ReadRune(b[p..hi])
  }

  function Next(b: Bytes, p: nat, hi: nat): (q: nat)
    requires p < hi <= |b| && At(b, p, hi).Some?
    ensures p < q <= hi
  {
    p + At(b, p, hi).value.length
  }

  /** A look ahead that fails reads as rune 0. */
  function Peek(b: Bytes, p: nat, hi: nat): int
    requires p <= hi <= |b|
  {
    if At(b, p, hi).Some? then At(b, p, hi).value.code else 0
  }

  predicate EndsSentence(code: int) {
    code == 0x2E || code == 0x21 || code == 0x3F || code == 0x3002 || code == 0xFF01 || code == 0xFF1F
  }

  /** Where the sentence that holds the opening ends, reading on from `p`; None where an
      escape cannot be decoded. */
  function SentenceEnd(m: Matchers, b: Bytes, p: nat, hi: nat, decoded: nat, blank: bool, opening: nat)
    : (r: Option<nat>)
    requires p <= hi <= |b|
    ensures r.Some? ==> p <= r.value <= hi
    decreases hi - p
  {
    if p == hi then Some(hi)
    else if At(b, p, hi).None? then None
    else
      var rune := At(b, p, hi).value;
      var q := Next(b, p, hi);
      if decoded < opening then SentenceEnd(m, b, q, hi, decoded + rune.size, blank, opening)
      else if rune.code == 0x0A && blank then Some(p)
      else if EndsSentence(rune.code) && !(rune.code == 0x2E && WordLike(m, Peek(b, q, hi))) then Some(p)
      else SentenceEnd(m, b, q, hi, decoded + rune.size, StillBlank(m, rune.code, blank), opening)
  }

  function StillBlank(m: Matchers, code: int, blank: bool): bool {
    code == 0x0A || (blank && (code == 0x09 || code == 0x0D || m.isSeparator(code)))
  }

  datatype Quotes = Quotes(quote: int, previous: int)

  const APOSTROPHE := 0x27

  function Consume(m: Matchers, s: Quotes, code: int, next: int): Quotes {
    if code == APOSTROPHE && m.isLetter(s.previous) && m.isLetter(next) then s.(previous := code)
    else if code == APOSTROPHE && s.quote == 0 && m.isLetter(s.previous) && (m.isSpace(next) || next == 0)
    then s.(previous := code)
    else if s.quote != 0 then Quotes(if code == s.quote then 0 else s.quote, code)
    else if code == 0x22 || code == APOSTROPHE || code == 0x60 then Quotes(code, code)
    else if code == 0x201C then Quotes(0x201D, code)
    else if code == 0x2018 then Quotes(0x2019, code)
    else Quotes(0, code)
  }

  /** A match carried back to raw offsets. */
  datatype Located = Located(span: Span, quoted: bool, quotes: Quotes)

  /** Walks from `p` until the decoded end of the match; None for a decoding error or a
      match that does not end with a rune. */
  function Locate(m: Matchers, b: Bytes, p: nat, hi: nat, decoded: nat, match': (nat, nat), l: Located)
    : (r: Option<Located>)
    requires p <= hi <= |b|
    decreases hi - p
  {
    if decoded >= match'.1 then (if decoded == match'.1 then Some(l) else None)
    else if At(b, p, hi).None? then None
    else
      var rune := At(b, p, hi).value;
      var q := Next(b, p, hi);
      Locate(m, b, q, hi, decoded + rune.size, match',
             Located(Span(if decoded == match'.0 then p else l.span.start, q),
                     if decoded == match'.0 then l.quotes.quote != 0 else l.quoted,
                     Consume(m, l.quotes, rune.code, Peek(b, q, hi))))
  }

  /** The match is not the beginning of a longer name or version number. */
  predicate StandsAlone(m: Matchers, b: Bytes, p: nat, hi: nat)
    requires p <= hi <= |b|
  {
    var next := Peek(b, p, hi);
    && !(WordLike(m, next) || next == 0x5F || next == 0x2D)
    && !(next == 0x2E && At(b, p, hi).Some? && WordLike(m, Peek(b, Next(b, p, hi), hi)))
  }

  function NoMatch(p: nat, quotes: Quotes): Located {
    Located(Span(0, 0), false, quotes)
  }

  /** All removals in the sentence that ends at `end`, reading on from `p`. */
  function Removals(m: Matchers, b: Bytes, p: nat, end: nat, hi: nat, quotes: Quotes): (r: Option<seq<Span>>)
    requires p <= hi <= |b| && end <= hi
    decreases hi - p
  {
    if p >= end then Some([])
    else
      var found := m.qualifier(Decode(b[p..end]));
      if found.None? then Some([])
      else
        var l := Locate(m, b, p, hi, 0, found.value, NoMatch(p, quotes));
        if l.None? || !(p < l.value.span.end <= hi) then None
        else
          var rest := Removals(m, b, l.value.span.end, end, hi, l.value.quotes);
          if rest.None? then None
          else if !l.value.quoted && StandsAlone(m, b, l.value.span.end, hi) then Some([l.value.span] + rest.value)
          else rest
  }

  function TextRemovals(m: Matchers, b: Bytes, lo: nat, hi: nat): Option<seq<Span>>
    requires lo <= hi <= |b|
  {
    var opening := m.opening(Decode(b[lo..hi]));
    if opening.None? then Some([])
    else
      var end := SentenceEnd(m, b, lo, hi, 0, false, opening.value);
      if end.None? then None else Removals(m, b, lo, end.value, hi, Quotes(0, 0))
  }
}

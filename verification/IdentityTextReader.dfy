/** The text scanner as the gateway runs it: a rune reader with a position and one slot
    of look ahead, a quote state, and a cursor that moves from match to match.  Each
    method is proved to do what the functions of `IdentityText` say. */
module IdentityTextReader {
  import opened JsonGrammar
  import opened IdentityRunes
  import opened IdentityScan
  import opened IdentityText
  import opened IdentityCuts
  import opened IdentityMeaning
  import opened Wrappers

  class RuneReader {
    const b: Bytes
    const hi: nat
    var pos: nat
    var pending: Rune
    var hasPeek: bool

    constructor (b: Bytes, start: nat, hi: nat)
      requires start <= hi <= |b| && StringOk(b[start..hi])
      ensures this.b == b && this.hi == hi && Valid() && Here() == start && fresh(this)
    {
      this.b, this.hi, pos, pending, hasPeek := b, hi, start, Rune(0, 0, 0), false;
    }

    /** Where the rune that is delivered next starts. */
    function Here(): int
      reads this
    {
      if hasPeek then pos - pending.length else pos
    }

    ghost predicate Valid()
      reads this
    {
      && pos <= hi <= |b| && 0 <= Here() <= hi && StringOk(b[Here()..hi])
      && (hasPeek ==> At(b, Here(), hi) == Some(pending))
    }

    /** Reads one rune; None is the end of the string.  A string that the scanner
        accepted has no other failure. */
    method Read() returns (r: Option<Rune>)
      requires Valid() && !hasPeek
      modifies `pos
      ensures r == At(b, old(pos), hi)
      ensures r.None? ==> pos == old(pos)
      ensures r.Some? ==> pos == IdentityText.Next(b, old(pos), hi)
      ensures Valid()
    {
      if pos == hi {
        return None;
      }
      ghost var s := b[pos..hi];
      RuneOfString(s);
      var next := CopyRune();
      FirstRune(b, pos, hi, pos + next.length);
      pos := pos + next.length;
      r := Some(next);
    }

    /** The rune at the position, byte by byte. */
    method CopyRune() returns (r: Rune)
      requires Valid() && !hasPeek && pos < hi && ReadRune(b[pos..hi]).Some?
      ensures Some(r) == ReadRune(b[pos..hi])
    {
      var s := b[pos..hi];
      var code, length := Utf8Char(s), Utf8Length(s);
      if code == BACKSLASH {
        length := 2;
        if s[1] == 0x22 || s[1] == 0x5C || s[1] == 0x2F {
          code := s[1];
        } else if s[1] == 0x62 {
          code := 8;
        } else if s[1] == 0x66 {
          code := 12;
        } else if s[1] == 0x6E {
          code := 10;
        } else if s[1] == 0x72 {
          code := 13;
        } else if s[1] == 0x74 {
          code := 9;
        } else {
          code, length := Hex4(s, 2).value, 6;
          if IsHigh(code) && |s| >= 12 && s[6] == BACKSLASH && s[7] == 0x75 {
            var low := Hex4(s, 8);
            if low.Some? && IsLow(low.value) {
              code, length := 0x10000 + (code - 0xD800) * 0x400 + (low.value - 0xDC00), 12;
            }
          }
          if IsHigh(code) || IsLow(code) {
            code := RUNE_ERROR;
          }
        }
      }
      r := Rune(code, RuneLen(code), length);
    }

    method Next() returns (r: Option<Rune>)
      requires Valid()
      modifies this
      ensures Valid() && r == At(b, old(Here()), hi)
      ensures r.None? ==> Here() == old(Here())
      ensures r.Some? ==> Here() == IdentityText.Next(b, old(Here()), hi)
    {
      if hasPeek {
        FirstRune(b, Here(), hi, pos);
        hasPeek := false;
        return Some(pending);
      }
      r := Read();
    }

    /** Looks ahead; at the end the rune is 0. */
    method Peek() returns (code: int)
      requires Valid()
      modifies this
      ensures Valid() && Here() == old(Here()) && code == IdentityText.Peek(b, Here(), hi)
    {
      if !hasPeek {
        var r := Read();
        if r.None? {
          return 0;
        }
        pending, hasPeek := r.value, true;
        assert b[Here()..hi] == old(b[Here()..hi]);
      }
      code := pending.code;
    }
  }

  /** The end of the sentence that holds the opening. */
  method EndOfSentence(m: Matchers, b: Bytes, lo: nat, hi: nat, opening: nat) returns (end: nat)
    requires lo <= hi <= |b| && StringOk(b[lo..hi])
    ensures SentenceEnd(m, b, lo, hi, 0, false, opening) == Some(end) && lo <= end <= hi
  {
    hide StringOk, ReadRune;
    var r := new RuneReader(b, lo, hi);
    var decoded: nat := 0;
    var blankLine := false;
    ghost var goal := SentenceEnd(m, b, lo, hi, 0, false, opening);
    SentenceEndsOnRune(m, b, lo, hi, 0, false, opening);
    while true
      invariant r.Valid() && r.b == b && r.hi == hi && lo <= r.Here() && fresh(r)
      invariant SentenceEnd(m, b, r.Here(), hi, decoded, blankLine, opening) == goal && goal.Some?
      decreases hi - r.Here()
    {
      var start := r.Here();
      var value := r.Next();
      if value.None? {
        return hi;
      }
      var before := decoded;
      decoded := decoded + value.value.size;
      if before >= opening {
        var code := value.value.code;
        if code == 0x0A {
          if blankLine {
            return start;
          }
          blankLine := true;
        } else if code != 0x09 && code != 0x0D && !m.isSeparator(code) {
          blankLine := false;
        }
        if EndsSentence(code) {
          var ends := true;
          if code == 0x2E {
            var next := r.Peek();
            ends := !WordLike(m, next);
          }
          if ends {
            return start;
          }
        }
      }
    }
  }

  method ConsumeRune(m: Matchers, state: Quotes, code: int, next: int) returns (r: Quotes)
    ensures r == Consume(m, state, code, next)
  {
    r := Quotes(state.quote, code);
    if code == APOSTROPHE && m.isLetter(state.previous) && m.isLetter(next) {
      return;
    }
    if code == APOSTROPHE && state.quote == 0 && m.isLetter(state.previous) && (m.isSpace(next) || next == 0) {
      return;
    }
    if r.quote != 0 {
      if code == r.quote {
        r := r.(quote := 0);
      }
      return;
    }
    if code == 0x22 || code == APOSTROPHE || code == 0x60 {
      r := r.(quote := code);
    } else if code == 0x201C {
      r := r.(quote := 0x201D);
    } else if code == 0x2018 {
      r := r.(quote := 0x2019);
    }
  }

  /** Carries a match back to raw bytes and decides whether it may be removed. */
  method LocateMatch(m: Matchers, b: Bytes, start: nat, hi: nat, match': (nat, nat), quotes: Quotes)
    returns (r: Option<Located>, allowed: bool)
    requires start <= hi <= |b| && StringOk(b[start..hi])
    ensures r == Locate(m, b, start, hi, 0, match', NoMatch(start, quotes))
    ensures r.Some? && match'.1 > 0 ==> start <= r.value.span.end <= hi && StringOk(b[r.value.span.end..hi])
    ensures r.Some? && match'.1 > 0 ==> allowed == (!r.value.quoted && StandsAlone(m, b, r.value.span.end, hi))
  {
    hide StringOk, ReadRune, Consume;
    var reader := new RuneReader(b, start, hi);
    var decoded: nat := 0;
    var l := NoMatch(start, quotes);
    while decoded < match'.1
      invariant reader.Valid() && reader.b == b && reader.hi == hi && start <= reader.Here() && fresh(reader)
      invariant Locate(m, b, reader.Here(), hi, decoded, match', l)
                == Locate(m, b, start, hi, 0, match', NoMatch(start, quotes))
      invariant decoded > 0 ==> l.span.end == reader.Here()
      decreases hi - reader.Here()
    {
      var at := reader.Here();
      var value := reader.Next();
      if value.None? {
        return None, false;
      }
      var from, quoted := l.span.start, l.quoted;
      if decoded == match'.0 {
        from, quoted := at, l.quotes.quote != 0;
      }
      var next := reader.Peek();
      var state := ConsumeRune(m, l.quotes, value.value.code, next);
      decoded := decoded + value.value.size;
      l := Located(Span(from, reader.Here()), quoted, state);
    }
    if decoded != match'.1 {
      return None, false;
    }
    r := Some(l);
    if match'.1 > 0 {
      allowed := Alone(m, b, l.span.end, hi);
      allowed := allowed && !l.quoted;
    } else {
      allowed := false;
    }
  }

  /** Looks behind a match, past the end of its sentence. */
  method Alone(m: Matchers, b: Bytes, p: nat, hi: nat) returns (r: bool)
    requires p <= hi <= |b| && StringOk(b[p..hi])
    ensures r == StandsAlone(m, b, p, hi)
  {
    hide StringOk, ReadRune;
    var after := new RuneReader(b, p, hi);
    var next := after.Next();
    var code := if next.Some? then next.value.code else 0;
    if WordLike(m, code) || code == 0x5F || code == 0x2D {
      return false;
    }
    if code == 0x2E {
      var following := after.Next();
      return !WordLike(m, if following.Some? then following.value.code else 0);
    }
    return true;
  }

  /** Emits the removals of one string. */
  method ScanIdentityText(m: Matchers, b: Bytes, lo: nat, hi: nat) returns (emitted: seq<Span>)
    requires Sound(m) && lo <= hi <= |b| && StringOk(b[lo..hi])
    ensures TextRemovals(m, b, lo, hi) == Some(emitted)
    ensures Cuts(b, lo, hi, emitted) && Emits(m, b, lo, hi, emitted)
  {
    hide StringOk, Sound, SentenceEnd, Locate, StandsAlone, Cuts, Decode, Emits;
    emitted := [];
    TextRemovalsAreCuts(m, b, lo, hi);
    TextRemovalsMean(m, b, lo, hi);
    var opening := m.opening(Decode(b[lo..hi]));
    if opening.None? {
      return;
    }
    var end := EndOfSentence(m, b, lo, hi, opening.value);
    var cursor := lo;
    var state := Quotes(0, 0);
    while cursor < end
      invariant lo <= cursor <= hi && StringOk(b[cursor..hi])
      invariant Removals(m, b, cursor, end, hi, state).Some?
      invariant emitted + Removals(m, b, cursor, end, hi, state).value == TextRemovals(m, b, lo, hi).value
      decreases hi - cursor
    {
      var found := m.qualifier(Decode(b[cursor..end]));
      if found.None? {
        break;
      }
      FoundIsLater(m, Decode(b[cursor..end]), found.value);
      var l, allowed := LocateMatch(m, b, cursor, hi, found.value, state);
      if allowed {
        emitted := emitted + [l.value.span];
      }
      cursor, state := l.value.span.end, l.value.quotes;
    }
    assert emitted + [] == emitted;
  }

  lemma FoundIsLater(m: Matchers, codes: seq<int>, found: (nat, nat))
    requires Sound(m) && m.qualifier(codes) == Some(found)
    ensures found.1 > 0
  {
    var i: nat, j: nat :| i < j <= |codes| && found.0 == Size(codes[..i]) && found.1 == Size(codes[..j]);
    SizePositive(codes, j);
  }
}

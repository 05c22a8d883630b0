/** The scanner as the gateway runs it: a position and a depth that advance over the
    bytes, and a growing list of candidates, some of which are handed to the text
    scanner when an object or a field ends.  Each method is proved to do what the
    functions of `IdentityScan` say. */
module IdentityReader {
  import opened JsonGrammar
  import opened JsonLexer
  import opened IdentityRunes
  import opened IdentityScan
  import opened IdentityTree
  import opened Wrappers

  class Reader {
    const b: Bytes
    var pos: nat
    var depth: nat
    var candidates: seq<Span>
    var processed: seq<Span>

    constructor (b: Bytes)
      ensures this.b == b && pos == 0 && depth == 0 && candidates == [] && processed == []
    {
      this.b, pos, depth, candidates, processed := b, 0, 0, [], [];
    }

    ghost predicate Valid()
      reads this
    {
      pos <= |b| && depth <= MAX_DEPTH
    }

    function Left(): nat
      requires Valid()
      reads this
    {
      MAX_DEPTH - depth
    }

    method Whitespace()
      requires Valid()
      modifies `pos
      ensures Valid() && pos == SkipWs(b, old(pos))
    {
      while pos < |b| && IsWs(b[pos])
        invariant pos <= |b| && SkipWs(b, pos) == SkipWs(b, old(pos))
      {
        pos := pos + 1;
      }
    }

    method Expect(x: Byte) returns (ok: bool)
      requires Valid()
      modifies `pos
      ensures Valid() && ok == At(b, SkipWs(b, old(pos)), x)
      ensures ok ==> pos == SkipWs(b, old(pos)) + 1
    {
      Whitespace();
      ok := pos < |b| && b[pos] == x;
      if ok {
        pos := pos + 1;
      }
    }

    /** The rest of a string whose opening quote was read. */
    method StringRest() returns (ok: bool)
      requires Valid()
      modifies `pos
      ensures Valid() && ok == StringEnd(b, old(pos)).Some?
      ensures ok ==> pos == StringEnd(b, old(pos)).value
    {
      while pos < |b| && b[pos] != QUOTE
        invariant pos <= |b| && StringEnd(b, pos) == StringEnd(b, old(pos))
        decreases |b| - pos
      {
        ghost var rest := b[pos..];
        if b[pos] < 0x20 {
          return false;
        }
        if b[pos] != BACKSLASH {
          assert CharLength(rest) == 1;
          pos := pos + 1;
        } else if pos + 1 == |b| {
          return false;
        } else if IsSimpleEscape(b[pos + 1]) {
          assert CharLength(rest) == 2;
          pos := pos + 2;
        } else if b[pos + 1] == 0x75 && pos + 6 <= |b|
               && IsHex(b[pos + 2]) && IsHex(b[pos + 3]) && IsHex(b[pos + 4]) && IsHex(b[pos + 5]) {
          assert CharLength(rest) == 6;
          pos := pos + 6;
        } else {
          assert CharLength(rest) == 0;
          return false;
        }
      }
      if pos == |b| {
        return false;
      }
      pos := pos + 1;
      return true;
    }

    method Digits()
      requires Valid()
      modifies `pos
      ensures Valid() && pos == DigitsEnd(b, old(pos))
    {
      while pos < |b| && IsDigit(b[pos])
        invariant pos <= |b| && DigitsEnd(b, pos) == DigitsEnd(b, old(pos))
      {
        pos := pos + 1;
      }
    }

    method Number() returns (ok: bool)
      requires Valid()
      modifies `pos
      ensures Valid() && ok == NumberEnd(b, old(pos)).Some?
      ensures ok ==> pos == NumberEnd(b, old(pos)).value
    {
      hide DigitsEnd, IntEnd, FractionEnd, ExponentEnd;
      if At(b, pos, 0x2D) {
        pos := pos + 1;
      }
      ok := WholePart();
      if ok {
        ok := Fraction();
      }
      if ok {
        ok := Exponent();
      }
    }

    method WholePart() returns (ok: bool)
      requires Valid()
      modifies `pos
      ensures Valid() && ok == IntEnd(b, old(pos)).Some? && (ok ==> pos == IntEnd(b, old(pos)).value)
    {
      ok := true;
      if At(b, pos, 0x30) {
        pos := pos + 1;
      } else if pos < |b| && 0x31 <= b[pos] <= 0x39 {
        pos := pos + 1;
        Digits();
      } else {
        ok := false;
      }
    }

    method Fraction() returns (ok: bool)
      requires Valid()
      modifies `pos
      ensures Valid() && ok == FractionEnd(b, old(pos)).Some? && (ok ==> pos == FractionEnd(b, old(pos)).value)
    {
      ok := true;
      if At(b, pos, 0x2E) {
        pos := pos + 1;
        var start := pos;
        Digits();
        ok := pos != start;
      }
    }

    method Exponent() returns (ok: bool)
      requires Valid()
      modifies `pos
      ensures Valid() && ok == ExponentEnd(b, old(pos)).Some? && (ok ==> pos == ExponentEnd(b, old(pos)).value)
    {
      ok := true;
      if At(b, pos, 0x65) || At(b, pos, 0x45) {
        pos := pos + 1;
        if At(b, pos, 0x2B) || At(b, pos, 0x2D) {
          pos := pos + 1;
        }
        var start := pos;
        Digits();
        ok := pos != start;
      }
    }

    method ReadWord(word: Bytes) returns (ok: bool)
      requires Valid()
      modifies `pos
      ensures Valid() && ok == WordEnd(b, old(pos), word).Some?
      ensures ok ==> pos == WordEnd(b, old(pos), word).value
    {
      var i := 0;
      while i < |word|
        invariant 0 <= i <= |word| && pos <= |b|
        invariant WordEnd(b, pos, word[i..]).Some? <==> WordEnd(b, old(pos), word).Some?
        invariant WordEnd(b, pos, word[i..]).Some? ==>
                    WordEnd(b, pos, word[i..]).value == WordEnd(b, old(pos), word).value
      {
        assert word[i..][0] == word[i] && word[i..][1..] == word[i + 1..];
        if !At(b, pos, word[i]) {
          return false;
        }
        pos := pos + 1;
        i := i + 1;
      }
      return true;
    }

    /** `appendCandidate`. */
    method Append(span: Span)
      modifies `candidates
      ensures candidates == old(candidates) + [span]
    {
      candidates := candidates + [span];
    }

    /** `processCandidates`: everything appended since `start` goes to the text scanner. */
    method Process(start: nat)
      requires start <= |candidates|
      modifies `processed
      ensures processed == old(processed) + candidates[start..]
    {
      var i := start;
      while i < |candidates|
        invariant start <= i <= |candidates|
        invariant processed == old(processed) + candidates[start..i]
      {
        processed := processed + [candidates[i]];
        i := i + 1;
      }
    }

    /** What a reader has done when it succeeds. */
    twostate predicate Did(ok: bool, r: Option<Found>)
      reads this
    {
      && (ok <==> r.Some?)
      && (ok ==> && pos == r.value.end && depth == old(depth)
                 && candidates == old(candidates) + r.value.candidates
                 && processed == old(processed) + r.value.processed)
    }

    /** A value read for a handler, from its first byte. */
    method ReadValue(h: Handler) returns (ok: bool)
      requires Valid()
      modifies this
      ensures Valid() && Did(ok, ScanValue(h, b, old(pos), old(Left())))
      decreases |b| - pos, 3
    {
      hide NumberEnd, ScanItems, ScanMembers, CloseObject, StringEnd, WordEnd, SkipWs;
      if pos == |b| {
        return false;
      }
      var x := b[pos];
      if x == LBRACE {
        ok := ReadObject(h);
      } else if x == LBRACKET {
        ok := ReadArray(h);
      } else if x == QUOTE {
        var start := pos;
        pos := pos + 1;
        ok := StringRest();
        if ok && (h.Content? || h.Plain?) {
          Append(Span(start, pos));
        }
      } else if x == 0x74 || x == 0x66 || x == 0x6E {
        ok := ReadWord(Word(x));
      } else {
        ok := Number();
      }
    }

    method ReadArray(h: Handler) returns (ok: bool)
      requires Valid() && pos < |b| && b[pos] == LBRACKET
      modifies this
      ensures Valid() && Did(ok, ScanValue(h, b, old(pos), old(Left())))
      decreases |b| - pos, 2
    {
      hide NumberEnd, ScanMembers, CloseObject, StringEnd, WordEnd, SkipWs;
      if depth == MAX_DEPTH {
        return false;
      }
      depth := depth + 1;
      pos := pos + 1;
      ghost var from := pos;
      Whitespace();
      if At(b, pos, RBRACKET) {
        pos := pos + 1;
        depth := depth - 1;
        return true;
      }
      SkipWsAgain(b, from);
      ok := ReadItems(ItemHandler(h), from);
      if ok {
        depth := depth - 1;
      }
    }

    method ReadObject(h: Handler) returns (ok: bool)
      requires Valid() && pos < |b| && b[pos] == LBRACE
      modifies this
      ensures Valid() && Did(ok, ScanValue(h, b, old(pos), old(Left())))
      decreases |b| - pos, 2
    {
      hide ScanValue, ScanMembers, SkipWs, Closing, Handed;
      ObjectStep(h, b, pos, Left(), SkipWs(b, pos + 1));
      if depth == MAX_DEPTH {
        return false;
      }
      depth := depth + 1;
      pos := pos + 1;
      ghost var from := pos;
      Whitespace();
      var start := |candidates|;
      var f := EMPTY;
      if At(b, pos, RBRACE) {
        pos := pos + 1;
        ok := true;
      } else {
        SkipWsAgain(b, from);
        ok, f := ReadMembers(ObjectHandler(h), from);
        if !ok {
          return;
        }
      }
      CloseFrame(ObjectHandler(h), f, start);
      depth := depth - 1;
      assert old(candidates) + f.candidates + Closing(ObjectHandler(h), f)
          == old(candidates) + (f.candidates + Closing(ObjectHandler(h), f));
      assert old(processed) + f.processed + Handed(ObjectHandler(h), f)
          == old(processed) + (f.processed + Handed(ObjectHandler(h), f));
    }

    /** What follows the closing brace of an object that a handler looks at. */
    method CloseFrame(h: Handler, f: Frame, start: nat)
      requires start <= |candidates| && candidates[start..] == f.candidates
      modifies `candidates, `processed
      ensures candidates == old(candidates) + Closing(h, f)
      ensures processed == old(processed) + Handed(h, f)
    {
      if h.Part? && f.text.Some? && PartIsText(f) {
        Append(f.text.value);
      } else if h.Message? && MessageInstructs(f) {
        Process(start);
      }
    }

    method ReadItems(h: Handler, ghost from: nat) returns (ok: bool)
      requires Valid() && from <= pos && SkipWs(b, pos) == SkipWs(b, from)
      modifies this
      ensures Valid() && Did(ok, ScanItems(h, b, from, old(Left()), [], []))
      decreases |b| - pos, 4
    {
      hide NumberEnd, ScanMembers, CloseObject, StringEnd, WordEnd, SkipWs, ScanValue;
      ghost var at: nat := from;
      ghost var c: seq<Span>, p: seq<Span> := [], [];
      while true
        invariant Valid() && old(pos) <= pos && at <= |b| && SkipWs(b, pos) == SkipWs(b, at)
        invariant depth == old(depth)
        invariant candidates == old(candidates) + c && processed == old(processed) + p
        invariant ScanItems(h, b, at, Left(), c, p) == ScanItems(h, b, from, Left(), [], [])
        decreases |b| - pos
      {
        Whitespace();
        ghost var r := ScanValue(h, b, pos, Left());
        ok := ReadValue(h);
        if !ok {
          return;
        }
        c, p := c + r.value.candidates, p + r.value.processed;
        Whitespace();
        if At(b, pos, RBRACKET) {
          pos := pos + 1;
          return true;
        }
        if !At(b, pos, COMMA) {
          return false;
        }
        pos := pos + 1;
        at := pos;
      }
    }

    /** A key and its colon, up to where the value starts. */
    method ReadKey(ghost at: nat) returns (ok: bool, k: nat, e: nat)
      requires Valid() && at <= |b| && SkipWs(b, pos) == SkipWs(b, at)
      modifies `pos
      ensures Valid() && (ok <==> ScanKey(b, at).Some?)
      ensures ok ==> ScanKey(b, at) == Some((k, e, pos)) && old(pos) <= k
    {
      hide StringEnd, SkipWs;
      SkipWsAgain(b, at);
      Whitespace();
      k, e := pos, 0;
      ok := Expect(QUOTE);
      if !ok {
        return;
      }
      ok := StringRest();
      if !ok {
        return;
      }
      e := pos;
      ok := Expect(COLON);
      if !ok {
        return;
      }
      Whitespace();
    }

    method ReadMembers(h: Handler, ghost from: nat) returns (ok: bool, f: Frame)
      requires Valid() && from <= pos && SkipWs(b, pos) == SkipWs(b, from)
      modifies this
      ensures Valid()
      ensures var r := ScanMembers(h, b, from, old(Left()), EMPTY);
              && (ok <==> r.Some?)
              && (ok ==> && pos == r.value.0 && f == r.value.1 && depth == old(depth)
                         && candidates == old(candidates) + f.candidates
                         && processed == old(processed) + f.processed)
      decreases |b| - pos, 4
    {
      hide ScanMembers, ScanKey, StringEnd, SkipWs, ScanValue, Enter, ShortString, Flag, FieldHandler, StringValue;
      ghost var at: nat := from;
      f := EMPTY;
      while true
        invariant Valid() && old(pos) <= pos && at <= |b| && SkipWs(b, pos) == SkipWs(b, at)
        invariant depth == old(depth)
        invariant candidates == old(candidates) + f.candidates
        invariant processed == old(processed) + f.processed
        invariant ScanMembers(h, b, at, Left(), f) == ScanMembers(h, b, from, Left(), EMPTY)
        decreases |b| - pos
      {
        var k, e;
        NoKey(h, b, at, Left(), f);
        ok, k, e := ReadKey(at);
        if !ok {
          return;
        }
        var name := ShortString(b[k + 1..e - 1], KEY_LIMIT);
        ghost var v := pos;
        ghost var r := ScanValue(FieldHandler(h, name), b, pos, Left());
        MemberStep(h, b, at, Left(), f, k, e, pos, name, r, if r.Some? then SkipWs(b, r.value.end) else 0);
        ghost var before := f;
        ok, f := ReadField(h, name, f);
        if !ok {
          return;
        }
        EnterAppends(h, name, Span(v, r.value.end), StringValue(b, v, r.value.end), r.value, before);
        Whitespace();
        if At(b, pos, RBRACE) {
          pos := pos + 1;
          return;
        }
        if !At(b, pos, COMMA) {
          ok := false;
          return;
        }
        pos := pos + 1;
        at := pos;
      }
    }

    /** `scanIdentityJSON`: a whole request from its first byte. */
    method ScanRequest(route: Route) returns (ok: bool, model: Name)
      requires pos == 0 && depth == 0 && candidates == [] && processed == []
      modifies this
      ensures var r := ScanText(route, b);
              && (ok <==> r.Some?)
              && (ok ==> processed == r.value.processed && model == Metadata(r.value, "model"))
    {
      hide SkipWs, Ascii, CloseObject, Enter;
      model := [];
      Whitespace();
      if !At(b, pos, LBRACE) {
        return false, [];
      }
      depth := depth + 1;
      pos := pos + 1;
      ghost var from := pos;
      Whitespace();
      var f := EMPTY;
      if At(b, pos, RBRACE) {
        pos := pos + 1;
        ok := true;
      } else {
        SkipWsAgain(b, from);
        ok, f := ReadMembers(Top(route), from);
        if !ok {
          return;
        }
      }
      Whitespace();
      ok := pos == |b|;
      model := Metadata(f, "model");
    }

    /** The callback of an object reader: a repeated field is an error, and some fields
        of the request process what their value appended. */
    method ReadField(h: Handler, name: Name, f: Frame) returns (ok: bool, g: Frame)
      requires Valid()
      modifies this
      ensures Valid()
      ensures var r := ScanValue(FieldHandler(h, name), b, old(pos), old(Left()));
              && (ok <==> !Repeats(h, name, f) && r.Some?)
              && (ok ==>
                    && g == Enter(h, name, Span(old(pos), r.value.end), StringValue(b, old(pos), r.value.end),
                       r.value, f)
                    && pos == r.value.end && depth == old(depth)
                    && candidates == old(candidates) + r.value.candidates
                    && processed == old(processed) + r.value.processed + FieldHanded(h, name, r.value))
      decreases |b| - pos, 4
    {
      hide ScanValue, ShortString, Ascii;
      g := f;
      if Flag(h, name).Some? && Flag(h, name).value in f.seen {
        return false, f;
      }
      var start, v, done := |candidates|, pos, |processed|;
      ghost var r := ScanValue(FieldHandler(h, name), b, pos, Left());
      ok := ReadValue(FieldHandler(h, name));
      if !ok {
        return;
      }
      var found := Found(pos, candidates[start..], processed[done..]);
      assert found == r.value;
      if h.Top? && Flag(h, name) == Some(2) {
        Process(start);
      }
      g := Enter(h, name, Span(v, pos), StringValue(b, v, pos), found, f);
    }
  }

  lemma NoKey(h: Handler, b: Bytes, i: nat, d: nat, f: Frame)
    requires i <= |b|
    ensures ScanKey(b, i).None? ==> ScanMembers(h, b, i, d, f) == None
  {
    hide ScanKey, Flag, FieldHandler, Enter, StringValue, ShortString;
  }

  lemma EnterAppends(h: Handler, name: Name, span: Span, raw: Option<Bytes>, found: Found, f: Frame)
    ensures var g := Enter(h, name, span, raw, found, f);
            && (forall s: seq<Span> :: s + g.candidates == s + f.candidates + found.candidates)
            && (forall s: seq<Span> ::
               s + g.processed == s + f.processed + found.processed + FieldHanded(h, name, found))
  {
    hide Flag, IsMetadata, ShortString, FieldHanded;
  }

  lemma SkipWsAgain(b: Bytes, i: nat)
    requires i <= |b|
    ensures SkipWs(b, SkipWs(b, i)) == SkipWs(b, i)
  {
    SkipWsReads(b, i);
  }
}
/** What the text scanner emits for an accepted string: spans inside it, in order,
    apart, and from rune to rune, so that cutting them out leaves a string the grammar
    accepts. */
module IdentityCuts {
  import opened JsonGrammar
  import opened IdentityRunes
  import opened IdentityScan
  import opened IdentityText
  import opened Wrappers

  /** `q` is reached from `p` by whole runes. */
  ghost predicate Boundary(b: Bytes, p: nat, hi: nat, q: nat)
    requires p <= hi <= |b|
    decreases hi - p
  {
    q == p || (p < q && p < hi && At(b, p, hi).Some? && Boundary(b, Next(b, p, hi), hi, q))
  }

  /** Spans from `p` on, each a run of whole runes, none touching the one before out of
      order. */
  ghost predicate Cuts(b: Bytes, p: nat, hi: nat, spans: seq<Span>)
    requires p <= hi <= |b|
    decreases |spans|
  {
    spans == [] ||
    var s := spans[0];
    && s.start < s.end <= hi
    && Boundary(b, p, hi, s.start) && p <= s.start && Boundary(b, s.start, hi, s.end)
    && Cuts(b, s.end, hi, spans[1..])
  }

  lemma {:induction false} BoundaryInside(b: Bytes, p: nat, hi: nat, q: nat)
    requires p <= hi <= |b| && Boundary(b, p, hi, q)
    ensures p <= q <= hi
    decreases hi - p
  {
    if q != p {
      BoundaryInside(b, Next(b, p, hi), hi, q);
    }
  }

  lemma {:induction false} BoundaryJoin(b: Bytes, p: nat, hi: nat, q: nat, r: nat)
    requires p <= hi <= |b| && q <= hi && Boundary(b, p, hi, q) && Boundary(b, q, hi, r)
    ensures Boundary(b, p, hi, r)
    decreases hi - p
  {
    BoundaryInside(b, q, hi, r);
    if q != p {
      BoundaryInside(b, Next(b, p, hi), hi, q);
      BoundaryJoin(b, Next(b, p, hi), hi, q, r);
    }
  }

  /** Two places reached from the same one are reached one from the other. */
  lemma {:induction false} BoundaryBetween(b: Bytes, p: nat, hi: nat, q: nat, r: nat)
    requires p <= hi <= |b| && Boundary(b, p, hi, q) && Boundary(b, p, hi, r) && q <= r
    ensures q <= hi && Boundary(b, q, hi, r)
    decreases hi - p
  {
    BoundaryInside(b, p, hi, q);
    if q != p {
      BoundaryInside(b, Next(b, p, hi), hi, q);
      BoundaryBetween(b, Next(b, p, hi), hi, q, r);
    }
  }

  /** One rune off a string leaves two strings. */
  lemma FirstRune(b: Bytes, p: nat, hi: nat, n: nat)
    requires p < hi <= |b| && StringOk(b[p..hi]) && At(b, p, hi).Some? && n == Next(b, p, hi)
    ensures StringOk(b[p..n]) && StringOk(b[n..hi])
  {
    hide StringOk;
    var s := b[p..hi];
    RuneOfString(s);
    RuneIsString(s, n - p);
    hide ReadRune;
    assert s[n - p..] == b[n..hi];
    assert s[..n - p] == b[p..n];
  }

  /** Strings stay strings: the rest after whole runes, and the runes themselves. */
  lemma {:induction false} BoundarySplitsString(b: Bytes, p: nat, hi: nat, q: nat)
    requires p <= hi <= |b| && StringOk(b[p..hi]) && Boundary(b, p, hi, q)
    ensures p <= q <= hi && StringOk(b[p..q]) && StringOk(b[q..hi])
    decreases hi - p
  {
    hide ReadRune, CharLength;
    if q == p {
      assert b[p..q] == [];
    } else {
      var n := Next(b, p, hi);
      FirstRune(b, p, hi, n);
      BoundarySplitsString(b, n, hi, q);
      assert b[p..q] == b[p..n] + b[n..q];
      StringJoin(b[p..n], b[n..q]);
    }
  }

  lemma {:induction false} StringJoin(s: Bytes, t: Bytes)
    requires StringOk(s) && StringOk(t)
    ensures StringOk(s + t)
    decreases |s|
  {
    if s == [] {
      assert s + t == t;
    } else {
      var n := CharLength(s);
      CharPrefix(s, s + t);
      assert (s + t)[n..] == s[n..] + t;
      StringJoin(s[n..], t);
    }
  }

  lemma CharPrefix(s: Bytes, t: Bytes)
    requires s <= t && CharLength(s) > 0
    ensures CharLength(t) == CharLength(s)
  {
    assert forall k | 0 <= k < |s| :: t[k] == s[k];
  }

  lemma CharCut(s: Bytes, n: nat)
    requires n <= |s| && 0 < CharLength(s) <= n
    ensures CharLength(s[..n]) == CharLength(s)
  {
    assert forall k | 0 <= k < n :: s[..n][k] == s[k];
  }

  /** The raw bytes of one rune are characters of the grammar. */
  lemma RuneIsString(s: Bytes, n: nat)
    requires s != [] && StringOk(s) && ReadRune(s).Some? && n == ReadRune(s).value.length
    ensures StringOk(s[..n])
  {
    var t := s[..n];
    if s[0] != BACKSLASH {
      PlainString(s, n);
    } else if n == 12 {
      assert StringOk(s[6..]) && CharLength(s) == 6;
      CharCut(s, 6);
      CharCut(s, 12);
      CharCut(s[6..], 6);
      assert t[6..] == s[6..][..6];
      assert t[6..][6..] == [];
    } else {
      CharCut(s, n);
      assert t[n..] == [];
    }
  }

  lemma {:induction false} PlainString(s: Bytes, n: nat)
    requires s != [] && StringOk(s) && s[0] != BACKSLASH && 1 <= n <= |s|
    requires forall k | 1 <= k < n :: s[k] >= 0x80
    ensures StringOk(s[..n])
    decreases n
  {
    var t := s[..n];
    CharCut(s, n);
    if n > 1 {
      assert s[1..][0] == s[1];
      PlainString(s[1..], n - 1);
      assert t[1..] == s[1..][..n - 1];
    } else {
      assert t[1..] == [];
    }
  }

  // -------------------------------------------------------- reading up to a boundary

  /** Reading one rune does not look past where it ends. */
  lemma LimitIrrelevant(b: Bytes, p: nat, end: nat, hi: nat)
    requires p < end <= hi <= |b| && At(b, p, hi).Some? && Next(b, p, hi) <= end
    ensures At(b, p, end) == At(b, p, hi)
  {
    var s, t := b[p..hi], b[p..end];
    assert forall k | 0 <= k < |t| :: t[k] == s[k];
    if s[0] != BACKSLASH {
      Utf8Prefix(s, t);
    } else if s[1] == 0x75 {
      assert Hex4(t, 2) == Hex4(s, 2);
    }
  }

  lemma Utf8Prefix(s: Bytes, t: Bytes)
    requires t != [] && |t| <= |s| && (forall k | 0 <= k < |t| :: t[k] == s[k]) && Utf8Length(s) <= |t|
    ensures Utf8Length(t) == Utf8Length(s) && Utf8Char(t) == Utf8Char(s)
  {
  }

  /** The decoded text of a stretch of whole runes starts with its first rune. */
  lemma DecodeStep(b: Bytes, p: nat, end: nat, hi: nat)
    requires p < end <= hi <= |b| && Boundary(b, p, hi, end)
    ensures At(b, p, hi).Some? && Next(b, p, hi) <= end
    ensures Decode(b[p..end]) == [At(b, p, hi).value.code] + Decode(b[Next(b, p, hi)..end])
    ensures Boundary(b, Next(b, p, hi), hi, end)
    ensures At(b, p, hi).value.size == RuneLen(At(b, p, hi).value.code)
  {
    SizeOfRune(b, p, hi);
    hide ReadRune;
    var n := Next(b, p, hi);
    BoundaryInside(b, n, hi, end);
    LimitIrrelevant(b, p, end, hi);
    assert b[p..end][n - p..] == b[n..end];
  }

  lemma SizeOfRune(b: Bytes, p: nat, hi: nat)
    requires p < hi <= |b|
    ensures At(b, p, hi).Some? ==> At(b, p, hi).value.size == RuneLen(At(b, p, hi).value.code)
  {
  }

  /** Nothing is left to decode at the end. */
  lemma DecodeEnd(b: Bytes, p: nat)
    requires p <= |b|
    ensures Decode(b[p..p]) == []
  {
    assert b[p..p] == [];
  }

  // ------------------------------------------------------------------- the scanner

  /** The sentence ends with a rune, and nothing in it fails to decode. */
  lemma {:induction false} SentenceEndsOnRune(m: Matchers, b: Bytes, p: nat, hi: nat, decoded: nat, blank: bool,
      opening: nat)
    requires p <= hi <= |b| && StringOk(b[p..hi])
    ensures SentenceEnd(m, b, p, hi, decoded, blank, opening).Some?
    ensures Boundary(b, p, hi, SentenceEnd(m, b, p, hi, decoded, blank, opening).value)
    decreases hi - p
  {
    hide StringOk, ReadRune;
    if p < hi {
      RuneOfString(b[p..hi]);
      var rune := At(b, p, hi).value;
      var q := Next(b, p, hi);
      FirstRune(b, p, hi, q);
      SentenceEndsOnRune(m, b, q, hi, decoded + rune.size, blank, opening);
      SentenceEndsOnRune(m, b, q, hi, decoded + rune.size, StillBlank(m, rune.code, blank), opening);
    }
  }

  lemma SizePositive(codes: seq<int>, j: nat)
    requires 0 < j <= |codes|
    ensures Size(codes[..j]) == RuneLen(codes[0]) + Size(codes[1..][..j - 1])
  {
    assert codes[..j][1..] == codes[1..][..j - 1];
  }

  /** Inside a match: the walk goes on to its end. */
  lemma {:induction false} LocateRest(
    m: Matchers, b: Bytes, p: nat, end: nat, hi: nat, decoded: nat, match': (nat, nat), l: Located, j: nat)
    requires p <= end <= hi <= |b| && Boundary(b, p, hi, end)
    requires j <= |Decode(b[p..end])| && match'.1 == decoded + Size(Decode(b[p..end])[..j]) && match'.0 < decoded
    requires l.span.end == p
    ensures var r := Locate(m, b, p, hi, decoded, match', l);
            r.Some? && r.value.span.start == l.span.start && r.value.span.end <= end
              && Boundary(b, p, hi, r.value.span.end)
    decreases hi - p
  {
    hide ReadRune, Consume, Peek;
    var codes := Decode(b[p..end]);
    if j == 0 {
      assert codes[..0] == [];
    } else {
      if p == end {
        DecodeEnd(b, p);
      }
      DecodeStep(b, p, end, hi);
      SizePositive(codes, j);
      var rune := At(b, p, hi).value;
      var q := Next(b, p, hi);
      var l' := Located(Span(l.span.start, q), l.quoted, Consume(m, l.quotes, rune.code, Peek(b, q, hi)));
      LocateRest(m, b, q, end, hi, decoded + rune.size, match', l', j - 1);
    }
  }

  /** Before a match: the walk finds both of its ends, on runes. */
  lemma {:induction false} LocateFinds(
    m: Matchers, b: Bytes, p: nat, end: nat, hi: nat, decoded: nat, match': (nat, nat), l: Located, i: nat, j: nat)
    requires p <= end <= hi <= |b| && Boundary(b, p, hi, end)
    requires i < j <= |Decode(b[p..end])|
    requires match'.0 == decoded + Size(Decode(b[p..end])[..i]) && match'.1 == decoded + Size(Decode(b[p..end])[..j])
    ensures var r := Locate(m, b, p, hi, decoded, match', l);
            r.Some? && p <= r.value.span.start < r.value.span.end <= end
            && Boundary(b, p, hi, r.value.span.start) && Boundary(b, r.value.span.start, hi, r.value.span.end)
    decreases hi - p
  {
    hide ReadRune, Consume, Peek;
    var codes := Decode(b[p..end]);
    if p == end {
      DecodeEnd(b, p);
    }
    DecodeStep(b, p, end, hi);
    SizePositive(codes, j);
    var rune := At(b, p, hi).value;
    var q := Next(b, p, hi);
    var l' := Located(Span(if decoded == match'.0 then p else l.span.start, q),
                      if decoded == match'.0 then l.quotes.quote != 0 else l.quoted,
                      Consume(m, l.quotes, rune.code, Peek(b, q, hi)));
    if i == 0 {
      assert codes[..0] == [];
      LocateRest(m, b, q, end, hi, decoded + rune.size, match', l', j - 1);
    } else {
      SizePositive(codes, i);
      LocateFinds(m, b, q, end, hi, decoded + rune.size, match', l', i - 1, j - 1);
    }
  }

  lemma CutsEarlier(b: Bytes, p: nat, q: nat, hi: nat, spans: seq<Span>)
    requires p <= hi <= |b| && q <= hi && Boundary(b, p, hi, q) && Cuts(b, q, hi, spans)
    ensures Cuts(b, p, hi, spans)
  {
    BoundaryInside(b, p, hi, q);
    if spans != [] {
      BoundaryJoin(b, p, hi, q, spans[0].start);
    }
  }

  /** Everything emitted from `p` on is a cut, and the scanner never reports an error. */
  lemma {:induction false} RemovalsAreCuts(m: Matchers, b: Bytes, p: nat, end: nat, hi: nat, quotes: Quotes)
    requires Sound(m) && p <= end <= hi <= |b| && StringOk(b[p..hi]) && Boundary(b, p, hi, end)
    ensures var r := Removals(m, b, p, end, hi, quotes); r.Some? && Cuts(b, p, hi, r.value)
    decreases hi - p
  {
    hide StringOk, ReadRune, Locate, StandsAlone;
    if p < end {
      var codes := Decode(b[p..end]);
      var found := m.qualifier(codes);
      if found.Some? {
        assert MatchInside(codes, found.value);
        var i: nat, j: nat :| i < j <= |codes|
          && found.value.0 == Size(codes[..i]) && found.value.1 == Size(codes[..j]);
        LocateFinds(m, b, p, end, hi, 0, found.value, NoMatch(p, quotes), i, j);
        var l := Locate(m, b, p, hi, 0, found.value, NoMatch(p, quotes)).value;
        BoundaryJoin(b, p, hi, l.span.start, l.span.end);
        BoundarySplitsString(b, p, hi, l.span.end);
        BoundaryBetween(b, p, hi, l.span.end, end);
        RemovalsAreCuts(m, b, l.span.end, end, hi, l.quotes);
        CutsEarlier(b, p, l.span.end, hi, Removals(m, b, l.span.end, end, hi, l.quotes).value);
      }
    }
  }

  /** The whole string. */
  lemma TextRemovalsAreCuts(m: Matchers, b: Bytes, lo: nat, hi: nat)
    requires Sound(m) && lo <= hi <= |b| && StringOk(b[lo..hi])
    ensures var r := TextRemovals(m, b, lo, hi); r.Some? && Cuts(b, lo, hi, r.value)
  {
    var opening := m.opening(Decode(b[lo..hi]));
    if opening.Some? {
      SentenceEndsOnRune(m, b, lo, hi, 0, false, opening.value);
      var end := SentenceEnd(m, b, lo, hi, 0, false, opening.value).value;
      RemovalsAreCuts(m, b, lo, end, hi, Quotes(0, 0));
    }
  }

  // ------------------------------------------------------------------- cutting out

  predicate Covered(spans: seq<Span>, k: int) {
    exists j :: 0 <= j < |spans| && spans[j].start <= k < spans[j].end
  }

  /** `s` stands at `off`; the bytes at covered positions are left out. */
  function Keep(s: Bytes, off: nat, spans: seq<Span>): Bytes {
    if s == [] then [] else (if Covered(spans, off) then [] else [s[0]]) + Keep(s[1..], off + 1, spans)
  }

  lemma {:induction false} KeepJoin(s: Bytes, t: Bytes, off: nat, spans: seq<Span>)
    ensures Keep(s + t, off, spans) == Keep(s, off, spans) + Keep(t, off + |s|, spans)
    decreases |s|
  {
    hide Covered;
    if s == [] {
      assert s + t == t;
    } else {
      assert (s + t)[1..] == s[1..] + t;
      KeepJoin(s[1..], t, off + 1, spans);
    }
  }

  lemma {:induction false} KeepAll(s: Bytes, off: nat, spans: seq<Span>)
    requires forall k | off <= k < off + |s| :: !Covered(spans, k)
    ensures Keep(s, off, spans) == s
    decreases |s|
  {
    hide Covered;
    if s == [] {
    } else {
      KeepAll(s[1..], off + 1, spans);
    }
  }

  lemma {:induction false} KeepNone(s: Bytes, off: nat, spans: seq<Span>)
    requires forall k | off <= k < off + |s| :: Covered(spans, k)
    ensures Keep(s, off, spans) == []
    decreases |s|
  {
    hide Covered;
    if s == [] {
    } else {
      KeepNone(s[1..], off + 1, spans);
    }
  }

  lemma {:induction false} CutsInside(b: Bytes, p: nat, hi: nat, spans: seq<Span>, k: int)
    requires p <= hi <= |b| && Cuts(b, p, hi, spans) && Covered(spans, k)
    ensures p <= k < hi
    decreases |spans|
  {
    hide Boundary;
    var j :| 0 <= j < |spans| && spans[j].start <= k < spans[j].end;
    if j == 0 {
    } else {
      assert spans[1..][j - 1] == spans[j];
      CutsInside(b, spans[0].end, hi, spans[1..], k);
    }
  }

  lemma CoveredRest(b: Bytes, p: nat, hi: nat, spans: seq<Span>, k: int)
    requires p <= hi <= |b| && Cuts(b, p, hi, spans) && spans != []
    ensures p <= k < spans[0].start ==> !Covered(spans, k)
    ensures spans[0].start <= k < spans[0].end ==> Covered(spans, k)
    ensures spans[0].end <= k ==> (Covered(spans, k) <==> Covered(spans[1..], k))
  {
    hide Boundary;
    if Covered(spans[1..], k) {
      CutsInside(b, spans[0].end, hi, spans[1..], k);
      var j :| 0 <= j < |spans[1..]| && spans[1..][j].start <= k < spans[1..][j].end;
      assert spans[j + 1] == spans[1..][j];
    }
    if Covered(spans, k) {
      var j :| 0 <= j < |spans| && spans[j].start <= k < spans[j].end;
      if j > 0 {
        assert spans[1..][j - 1] == spans[j];
      }
    }
  }

  lemma KeepThrough(b: Bytes, p: nat, s: nat, e: nat, hi: nat, spans: seq<Span>)
    requires p <= s <= e <= hi <= |b|
    ensures Keep(b[p..hi], p, spans) == Keep(b[p..s], p, spans) + (Keep(b[s..e], s, spans) + Keep(b[e..hi], e, spans))
  {
    hide Keep;
    assert b[p..hi] == b[p..s] + b[s..hi];
    KeepJoin(b[p..s], b[s..hi], p, spans);
    assert b[s..hi] == b[s..e] + b[e..hi];
    KeepJoin(b[s..e], b[e..hi], s, spans);
  }

  /** Cutting along runes leaves a string. */
  lemma {:induction false} CutStringIsString(b: Bytes, p: nat, hi: nat, spans: seq<Span>, all: seq<Span>)
    requires p <= hi <= |b| && StringOk(b[p..hi]) && Cuts(b, p, hi, spans)
    requires forall k | p <= k < hi :: Covered(all, k) <==> Covered(spans, k)
    ensures StringOk(Keep(b[p..hi], p, all))
    decreases |spans|
  {
    hide StringOk, Covered, Keep, Boundary;
    if spans == [] {
      NothingCovered();
      KeepAll(b[p..hi], p, all);
    } else {
      var s, e := spans[0].start, spans[0].end;
      forall k: int ensures (p <= k < s ==> !Covered(spans, k)) && (s <= k < e ==> Covered(spans, k))
                    && (e <= k ==> (Covered(spans, k) <==> Covered(spans[1..], k))) {
        CoveredRest(b, p, hi, spans, k);
      }
      BoundarySplitsString(b, p, hi, s);
      BoundarySplitsString(b, s, hi, e);
      CutStringIsString(b, e, hi, spans[1..], all);
      KeepThrough(b, p, s, e, hi, all);
      KeepAll(b[p..s], p, all);
      KeepNone(b[s..e], s, all);
      StringJoin(b[p..s], Keep(b[e..hi], e, all));
      assert [] + Keep(b[e..hi], e, all) == Keep(b[e..hi], e, all);
    }
  }

  lemma NothingCovered()
    ensures forall k :: !Covered([], k)
  {
  }
}

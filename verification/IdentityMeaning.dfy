/** The text scanner finds what the decoded text says
    (internal/gateway/identity_text_stream.go:140-275): its walk over raw bytes, with a
    count of decoded bytes, a flag for empty lines and a quote state, ends where the
    sentence ends, knows what is quoted, and emits the raw bytes of exactly the phrases
    that are to go. */
module IdentityMeaning {
  import opened JsonGrammar
  import opened IdentityRunes
  import opened IdentityScan
  import opened IdentityText
  import opened IdentityCuts
  import opened IdentitySentence
  import opened IdentityPlaces
  import opened Wrappers

  // ------------------------------------------------------------------ the sentence

  lemma {:induction false} SizeMore(codes: seq<int>, i: nat, k: nat)
    requires i <= k < |codes|
    ensures Size(codes[i..k + 1]) == Size(codes[i..k]) + RuneLen(codes[k])
    decreases k - i
  {
    if i == k {
      assert codes[i..k + 1] == [codes[k]] + [] && codes[i..k] == [];
    } else {
      assert codes[i..k + 1][1..] == codes[i + 1..k + 1] && codes[i..k][1..] == codes[i + 1..k];
      SizeMore(codes, i + 1, k);
    }
  }

  lemma SizeUpTo(codes: seq<int>, k: nat)
    requires k < |codes|
    ensures Size(codes[..k + 1]) == Size(codes[..k]) + RuneLen(codes[k])
  {
    SizeMore(codes, 0, k);
    assert codes[0..k + 1] == codes[..k + 1] && codes[0..k] == codes[..k];
  }

  lemma {:induction false} SizeGrows(codes: seq<int>, i: nat, j: nat, k: nat)
    requires i <= j <= k <= |codes|
    ensures Size(codes[i..j]) <= Size(codes[i..k])
    ensures j < k ==> Size(codes[i..j]) < Size(codes[i..k])
    decreases k - j
  {
    if j < k {
      SizeGrows(codes, i, j + 1, k);
      SizeMore(codes, i, j);
    }
  }

  lemma EmptyStep(m: Matchers, codes: seq<int>, opening: nat, k: nat)
    requires k < |codes|
    ensures Size(codes[..k]) < opening ==> !EmptySoFar(m, codes, opening, k) && !EmptySoFar(m, codes, opening, k + 1)
    ensures Size(codes[..k]) >= opening ==>
              (EmptySoFar(m, codes, opening, k + 1) <==> StillBlank(m, codes[k], EmptySoFar(m, codes, opening, k)))
  {
    forall j | 0 <= j < k
      ensures Size(codes[..j]) <= Size(codes[..k])
    {
      SizeGrows(codes, 0, j, k);
      assert codes[0..j] == codes[..j] && codes[0..k] == codes[..k];
    }
    hide Size;
    if EmptySoFar(m, codes, opening, k) && StillBlank(m, codes[k], true) && codes[k] != '\n' as int {
      var j :| 0 <= j < k && codes[j] == '\n' as int && Size(codes[..j]) >= opening
               && forall i | j < i < k :: codes[i] == '\t' as int || codes[i] == '\r' as int || m.isSeparator(codes[i]);
      assert codes[j] == '\n' as int;
    }
  }

  lemma EmptyNowhere(m: Matchers, codes: seq<int>, opening: nat)
    ensures !EmptySoFar(m, codes, opening, 0)
  {
  }

  /** One step of the scanner's walk. */
  lemma EndUnfolds(
    m: Matchers, b: Bytes, p: nat, hi: nat, decoded: nat, blank: bool, opening: nat, code: int, q: nat, next: int)
    requires p < hi <= |b| && At(b, p, hi).Some? && At(b, p, hi).value.code == code
    requires At(b, p, hi).value.size == RuneLen(code) && Next(b, p, hi) == q && Peek(b, q, hi) == next
    ensures SentenceEnd(m, b, p, hi, decoded, blank, opening)
         == if decoded < opening then SentenceEnd(m, b, q, hi, decoded + RuneLen(code), blank, opening)
            else if (code == 0x0A && blank) || (EndsSentence(code) && !(code == 0x2E && WordLike(m, next))) then Some(p)
            else SentenceEnd(m, b, q, hi, decoded + RuneLen(code), StillBlank(m, code, blank), opening)
  {
    hide ReadRune;
  }

  lemma EndStep(
    m: Matchers, b: Bytes, lo: nat, hi: nat, codes: seq<int>, opening: nat, k: nat)
    requires Reads(b, lo, hi, codes) && k < |codes|
    ensures SentenceEnd(m, b, Place(b, lo, hi, k), hi, Size(codes[..k]), EmptySoFar(m, codes, opening, k), opening)
         == if StopsAt(m, codes, opening, k) then Some(Place(b, lo, hi, k))
            else SentenceEnd(m, b, Place(b, lo, hi, k + 1), hi, Size(codes[..k + 1]),
                             EmptySoFar(m, codes, opening, k + 1), opening)
  {
    hide Place, Size, ReadRune, StringOk, Decode, SentenceEnd, StopsAt, EmptySoFar;
    RuneAt(b, lo, hi, codes, k);
    RuneAt(b, lo, hi, codes, k + 1);
    EmptyStep(m, codes, opening, k);
    SizeUpTo(codes, k);
    StopCases(m, codes, opening, k);
    EndUnfolds(m, b, Place(b, lo, hi, k), hi, Size(codes[..k]), EmptySoFar(m, codes, opening, k), opening, codes[k],
      Place(b, lo, hi, k + 1), CodeAt(codes, k + 1));
    hide *;
  }

  /** Reading on from a place before the end of the sentence finds that end. */
  lemma {:induction false} SentenceMeans(
    m: Matchers, b: Bytes, lo: nat, hi: nat, codes: seq<int>, opening: nat, k: nat) returns (end: nat)
    requires Reads(b, lo, hi, codes) && k <= |codes| && forall j | 0 <= j < k :: !StopsAt(m, codes, opening, j)
    ensures SentenceIs(m, codes, opening, end)
    ensures SentenceEnd(m, b, Place(b, lo, hi, k), hi, Size(codes[..k]), EmptySoFar(m, codes, opening, k), opening)
         == Some(Place(b, lo, hi, end))
    decreases |codes| - k
  {
    end := k;
    if k == |codes| {
      RuneAt(b, lo, hi, codes, k);
      hide Place, Reads, StopsAt, EmptySoFar, Size, At;
    } else {
      EndStep(m, b, lo, hi, codes, opening, k);
      hide SentenceEnd, Place, Reads, StopsAt, EmptySoFar, Size, At;
      if !StopsAt(m, codes, opening, k) {
        end := SentenceMeans(m, b, lo, hi, codes, opening, k + 1);
      }
    }
  }

  lemma StopCases(m: Matchers, codes: seq<int>, opening: nat, k: nat)
    requires k < |codes|
    ensures StopsAt(m, codes, opening, k) <==>
              && Size(codes[..k]) >= opening
              && ((codes[k] == 0x0A && EmptySoFar(m, codes, opening, k))
                 || (EndsSentence(codes[k]) && !(codes[k] == 0x2E && WordLike(m, CodeAt(codes, k + 1)))))
  {
  }

  // -------------------------------------------------------------------- the quotes

  /** The scanner's quote state before the character at `k`. */
  function StateAt(m: Matchers, codes: seq<int>, k: nat): Quotes
    requires k <= |codes|
  {
    if k == 0 then Quotes(0, 0) else Consume(m, StateAt(m, codes, k - 1), codes[k - 1], CodeAt(codes, k))
  }

  /** One character, outside quotes and inside. */
  lemma ConsumeCases(m: Matchers, codes: seq<int>, k: nat, s: Quotes)
    requires k < |codes| && s.previous == Before(codes, k)
    ensures var t := Consume(m, s, codes[k], CodeAt(codes, k + 1));
            && t.previous == codes[k]
            && (s.quote == 0 ==> t.quote == if Opens(m, codes, k) then QUOTES[codes[k]] else 0)
            && (s.quote != 0 ==> t.quote == if codes[k] == s.quote && !InWord(m, codes, k) then 0 else s.quote)
  {
  }

  lemma OpenBefore(m: Matchers, codes: seq<int>, i: nat, k: nat)
    requires i < k < |codes|
    ensures QuotedFrom(m, codes, i, k + 1) <==> QuotedFrom(m, codes, i, k) && !Closes(m, codes, i, k)
  {
    hide Opens, Closes;
  }

  ghost predicate StateMeans(m: Matchers, codes: seq<int>, k: nat, s: Quotes)
    requires k <= |codes|
  {
    && s.previous == Before(codes, k) && (s.quote != 0 <==> InQuotes(m, codes, k))
    && (forall i | 0 <= i < k && QuotedFrom(m, codes, i, k) && !InQuotes(m, codes, i) :: s.quote == QUOTES[codes[i]])
  }

  /** Whoever opened what is open at `k` has it open at the next place too, unless the
      character at `k` closes it. */
  lemma StaysOpen(m: Matchers, codes: seq<int>, i: nat, k: nat, s: Quotes)
    requires i < k < |codes| && StateMeans(m, codes, k, s)
    ensures QuotedFrom(m, codes, i, k + 1) && !InQuotes(m, codes, i) <==>
            && QuotedFrom(m, codes, i, k) && !InQuotes(m, codes, i)
            && !(codes[k] == s.quote && !InWord(m, codes, k))
  {
    OpenBefore(m, codes, i, k);
    hide Opens, InWord, InQuotes;
  }

  lemma StateStep(m: Matchers, codes: seq<int>, k: nat, s: Quotes)
    requires k < |codes| && StateMeans(m, codes, k, s)
    ensures StateMeans(m, codes, k + 1, Consume(m, s, codes[k], CodeAt(codes, k + 1)))
  {
    ConsumeCases(m, codes, k, s);
    forall i: nat | i < k
      ensures QuotedFrom(m, codes, i, k + 1) && !InQuotes(m, codes, i) <==>
              && QuotedFrom(m, codes, i, k) && !InQuotes(m, codes, i)
              && !(codes[k] == s.quote && !InWord(m, codes, k))
    {
      StaysOpen(m, codes, i, k, s);
    }
    assert QuotedFrom(m, codes, k, k + 1) <==> Opens(m, codes, k);
    hide Consume, InWord, AfterWord, QuotedFrom, Opens;
    if InQuotes(m, codes, k) {
      var i :| 0 <= i < k && QuotedFrom(m, codes, i, k) && !InQuotes(m, codes, i);
      if !(codes[k] == s.quote && !InWord(m, codes, k)) {
        assert QuotedFrom(m, codes, i, k + 1);
      } else {
        forall j | 0 <= j < k + 1 && QuotedFrom(m, codes, j, k + 1)
          ensures InQuotes(m, codes, j)
        {
        }
        assert !InQuotes(m, codes, k + 1);
      }
    }
  }

  /** The quote state knows exactly what is quoted. */
  lemma {:induction false} QuotesMean(m: Matchers, codes: seq<int>, k: nat)
    requires k <= |codes|
    ensures StateMeans(m, codes, k, StateAt(m, codes, k))
    decreases k
  {
    if k == 0 {
    } else {
      QuotesMean(m, codes, k - 1);
      StateStep(m, codes, k - 1, StateAt(m, codes, k - 1));
      hide StateMeans;
    }
  }

  // ------------------------------------------------------------------- the phrases

  lemma LocateUnfolds(
    m: Matchers, b: Bytes, p: nat, hi: nat, decoded: nat, match': (nat, nat), l: Located, code: int, q: nat, next: int)
    requires p < hi <= |b| && At(b, p, hi).Some? && At(b, p, hi).value.code == code && decoded < match'.1
    requires At(b, p, hi).value.size == RuneLen(code) && Next(b, p, hi) == q && Peek(b, q, hi) == next
    ensures Locate(m, b, p, hi, decoded, match', l)
         == Locate(m, b, q, hi, decoded + RuneLen(code), match',
              Located(Span(if decoded == match'.0 then p else l.span.start, q),
                      if decoded == match'.0 then l.quotes.quote != 0 else l.quoted, Consume(m, l.quotes, code, next)))
  {
    hide ReadRune, Consume;
  }

  lemma SameSize(codes: seq<int>, c: nat, i: nat, k: nat)
    requires c <= i <= |codes| && c <= k <= |codes|
    ensures Size(codes[c..k]) == Size(codes[c..i]) <==> k == i
    ensures Size(codes[c..k]) < Size(codes[c..i]) <==> k < i
  {
    if k < i {
      SizeGrows(codes, c, k, i);
    } else {
      SizeGrows(codes, c, i, k);
    }
    hide Size;
  }

  /** What is known of a match at the place before `k`. */
  ghost predicate PartlyLocated(
    m: Matchers, b: Bytes, lo: nat, hi: nat, codes: seq<int>, c: nat, i: nat, k: nat, l: Located)
    requires lo <= hi <= |b| && i <= |codes| && k <= |codes|
  {
    && l.quotes == StateAt(m, codes, k) && (k > c ==> l.span.end == Place(b, lo, hi, k))
    && (k > i ==> l.span.start == Place(b, lo, hi, i) && l.quoted == (StateAt(m, codes, i).quote != 0))
  }

  lemma LocateStep(
    m: Matchers, b: Bytes, lo: nat, hi: nat, codes: seq<int>, c: nat, i: nat, j: nat, k: nat, l: Located)
    returns (l': Located)
    requires Reads(b, lo, hi, codes) && c <= i < j <= |codes| && c <= k < j
    requires PartlyLocated(m, b, lo, hi, codes, c, i, k, l)
    ensures PartlyLocated(m, b, lo, hi, codes, c, i, k + 1, l')
    ensures Locate(m, b, Place(b, lo, hi, k), hi, Size(codes[c..k]), (Size(codes[c..i]), Size(codes[c..j])), l)
         == Locate(m, b, Place(b, lo, hi, k + 1), hi, Size(codes[c..k + 1]), (Size(codes[c..i]), Size(codes[c..j])), l')
  {
    hide PartlyLocated, StateAt;
    RuneAt(b, lo, hi, codes, k);
    RuneAt(b, lo, hi, codes, k + 1);
    SizeMore(codes, c, k);
    SameSize(codes, c, i, k);
    SameSize(codes, c, j, k);
    var p, q := Place(b, lo, hi, k), Place(b, lo, hi, k + 1);
    l' := Located(Span(if k == i then p else l.span.start, q), if k == i then l.quotes.quote != 0 else l.quoted,
                  Consume(m, l.quotes, codes[k], CodeAt(codes, k + 1)));
    LocateUnfolds(m, b, p, hi, Size(codes[c..k]), (Size(codes[c..i]), Size(codes[c..j])), l, codes[k], q,
      CodeAt(codes, k + 1));
    PartMore(m, b, lo, hi, codes, c, i, k, l);
    hide *;
  }

  lemma PartMore(m: Matchers, b: Bytes, lo: nat, hi: nat, codes: seq<int>, c: nat, i: nat, k: nat, l: Located)
    requires lo <= hi <= |b| && c <= i < |codes| && c <= k < |codes| && PartlyLocated(m, b, lo, hi, codes, c, i, k, l)
    ensures var p, q := Place(b, lo, hi, k), Place(b, lo, hi, k + 1);
            PartlyLocated(m, b, lo, hi, codes, c, i, k + 1,
              Located(Span(if k == i then p else l.span.start, q), if k == i then l.quotes.quote != 0 else l.quoted,
                      Consume(m, l.quotes, codes[k], CodeAt(codes, k + 1))))
  {
    hide Place, Consume;
  }

  /** A match of the text is located at its characters, with the quote state before it. */
  lemma {:induction false} LocateMeans(
    m: Matchers, b: Bytes, lo: nat, hi: nat, codes: seq<int>, c: nat, i: nat, j: nat, k: nat, l: Located)
    requires Reads(b, lo, hi, codes) && c <= i < j <= |codes| && c <= k <= j
    requires PartlyLocated(m, b, lo, hi, codes, c, i, k, l)
    ensures Locate(m, b, Place(b, lo, hi, k), hi, Size(codes[c..k]), (Size(codes[c..i]), Size(codes[c..j])), l)
         == Some(Located(Span(Place(b, lo, hi, i), Place(b, lo, hi, j)), StateAt(m, codes, i).quote != 0,
                         StateAt(m, codes, j)))
    decreases j - k
  {
    if k == j {
      hide Place, Size, Reads, StateAt, At;
    } else {
      var l' := LocateStep(m, b, lo, hi, codes, c, i, j, k, l);
      hide Locate, Place, Size, Reads, StateAt, PartlyLocated;
      LocateMeans(m, b, lo, hi, codes, c, i, j, k + 1, l');
    }
  }

  lemma AloneUnfolds(m: Matchers, b: Bytes, p: nat, hi: nat, next: int, after: int)
    requires p <= hi <= |b| && Peek(b, p, hi) == next
    requires p < hi && At(b, p, hi).Some? ==> Peek(b, Next(b, p, hi), hi) == after
    requires next == 0x2E ==> p < hi && At(b, p, hi).Some?
    ensures StandsAlone(m, b, p, hi)
       <==> !(WordLike(m, next) || next == 0x5F || next == 0x2D) && !(next == 0x2E && WordLike(m, after))
  {
    hide ReadRune;
  }

  lemma AloneMeans(m: Matchers, b: Bytes, lo: nat, hi: nat, codes: seq<int>, k: nat)
    requires Reads(b, lo, hi, codes) && k <= |codes|
    ensures StandsAlone(m, b, Place(b, lo, hi, k), hi) <==> !NameGoesOn(m, codes, k)
  {
    hide Place, At, Peek, Next, ReadRune, StringOk, Decode, StandsAlone;
    RuneAt(b, lo, hi, codes, k);
    if k < |codes| {
      RuneAt(b, lo, hi, codes, k + 1);
    }
    AloneUnfolds(m, b, Place(b, lo, hi, k), hi, CodeAt(codes, k), CodeAt(codes, k + 1));
  }

  /** The raw bytes of the phrases that are to go, in order. */
  ghost function Images(m: Matchers, b: Bytes, lo: nat, hi: nat, codes: seq<int>, phrases: seq<(nat, nat)>): seq<Span>
    requires lo <= hi <= |b|
  {
    if phrases == [] then []
    else
      (if Removable(m, codes, phrases[0])
       then [Span(Place(b, lo, hi, phrases[0].0), Place(b, lo, hi, phrases[0].1))] else [])
      + Images(m, b, lo, hi, codes, phrases[1..])
  }

  /** The next match, where the engine finds one. */
  lemma PhraseAt(m: Matchers, codes: seq<int>, c: nat, end: nat) returns (i: nat, j: nat)
    requires Sound(m) && c < end <= |codes| && m.qualifier(codes[c..end]).Some?
    ensures c <= i < j <= end
    ensures m.qualifier(codes[c..end]).value == (Size(codes[c..i]), Size(codes[c..j]))
  {
    var text := codes[c..end];
    assert MatchInside(text, m.qualifier(text).value);
    var x: nat, y: nat :| x < y <= |text| && m.qualifier(text).value.0 == Size(text[..x])
                          && m.qualifier(text).value.1 == Size(text[..y]);
    i, j := c + x, c + y;
    assert text[..x] == codes[c..i] && text[..y] == codes[c..j];
  }

  lemma LocatedPhrase(m: Matchers, b: Bytes, lo: nat, hi: nat, codes: seq<int>, c: nat, i: nat, j: nat)
    requires Reads(b, lo, hi, codes) && c <= i < j <= |codes|
    ensures var l := Locate(m, b, Place(b, lo, hi, c), hi, 0, (Size(codes[c..i]), Size(codes[c..j])),
                            NoMatch(Place(b, lo, hi, c), StateAt(m, codes, c)));
            && l.Some? && l.value.span == Span(Place(b, lo, hi, i), Place(b, lo, hi, j))
            && l.value.quotes == StateAt(m, codes, j) && Place(b, lo, hi, c) < l.value.span.end
            && (!l.value.quoted && StandsAlone(m, b, l.value.span.end, hi) <==> Removable(m, codes, (i, j)))
  {
    assert codes[c..c] == [];
    LocateMeans(m, b, lo, hi, codes, c, i, j, c, NoMatch(Place(b, lo, hi, c), StateAt(m, codes, c)));
    PlacesGrow(b, lo, hi, codes, c, j);
    AloneMeans(m, b, lo, hi, codes, j);
    QuotesMean(m, codes, i);
    hide Locate, Place, Reads, StateAt, StandsAlone, NameGoesOn, InQuotes;
  }

  /** One phrase of the scanner's walk. */
  lemma RemovalsUnfold(m: Matchers, b: Bytes, p: nat, end: nat, hi: nat, quotes: Quotes, l: Located)
    requires p < end <= hi <= |b| && m.qualifier(Decode(b[p..end])).Some? && p < l.span.end <= hi
    requires Locate(m, b, p, hi, 0, m.qualifier(Decode(b[p..end])).value, NoMatch(p, quotes)) == Some(l)
    ensures var rest := Removals(m, b, l.span.end, end, hi, l.quotes);
            Removals(m, b, p, end, hi, quotes)
              == if rest.Some? && !l.quoted && StandsAlone(m, b, l.span.end, hi)
                 then Some([l.span] + rest.value) else rest
  {
    hide Locate, StandsAlone, Decode;
  }

  lemma RemovalsEnd(m: Matchers, b: Bytes, lo: nat, hi: nat, codes: seq<int>, c: nat, end: nat)
    requires Reads(b, lo, hi, codes) && c <= end <= |codes|
    requires c < end ==> m.qualifier(codes[c..end]).None?
    ensures PhrasesAre(m, codes, c, end, [])
    ensures Removals(m, b, Place(b, lo, hi, c), Place(b, lo, hi, end), hi, StateAt(m, codes, c)) == Some([])
  {
    TextBetween(b, lo, hi, codes, c, end);
    hide Decode, Reads, Place, StateAt;
  }

  lemma RemovalsStep(
    m: Matchers, b: Bytes, lo: nat, hi: nat, codes: seq<int>, c: nat, end: nat, i: nat, j: nat, rest: seq<(nat, nat)>)
    requires Reads(b, lo, hi, codes) && c <= i < j <= end <= |codes|
    requires m.qualifier(codes[c..end]) == Some((Size(codes[c..i]), Size(codes[c..j])))
    requires Removals(m, b, Place(b, lo, hi, j), Place(b, lo, hi, end), hi, StateAt(m, codes, j))
          == Some(Images(m, b, lo, hi, codes, rest))
    ensures Removals(m, b, Place(b, lo, hi, c), Place(b, lo, hi, end), hi, StateAt(m, codes, c))
         == Some(Images(m, b, lo, hi, codes, [(i, j)] + rest))
  {
    var p, e := Place(b, lo, hi, c), Place(b, lo, hi, end);
    TextBetween(b, lo, hi, codes, c, end);
    PlacesGrow(b, lo, hi, codes, c, end);
    LocatedPhrase(m, b, lo, hi, codes, c, i, j);
    ImagesMore(m, b, lo, hi, codes, (i, j), rest);
    var l := Locate(m, b, p, hi, 0, (Size(codes[c..i]), Size(codes[c..j])), NoMatch(p, StateAt(m, codes, c))).value;
    RemovalsUnfold(m, b, p, e, hi, StateAt(m, codes, c), l);
    hide *;
    assert [] + Images(m, b, lo, hi, codes, rest) == Images(m, b, lo, hi, codes, rest);
  }

  /** From a place in the sentence on, the scanner emits the images of the phrases that are
      to go. */
  lemma {:induction false} RemovalsMean(m: Matchers, b: Bytes, lo: nat, hi: nat, codes: seq<int>, c: nat, end: nat)
    returns (phrases: seq<(nat, nat)>)
    requires Sound(m) && Reads(b, lo, hi, codes) && c <= end <= |codes|
    ensures PhrasesAre(m, codes, c, end, phrases)
    ensures Removals(m, b, Place(b, lo, hi, c), Place(b, lo, hi, end), hi, StateAt(m, codes, c))
         == Some(Images(m, b, lo, hi, codes, phrases))
    decreases end - c
  {
    phrases := [];
    if c == end || m.qualifier(codes[c..end]).None? {
      RemovalsEnd(m, b, lo, hi, codes, c, end);
      hide Removals, PhrasesAre, Place, StateAt;
    } else {
      var i, j := PhraseAt(m, codes, c, end);
      hide Sound, Reads, Removals, PhrasesAre, Place, StateAt, Images, Size;
      var rest := RemovalsMean(m, b, lo, hi, codes, j, end);
      phrases := [(i, j)] + rest;
      PhrasesMore(m, codes, c, end, (i, j), rest);
      RemovalsStep(m, b, lo, hi, codes, c, end, i, j, rest);
    }
  }

  lemma ImagesMore(m: Matchers, b: Bytes, lo: nat, hi: nat, codes: seq<int>, phrase: (nat, nat), rest: seq<(nat, nat)>)
    requires lo <= hi <= |b|
    ensures Images(m, b, lo, hi, codes, [phrase] + rest)
         == (if Removable(m, codes, phrase) then [Span(Place(b, lo, hi, phrase.0), Place(b, lo, hi, phrase.1))] else [])
            + Images(m, b, lo, hi, codes, rest)
  {
    assert ([phrase] + rest)[1..] == rest;
  }

  lemma PhrasesMore(m: Matchers, codes: seq<int>, c: nat, end: nat, phrase: (nat, nat), rest: seq<(nat, nat)>)
    requires c < end <= |codes| && c <= phrase.0 < phrase.1 <= end && PhrasesAre(m, codes, phrase.1, end, rest)
    requires m.qualifier(codes[c..end]) == Some((Size(codes[c..phrase.0]), Size(codes[c..phrase.1])))
    ensures PhrasesAre(m, codes, c, end, [phrase] + rest)
  {
    assert ([phrase] + rest)[1..] == rest;
  }

  // ---------------------------------------------------------------- the whole string

  /** What is to be removed from a string, told on its decoded text: nothing unless it
      begins with the opening; otherwise exactly the raw bytes of those phrases of the
      opening sentence that start outside quotes and end where no name goes on. */
  ghost predicate Emits(m: Matchers, b: Bytes, lo: nat, hi: nat, spans: seq<Span>)
    requires lo <= hi <= |b|
  {
    var codes := Decode(b[lo..hi]);
    var opening := m.opening(codes);
    if opening.None? then spans == []
    else exists end: nat, phrases ::
        && SentenceIs(m, codes, opening.value, end) && PhrasesAre(m, codes, 0, end, phrases)
        && spans == Images(m, b, lo, hi, codes, phrases)
  }

  lemma {:induction false} ImagesAre(
    m: Matchers, b: Bytes, lo: nat, hi: nat, codes: seq<int>, phrases: seq<(nat, nat)>, s: Span)
    requires lo <= hi <= |b|
    ensures s in Images(m, b, lo, hi, codes, phrases) <==>
            exists n :: 0 <= n < |phrases| && Removable(m, codes, phrases[n])
              && s == Span(Place(b, lo, hi, phrases[n].0), Place(b, lo, hi, phrases[n].1))
    decreases |phrases|
  {
    hide Removable, Place;
    if phrases == [] {
    } else {
      ImagesAre(m, b, lo, hi, codes, phrases[1..], s);
      if n: nat :| n < |phrases| && Removable(m, codes, phrases[n])
                   && s == Span(Place(b, lo, hi, phrases[n].0), Place(b, lo, hi, phrases[n].1)) {
        if n > 0 {
          assert phrases[1..][n - 1] == phrases[n];
        }
      }
    }
  }

  lemma TextRemovalsMean(m: Matchers, b: Bytes, lo: nat, hi: nat)
    requires Sound(m) && lo <= hi <= |b| && StringOk(b[lo..hi])
    ensures var r := TextRemovals(m, b, lo, hi); r.Some? && Emits(m, b, lo, hi, r.value)
  {
    var codes := Decode(b[lo..hi]);
    var opening := m.opening(codes);
    if opening.Some? {
      assert codes[..0] == [];
      EmptyNowhere(m, codes, opening.value);
      var end := SentenceMeans(m, b, lo, hi, codes, opening.value, 0);
      var phrases := RemovalsMean(m, b, lo, hi, codes, 0, end);
      hide Sound, StringOk, Decode, SentenceEnd, Removals, SentenceIs, PhrasesAre, Images, Size, EmptySoFar;
      assert SentenceIs(m, codes, opening.value, end) && PhrasesAre(m, codes, 0, end, phrases);
    }
  }

  lemma OneEnd(m: Matchers, codes: seq<int>, opening: nat, e: nat, f: nat)
    requires SentenceIs(m, codes, opening, e) && SentenceIs(m, codes, opening, f)
    ensures e == f
  {
    hide StopsAt;
  }

  lemma {:induction false} OnePhrases(
    m: Matchers, codes: seq<int>, c: nat, end: nat, p: seq<(nat, nat)>, q: seq<(nat, nat)>)
    requires c <= end <= |codes| && PhrasesAre(m, codes, c, end, p) && PhrasesAre(m, codes, c, end, q)
    ensures p == q
    decreases |p|
  {
    if c < end && m.qualifier(codes[c..end]).Some? {
      SameSize(codes, c, p[0].0, q[0].0);
      SameSize(codes, c, p[0].1, q[0].1);
      OnePhrases(m, codes, p[0].1, end, p[1..], q[1..]);
      assert p == [p[0]] + p[1..] && q == [q[0]] + q[1..];
    }
  }

  /** The decoded text leaves no choice: what the scanner emits is all that it may emit. */
  lemma EmitsExactly(m: Matchers, b: Bytes, lo: nat, hi: nat, spans: seq<Span>)
    requires Sound(m) && lo <= hi <= |b| && StringOk(b[lo..hi])
    ensures Emits(m, b, lo, hi, spans) <==> TextRemovals(m, b, lo, hi) == Some(spans)
  {
    TextRemovalsMean(m, b, lo, hi);
    var codes, r := Decode(b[lo..hi]), TextRemovals(m, b, lo, hi).value;
    hide TextRemovals, StringOk, Sound, Decode;
    var opening := m.opening(codes);
    if opening.Some? && Emits(m, b, lo, hi, spans) {
      var e: nat, p :| && SentenceIs(m, codes, opening.value, e) && PhrasesAre(m, codes, 0, e, p)
                       && spans == Images(m, b, lo, hi, codes, p);
      var f: nat, q :| && SentenceIs(m, codes, opening.value, f) && PhrasesAre(m, codes, 0, f, q)
                       && r == Images(m, b, lo, hi, codes, q);
      OneEnd(m, codes, opening.value, e, f);
      OnePhrases(m, codes, 0, e, p, q);
    }
  }
}

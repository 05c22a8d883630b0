/** What the text scanner removes, told on the decoded text alone
    (internal/gateway/identity_text_stream.go:140-275): where the opening sentence ends,
    which places are inside quotes, which phrases stand alone, and which raw bytes the
    removed phrases are. */
module IdentitySentence {
  import opened JsonGrammar
  import opened IdentityRunes
  import opened IdentityScan
  import opened IdentityText
  import opened IdentityCuts
  import opened Wrappers

  // --------------------------------------------------------- the sentence, on the text

  /** The character at `k`; 0 past the end. */
  function CodeAt(codes: seq<int>, k: nat): int {
    if k < |codes| then codes[k] else 0
  }

  /** A full stop inside a name or a number: a letter or a digit follows it. */
  predicate InnerStop(m: Matchers, codes: seq<int>, k: nat) {
    CodeAt(codes, k) == '.' as int && (m.isLetter(CodeAt(codes, k + 1)) || m.isDigit(CodeAt(codes, k + 1)))
  }

  /** A mark that ends a sentence: . ! ? and the three of them in full width. */
  predicate EndMark(m: Matchers, codes: seq<int>, k: nat)
    requires k < |codes|
  {
    && codes[k] in {'.' as int, '!' as int, '?' as int, '\U{3002}' as int, '\U{FF01}' as int, '\U{FF1F}' as int}
    && !InnerStop(m, codes, k)
  }

  /** After the opening there was a line feed, with nothing but blanks since. */
  predicate EmptySoFar(m: Matchers, codes: seq<int>, opening: nat, k: nat)
    requires k <= |codes|
  {
    exists j | 0 <= j < k ::
      && codes[j] == '\n' as int && Size(codes[..j]) >= opening
      && forall i | j < i < k :: codes[i] == '\t' as int || codes[i] == '\r' as int || m.isSeparator(codes[i])
  }

  /** A line feed that ends an empty line. */
  predicate BlankLine(m: Matchers, codes: seq<int>, opening: nat, k: nat)
    requires k < |codes|
  {
    codes[k] == '\n' as int && EmptySoFar(m, codes, opening, k)
  }

  predicate StopsAt(m: Matchers, codes: seq<int>, opening: nat, k: nat)
    requires k < |codes|
  {
    Size(codes[..k]) >= opening && (EndMark(m, codes, k) || BlankLine(m, codes, opening, k))
  }

  /** The opening sentence is the text before `end`: up to the first stop after the opening
      phrase, or all of it. */
  ghost predicate SentenceIs(m: Matchers, codes: seq<int>, opening: nat, end: nat) {
    && end <= |codes| && (forall k | 0 <= k < end :: !StopsAt(m, codes, opening, k))
    && (end < |codes| ==> StopsAt(m, codes, opening, end))
  }

  // ----------------------------------------------------------- quotes, on the text

  function Before(codes: seq<int>, k: nat): int
    requires k <= |codes|
  {
    if k > 0 then codes[k - 1] else 0
  }

  /** An apostrophe between two letters is part of a word. */
  predicate InWord(m: Matchers, codes: seq<int>, k: nat)
    requires k < |codes|
  {
    codes[k] == '\'' as int && m.isLetter(Before(codes, k)) && m.isLetter(CodeAt(codes, k + 1))
  }

  /** An apostrophe at the end of a word, as in a plural possessive. */
  predicate AfterWord(m: Matchers, codes: seq<int>, k: nat)
    requires k < |codes|
  {
    && codes[k] == '\'' as int && m.isLetter(Before(codes, k))
    && (m.isSpace(CodeAt(codes, k + 1)) || CodeAt(codes, k + 1) == 0)
  }

  const QUOTES: map<int, int> :=
    map['"' as int := '"' as int, '\'' as int := '\'' as int, '`' as int := '`' as int,
        '\U{201C}' as int := '\U{201D}' as int, '\U{2018}' as int := '\U{2019}' as int]

  /** A mark that opens a quotation where none is open. */
  predicate Opens(m: Matchers, codes: seq<int>, k: nat)
    requires k < |codes|
  {
    codes[k] in QUOTES && !InWord(m, codes, k) && !AfterWord(m, codes, k)
  }

  /** The mark at `k` closes what the mark at `i` opened. */
  predicate Closes(m: Matchers, codes: seq<int>, i: nat, k: nat)
    requires i < k < |codes| && codes[i] in QUOTES
  {
    codes[k] == QUOTES[codes[i]] && !InWord(m, codes, k)
  }

  /** The place before the character at `k` is inside a quotation: one was opened before it,
      outside any other, and has not been closed. */
  ghost predicate InQuotes(m: Matchers, codes: seq<int>, k: nat)
    requires k <= |codes|
    decreases k
  {
    exists i | 0 <= i < k :: QuotedFrom(m, codes, i, k) && !InQuotes(m, codes, i)
  }

  ghost predicate QuotedFrom(m: Matchers, codes: seq<int>, i: nat, k: nat)
    requires i < k <= |codes|
  {
    Opens(m, codes, i) && forall j | i < j < k :: !Closes(m, codes, i, j)
  }

  // ---------------------------------------------------------- the phrases, on the text

  /** The name or the version number that ends before `k` goes on. */
  predicate NameGoesOn(m: Matchers, codes: seq<int>, k: nat) {
    var next := CodeAt(codes, k);
    || m.isLetter(next) || m.isDigit(next) || next == '_' as int || next == '-' as int
    || InnerStop(m, codes, k)
  }

  /** The phrases of the sentence: match after match, each looked for behind the one
      before. */
  ghost predicate PhrasesAre(m: Matchers, codes: seq<int>, from: nat, end: nat, phrases: seq<(nat, nat)>)
    requires from <= end <= |codes|
    decreases |phrases|
  {
    var found := if from < end then m.qualifier(codes[from..end]) else None;
    if found.None? then phrases == []
    else
      && phrases != []
      && var (i, j) := phrases[0];
        && from <= i < j <= end && found.value == (Size(codes[from..i]), Size(codes[from..j]))
        && PhrasesAre(m, codes, j, end, phrases[1..])
  }

  ghost predicate Removable(m: Matchers, codes: seq<int>, phrase: (nat, nat)) {
    phrase.0 <= |codes| && !InQuotes(m, codes, phrase.0) && !NameGoesOn(m, codes, phrase.1)
  }
}

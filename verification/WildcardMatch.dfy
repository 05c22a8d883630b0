/** The wildcard rules that switch models off (internal/service/keys.go:1597-1623): one
    pass that remembers the last star only.  Pattern and value are already in lower
    case. */
module WildcardMatch {

  const STAR := '*'

  /** Some expansion of the stars makes the pattern the value. */
  ghost predicate Matches(pattern: string, value: string)
    decreases |pattern|
  {
    if pattern == "" then value == ""
    else if pattern[0] == STAR then exists k :: 0 <= k <= |value| && Matches(pattern[1..], value[k..])
    else value != "" && pattern[0] == value[0] && Matches(pattern[1..], value[1..])
  }

  predicate AllStars(pattern: string) {
    forall k | 0 <= k < |pattern| :: pattern[k] == STAR
  }

  /** What the loop goes on to answer from its variables; `star` is -1 before the first
      star. */
  function Scan(pattern: string, value: string, p: nat, v: nat, star: int, checkpoint: nat): bool
    requires p <= |pattern| && v <= |value| && -1 <= star < |pattern| && checkpoint <= v && star < p
    decreases |pattern| - star, |value| - checkpoint, |value| - v
  {
    if v == |value| then AllStars(pattern[p..])
    else if p < |pattern| && pattern[p] == value[v] then Scan(pattern, value, p + 1, v + 1, star, checkpoint)
    else if p < |pattern| && pattern[p] == STAR then Scan(pattern, value, p + 1, v, p, v)
    else if star >= 0 then Scan(pattern, value, star + 1, checkpoint + 1, star, checkpoint + 1)
    else false
  }

  function Accepts(pattern: string, value: string): bool {
    Scan(pattern, value, 0, 0, -1, 0)
  }

  method WildcardModelMatch(pattern: string, value: string) returns (r: bool)
    ensures r == Accepts(pattern, value)
  {
    var p, v, star, checkpoint := 0, 0, -1, 0;
    while v < |value|
      invariant 0 <= p <= |pattern| && 0 <= checkpoint <= v <= |value| && -1 <= star < |pattern| && star < p
      invariant Scan(pattern, value, p, v, star, checkpoint) == Accepts(pattern, value)
      decreases |pattern| - star, |value| - checkpoint, |value| - v
    {
      if p < |pattern| && pattern[p] == value[v] {
        p, v := p + 1, v + 1;
      } else if p < |pattern| && pattern[p] == STAR {
        star, checkpoint := p, v;
        p := p + 1;
      } else if star >= 0 {
        p := star + 1;
        checkpoint := checkpoint + 1;
        v := checkpoint;
      } else {
        return false;
      }
    }
    ghost var from := p;
    while p < |pattern| && pattern[p] == STAR
      invariant from <= p <= |pattern| && forall k | from <= k < p :: pattern[k] == STAR
    {
      p := p + 1;
    }
    if p < |pattern| {
      assert pattern[from..][p - from] == pattern[p];
    }
    r := p == |pattern|;
  }

  // ------------------------------------------------------------------ about matching

  lemma {:induction false} LiteralPrefix(literal: string, rest: string, value: string)
    requires STAR !in literal
    ensures Matches(literal + rest, value)
       <==> |literal| <= |value| && value[..|literal|] == literal && Matches(rest, value[|literal|..])
    decreases |literal|
  {
    if literal == "" {
      assert literal + rest == rest && value[0..] == value;
    } else {
      var pattern := literal + rest;
      assert pattern[1..] == literal[1..] + rest && pattern[0] == literal[0];
      if value != "" {
        LiteralPrefix(literal[1..], rest, value[1..]);
        if |literal| <= |value| {
          assert value[1..][|literal| - 1..] == value[|literal|..];
          assert value[..|literal|] == [value[0]] + value[1..][..|literal| - 1];
          assert literal == [literal[0]] + literal[1..];
        }
      }
    }
  }

  lemma StarThen(rest: string, value: string)
    ensures Matches([STAR] + rest, value) <==> exists k :: 0 <= k <= |value| && Matches(rest, value[k..])
  {
    assert ([STAR] + rest)[1..] == rest;
  }

  lemma {:induction false} StarsMatchAll(pattern: string, value: string)
    requires AllStars(pattern) && (pattern == "" ==> value == "")
    ensures Matches(pattern, value)
    decreases |pattern|
  {
    if pattern != "" {
      StarsMatchAll(pattern[1..], value[|value|..]);
    }
  }

  /** A pattern that is not all stars needs a character of its own. */
  lemma {:induction false} NeedsCharacter(pattern: string, value: string)
    requires Matches(pattern, value) && !AllStars(pattern)
    ensures exists j, k :: 0 <= j < |value| && 0 <= k < |pattern| && pattern[k] == value[j] && pattern[k] != STAR
    decreases |pattern|
  {
    assert forall k | 1 <= k < |pattern| :: pattern[k] == pattern[1..][k - 1];
    if pattern[0] == STAR {
      var i :| 0 <= i <= |value| && Matches(pattern[1..], value[i..]);
      NeedsCharacter(pattern[1..], value[i..]);
      var j, k :| 0 <= j < |value[i..]| && 0 <= k < |pattern[1..]| && pattern[1..][k] == value[i..][j]
        && pattern[1..][k] != STAR;
      assert pattern[k + 1] == value[i + j];
    } else {
      assert pattern[0] == value[0];
    }
  }

  /** What is left to match: from here, or, behind a star, from here or any later place. */
  ghost predicate Reaches(pattern: string, value: string, star: int, checkpoint: nat)
    requires -1 <= star < |pattern| && checkpoint <= |value|
  {
    if star < 0 then Matches(pattern, value)
    else exists k :: checkpoint <= k <= |value| && Matches(pattern[star + 1..], value[k..])
  }

  /** The characters read since the last star, and where they start. */
  ghost predicate Read(pattern: string, value: string, p: nat, v: nat, star: int, checkpoint: nat)
    requires p <= |pattern| && v <= |value| && -1 <= star < |pattern| && checkpoint <= v && star < p
  {
    && p - (star + 1) == v - checkpoint && pattern[star + 1..p] == value[checkpoint..v]
    && (star < 0 ==> checkpoint == 0)
  }

  lemma SplitAt(pattern: string, star: int, p: nat)
    requires -1 <= star < p <= |pattern|
    ensures pattern[star + 1..] == pattern[star + 1..p] + pattern[p..]
  {
  }

  /** From a given start, the pattern goes on exactly if what was read stands there. */
  lemma FromStart(pattern: string, value: string, p: nat, star: int, k: nat)
    requires -1 <= star < p <= |pattern| && k <= |value| && STAR !in pattern[star + 1..p]
    ensures var n := p - (star + 1); (
              Matches(pattern[star + 1..], value[k..])
              <==> k + n <= |value| && value[k..k + n] == pattern[star + 1..p] && Matches(pattern[p..], value[k + n..]))
  {
    var n := p - (star + 1);
    SplitAt(pattern, star, p);
    LiteralPrefix(pattern[star + 1..p], pattern[p..], value[k..]);
    if k + n <= |value| {
      assert value[k..][..n] == value[k..k + n] && value[k..][n..] == value[k + n..];
    }
  }

  /** A mismatch: nothing starts at the checkpoint, so it moves on. */
  lemma Mismatch(pattern: string, value: string, p: nat, v: nat, star: int, checkpoint: nat)
    requires p <= |pattern| && v < |value| && -1 <= star < |pattern| && checkpoint <= v && star < p
    requires Read(pattern, value, p, v, star, checkpoint) && STAR !in pattern[star + 1..p]
    requires p < |pattern| ==> pattern[p] != value[v] && pattern[p] != STAR
    ensures star < 0 ==> !Reaches(pattern, value, star, checkpoint)
    ensures star >= 0 ==> (Reaches(pattern, value, star, checkpoint) <==> Reaches(pattern, value, star, checkpoint + 1))
  {
    FromStart(pattern, value, p, star, checkpoint);
    assert pattern[0..] == pattern && value[0..] == value;
    assert !Matches(pattern[star + 1..], value[checkpoint..]);
  }

  lemma NewStarReached(pattern: string, value: string, p: nat, v: nat, star: int, checkpoint: nat, k: nat)
    requires p < |pattern| && v <= |value| && -1 <= star < |pattern| && checkpoint <= v && star < p
    requires Read(pattern, value, p, v, star, checkpoint) && STAR !in pattern[star + 1..p] && pattern[p] == STAR
    requires checkpoint <= k <= |value| && Matches(pattern[star + 1..], value[k..])
    ensures Reaches(pattern, value, p, v)
  {
    var n := p - (star + 1);
    FromStart(pattern, value, p, star, k);
    assert pattern[p..] == [STAR] + pattern[p + 1..];
    StarThen(pattern[p + 1..], value[k + n..]);
    hide Matches;
    var i :| 0 <= i <= |value[k + n..]| && Matches(pattern[p + 1..], value[k + n..][i..]);
    assert value[k + n..][i..] == value[k + n + i..];
  }

  lemma NewStarFrom(pattern: string, value: string, p: nat, v: nat, star: int, checkpoint: nat, k: nat)
    requires p < |pattern| && v <= |value| && -1 <= star < |pattern| && checkpoint <= v && star < p
    requires Read(pattern, value, p, v, star, checkpoint) && STAR !in pattern[star + 1..p] && pattern[p] == STAR
    requires v <= k <= |value| && Matches(pattern[p + 1..], value[k..])
    ensures Matches(pattern[star + 1..], value[checkpoint..])
  {
    hide Matches;
    assert value[v..][k - v..] == value[k..];
    assert pattern[p..] == [STAR] + pattern[p + 1..];
    StarThen(pattern[p + 1..], value[v..]);
    FromStart(pattern, value, p, star, checkpoint);
  }

  /** A new star: what was read before it can stand where it was read first. */
  lemma NewStar(pattern: string, value: string, p: nat, v: nat, star: int, checkpoint: nat)
    requires p < |pattern| && v <= |value| && -1 <= star < |pattern| && checkpoint <= v && star < p
    requires Read(pattern, value, p, v, star, checkpoint) && STAR !in pattern[star + 1..p] && pattern[p] == STAR
    ensures Reaches(pattern, value, star, checkpoint) <==> Reaches(pattern, value, p, v)
  {
    hide Matches;
    assert pattern[0..] == pattern && value[0..] == value;
    if Reaches(pattern, value, star, checkpoint) {
      if star < 0 {
        NewStarReached(pattern, value, p, v, star, checkpoint, 0);
      } else {
        var k: nat :| checkpoint <= k <= |value| && Matches(pattern[star + 1..], value[k..]);
        NewStarReached(pattern, value, p, v, star, checkpoint, k);
      }
    }
    if Reaches(pattern, value, p, v) {
      var k: nat :| v <= k <= |value| && Matches(pattern[p + 1..], value[k..]);
      NewStarFrom(pattern, value, p, v, star, checkpoint, k);
    }
  }

  /** At the end of the value only stars may be left. */
  lemma AtEnd(pattern: string, value: string, p: nat, star: int, checkpoint: nat)
    requires p <= |pattern| && -1 <= star < |pattern| && checkpoint <= |value| && star < p
    requires Read(pattern, value, p, |value|, star, checkpoint) && STAR !in pattern[star + 1..p]
    ensures Reaches(pattern, value, star, checkpoint) <==> AllStars(pattern[p..])
  {
    assert pattern[0..] == pattern && value[0..] == value;
    FromStart(pattern, value, p, star, checkpoint);
    var end := value[|value|..];
    if AllStars(pattern[p..]) {
      StarsMatchAll(pattern[p..], end);
      assert Matches(pattern[star + 1..], value[checkpoint..]);
    }
    if Reaches(pattern, value, star, checkpoint) {
      var k: nat :| checkpoint <= k <= |value| && Matches(pattern[star + 1..], value[k..]);
      FromStart(pattern, value, p, star, k);
      if !AllStars(pattern[p..]) {
        NeedsCharacter(pattern[p..], value[k + (p - (star + 1))..]);
      }
    }
  }

  /** A star in the value, met by a star of the pattern: both are read as one character.
      At the very end of the value that makes no difference. */
  lemma LastStar(pattern: string, value: string, p: nat, star: int, checkpoint: nat)
    requires p < |pattern| && -1 <= star < |pattern| && star < p && checkpoint < |value| && checkpoint <= |value| - 1
    requires Read(pattern, value, p, |value| - 1, star, checkpoint) && STAR !in pattern[star + 1..p]
    requires pattern[p] == STAR && value[|value| - 1] == STAR
    ensures Reaches(pattern, value, star, checkpoint) <==> AllStars(pattern[p + 1..])
  {
    var v := |value| - 1;
    NewStar(pattern, value, p, v, star, checkpoint);
    if AllStars(pattern[p + 1..]) {
      StarsMatchAll(pattern[p + 1..], value[|value|..]);
    }
    if Reaches(pattern, value, p, v) && !AllStars(pattern[p + 1..]) {
      var k: nat :| v <= k <= |value| && Matches(pattern[p + 1..], value[k..]);
      NeedsCharacter(pattern[p + 1..], value[k..]);
      assert false;
    }
  }

  // ------------------------------------------------------------------ the loop is right

  predicate StarOnlyLast(value: string) {
    forall k | 0 <= k < |value| - 1 :: value[k] != STAR
  }

  lemma ReadMore(pattern: string, value: string, p: nat, v: nat, star: int, checkpoint: nat)
    requires p < |pattern| && v < |value| && -1 <= star < |pattern| && checkpoint <= v && star < p
    requires Read(pattern, value, p, v, star, checkpoint) && STAR !in pattern[star + 1..p]
    requires pattern[p] == value[v] && pattern[p] != STAR
    ensures Read(pattern, value, p + 1, v + 1, star, checkpoint) && STAR !in pattern[star + 1..p + 1]
  {
    assert pattern[star + 1..p + 1] == pattern[star + 1..p] + [pattern[p]];
    assert value[checkpoint..v + 1] == value[checkpoint..v] + [value[v]];
  }

  lemma ReadNothing(pattern: string, value: string, star: nat, checkpoint: nat)
    requires star < |pattern| && checkpoint <= |value|
    ensures Read(pattern, value, star + 1, checkpoint, star, checkpoint) && STAR !in pattern[star + 1..star + 1]
  {
  }

  lemma {:induction false} ScanIsRight(pattern: string, value: string, p: nat, v: nat, star: int, checkpoint: nat)
    requires p <= |pattern| && v <= |value| && -1 <= star < |pattern| && checkpoint <= v && star < p
    requires StarOnlyLast(value) && Read(pattern, value, p, v, star, checkpoint) && STAR !in pattern[star + 1..p]
    ensures Scan(pattern, value, p, v, star, checkpoint) == Reaches(pattern, value, star, checkpoint)
    decreases |pattern| - star, |value| - checkpoint, |value| - v
  {
    hide Matches, AllStars, Reaches, Read;
    if v == |value| {
      AtEnd(pattern, value, p, star, checkpoint);
    } else if p < |pattern| && pattern[p] == value[v] {
      if pattern[p] == STAR {
        LastStar(pattern, value, p, star, checkpoint);
      } else {
        ReadMore(pattern, value, p, v, star, checkpoint);
        ScanIsRight(pattern, value, p + 1, v + 1, star, checkpoint);
      }
    } else if p < |pattern| && pattern[p] == STAR {
      NewStar(pattern, value, p, v, star, checkpoint);
      ReadNothing(pattern, value, p, v);
      ScanIsRight(pattern, value, p + 1, v, p, v);
    } else {
      Mismatch(pattern, value, p, v, star, checkpoint);
      if star >= 0 {
        ReadNothing(pattern, value, star, checkpoint + 1);
        ScanIsRight(pattern, value, star + 1, checkpoint + 1, star, checkpoint + 1);
      }
    }
  }

  lemma {:induction false} LiteralRun(pattern: string, value: string, p: nat)
    requires p <= |pattern| && p <= |value| && pattern[..p] == value[..p]
    ensures Accepts(pattern, value) == Scan(pattern, value, p, p, -1, 0)
    decreases p
  {
    if p == 0 {
    } else {
      assert pattern[..p - 1] == pattern[..p][..p - 1] == value[..p][..p - 1] == value[..p - 1];
      assert pattern[p - 1] == pattern[..p][p - 1] == value[..p][p - 1] == value[p - 1];
      LiteralRun(pattern, value, p - 1);
    }
  }

  /** The answer is right for every pattern exactly when the value holds no star before
      its last character; a value with one is missed by the pattern that ends with a star
      there. */
  lemma RightExactlyWithoutStars(value: string)
    ensures (forall pattern: string :: Accepts(pattern, value) <==> Matches(pattern, value)) <==> StarOnlyLast(value)
  {
    if StarOnlyLast(value) {
      forall pattern: string
        ensures Accepts(pattern, value) <==> Matches(pattern, value)
      {
        ScanFromStart(pattern, value);
      }
    } else {
      var k :| 0 <= k < |value| - 1 && value[k] == STAR;
      var i := FirstStar(value, k);
      var pattern := value[..i] + [STAR];
      LiteralRun(pattern, value, i + 1);
      assert !Accepts(pattern, value);
      LiteralPrefix(value[..i], [STAR], value);
      StarsMatchAll([STAR], value[i..]);
    }
  }

  lemma ScanFromStart(pattern: string, value: string)
    requires StarOnlyLast(value)
    ensures Accepts(pattern, value) <==> Matches(pattern, value)
  {
    if pattern == "" {
      assert Accepts(pattern, value) <==> value == "";
    } else {
      ScanIsRight(pattern, value, 0, 0, -1, 0);
    }
  }

  lemma {:induction false} FirstStar(value: string, k: nat) returns (i: nat)
    requires k < |value| && value[k] == STAR
    ensures i <= k && value[i] == STAR && STAR !in value[..i]
    decreases k
  {
    if j: nat :| j < k && value[j] == STAR {
      i := FirstStar(value, j);
    } else {
      i := k;
    }
  }
}

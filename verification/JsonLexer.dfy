/** The scanner's readers of white space, strings, numbers and words
    (internal/gateway/identity_json_stream.go), as functions of the bytes and a
    position, each proved to read exactly what the grammar says. */
module JsonLexer {
  import opened JsonGrammar
  import opened Wrappers

  function SkipWs(b: Bytes, i: nat): (j: nat)
    requires i <= |b|
    ensures i <= j <= |b|
    decreases |b| - i
  {
    if i < |b| && IsWs(b[i]) then SkipWs(b, i + 1) else i
  }

  lemma {:induction false} SkipWsReads(b: Bytes, i: nat)
    requires i <= |b|
    ensures AllWs(b[i..SkipWs(b, i)])
    ensures SkipWs(b, i) < |b| ==> !IsWs(b[SkipWs(b, i)])
    decreases |b| - i
  {
    if i < |b| && IsWs(b[i]) {
      SkipWsReads(b, i + 1);
      assert b[i..SkipWs(b, i)] == [b[i]] + b[i + 1..SkipWs(b, i)];
    }
  }

  lemma {:induction false} SkipWsComplete(b: Bytes, i: nat, j: nat)
    requires i <= j <= |b| && AllWs(b[i..j]) && (j < |b| ==> !IsWs(b[j]))
    ensures SkipWs(b, i) == j
    decreases j - i
  {
    if i < j {
      assert b[i] == b[i..j][0];
      assert b[i + 1..j] == b[i..j][1..];
      SkipWsComplete(b, i + 1, j);
    }
  }

  // ------------------------------------------------------------------- strings

  /** Where the string whose contents start at `i` ends, after its closing quote. */
  function StringEnd(b: Bytes, i: nat): (j: Option<nat>)
    requires i <= |b|
    ensures j.Some? ==> i < j.value <= |b|
    decreases |b| - i
  {
    if i == |b| then None
    else if b[i] == QUOTE then Some(i + 1)
    else
      var n := CharLength(b[i..]);
      if n == 0 then None else StringEnd(b, i + n)
  }

  lemma {:induction false} StringEndReads(b: Bytes, i: nat)
    requires i <= |b| && StringEnd(b, i).Some?
    ensures var j := StringEnd(b, i).value; b[j - 1] == QUOTE && StringOk(b[i..j - 1])
    decreases |b| - i
  {
    hide CharLength;
    if b[i] != QUOTE {
      var n := CharLength(b[i..]);
      StringEndReads(b, i + n);
      var j := StringEnd(b, i).value;
      CharInside(b, i, j - 1);
      assert b[i..j - 1][n..] == b[i + n..j - 1];
    }
  }

  /** A character that fits before `j` reads the same with the text cut at `j`. */
  lemma CharInside(b: Bytes, i: nat, j: nat)
    requires i <= j <= |b|
    requires CharLength(b[i..]) <= j - i
    ensures CharLength(b[i..j]) == CharLength(b[i..])
  {
    var s, t := b[i..], b[i..j];
    assert forall k | 0 <= k < |t| :: t[k] == s[k];
  }

  lemma CharLonger(b: Bytes, i: nat, j: nat)
    requires i <= j <= |b|
    requires CharLength(b[i..j]) > 0
    ensures CharLength(b[i..]) == CharLength(b[i..j])
  {
    var s, t := b[i..], b[i..j];
    assert forall k | 0 <= k < |t| :: t[k] == s[k];
  }

  lemma {:induction false} StringEndComplete(b: Bytes, i: nat, j: nat)
    requires i <= j < |b| && b[j] == QUOTE && StringOk(b[i..j])
    ensures StringEnd(b, i) == Some(j + 1)
    decreases j - i
  {
    if i < j {
      var n := CharLength(b[i..j]);
      CharLonger(b, i, j);
      assert b[i..j][n..] == b[i + n..j];
      assert b[i] == b[i..j][0];
      StringEndComplete(b, i + n, j);
    }
  }

  // ------------------------------------------------------------------- numbers

  function DigitsEnd(b: Bytes, i: nat): (j: nat)
    requires i <= |b|
    ensures i <= j <= |b|
    decreases |b| - i
  {
    if i < |b| && IsDigit(b[i]) then DigitsEnd(b, i + 1) else i
  }

  lemma {:induction false} DigitsEndReads(b: Bytes, i: nat)
    requires i <= |b|
    ensures AllDigits(b[i..DigitsEnd(b, i)])
    decreases |b| - i
  {
    if i < |b| && IsDigit(b[i]) {
      DigitsEndReads(b, i + 1);
      assert b[i..DigitsEnd(b, i)] == [b[i]] + b[i + 1..DigitsEnd(b, i)];
    }
  }

  lemma {:induction false} DigitsEndComplete(b: Bytes, i: nat, j: nat)
    requires i <= j <= |b| && AllDigits(b[i..j]) && (j < |b| ==> !IsDigit(b[j]))
    ensures DigitsEnd(b, i) == j
    decreases j - i
  {
    if i < j {
      assert b[i] == b[i..j][0];
      assert b[i + 1..j] == b[i..j][1..];
      DigitsEndComplete(b, i + 1, j);
    }
  }

  predicate At(b: Bytes, i: nat, x: Byte) {
    i < |b| && b[i] == x
  }

  function SignEnd(b: Bytes, i: nat): (j: nat)
    requires i <= |b|
    ensures i <= j <= |b|
  {
    if At(b, i, 0x2D) then i + 1 else i
  }

  function IntEnd(b: Bytes, i: nat): (j: Option<nat>)
    requires i <= |b|
    ensures j.Some? ==> i < j.value <= |b|
  {
    if At(b, i, 0x30) then Some(i + 1)
    else if i < |b| && 0x31 <= b[i] <= 0x39 then Some(DigitsEnd(b, i + 1))
    else None
  }

  function FractionEnd(b: Bytes, i: nat): (j: Option<nat>)
    requires i <= |b|
    ensures j.Some? ==> i <= j.value <= |b|
  {
    if !At(b, i, 0x2E) then Some(i)
    else if DigitsEnd(b, i + 1) == i + 1 then None
    else Some(DigitsEnd(b, i + 1))
  }

  function ExponentEnd(b: Bytes, i: nat): (j: Option<nat>)
    requires i <= |b|
    ensures j.Some? ==> i <= j.value <= |b|
  {
    if !At(b, i, 0x65) && !At(b, i, 0x45) then Some(i)
    else
      var k := if At(b, i + 1, 0x2B) || At(b, i + 1, 0x2D) then i + 2 else i + 1;
      if DigitsEnd(b, k) == k then None else Some(DigitsEnd(b, k))
  }

  function NumberEnd(b: Bytes, i: nat): (j: Option<nat>)
    requires i <= |b|
    ensures j.Some? ==> i < j.value <= |b|
  {
    var whole := IntEnd(b, SignEnd(b, i));
    if whole.None? then None
    else
      var fraction := FractionEnd(b, whole.value);
      if fraction.None? then None else ExponentEnd(b, fraction.value)
  }

  lemma NumberEndReads(b: Bytes, i: nat)
    requires i <= |b| && NumberEnd(b, i).Some?
    ensures NumberOk(b[i..NumberEnd(b, i).value])
  {
    var p := SignEnd(b, i);
    var q := IntEnd(b, p).value;
    var r := FractionEnd(b, q).value;
    var s := ExponentEnd(b, r).value;
    assert SignOk(b[i..p]);
    IntReads(b, p);
    FractionReads(b, q);
    ExponentReads(b, r);
    assert b[i..s] == b[i..p] + b[p..q] + b[q..r] + b[r..s];
  }

  lemma IntReads(b: Bytes, i: nat)
    requires i <= |b| && IntEnd(b, i).Some?
    ensures IntOk(b[i..IntEnd(b, i).value])
  {
    if !At(b, i, 0x30) {
      DigitsEndReads(b, i + 1);
      var j := DigitsEnd(b, i + 1);
      assert b[i..j] == [b[i]] + b[i + 1..j];
    }
  }

  lemma FractionReads(b: Bytes, i: nat)
    requires i <= |b| && FractionEnd(b, i).Some?
    ensures FractionOk(b[i..FractionEnd(b, i).value])
  {
    if At(b, i, 0x2E) {
      DigitsEndReads(b, i + 1);
      var j := DigitsEnd(b, i + 1);
      assert b[i..j][1..] == b[i + 1..j];
    }
  }

  lemma ExponentReads(b: Bytes, i: nat)
    requires i <= |b| && ExponentEnd(b, i).Some?
    ensures ExponentOk(b[i..ExponentEnd(b, i).value])
  {
    if At(b, i, 0x65) || At(b, i, 0x45) {
      var k := if At(b, i + 1, 0x2B) || At(b, i + 1, 0x2D) then i + 2 else i + 1;
      DigitsEndReads(b, k);
      var j := DigitsEnd(b, k);
      assert b[i..j][k - i..] == b[k..j];
    }
  }

  /** Nothing that could continue a number. */
  predicate Ends(b: Bytes, j: nat)
    requires j <= |b|
  {
    j == |b| || IsWs(b[j]) || b[j] == COMMA || b[j] == RBRACKET || b[j] == RBRACE
  }

  lemma NumberEndComplete(b: Bytes, i: nat, j: nat)
    requires i <= j <= |b| && NumberOk(b[i..j]) && Ends(b, j)
    ensures NumberEnd(b, i) == Some(j)
  {
    hide SignOk, IntOk, FractionOk, ExponentOk, NumberEnd, Ends;
    var sign: Bytes, whole: Bytes, fraction: Bytes, exponent: Bytes :|
      b[i..j] == sign + whole + fraction + exponent &&
      SignOk(sign) && IntOk(whole) && FractionOk(fraction) && ExponentOk(exponent);
    FourPieces(b[i..j], sign, whole, fraction, exponent);
    NumberOfLengths(b, i, j, |sign|, |sign| + |whole|, |sign| + |whole| + |fraction|);
  }

  lemma NumberOfLengths(b: Bytes, i: nat, j: nat, x: nat, y: nat, z: nat)
    requires i <= j <= |b| && Ends(b, j) && x <= y <= z <= j - i
    requires var s := b[i..j]; SignOk(s[0..x]) && IntOk(s[x..y]) && FractionOk(s[y..z]) && ExponentOk(s[z..|s|])
    ensures NumberEnd(b, i) == Some(j)
  {
    SubSlice(b, i, j, 0, x);
    SubSlice(b, i, j, x, y);
    SubSlice(b, i, j, y, z);
    SubSlice(b, i, j, z, j - i);
    NumberOfPieces(b, i, i + x, i + y, i + z, j);
  }

  lemma FourPieces(s: Bytes, w: Bytes, x: Bytes, y: Bytes, z: Bytes)
    requires s == w + x + y + z
    ensures s[0..|w|] == w && s[|w|..|w| + |x|] == x && s[|w| + |x|..|w| + |x| + |y|] == y
    ensures s[|w| + |x| + |y|..|s|] == z
  {
  }

  lemma SubSlice(b: Bytes, i: nat, j: nat, x: nat, y: nat)
    requires i <= j <= |b| && x <= y <= j - i
    ensures b[i..j][x..y] == b[i + x..i + y]
  {
    var l, r := b[i..j][x..y], b[i + x..i + y];
    assert forall k | 0 <= k < y - x :: l[k] == b[i + x + k] == r[k];
  }

  lemma NumberOfPieces(b: Bytes, i: nat, p: nat, q: nat, r: nat, j: nat)
    requires i <= p <= q <= r <= j <= |b| && Ends(b, j)
    requires SignOk(b[i..p]) && IntOk(b[p..q]) && FractionOk(b[q..r]) && ExponentOk(b[r..j])
    ensures NumberEnd(b, i) == Some(j)
  {
    StartsAfter(b, q, r, j);
    IntComplete(b, p, q);
    FractionComplete(b, q, r, j);
    ExponentComplete(b, r, j);
    SignComplete(b, i, p, q);
  }

  lemma SignComplete(b: Bytes, i: nat, p: nat, q: nat)
    requires i <= p <= q <= |b| && SignOk(b[i..p]) && IntOk(b[p..q])
    ensures SignEnd(b, i) == p
  {
    assert b[p] == b[p..q][0];
    if i < p {
      assert b[i] == b[i..p][0];
    }
  }

  /** What follows the whole part is never a digit. */
  lemma StartsAfter(b: Bytes, q: nat, r: nat, j: nat)
    requires q <= r <= j <= |b| && FractionOk(b[q..r]) && ExponentOk(b[r..j]) && Ends(b, j)
    ensures q < |b| ==> !IsDigit(b[q])
    ensures r < |b| ==> !IsDigit(b[r]) && (q == r ==> b[q] != 0x2E)
  {
    if q < r {
      assert b[q] == b[q..r][0];
    }
    if r < j {
      assert b[r] == b[r..j][0];
    }
  }

  lemma IntComplete(b: Bytes, p: nat, q: nat)
    requires p <= q <= |b| && IntOk(b[p..q]) && (q < |b| ==> !IsDigit(b[q]))
    ensures IntEnd(b, p) == Some(q)
  {
    assert b[p] == b[p..q][0];
    if b[p..q] != [0x30] {
      assert b[p + 1..q] == b[p..q][1..];
      DigitsEndComplete(b, p + 1, q);
    }
  }

  lemma FractionComplete(b: Bytes, q: nat, r: nat, j: nat)
    requires q <= r <= j <= |b| && FractionOk(b[q..r])
    requires r < |b| ==> !IsDigit(b[r]) && (q == r ==> b[q] != 0x2E)
    ensures FractionEnd(b, q) == Some(r)
  {
    if q < r {
      assert b[q] == b[q..r][0];
      assert b[q + 1..r] == b[q..r][1..];
      DigitsEndComplete(b, q + 1, r);
    }
  }

  lemma ExponentComplete(b: Bytes, r: nat, j: nat)
    requires r <= j <= |b| && ExponentOk(b[r..j]) && Ends(b, j)
    ensures ExponentEnd(b, r) == Some(j)
  {
    if r < j {
      var e := b[r..j];
      assert b[r] == e[0] && b[r + 1] == e[1];
      if AllDigits(e[1..]) {
        assert IsDigit(e[1..][0]);
        assert b[r + 1..j] == e[1..];
        DigitsEndComplete(b, r + 1, j);
      } else {
        assert b[r + 2..j] == e[2..];
        DigitsEndComplete(b, r + 2, j);
      }
    }
  }

  // --------------------------------------------------------------------- words

  function Word(x: Byte): Bytes {
    if x == 0x74 then TRUE else if x == 0x66 then FALSE else NULL
  }

  function WordEnd(b: Bytes, i: nat, word: Bytes): (j: Option<nat>)
    requires i <= |b|
    ensures j.Some? ==> i + |word| == j.value <= |b| && b[i..j.value] == word
    ensures j.None? ==> !(i + |word| <= |b| && b[i..i + |word|] == word)
    decreases |word|
  {
    if word == [] then Some(i)
    else if !At(b, i, word[0]) then None
    else
      var rest := WordEnd(b, i + 1, word[1..]);
      assert rest.Some? ==> b[i..i + |word|] == [b[i]] + b[i + 1..i + |word|];
      assert i + |word| <= |b| && b[i..i + |word|] == word ==> b[i + 1..i + |word|] == word[1..];
      rest
  }
}

/** Where the characters of a decoded string stand among its raw bytes, and that the
    scanner's walk over the bytes is a walk over the characters
    (internal/gateway/identity_text_stream.go:26-113, 140-238). */
module IdentityPlaces {
  import opened JsonGrammar
  import opened IdentityRunes
  import opened IdentityScan
  import opened IdentityText
  import opened IdentityCuts
  import opened IdentitySentence
  import opened Wrappers

  /** The raw position of the `k`-th rune from `p` on. */
  function Place(b: Bytes, p: nat, hi: nat, k: nat): (q: nat)
    requires p <= hi <= |b|
    ensures p <= q <= hi
    decreases k
  {
    if k == 0 || At(b, p, hi).None? then p else Place(b, Next(b, p, hi), hi, k - 1)
  }

  /** These are the characters between two places of a string that the grammar allows. */
  ghost predicate Reads(b: Bytes, p: nat, hi: nat, codes: seq<int>) {
    p <= hi <= |b| && StringOk(b[p..hi]) && Decode(b[p..hi]) == codes
  }

  /** The first character, and the text behind it. */
  lemma TextStep(b: Bytes, p: nat, hi: nat, codes: seq<int>)
    requires Reads(b, p, hi, codes)
    ensures codes == [] <==> p == hi
    ensures codes == [] ==> At(b, p, hi).None?
    ensures codes != [] ==>
              && At(b, p, hi).Some? && At(b, p, hi).value.code == codes[0]
              && At(b, p, hi).value.size == RuneLen(codes[0]) && Reads(b, Next(b, p, hi), hi, codes[1..])
  {
    if p < hi {
      RuneOfString(b[p..hi]);
      FirstRune(b, p, hi, Next(b, p, hi));
      SizeOfRune(b, p, hi);
      assert b[p..hi][Next(b, p, hi) - p..] == b[Next(b, p, hi)..hi];
    }
    hide ReadRune, StringOk;
  }

  lemma {:induction false} TextAt(b: Bytes, p: nat, hi: nat, codes: seq<int>, k: nat)
    requires Reads(b, p, hi, codes) && k <= |codes|
    ensures Reads(b, Place(b, p, hi, k), hi, codes[k..]) && Boundary(b, p, hi, Place(b, p, hi, k))
    ensures k < |codes| ==> Place(b, p, hi, k + 1) == Place(b, Place(b, p, hi, k), hi, 1)
    decreases k
  {
    hide ReadRune, StringOk, Decode, Peek;
    TextStep(b, p, hi, codes);
    if k == 0 {
      assert codes[0..] == codes;
    } else {
      TextAt(b, Next(b, p, hi), hi, codes[1..], k - 1);
      assert codes[1..][k - 1..] == codes[k..];
    }
  }

  /** The rune at a place is the character there. */
  lemma RuneAt(b: Bytes, p: nat, hi: nat, codes: seq<int>, k: nat)
    requires Reads(b, p, hi, codes) && k <= |codes|
    ensures Peek(b, Place(b, p, hi, k), hi) == CodeAt(codes, k)
    ensures Place(b, p, hi, k) == hi <==> k == |codes|
    ensures At(b, Place(b, p, hi, k), hi).Some? <==> k < |codes|
    ensures k < |codes| ==>
              && At(b, Place(b, p, hi, k), hi).value.code == codes[k]
              && At(b, Place(b, p, hi, k), hi).value.size == RuneLen(codes[k])
              && Next(b, Place(b, p, hi, k), hi) == Place(b, p, hi, k + 1)
  {
    hide ReadRune, StringOk, Decode;
    TextAt(b, p, hi, codes, k);
    var q := Place(b, p, hi, k);
    TextStep(b, q, hi, codes[k..]);
    if k < |codes| {
      assert Place(b, q, hi, 1) == Place(b, Next(b, q, hi), hi, 0);
    }
    hide Reads, Boundary;
  }

  lemma PlacesGrow(b: Bytes, p: nat, hi: nat, codes: seq<int>, j: nat, k: nat)
    requires Reads(b, p, hi, codes) && j < k <= |codes|
    ensures Place(b, p, hi, j) < Place(b, p, hi, k)
    decreases k - j
  {
    RuneAt(b, p, hi, codes, j);
    hide Reads, Place, ReadRune;
    if j + 1 < k {
      PlacesGrow(b, p, hi, codes, j + 1, k);
    }
  }

  /** The text between two places. */
  lemma {:induction false} TextBetween(b: Bytes, p: nat, hi: nat, codes: seq<int>, i: nat, j: nat)
    requires Reads(b, p, hi, codes) && i <= j <= |codes|
    ensures Place(b, p, hi, i) <= Place(b, p, hi, j)
    ensures Decode(b[Place(b, p, hi, i)..Place(b, p, hi, j)]) == codes[i..j]
    decreases j - i
  {
    hide ReadRune, Decode, Peek, Place;
    if i == j {
      DecodeEnd(b, Place(b, p, hi, i));
    } else {
      PlacesGrow(b, p, hi, codes, i, j);
      TextBetween(b, p, hi, codes, i + 1, j);
      RuneAt(b, p, hi, codes, i);
      TextAt(b, p, hi, codes, i);
      TextAt(b, p, hi, codes, j);
      BoundaryBetween(b, p, hi, Place(b, p, hi, i), Place(b, p, hi, j));
      DecodeStep(b, Place(b, p, hi, i), Place(b, p, hi, j), hi);
      assert codes[i..j] == [codes[i]] + codes[i + 1..j];
      hide Reads, Boundary;
    }
  }
}

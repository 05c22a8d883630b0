/** The whole rewriting of a request: scan, cut, copy. */
module IdentityRewrite {
  import opened JsonGrammar
  import opened JsonLayout
  import opened IdentityScan
  import opened IdentityTree
  import opened IdentityWalk
  import opened IdentityText
  import opened IdentityCuts
  import opened IdentityPatches
  import opened IdentityEdit
  import opened Wrappers

  // -------------------------------------------------------------- contents of strings

  lemma {:induction false} StringReadable(v: Value, b: Bytes, at: nat, s: Span)
    requires WellFormed(v) && Stands(v, b, at) && IsString(v, at, s)
    ensures s.start + 2 <= s.end <= |b| && StringOk(b[s.start + 1..s.end - 1])
    decreases v
  {
    hide StringOk, NumberOk, AllWs;
    match v
    case Arr(_, items) => ItemReadable(items, b, at + 1, s);
    case Obj(_, members) => MemberReadable(members, b, at + 1, s);
    case _ =>
  }

  lemma {:induction false} ItemReadable(items: Items, b: Bytes, at: nat, s: Span)
    requires WellFormedItems(items) && IsStringItem(items, at, s) && StandsItems(items, b, at)
    ensures s.start + 2 <= s.end <= |b| && StringOk(b[s.start + 1..s.end - 1])
    decreases items
  {
    hide StringOk, Run, Byte1, AllWs;
    if IsString(items.value, at + |items.before|, s) {
      StringReadable(items.value, b, at + |items.before|, s);
    } else {
      ItemReadable(items.rest, b, NextItem(items, at), s);
    }
  }

  lemma {:induction false} MemberReadable(m: Members, b: Bytes, at: nat, s: Span)
    requires WellFormedMembers(m) && IsStringMember(m, at, s) && StandsMembers(m, b, at)
    ensures s.start + 2 <= s.end <= |b| && StringOk(b[s.start + 1..s.end - 1])
    decreases m
  {
    hide StringOk, Run, Byte1, AllWs, ValueAt, StandsKey;
    if IsString(m.value, ValueAt(m, at), s) {
      StringReadable(m.value, b, ValueAt(m, at), s);
    } else {
      MemberReadable(m.rest, b, NextMember(m, at), s);
    }
  }

  // ------------------------------------------------------------------------ the rewrite

  function Rows(route: Route, t: Text): seq<Span> {
    if t.value.Obj? then Selected(route, t.value.members, |t.before| + 1) else []
  }

  lemma RowsOf(route: Route, t: Text)
    requires Accepted(route, t)
    ensures var b := PrintText(t); var rows := Rows(route, t);
            Readable(b, rows) && StringsOf(t.value, |t.before|, rows) && InOrder(rows, 0, |b|)
  {
    hide StringsOfMembers, Selected, WellFormed, Stands, StringOk, Clean, Depth;
    var b := PrintText(t);
    var at := |t.before|;
    var rows := Rows(route, t);
    TextStands(t, b);
    SelectedStrings(route, t.value.members, at + 1);
    ObjectStrings(t.value, at, rows);
    forall s | s in rows
      ensures s.start + 2 <= s.end <= |b| && StringOk(b[s.start + 1..s.end - 1])
    {
      StringReadable(t.value, b, at, s);
    }
    InOrderWiden(rows, at, at + Len(t.value), 0, |b|);
  }

  function Patches(m: Matchers, route: Route, t: Text): seq<Span>
    requires Sound(m) && Accepted(route, t)
  {
    RowsOf(route, t);
    PatchesInOrder(m, PrintText(t), Rows(route, t), 0, |PrintText(t)|);
    PatchesOf(m, PrintText(t), Rows(route, t)).value
  }

  /** The scan never gives up on an accepted request, and the patches are in order. */
  lemma PatchesAre(m: Matchers, route: Route, t: Text)
    requires Sound(m) && Accepted(route, t)
    ensures var b := PrintText(t);
            && Readable(b, Rows(route, t)) && PatchesOf(m, b, Rows(route, t)) == Some(Patches(m, route, t))
            && InOrder(Patches(m, route, t), 0, |b|)
  {
    hide Sound, Accepted, Rows, PatchesOf, InOrder;
    RowsOf(route, t);
    PatchesInOrder(m, PrintText(t), Rows(route, t), 0, |PrintText(t)|);
  }

  function Rewritten(m: Matchers, route: Route, t: Text): Text
    requires Sound(m) && Accepted(route, t)
  {
    Text(t.before, Edit(t.value, |t.before|, Patches(m, route, t)), t.after)
  }

  /** What is removed is removed from the contents of a selected string. */
  lemma RemovedInside(m: Matchers, b: Bytes, rows: seq<Span>, k: int) returns (s: Span)
    requires Sound(m) && Readable(b, rows) && PatchesOf(m, b, rows).Some? && Covered(PatchesOf(m, b, rows).value, k)
    ensures s in rows && s.start + 2 <= s.end <= |b| && s.start < k < s.end - 1 && CutFrom(m, b, s, k)
  {
    hide StringOk, Sound, CutFrom, Covered, PatchesOf;
    PatchesCover(m, b, rows, k);
    s :| s in rows && CutFrom(m, b, s, k);
    CutFromInside(m, b, s, k);
  }

  lemma RemovedOnlyIn(m: Matchers, b: Bytes, v: Value, at: nat, rows: seq<Span>)
    requires Sound(m) && Readable(b, rows) && PatchesOf(m, b, rows).Some? && StringsOf(v, at, rows)
    ensures OnlyIn(v, at, PatchesOf(m, b, rows).value)
    ensures forall k | Covered(PatchesOf(m, b, rows).value, k) :: at <= k < at + Len(v)
  {
    var all := PatchesOf(m, b, rows).value;
    hide Sound, Readable, CutFrom, Covered, PatchesOf, IsString, InOrder;
    forall k | Covered(all, k)
      ensures Inner(v, at, k) && at <= k < at + Len(v)
    {
      var s := RemovedInside(m, b, rows, k);
      StringInside(v, at, s);
    }
  }

  lemma NotRemoved(m: Matchers, b: Bytes, v: Value, at: nat, rows: seq<Span>, s: Span, k: int)
    requires Sound(m) && Readable(b, rows) && PatchesOf(m, b, rows).Some? && StringsOf(v, at, rows)
    requires IsString(v, at, s) && s !in rows && s.start < k < s.end - 1
    ensures !Covered(PatchesOf(m, b, rows).value, k)
  {
    hide Sound, CutFrom, Covered, PatchesOf, IsString, InOrder;
    if Covered(PatchesOf(m, b, rows).value, k) {
      var other := RemovedInside(m, b, rows, k);
      StringsApart(v, at, s, other);
      assert false;
    }
  }

  lemma KeepRange(b: Bytes, lo: nat, hi: nat, spans: seq<Span>)
    requires lo <= hi <= |b| && forall k | lo <= k < hi :: !Covered(spans, k)
    ensures Keep(b[lo..hi], lo, spans) == b[lo..hi]
  {
    hide Covered, Keep;
    KeepAll(b[lo..hi], lo, spans);
  }

  lemma NoneRemoved(m: Matchers, b: Bytes, v: Value, at: nat, rows: seq<Span>, s: Span, all: seq<Span>)
    requires Sound(m) && Readable(b, rows) && PatchesOf(m, b, rows) == Some(all) && StringsOf(v, at, rows)
    requires IsString(v, at, s) && s !in rows
    ensures forall k | s.start < k < s.end - 1 :: !Covered(all, k)
  {
    hide Sound, Readable, Covered, PatchesOf, StringsOf, IsString;
    forall k | s.start < k < s.end - 1
      ensures !Covered(all, k)
    {
      NotRemoved(m, b, v, at, rows, s, k);
    }
  }

  /** In a string that was not selected nothing is removed. */
  lemma OthersKept(m: Matchers, b: Bytes, v: Value, at: nat, rows: seq<Span>, s: Span, all: seq<Span>, lo: nat, hi: nat)
    requires Sound(m) && Readable(b, rows) && PatchesOf(m, b, rows) == Some(all) && StringsOf(v, at, rows)
    requires IsString(v, at, s) && s !in rows && lo == s.start + 1 && hi + 1 == s.end && lo <= hi < |b|
    ensures Keep(b[lo..hi], lo, all) == b[lo..hi]
  {
    hide Sound, Readable, Covered, PatchesOf, StringsOf, IsString, Keep;
    NoneRemoved(m, b, v, at, rows, s, all);
    KeepRange(b, lo, hi, all);
  }

  /** In a selected string exactly its own removals go. */
  lemma OwnRemovals(m: Matchers, b: Bytes, v: Value, at: nat, rows: seq<Span>, s: Span, k: int)
    requires Sound(m) && Readable(b, rows) && PatchesOf(m, b, rows).Some? && StringsOf(v, at, rows) && s in rows
    requires s.start + 1 <= k < s.end - 1
    ensures Covered(PatchesOf(m, b, rows).value, k) <==> CutFrom(m, b, s, k)
  {
    hide Sound, StringOk, CutFrom, Covered, PatchesOf, IsString, InOrder;
    PatchesCover(m, b, rows, k);
    if Covered(PatchesOf(m, b, rows).value, k) {
      var other := RemovedInside(m, b, rows, k);
      StringsApart(v, at, s, other);
    }
  }

  lemma OwnCover(m: Matchers, b: Bytes, v: Value, at: nat, rows: seq<Span>, s: Span, all: seq<Span>, own: seq<Span>)
    requires Sound(m) && Readable(b, rows) && StringsOf(v, at, rows) && s in rows
    requires PatchesOf(m, b, rows) == Some(all) && TextRemovals(m, b, s.start + 1, s.end - 1) == Some(own)
    ensures forall k | s.start + 1 <= k < s.end - 1 :: Covered(all, k) <==> Covered(own, k)
  {
    hide Sound, Covered, PatchesOf, StringsOf, TextRemovals, StringOk;
    forall k | s.start + 1 <= k < s.end - 1
      ensures Covered(all, k) <==> Covered(own, k)
    {
      OwnRemovals(m, b, v, at, rows, s, k);
    }
  }

  lemma RowsCut(m: Matchers, b: Bytes, v: Value, at: nat, rows: seq<Span>, s: Span)
    requires Sound(m) && Readable(b, rows) && PatchesOf(m, b, rows).Some? && StringsOf(v, at, rows) && s in rows
    ensures StaysString(b, s, PatchesOf(m, b, rows).value)
  {
    hide Sound, Covered, PatchesOf, StringsOf, Keep, TextRemovals, StringOk, Cuts;
    var all := PatchesOf(m, b, rows).value;
    TextRemovalsAreCuts(m, b, s.start + 1, s.end - 1);
    var own := TextRemovals(m, b, s.start + 1, s.end - 1).value;
    OwnCover(m, b, v, at, rows, s, all, own);
    hide Readable;
    CutStringIsString(b, s.start + 1, s.end - 1, own, all);
  }

  lemma OthersStay(m: Matchers, b: Bytes, v: Value, at: nat, rows: seq<Span>, s: Span, all: seq<Span>)
    requires Sound(m) && Readable(b, rows) && PatchesOf(m, b, rows) == Some(all) && StringsOf(v, at, rows)
    requires IsString(v, at, s) && s !in rows && s.start + 2 <= s.end <= |b| && StringOk(b[s.start + 1..s.end - 1])
    ensures StaysString(b, s, all)
  {
    hide Sound, Readable, PatchesOf, StringsOf, IsString, Keep, StringOk;
    OthersKept(m, b, v, at, rows, s, all, s.start + 1, s.end - 1);
  }

  lemma AllStayStrings(m: Matchers, b: Bytes, v: Value, at: nat, rows: seq<Span>)
    requires Sound(m) && Readable(b, rows) && PatchesOf(m, b, rows).Some? && StringsOf(v, at, rows)
    requires WellFormed(v) && Stands(v, b, at)
    ensures forall s | IsString(v, at, s) :: StaysString(b, s, PatchesOf(m, b, rows).value)
  {
    var all := PatchesOf(m, b, rows).value;
    hide Sound, Readable, Covered, PatchesOf, IsString, InOrder, Keep, TextRemovals, StringOk, WellFormed, Stands;
    forall s | IsString(v, at, s)
      ensures StaysString(b, s, all)
    {
      StringReadable(v, b, at, s);
      if s in rows {
        RowsCut(m, b, v, at, rows, s);
      } else {
        OthersStay(m, b, v, at, rows, s, all);
      }
    }
  }

  lemma KeepText(t: Text, spans: seq<Span>)
    requires forall k | Covered(spans, k) :: |t.before| <= k < |t.before| + Len(t.value)
    requires OnlyIn(t.value, |t.before|, spans)
    ensures Keep(PrintText(t), 0, spans) == PrintText(Text(t.before, Edit(t.value, |t.before|, spans), t.after))
  {
    hide Covered, OnlyIn, Keep, Print, Edit, Len;
    var v := |t.before|;
    var e := v + Len(t.value);
    PrintLength(t.value);
    EditPrints(t.value, v, spans);
    assert PrintText(t) == t.before + Print(t.value) + t.after + [];
    KeepPieces(t.before, Print(t.value), t.after, [], 0, v, e, e + |t.after|, spans);
    KeepAll([], e + |t.after|, spans);
  }

  /** Copying what is left of an accepted request gives the text of the edited tree, and
      that is accepted again: same structure, same keys, same numbers, and every string
      that was not selected byte for byte. */
  lemma RewrittenIsAccepted(m: Matchers, route: Route, t: Text)
    requires Sound(m) && Accepted(route, t)
    ensures Keep(PrintText(t), 0, Patches(m, route, t)) == PrintText(Rewritten(m, route, t))
    ensures Accepted(route, Rewritten(m, route, t))
    ensures forall s | IsString(t.value, |t.before|, s) && s !in Rows(route, t) ::
            s.start + 2 <= s.end <= |PrintText(t)|
    ensures forall s | IsString(t.value, |t.before|, s) && s !in Rows(route, t) ::
              Keep(PrintText(t)[s.start + 1..s.end - 1], s.start + 1, Patches(m, route, t))
                == PrintText(t)[s.start + 1..s.end - 1]
  {
    var b := PrintText(t);
    var rows := Rows(route, t);
    var at := |t.before|;
    var spans := Patches(m, route, t);
    RowsOf(route, t);
    PatchesAre(m, route, t);
    TextStands(t, b);
    hide Sound, Readable, StringsOf, PatchesOf, Keep, WellFormed, Stands, Rows, PrintText, Clean, Depth, IsString,
      OnlyIn, Patches, Covered, Edit;
    RemovedOnlyIn(m, b, t.value, at, rows);
    KeepText(t, spans);
    AllStayStrings(m, b, t.value, at, rows);
    EditWellFormed(t.value, b, at, spans);
    EditShape(Top(route), t.value, at, spans);
    ObjStays(t.value, at, spans);
    forall s | IsString(t.value, at, s) && s !in rows
      ensures s.start + 2 <= s.end <= |b|
              && Keep(b[s.start + 1..s.end - 1], s.start + 1, spans) == b[s.start + 1..s.end - 1]
    {
      OthersSame(m, b, t.value, at, rows, s, spans);
    }
  }

  lemma OthersSame(m: Matchers, b: Bytes, v: Value, at: nat, rows: seq<Span>, s: Span, all: seq<Span>)
    requires Sound(m) && Readable(b, rows) && PatchesOf(m, b, rows) == Some(all) && StringsOf(v, at, rows)
    requires WellFormed(v) && Stands(v, b, at) && IsString(v, at, s) && s !in rows
    ensures s.start + 2 <= s.end <= |b|
    ensures Keep(b[s.start + 1..s.end - 1], s.start + 1, all) == b[s.start + 1..s.end - 1]
  {
    hide Sound, Readable, PatchesOf, StringsOf, IsString, Keep, StringOk, WellFormed, Stands;
    StringReadable(v, b, at, s);
    OthersKept(m, b, v, at, rows, s, all, s.start + 1, s.end - 1);
  }

  lemma ObjStays(v: Value, at: nat, spans: seq<Span>)
    requires v.Obj?
    ensures Edit(v, at, spans).Obj?
  {
  }

  // --------------------------------------------------------------------- the copy loop

  lemma {:induction false} KeepSame(s: Bytes, off: nat, spans: seq<Span>, spans': seq<Span>)
    requires forall k | off <= k < off + |s| :: Covered(spans, k) <==> Covered(spans', k)
    ensures Keep(s, off, spans) == Keep(s, off, spans')
    decreases |s|
  {
    hide Covered;
    if s == [] {
    } else {
      KeepSame(s[1..], off + 1, spans, spans');
    }
  }

  /** The copied prefix grows by what lies between the cursor and the next patch. */
  lemma CopyStep(b: Bytes, cursor: nat, spans: seq<Span>, i: nat)
    requires i < |spans| && cursor <= spans[i].start <= spans[i].end <= |b|
    requires forall j | 0 <= j < i :: spans[j].end <= cursor
    ensures Keep(b[..spans[i].end], 0, spans[..i + 1])
         == Keep(b[..cursor], 0, spans[..i]) + b[cursor..spans[i].start]
  {
    var s, e := spans[i].start, spans[i].end;
    var more := spans[..i + 1];
    assert more == spans[..i] + [spans[i]];
    forall k: int
      ensures Covered(more, k) <==> Covered(spans[..i], k) || s <= k < e
    {
      CoveredJoin(spans[..i], [spans[i]], k);
      assert Covered([spans[i]], k) <==> s <= k < e by {
        assert [spans[i]][0] == spans[i];
      }
    }
    assert forall k | cursor <= k :: !Covered(spans[..i], k);
    hide Covered;
    assert b[..e] == b[0..e] && b[..cursor] == b[0..cursor];
    KeepThrough(b, 0, cursor, s, e, more);
    assert b[e..e] == [];
    KeepThrough(b, cursor, s, e, e, more);
    KeepSame(b[..cursor], 0, more, spans[..i]);
    KeepAll(b[cursor..s], cursor, more);
    KeepNone(b[s..e], s, more);
  }

  /** Copies a request without its patches; an error exactly when they are not in order. */
  method ApplyPatches(b: Bytes, patches: seq<Span>) returns (output: Option<Bytes>, length: int)
    ensures output.Some? <==> InOrder(patches, 0, |b|)
    ensures output.Some? ==> output.value == Keep(b, 0, patches) && length == |output.value|
  {
    var cursor, removed, i := 0, 0, 0;
    var out: Bytes := [];
    while i < |patches|
      invariant 0 <= i <= |patches| && 0 <= cursor <= |b|
      invariant InOrder(patches, 0, |b|) <==> InOrder(patches[i..], cursor, |b|)
      invariant forall j | 0 <= j < i :: patches[j].end <= cursor
      invariant out == Keep(b[..cursor], 0, patches[..i]) && |out| == cursor - removed
    {
      var span := patches[i];
      assert patches[i..][0] == span && patches[i..][1..] == patches[i + 1..];
      if span.start < cursor || span.end < span.start || span.end > |b| {
        return None, 0;
      }
      CopyStep(b, cursor, patches, i);
      out := out + b[cursor..span.start];
      removed := removed + (span.end - span.start);
      cursor := span.end;
      i := i + 1;
    }
    assert patches[..i] == patches;
    CopyEnd(b, cursor, patches);
    output, length := Some(out + b[cursor..]), |b| - removed;
  }

  lemma KeepSplit(b: Bytes, s: Bytes, t: Bytes, n: nat, spans: seq<Span>)
    requires b == s + t && n == |s|
    ensures Keep(b, 0, spans) == Keep(s, 0, spans) + Keep(t, n, spans)
  {
    hide Keep, Covered;
    KeepJoin(s, t, 0, spans);
  }

  lemma NoneBehind(spans: seq<Span>, cursor: nat)
    requires forall j | 0 <= j < |spans| :: spans[j].end <= cursor
    ensures forall k | cursor <= k :: !Covered(spans, k)
  {
  }

  lemma CopyEnd(b: Bytes, cursor: nat, spans: seq<Span>)
    requires cursor <= |b| && forall j | 0 <= j < |spans| :: spans[j].end <= cursor
    ensures Keep(b, 0, spans) == Keep(b[..cursor], 0, spans) + b[cursor..]
  {
    NoneBehind(spans, cursor);
    hide Keep, Covered;
    KeepAll(b[cursor..], cursor, spans);
    KeepSplit(b, b[..cursor], b[cursor..], cursor, spans);
  }
}

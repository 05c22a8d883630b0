/** Cutting the emitted spans out of a request.  They come in order, apart, and inside
    the selected strings, so the copy loop never takes its error branch, and what it
    writes is the request with nothing changed but those strings. */
module IdentityPatches {
  import opened JsonGrammar
  import opened JsonLayout
  import opened IdentityScan
  import opened IdentityTree
  import opened IdentityWalk
  import opened IdentityText
  import opened IdentityCuts
  import opened Wrappers

  // ------------------------------------------------------------- the strings of a tree

  /** `s` is where a string value of `v` stands; keys are not values. */
  predicate IsString(v: Value, at: nat, s: Span)
    decreases v
  {
    match v
    case Str(raw) => s == Span(at, at + |raw| + 2)
    case Arr(_, items) => IsStringItem(items, at + 1, s)
    case Obj(_, members) => IsStringMember(members, at + 1, s)
    case _ => false
  }

  function NextItem(items: Items, at: nat): nat
    requires items.Item?
  {
    at + |items.before| + Len(items.value) + |items.after| + 1
  }

  predicate IsStringItem(items: Items, at: nat, s: Span)
    decreases items
  {
    items.Item? &&
    (IsString(items.value, at + |items.before|, s) || IsStringItem(items.rest, NextItem(items, at), s))
  }

  predicate IsStringMember(m: Members, at: nat, s: Span)
    decreases m
  {
    m.Member? && (IsString(m.value, ValueAt(m, at), s) || IsStringMember(m.rest, NextMember(m, at), s))
  }

  lemma {:induction false} StringInside(v: Value, at: nat, s: Span)
    requires IsString(v, at, s)
    ensures at <= s.start && s.start + 2 <= s.end <= at + Len(v)
    decreases v
  {
    match v
    case Arr(_, items) => ItemInside(items, at + 1, s);
    case Obj(_, members) => MemberInside(members, at + 1, s);
    case _ =>
  }

  lemma {:induction false} ItemInside(items: Items, at: nat, s: Span)
    requires IsStringItem(items, at, s)
    ensures at <= s.start && s.start + 2 <= s.end <= at + LenItems(items)
    decreases items
  {
    if IsString(items.value, at + |items.before|, s) {
      StringInside(items.value, at + |items.before|, s);
    } else {
      ItemInside(items.rest, NextItem(items, at), s);
    }
  }

  lemma {:induction false} MemberInside(m: Members, at: nat, s: Span)
    requires IsStringMember(m, at, s)
    ensures at <= s.start && s.start + 2 <= s.end <= at + LenMembers(m)
    decreases m
  {
    if IsString(m.value, ValueAt(m, at), s) {
      StringInside(m.value, ValueAt(m, at), s);
    } else {
      MemberInside(m.rest, NextMember(m, at), s);
    }
  }

  predicate Apart(s: Span, t: Span) {
    s == t || s.end <= t.start || t.end <= s.start
  }

  /** Two string values do not overlap. */
  lemma {:induction false} StringsApart(v: Value, at: nat, s: Span, t: Span)
    requires IsString(v, at, s) && IsString(v, at, t)
    ensures Apart(s, t)
    decreases v
  {
    match v
    case Arr(_, items) => ItemsApart(items, at + 1, s, t);
    case Obj(_, members) => MembersApart(members, at + 1, s, t);
    case _ =>
  }

  lemma {:induction false} ItemsApart(items: Items, at: nat, s: Span, t: Span)
    requires IsStringItem(items, at, s) && IsStringItem(items, at, t)
    ensures Apart(s, t)
    decreases items
  {
    var v := at + |items.before|;
    if IsString(items.value, v, s) {
      StringInside(items.value, v, s);
    } else {
      ItemInside(items.rest, NextItem(items, at), s);
    }
    if IsString(items.value, v, t) {
      StringInside(items.value, v, t);
    } else {
      ItemInside(items.rest, NextItem(items, at), t);
    }
    if IsString(items.value, v, s) && IsString(items.value, v, t) {
      StringsApart(items.value, v, s, t);
    } else if !IsString(items.value, v, s) && !IsString(items.value, v, t) {
      ItemsApart(items.rest, NextItem(items, at), s, t);
    }
  }

  lemma {:induction false} MembersApart(m: Members, at: nat, s: Span, t: Span)
    requires IsStringMember(m, at, s) && IsStringMember(m, at, t)
    ensures Apart(s, t)
    decreases m
  {
    hide ValueAt;
    var v := ValueAt(m, at);
    if IsString(m.value, v, s) {
      StringInside(m.value, v, s);
    } else {
      MemberInside(m.rest, NextMember(m, at), s);
    }
    if IsString(m.value, v, t) {
      StringInside(m.value, v, t);
    } else {
      MemberInside(m.rest, NextMember(m, at), t);
    }
    if IsString(m.value, v, s) && IsString(m.value, v, t) {
      StringsApart(m.value, v, s, t);
    } else if !IsString(m.value, v, s) && !IsString(m.value, v, t) {
      MembersApart(m.rest, NextMember(m, at), s, t);
    }
  }

  // --------------------------------------------------- the selected strings are in order

  /** Nonempty pieces of [lo, hi), each after the one before. */
  ghost predicate InOrder(spans: seq<Span>, lo: int, hi: int) {
    spans == [] || (lo <= spans[0].start <= spans[0].end <= hi && InOrder(spans[1..], spans[0].end, hi))
  }

  lemma {:induction false} InOrderWiden(spans: seq<Span>, lo: int, hi: int, lo': int, hi': int)
    requires InOrder(spans, lo, hi) && lo' <= lo && hi <= hi'
    ensures InOrder(spans, lo', hi')
    decreases |spans|
  {
    if spans == [] {
    } else {
      InOrderWiden(spans[1..], spans[0].end, hi, spans[0].end, hi');
    }
  }

  lemma {:induction false} InOrderJoin(s: seq<Span>, t: seq<Span>, lo: int, mid: int, hi: int)
    requires InOrder(s, lo, mid) && InOrder(t, mid, hi) && lo <= mid <= hi
    ensures InOrder(s + t, lo, hi)
    decreases |s|
  {
    if s == [] {
      assert s + t == t;
      InOrderWiden(t, mid, hi, lo, hi);
    } else {
      InOrderJoin(s[1..], t, s[0].end, mid, hi);
      assert (s + t)[1..] == s[1..] + t;
    }
  }

  ghost predicate StringsOf(v: Value, at: nat, spans: seq<Span>) {
    InOrder(spans, at, at + Len(v)) && forall s | s in spans :: IsString(v, at, s)
  }

  ghost predicate StringsOfItems(items: Items, at: nat, spans: seq<Span>) {
    InOrder(spans, at, at + LenItems(items)) && forall s | s in spans :: IsStringItem(items, at, s)
  }

  ghost predicate StringsOfMembers(m: Members, at: nat, spans: seq<Span>) {
    InOrder(spans, at, at + LenMembers(m)) && forall s | s in spans :: IsStringMember(m, at, s)
  }

  lemma NoMoreItems(at: nat, spans: seq<Span>)
    requires StringsOfItems(NoItems, at, spans)
    ensures spans == []
  {
    assert spans != [] ==> IsStringItem(NoItems, at, spans[0]);
  }

  lemma NoMoreStrings(at: nat, spans: seq<Span>)
    requires StringsOfMembers(NoMembers, at, spans)
    ensures spans == []
  {
    assert spans != [] ==> IsStringMember(NoMembers, at, spans[0]);
  }

  lemma OneString(v: Value, at: nat)
    ensures StringsOf(v, at, StringSpan(v, at))
  {
    var s := StringSpan(v, at);
    if v.Str? {
      assert s[1..] == [];
    }
  }

  lemma MemberStrings(m: Members, at: nat, spans: seq<Span>)
    requires m.Member? && StringsOf(m.value, ValueAt(m, at), spans)
    ensures StringsOfMembers(m, at, spans)
  {
    var v := ValueAt(m, at);
    InOrderWiden(spans, v, v + Len(m.value), at, at + LenMembers(m));
  }

  lemma RestStrings(m: Members, at: nat, spans: seq<Span>)
    requires m.Member? && StringsOfMembers(m.rest, NextMember(m, at), spans)
    ensures StringsOfMembers(m, at, spans)
  {
    if m.rest.NoMembers? {
      NoMoreStrings(NextMember(m, at), spans);
    } else {
      InOrderWiden(spans, NextMember(m, at), NextMember(m, at) + LenMembers(m.rest), at, at + LenMembers(m));
    }
  }

  /** What is found in a looked up field is found in the object. */
  lemma {:induction false} LookupStrings(m: Members, at: nat, name: string, spans: seq<Span>)
    requires Lookup(m, at, name).Some?
    requires var f := Lookup(m, at, name).value; StringsOf(f.value, f.at, spans)
    ensures StringsOfMembers(m, at, spans)
    decreases m
  {
    hide Ascii, ShortString, ValueAt, InOrder;
    if KeyName(m) == Ascii(name) {
      MemberStrings(m, at, spans);
    } else {
      LookupStrings(m.rest, NextMember(m, at), name, spans);
      RestStrings(m, at, spans);
    }
  }

  lemma NoStrings(m: Members, at: nat)
    ensures StringsOfMembers(m, at, [])
  {
  }

  lemma PartStrings(m: Members, at: nat)
    ensures StringsOfMembers(m, at, PartSpans(m, at))
  {
    hide StringsOfMembers, Ascii;
    NoStrings(m, at);
    var text := Lookup(m, at, "text");
    if text.Some? {
      OneString(text.value.value, text.value.at);
      LookupStrings(m, at, "text", StringSpan(text.value.value, text.value.at));
    }
  }

  lemma ObjectStrings(v: Value, at: nat, spans: seq<Span>)
    requires StringsOfMembers(MembersOf(v), at + 1, spans)
    ensures StringsOf(v, at, spans)
  {
    if v.Obj? && v.members.Member? {
      InOrderWiden(spans, at + 1, at + 1 + LenMembers(v.members), at, at + Len(v));
    } else {
      NoMoreStrings(at + 1, spans);
    }
  }

  lemma ArrayStrings(v: Value, at: nat, spans: seq<Span>)
    requires v.Arr? && StringsOfItems(v.items, at + 1, spans)
    ensures StringsOf(v, at, spans)
  {
    if v.items.Item? {
      InOrderWiden(spans, at + 1, at + 1 + LenItems(v.items), at, at + Len(v));
    } else {
      NoMoreItems(at + 1, spans);
    }
  }

  /** First those of an item, then those of the items behind it. */
  lemma JoinItems(items: Items, at: nat, s: seq<Span>, t: seq<Span>)
    requires items.Item?
    requires StringsOf(items.value, at + |items.before|, s) && StringsOfItems(items.rest, NextItem(items, at), t)
    ensures StringsOfItems(items, at, s + t)
  {
    var v := at + |items.before|;
    var e := v + Len(items.value);
    InOrderWiden(s, v, e, at, e);
    if items.rest.Item? {
      InOrderWiden(t, NextItem(items, at), NextItem(items, at) + LenItems(items.rest), e, at + LenItems(items));
    } else {
      NoMoreItems(NextItem(items, at), t);
    }
    InOrderJoin(s, t, at, e, at + LenItems(items));
  }

  lemma {:induction false} PartListStrings(items: Items, at: nat)
    ensures StringsOfItems(items, at, PartListSpans(items, at))
    decreases items
  {
    hide PartSpans, StringsOf, StringsOfMembers;
    if items.Item? {
      hide StringsOfItems;
      var v := at + |items.before|;
      PartStrings(MembersOf(items.value), v + 1);
      ObjectStrings(items.value, v, PartSpans(MembersOf(items.value), v + 1));
      PartListStrings(items.rest, NextItem(items, at));
      JoinItems(items, at, PartSpans(MembersOf(items.value), v + 1), PartListSpans(items.rest, NextItem(items, at)));
    }
  }

  lemma ContentStrings(v: Value, at: nat)
    ensures StringsOf(v, at, ContentSpans(v, at))
  {
    match v
    case Str(_) => OneString(v, at);
    case Arr(_, items) =>
      PartListStrings(items, at + 1);
      ArrayStrings(v, at, ContentSpans(v, at));
    case _ =>
  }

  lemma MessageStrings(m: Members, at: nat)
    ensures StringsOfMembers(m, at, MessageSpans(m, at))
  {
    hide StringsOfMembers, ContentSpans, Ascii;
    NoStrings(m, at);
    var content := Lookup(m, at, "content");
    if content.Some? {
      ContentStrings(content.value.value, content.value.at);
      LookupStrings(m, at, "content", ContentSpans(content.value.value, content.value.at));
    }
  }

  lemma {:induction false} MessageListStrings(items: Items, at: nat)
    ensures StringsOfItems(items, at, MessageListSpans(items, at))
    decreases items
  {
    hide MessageSpans, StringsOf, StringsOfMembers;
    if items.Item? {
      hide StringsOfItems;
      var v := at + |items.before|;
      MessageStrings(MembersOf(items.value), v + 1);
      ObjectStrings(items.value, v, MessageSpans(MembersOf(items.value), v + 1));
      MessageListStrings(items.rest, NextItem(items, at));
      JoinItems(items, at, MessageSpans(MembersOf(items.value), v + 1),
        MessageListSpans(items.rest, NextItem(items, at)));
    }
  }

  lemma FieldStrings(route: Route, name: Name, v: Value, at: nat)
    ensures StringsOf(v, at, FieldSpans(route, name, v, at))
  {
    hide Ascii, ContentSpans, MessageListSpans, StringsOfMembers, StringsOfItems;
    OneString(v, at);
    ContentStrings(v, at);
    if v.Arr? {
      MessageListStrings(v.items, at + 1);
      ArrayStrings(v, at, MessagesSpans(v, at));
    }
    NoStrings(MembersOf(v), at + 1);
    var parts := Lookup(MembersOf(v), at + 1, "parts");
    if parts.Some? {
      ContentStrings(parts.value.value, parts.value.at);
      LookupStrings(MembersOf(v), at + 1, "parts", ContentSpans(parts.value.value, parts.value.at));
    }
    ObjectStrings(v, at, PartsSpans(v, at));
  }

  lemma JoinMembers(m: Members, at: nat, s: seq<Span>, t: seq<Span>)
    requires m.Member?
    requires StringsOf(m.value, ValueAt(m, at), s) && StringsOfMembers(m.rest, NextMember(m, at), t)
    ensures StringsOfMembers(m, at, s + t)
  {
    hide ValueAt;
    var v := ValueAt(m, at);
    var e := v + Len(m.value);
    MembersEnd(m, at);
    InOrderWiden(s, v, e, at, e);
    if m.rest.Member? {
      InOrderWiden(t, NextMember(m, at), NextMember(m, at) + LenMembers(m.rest), e, at + LenMembers(m));
    } else {
      NoMoreStrings(NextMember(m, at), t);
    }
    InOrderJoin(s, t, at, e, at + LenMembers(m));
  }

  /** The selected strings are string values of the request, in order. */
  lemma {:induction false} SelectedStrings(route: Route, m: Members, at: nat)
    ensures StringsOfMembers(m, at, Selected(route, m, at))
    decreases m
  {
    hide FieldSpans, StringsOf, ValueAt, Ascii, ShortString;
    if m.Member? {
      hide StringsOfMembers;
      FieldStrings(route, KeyName(m), m.value, ValueAt(m, at));
      SelectedStrings(route, m.rest, NextMember(m, at));
      JoinMembers(m, at, FieldSpans(route, KeyName(m), m.value, ValueAt(m, at)),
        Selected(route, m.rest, NextMember(m, at)));
    }
  }

  // -------------------------------------------------------------------- what is emitted

  /** The removals of all rows handed to the text scanner, one row after another; None
      where the source gives up. */
  function PatchesOf(m: Matchers, b: Bytes, rows: seq<Span>): Option<seq<Span>>
    requires forall s | s in rows :: s.start + 2 <= s.end <= |b|
  {
    if rows == [] then Some([])
    else
      var head := TextRemovals(m, b, rows[0].start + 1, rows[0].end - 1);
      if head.None? then None
      else
        var rest := PatchesOf(m, b, rows[1..]);
        if rest.None? then None else Some(head.value + rest.value)
  }

  ghost predicate Readable(b: Bytes, rows: seq<Span>) {
    forall s | s in rows :: s.start + 2 <= s.end <= |b| && StringOk(b[s.start + 1..s.end - 1])
  }

  lemma {:induction false} CutsInOrder(b: Bytes, p: nat, hi: nat, spans: seq<Span>)
    requires p <= hi <= |b| && Cuts(b, p, hi, spans)
    ensures InOrder(spans, p, hi)
    decreases |spans|
  {
    hide Boundary;
    if spans == [] {
    } else {
      CutsInOrder(b, spans[0].end, hi, spans[1..]);
    }
  }

  lemma {:induction false} PatchesInOrder(m: Matchers, b: Bytes, rows: seq<Span>, lo: nat, hi: nat)
    requires Sound(m) && Readable(b, rows) && InOrder(rows, lo, hi) && lo <= hi
    ensures var r := PatchesOf(m, b, rows); r.Some? && InOrder(r.value, lo, hi)
    decreases |rows|
  {
    hide StringOk, TextRemovals, Sound;
    if rows == [] {
    } else {
      var s := rows[0];
      assert s in rows;
      TextRemovalsAreCuts(m, b, s.start + 1, s.end - 1);
      var head := TextRemovals(m, b, s.start + 1, s.end - 1).value;
      CutsInOrder(b, s.start + 1, s.end - 1, head);
      InOrderWiden(head, s.start + 1, s.end - 1, lo, s.end);
      PatchesInOrder(m, b, rows[1..], s.end, hi);
      InOrderJoin(head, PatchesOf(m, b, rows[1..]).value, lo, s.end, hi);
    }
  }

  lemma CoveredJoin(s: seq<Span>, t: seq<Span>, k: int)
    ensures Covered(s + t, k) <==> Covered(s, k) || Covered(t, k)
  {
    if Covered(s + t, k) {
      var j :| 0 <= j < |s + t| && (s + t)[j].start <= k < (s + t)[j].end;
      if j < |s| {
        assert s[j] == (s + t)[j];
      } else {
        assert t[j - |s|] == (s + t)[j];
      }
    }
    if Covered(s, k) {
      var j :| 0 <= j < |s| && s[j].start <= k < s[j].end;
      assert (s + t)[j] == s[j];
    }
    if Covered(t, k) {
      var j :| 0 <= j < |t| && t[j].start <= k < t[j].end;
      assert (s + t)[j + |s|] == t[j];
    }
  }

  predicate CutFrom(m: Matchers, b: Bytes, s: Span, k: int)
    requires s.start + 2 <= s.end <= |b|
  {
    var r := TextRemovals(m, b, s.start + 1, s.end - 1);
    r.Some? && Covered(r.value, k)
  }

  /** A byte goes exactly when the text scanner removes it from one of the rows. */
  lemma {:induction false} PatchesCover(m: Matchers, b: Bytes, rows: seq<Span>, k: int)
    requires Sound(m) && Readable(b, rows) && PatchesOf(m, b, rows).Some?
    ensures Covered(PatchesOf(m, b, rows).value, k) <==> exists s :: s in rows && CutFrom(m, b, s, k)
    decreases |rows|
  {
    hide StringOk, TextRemovals, Sound;
    if rows == [] {
      NothingCovered();
    } else {
      var head := TextRemovals(m, b, rows[0].start + 1, rows[0].end - 1).value;
      CoveredJoin(head, PatchesOf(m, b, rows[1..]).value, k);
      PatchesCover(m, b, rows[1..], k);
      hide Covered;
      assert CutFrom(m, b, rows[0], k) <==> Covered(head, k);
      if s :| s in rows && CutFrom(m, b, s, k) {
        assert s == rows[0] || s in rows[1..];
      }
      if s :| s in rows[1..] && CutFrom(m, b, s, k) {
        assert s in rows && CutFrom(m, b, s, k);
      }
      if Covered(head, k) {
        assert rows[0] in rows && CutFrom(m, b, rows[0], k);
      }
    }
  }

  lemma CutFromInside(m: Matchers, b: Bytes, s: Span, k: int)
    requires Sound(m) && s.start + 2 <= s.end <= |b| && StringOk(b[s.start + 1..s.end - 1]) && CutFrom(m, b, s, k)
    ensures s.start < k < s.end - 1
  {
    hide StringOk, TextRemovals, Sound;
    TextRemovalsAreCuts(m, b, s.start + 1, s.end - 1);
    CutsInside(b, s.start + 1, s.end - 1, TextRemovals(m, b, s.start + 1, s.end - 1).value, k);
  }
}

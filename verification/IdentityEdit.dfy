/** The request after the cuts: the same tree with shorter strings, and the same text
    with the covered bytes left out. */
module IdentityEdit {
  import opened JsonGrammar
  import opened JsonLayout
  import opened IdentityScan
  import opened IdentityTree
  import opened IdentityWalk
  import opened IdentityText
  import opened IdentityCuts
  import opened IdentityPatches
  import opened Wrappers

  /** The tree that stood at `at`, every string value without its covered bytes. */
  function Edit(v: Value, at: nat, spans: seq<Span>): Value
    decreases v
  {
    match v
    case Str(raw) => Str(Keep(raw, at + 1, spans))
    case Arr(gap, items) => Arr(gap, EditItems(items, at + 1, spans))
    case Obj(gap, members) => Obj(gap, EditMembers(members, at + 1, spans))
    case _ => v
  }

  function EditItems(items: Items, at: nat, spans: seq<Span>): Items
    decreases items
  {
    if items.NoItems? then items
    else items.(value := Edit(items.value, at + |items.before|, spans),
                rest := EditItems(items.rest, NextItem(items, at), spans))
  }

  function EditMembers(m: Members, at: nat, spans: seq<Span>): Members
    decreases m
  {
    if m.NoMembers? then m
    else m.(value := Edit(m.value, ValueAt(m, at), spans), rest := EditMembers(m.rest, NextMember(m, at), spans))
  }

  // ------------------------------------------------------------- only inside of strings

  ghost predicate Inner(v: Value, at: nat, k: int) {
    exists s :: IsString(v, at, s) && s.start < k < s.end - 1
  }

  ghost predicate InnerItem(items: Items, at: nat, k: int) {
    exists s :: IsStringItem(items, at, s) && s.start < k < s.end - 1
  }

  ghost predicate InnerMember(m: Members, at: nat, k: int) {
    exists s :: IsStringMember(m, at, s) && s.start < k < s.end - 1
  }

  /** Of what stands at `at`, nothing but the contents of string values is covered. */
  ghost predicate OnlyIn(v: Value, at: nat, spans: seq<Span>) {
    forall k | at <= k < at + Len(v) && Covered(spans, k) :: Inner(v, at, k)
  }

  ghost predicate OnlyInItems(items: Items, at: nat, spans: seq<Span>) {
    forall k | at <= k < at + LenItems(items) && Covered(spans, k) :: InnerItem(items, at, k)
  }

  ghost predicate OnlyInMembers(m: Members, at: nat, spans: seq<Span>) {
    forall k | at <= k < at + LenMembers(m) && Covered(spans, k) :: InnerMember(m, at, k)
  }

  predicate Clear(spans: seq<Span>, i: int, j: int) {
    forall k | i <= k < j :: !Covered(spans, k)
  }

  lemma InnerItemParts(items: Items, at: nat, k: int)
    requires InnerItem(items, at, k)
    ensures items.Item?
    ensures var v := at + |items.before|;
            || (v <= k < v + Len(items.value) && Inner(items.value, v, k))
            || (items.rest.Item? && NextItem(items, at) <= k && InnerItem(items.rest, NextItem(items, at), k))
  {
    var s :| IsStringItem(items, at, s) && s.start < k < s.end - 1;
    if IsString(items.value, at + |items.before|, s) {
      StringInside(items.value, at + |items.before|, s);
    } else {
      ItemInside(items.rest, NextItem(items, at), s);
    }
  }

  lemma InnerMemberParts(m: Members, at: nat, k: int)
    requires InnerMember(m, at, k)
    ensures m.Member?
    ensures var v := ValueAt(m, at);
            || (v <= k < v + Len(m.value) && Inner(m.value, v, k))
            || (m.rest.Member? && NextMember(m, at) <= k && InnerMember(m.rest, NextMember(m, at), k))
  {
    hide ValueAt;
    var s :| IsStringMember(m, at, s) && s.start < k < s.end - 1;
    if IsString(m.value, ValueAt(m, at), s) {
      StringInside(m.value, ValueAt(m, at), s);
    } else {
      MemberInside(m.rest, NextMember(m, at), s);
    }
  }

  lemma OnlyInItemParts(items: Items, at: nat, spans: seq<Span>, v: nat, e: nat, next: nat)
    requires items.Item? && OnlyInItems(items, at, spans)
    requires v == at + |items.before| && e == v + Len(items.value) && next == NextItem(items, at)
    ensures Clear(spans, at, v) && OnlyIn(items.value, v, spans) && Clear(spans, e, e + |items.after|)
    ensures items.rest.Item? ==> Clear(spans, next - 1, next) && OnlyInItems(items.rest, next, spans)
  {
    hide Covered, Inner, InnerItem;
    forall k | at <= k < at + LenItems(items) && Covered(spans, k)
      ensures (v <= k < e && Inner(items.value, v, k))
           || (items.rest.Item? && next <= k && InnerItem(items.rest, next, k))
    {
      InnerItemParts(items, at, k);
    }
  }

  lemma OnlyInMemberParts(m: Members, at: nat, spans: seq<Span>, v: nat, e: nat, next: nat)
    requires m.Member? && OnlyInMembers(m, at, spans)
    requires v == ValueAt(m, at) && e == v + Len(m.value) && next == NextMember(m, at)
    ensures Clear(spans, at, v) && OnlyIn(m.value, v, spans) && Clear(spans, e, e + |m.after|)
    ensures m.rest.Member? ==> Clear(spans, next - 1, next) && OnlyInMembers(m.rest, next, spans)
  {
    hide Covered, Inner, InnerMember, ValueAt;
    MembersEnd(m, at);
    forall k | at <= k < at + LenMembers(m) && Covered(spans, k)
      ensures (v <= k < e && Inner(m.value, v, k))
           || (m.rest.Member? && next <= k && InnerMember(m.rest, next, k))
    {
      InnerMemberParts(m, at, k);
    }
  }

  // -------------------------------------------------------- printing the edited tree

  lemma KeepPieces(head: Bytes, value: Bytes, after: Bytes, tail: Bytes, at: nat, v: nat, e: nat, a: nat,
      spans: seq<Span>)
    requires v == at + |head| && e == v + |value| && a == e + |after|
    requires Clear(spans, at, v) && Clear(spans, e, a)
    ensures Keep(head + value + after + tail, at, spans) == head + Keep(value, v, spans) + after + Keep(tail, a, spans)
  {
    KeepAll(head, at, spans);
    KeepAll(after, e, spans);
    hide Keep, Clear, Covered;
    KeepJoin(head + value + after, tail, at, spans);
    KeepJoin(head + value, after, at, spans);
    KeepJoin(head, value, at, spans);
  }

  lemma KeepTail(more: bool, rest: Bytes, a: nat, spans: seq<Span>)
    requires more ==> Clear(spans, a, a + 1)
    ensures Keep(if more then [COMMA] + rest else [], a, spans)
         == if more then [COMMA] + Keep(rest, a + 1, spans) else []
  {
    if more {
      assert ([COMMA] + rest)[1..] == rest;
    }
  }

  lemma KeepBracketed(open: Byte, body: Bytes, close: Byte, at: nat, spans: seq<Span>)
    requires Clear(spans, at, at + 1) && Clear(spans, at + 1 + |body|, at + 2 + |body|)
    ensures Keep([open] + body + [close], at, spans) == [open] + Keep(body, at + 1, spans) + [close]
  {
    KeepAll([open], at, spans);
    KeepAll([close], at + 1 + |body|, spans);
    hide Keep, Clear, Covered;
    KeepJoin([open] + body, [close], at, spans);
    KeepJoin([open], body, at, spans);
  }

  /** Brackets and quotes are not inside of a string. */
  lemma OuterClear(v: Value, at: nat, spans: seq<Span>)
    requires OnlyIn(v, at, spans) && !v.Num? && !v.Lit?
    ensures Clear(spans, at, at + 1) && Clear(spans, at + Len(v) - 1, at + Len(v))
    ensures v.Arr? && v.items.Item? ==> OnlyInItems(v.items, at + 1, spans)
    ensures v.Obj? && v.members.Member? ==> OnlyInMembers(v.members, at + 1, spans)
    ensures v.Arr? && v.items.NoItems? ==> Clear(spans, at, at + Len(v))
    ensures v.Obj? && v.members.NoMembers? ==> Clear(spans, at, at + Len(v))
  {
    hide Covered;
    forall k | at <= k < at + Len(v) && Covered(spans, k)
      ensures at < k < at + Len(v) - 1
      ensures v.Arr? ==> v.items.Item? && InnerItem(v.items, at + 1, k)
      ensures v.Obj? ==> v.members.Member? && InnerMember(v.members, at + 1, k)
    {
      assert Inner(v, at, k);
      var s :| IsString(v, at, s) && s.start < k < s.end - 1;
      StringInside(v, at, s);
      if v.Arr? {
        assert IsStringItem(v.items, at + 1, s);
      } else if v.Obj? {
        assert IsStringMember(v.members, at + 1, s);
      }
    }
  }

  lemma LeafClear(v: Value, at: nat, spans: seq<Span>)
    requires OnlyIn(v, at, spans) && (v.Num? || v.Lit?)
    ensures Clear(spans, at, at + Len(v))
  {
    hide Covered;
  }

  /** Printing the edited tree gives the text without the covered bytes. */
  lemma {:induction false} EditPrints(v: Value, at: nat, spans: seq<Span>)
    requires OnlyIn(v, at, spans)
    ensures Print(Edit(v, at, spans)) == Keep(Print(v), at, spans)
    decreases v, 1
  {
    hide OnlyIn, OnlyInItems, OnlyInMembers, Covered;
    match v
    case Num(raw) =>
      LeafClear(v, at, spans);
      KeepAll(raw, at, spans);
    case Lit(raw) =>
      LeafClear(v, at, spans);
      KeepAll(raw, at, spans);
    case Str(raw) =>
      OuterClear(v, at, spans);
      KeepBracketed(QUOTE, raw, QUOTE, at, spans);
    case Arr(gap, items) =>
      OuterClear(v, at, spans);
      if items.NoItems? {
        KeepBracketed(LBRACKET, gap, RBRACKET, at, spans);
        KeepAll(gap, at + 1, spans);
      } else {
        PrintItemsLength(items);
        KeepBracketed(LBRACKET, PrintItems(items), RBRACKET, at, spans);
        EditItemsPrints(items, at + 1, spans);
      }
    case Obj(gap, members) =>
      OuterClear(v, at, spans);
      if members.NoMembers? {
        KeepBracketed(LBRACE, gap, RBRACE, at, spans);
        KeepAll(gap, at + 1, spans);
      } else {
        PrintMembersLength(members);
        KeepBracketed(LBRACE, PrintMembers(members), RBRACE, at, spans);
        EditMembersPrints(members, at + 1, spans);
      }
  }

  lemma ItemText(items: Items)
    requires items.Item?
    ensures PrintItems(items) == items.before + Print(items.value) + items.after
                                 + (if items.rest.Item? then [COMMA] + PrintItems(items.rest) else [])
  {
  }

  lemma {:induction false} EditItemsPrints(items: Items, at: nat, spans: seq<Span>)
    requires items.Item? && OnlyInItems(items, at, spans)
    ensures PrintItems(EditItems(items, at, spans)) == Keep(PrintItems(items), at, spans)
    decreases items, 0
  {
    var v := at + |items.before|;
    var e := v + Len(items.value);
    var a := e + |items.after|;
    OnlyInItemParts(items, at, spans, v, e, a + 1);
    hide OnlyIn, OnlyInItems, Covered, Clear, Keep;
    PrintLength(items.value);
    EditPrints(items.value, v, spans);
    var edited := EditItems(items, at, spans);
    assert edited == Item(items.before, Edit(items.value, v, spans), items.after, EditItems(items.rest, a + 1, spans));
    hide PrintItems, Print, Edit, Len, EditItems;
    if items.rest.Item? {
      EditItemsPrints(items.rest, a + 1, spans);
    }
    JoinItem(items, edited, at, v, e, a, spans);
  }

  lemma JoinItem(items: Items, edited: Items, at: nat, v: nat, e: nat, a: nat, spans: seq<Span>)
    requires items.Item? && edited.Item? && (items.rest.Item? <==> edited.rest.Item?)
    requires v == at + |items.before| && e == v + |Print(items.value)| && a == e + |items.after|
    requires Clear(spans, at, v) && Clear(spans, e, a) && (items.rest.Item? ==> Clear(spans, a, a + 1))
    requires edited.before == items.before && edited.after == items.after
             && Print(edited.value) == Keep(Print(items.value), v, spans)
    requires items.rest.Item? ==> PrintItems(edited.rest) == Keep(PrintItems(items.rest), a + 1, spans)
    ensures PrintItems(edited) == Keep(PrintItems(items), at, spans)
  {
    ItemText(items);
    ItemText(edited);
    hide PrintItems, Print, Covered, Clear, Keep;
    var tail := if items.rest.Item? then [COMMA] + PrintItems(items.rest) else [];
    KeepPieces(items.before, Print(items.value), items.after, tail, at, v, e, a, spans);
    KeepTail(items.rest.Item?, PrintItems(items.rest), a, spans);
  }

  /** A member's text: up to its value, and from there. */
  lemma MemberText(m: Members)
    requires m.Member?
    ensures PrintMembers(m) == KeyText(m) + Print(m.value) + m.after
                               + (if m.rest.Member? then [COMMA] + PrintMembers(m.rest) else [])
    ensures |KeyText(m)| == |m.before| + (|m.key| + 2) + |m.mid| + 1 + |m.lead|
  {
    Regroup(m.before, Quoted(m.key), m.mid, [COLON], m.lead);
  }

  lemma {:induction false} EditMembersPrints(m: Members, at: nat, spans: seq<Span>)
    requires m.Member? && OnlyInMembers(m, at, spans)
    ensures PrintMembers(EditMembers(m, at, spans)) == Keep(PrintMembers(m), at, spans)
    decreases m, 0
  {
    var v := ValueAt(m, at);
    var e := v + Len(m.value);
    var a := e + |m.after|;
    OnlyInMemberParts(m, at, spans, v, e, a + 1);
    hide OnlyIn, OnlyInMembers, Covered, Clear, Keep;
    PrintLength(m.value);
    EditPrints(m.value, v, spans);
    var edited := EditMembers(m, at, spans);
    assert KeyText(edited) == KeyText(m) && edited.value == Edit(m.value, v, spans) && edited.after == m.after;
    assert edited.rest == EditMembers(m.rest, a + 1, spans);
    MemberText(m);
    hide PrintMembers, Print, Edit, Len, EditMembers, KeyText, ValueAt;
    if m.rest.Member? {
      EditMembersPrints(m.rest, a + 1, spans);
    }
    JoinMember(m, edited, at, v, e, a, spans);
  }

  lemma JoinMember(m: Members, edited: Members, at: nat, v: nat, e: nat, a: nat, spans: seq<Span>)
    requires m.Member? && edited.Member? && (m.rest.Member? <==> edited.rest.Member?)
    requires v == at + |KeyText(m)| && e == v + |Print(m.value)| && a == e + |m.after|
    requires Clear(spans, at, v) && Clear(spans, e, a) && (m.rest.Member? ==> Clear(spans, a, a + 1))
    requires KeyText(edited) == KeyText(m) && edited.after == m.after
             && Print(edited.value) == Keep(Print(m.value), v, spans)
    requires m.rest.Member? ==> PrintMembers(edited.rest) == Keep(PrintMembers(m.rest), a + 1, spans)
    ensures PrintMembers(edited) == Keep(PrintMembers(m), at, spans)
  {
    MemberText(m);
    MemberText(edited);
    hide PrintMembers, Print, Covered, Clear, Keep, KeyText;
    var tail := if m.rest.Member? then [COMMA] + PrintMembers(m.rest) else [];
    KeepPieces(KeyText(m), Print(m.value), m.after, tail, at, v, e, a, spans);
    KeepTail(m.rest.Member?, PrintMembers(m.rest), a, spans);
  }

  // ------------------------------------------------------ the edited tree is as good

  /** The contents of a string stay a string. */
  ghost predicate StaysString(b: Bytes, s: Span, spans: seq<Span>) {
    s.start + 2 <= s.end <= |b| && StringOk(Keep(b[s.start + 1..s.end - 1], s.start + 1, spans))
  }

  lemma {:induction false} EditWellFormed(v: Value, b: Bytes, at: nat, spans: seq<Span>)
    requires WellFormed(v) && Stands(v, b, at)
    requires forall s | IsString(v, at, s) :: StaysString(b, s, spans)
    ensures WellFormed(Edit(v, at, spans))
    decreases v
  {
    hide StringOk, Keep, AllWs, NumberOk;
    match v
    case Str(raw) =>
      assert StaysString(b, Span(at, at + |raw| + 2), spans);
    case Arr(_, items) =>
      if items.Item? {
        assert forall s | IsStringItem(items, at + 1, s) :: IsString(v, at, s);
        EditItemsWellFormed(items, b, at + 1, spans);
      }
    case Obj(_, members) =>
      if members.Member? {
        assert forall s | IsStringMember(members, at + 1, s) :: IsString(v, at, s);
        EditMembersWellFormed(members, b, at + 1, spans);
      }
    case _ =>
  }

  lemma {:induction false} EditItemsWellFormed(items: Items, b: Bytes, at: nat, spans: seq<Span>)
    requires items.Item? && WellFormedItems(items) && StandsItems(items, b, at)
    requires forall s | IsStringItem(items, at, s) :: StaysString(b, s, spans)
    ensures WellFormedItems(EditItems(items, at, spans))
    decreases items
  {
    hide StaysString, AllWs, Run, Byte1;
    var v := at + |items.before|;
    assert forall s | IsString(items.value, v, s) :: IsStringItem(items, at, s);
    EditWellFormed(items.value, b, v, spans);
    if items.rest.Item? {
      assert forall s | IsStringItem(items.rest, NextItem(items, at), s) :: IsStringItem(items, at, s);
      EditItemsWellFormed(items.rest, b, NextItem(items, at), spans);
    }
  }

  lemma {:induction false} EditMembersWellFormed(m: Members, b: Bytes, at: nat, spans: seq<Span>)
    requires m.Member? && WellFormedMembers(m) && StandsMembers(m, b, at)
    requires forall s | IsStringMember(m, at, s) :: StaysString(b, s, spans)
    ensures WellFormedMembers(EditMembers(m, at, spans))
    decreases m
  {
    hide StaysString, AllWs, Run, Byte1, StandsKey, StringOk, ValueAt;
    var v := ValueAt(m, at);
    assert forall s | IsString(m.value, v, s) :: IsStringMember(m, at, s);
    EditWellFormed(m.value, b, v, spans);
    if m.rest.Member? {
      assert forall s | IsStringMember(m.rest, NextMember(m, at), s) :: IsStringMember(m, at, s);
      EditMembersWellFormed(m.rest, b, NextMember(m, at), spans);
    }
  }

  lemma {:induction false} EditShape(h: Handler, v: Value, at: nat, spans: seq<Span>)
    ensures Depth(Edit(v, at, spans)) == Depth(v) && (Clean(h, Edit(v, at, spans)) <==> Clean(h, v))
    decreases v
  {
    match v
    case Arr(_, items) => EditItemsShape(ItemHandler(h), items, at + 1, spans);
    case Obj(_, members) => EditMembersShape(ObjectHandler(h), members, at + 1, spans, {});
    case _ =>
  }

  lemma {:induction false} EditItemsShape(h: Handler, items: Items, at: nat, spans: seq<Span>)
    ensures var r := EditItems(items, at, spans);
            DepthItems(r) == DepthItems(items) && (CleanItems(h, r) <==> CleanItems(h, items))
    decreases items
  {
    if items.Item? {
      EditShape(h, items.value, at + |items.before|, spans);
      EditItemsShape(h, items.rest, NextItem(items, at), spans);
    }
  }

  lemma {:induction false} EditMembersShape(h: Handler, m: Members, at: nat, spans: seq<Span>, seen: set<nat>)
    ensures var r := EditMembers(m, at, spans);
            DepthMembers(r) == DepthMembers(m) && (CleanMembers(h, r, seen) <==> CleanMembers(h, m, seen))
    decreases m
  {
    hide Flag, FieldHandler, ShortString, ValueAt;
    if m.Member? {
      var flag := Flag(h, KeyName(m));
      EditShape(FieldHandler(h, KeyName(m)), m.value, ValueAt(m, at), spans);
      EditMembersShape(h, m.rest, NextMember(m, at), spans, if flag.Some? then seen + {flag.value} else seen);
    }
  }
}

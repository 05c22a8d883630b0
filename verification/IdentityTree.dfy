/** The scanner read against the grammar: on the text of a tree it succeeds exactly
    when no tracked field is repeated and the nesting is at most 10000, and then it
    has found what a walk over the tree finds. */
module IdentityTree {
  import opened JsonGrammar
  import opened JsonLayout
  import opened JsonLexer
  import opened IdentityScan
  import opened Wrappers

  // ------------------------------------------------------------ the same on trees


  /** No object that a handler looks at repeats a tracked field. */
  predicate Clean(h: Handler, v: Value)
    decreases v
  {
    match v
    case Arr(_, items) => CleanItems(ItemHandler(h), items)
    case Obj(_, members) => CleanMembers(ObjectHandler(h), members, {})
    case _ => true
  }

  predicate CleanItems(h: Handler, items: Items)
    decreases items
  {
    items.Item? ==> Clean(h, items.value) && CleanItems(h, items.rest)
  }

  predicate CleanMembers(h: Handler, members: Members, seen: set<nat>)
    decreases members
  {
    members.Member? ==>
      var name := ShortString(members.key, KEY_LIMIT);
      && (Flag(h, name).Some? ==> Flag(h, name).value !in seen)
      && Clean(FieldHandler(h, name), members.value)
      && CleanMembers(h, members.rest, if Flag(h, name).Some? then seen + {Flag(h, name).value} else seen)
  }

  function RawString(v: Value): Option<Bytes> {
    if v.Str? then Some(v.raw) else None
  }

  /** What a value printed at `at` holds for a handler. */
  function FoundIn(h: Handler, v: Value, at: nat): Found
    decreases v
  {
    match v
    case Str(raw) =>
      Found(at + |raw| + 2, if h.Content? || h.Plain? then [Span(at, at + |raw| + 2)] else [], [])
    case Num(raw) => Found(at + |raw|, [], [])
    case Lit(raw) => Found(at + |raw|, [], [])
    case Arr(gap, items) =>
      if items.NoItems? then Found(at + |gap| + 2, [], [])
      else FoundItems(ItemHandler(h), items, at + 1, [], [])
    case Obj(gap, members) =>
      if members.NoMembers? then CloseObject(ObjectHandler(h), at + |gap| + 2, EMPTY)
      else
        var (end, f) := FoundMembers(ObjectHandler(h), members, at + 1, EMPTY);
        CloseObject(ObjectHandler(h), end, f)
  }

  function FoundItems(h: Handler, items: Items, at: nat, candidates: seq<Span>, processed: seq<Span>): Found
    requires items.Item?
    decreases items
  {
    var r := FoundIn(h, items.value, at + |items.before|);
    var c, p := candidates + r.candidates, processed + r.processed;
    if items.rest.NoItems? then Found(r.end + |items.after| + 1, c, p)
    else FoundItems(h, items.rest, r.end + |items.after| + 1, c, p)
  }

  function EnterMember(h: Handler, members: Members, at: nat, f: Frame): (nat, Frame)
    requires members.Member?
    decreases members, 0
  {
    var name := ShortString(members.key, KEY_LIMIT);
    var v := ValueAt(members, at);
    var r := FoundIn(FieldHandler(h, name), members.value, v);
    (r.end, Enter(h, name, Span(v, r.end), RawString(members.value), r, f))
  }

  function FoundMembers(h: Handler, members: Members, at: nat, f: Frame): (nat, Frame)
    requires members.Member?
    decreases members, 1
  {
    var (end, f') := EnterMember(h, members, at, f);
    if members.rest.NoMembers? then (end + |members.after| + 1, f')
    else FoundMembers(h, members.rest, end + |members.after| + 1, f')
  }

  // ------------------------------------------------------------ reading a printed tree

  lemma {:induction false} EndOfValue(h: Handler, v: Value, at: nat)
    ensures FoundIn(h, v, at).end == at + Len(v)
    decreases v
  {
    match v
    case Arr(gap, items) =>
      if items.Item? {
        EndOfItems(ItemHandler(h), items, at + 1, [], []);
      }
    case Obj(gap, members) =>
      if members.Member? {
        EndOfMembers(ObjectHandler(h), members, at + 1, EMPTY);
      }
    case _ =>
  }

  lemma {:induction false} EndOfItems(h: Handler, items: Items, at: nat, c: seq<Span>, p: seq<Span>)
    requires items.Item?
    ensures FoundItems(h, items, at, c, p).end == at + LenItems(items) + 1
    decreases items
  {
    var r := FoundIn(h, items.value, at + |items.before|);
    EndOfValue(h, items.value, at + |items.before|);
    if items.rest.Item? {
      EndOfItems(h, items.rest, r.end + |items.after| + 1, c + r.candidates, p + r.processed);
    }
  }

  lemma {:induction false} EndOfMembers(h: Handler, members: Members, at: nat, f: Frame)
    requires members.Member?
    ensures FoundMembers(h, members, at, f).0 == at + LenMembers(members) + 1
    decreases members
  {
    hide Enter, Flag, FieldHandler;
    var name := ShortString(members.key, KEY_LIMIT);
    EndOfValue(FieldHandler(h, name), members.value, ValueAt(members, at));
    var (end, f') := EnterMember(h, members, at, f);
    if members.rest.Member? {
      EndOfMembers(h, members.rest, end + |members.after| + 1, f');
    }
  }

  predicate Starts(x: Byte) {
    !IsWs(x) && x != RBRACKET && x != RBRACE && x != COMMA
  }

  lemma FirstByte(v: Value, b: Bytes, i: nat)
    requires WellFormed(v) && Stands(v, b, i)
    ensures i < |b| && Starts(b[i]) && i + Len(v) <= |b|
    decreases v, 1
  {
    match v
    case Num(raw) => NumberStarts(raw, b, i);
    case Arr(_, items) => if items.Item? { LastOfItems(items, b, i + 1); }
    case Obj(_, members) => if members.Member? { LastOfMembers(members, b, i + 1); }
    case _ =>
  }

  lemma {:induction false} LastOfItems(items: Items, b: Bytes, i: nat)
    requires items.Item? && StandsItems(items, b, i)
    ensures i + LenItems(items) < |b|
    decreases items, 0
  {
    if items.rest.Item? {
      LastOfItems(items.rest, b, i + |items.before| + Len(items.value) + |items.after| + 1);
    }
  }

  lemma {:induction false} LastOfMembers(m: Members, b: Bytes, i: nat)
    requires m.Member? && StandsMembers(m, b, i)
    ensures i + LenMembers(m) < |b|
    decreases m, 0
  {
    hide StandsKey;
    if m.rest.Member? {
      LastOfMembers(m.rest, b, ValueAt(m, i) + Len(m.value) + |m.after| + 1);
    }
  }

  lemma NumberStarts(raw: Bytes, b: Bytes, i: nat)
    requires NumberOk(raw) && Run(b, i, i + |raw|, raw)
    ensures i < |b| && (IsDigit(b[i]) || b[i] == 0x2D)
  {
    var sign: Bytes, whole: Bytes, fraction: Bytes, exponent: Bytes :|
      raw == sign + whole + fraction + exponent &&
      SignOk(sign) && IntOk(whole) && FractionOk(fraction) && ExponentOk(exponent);
    assert raw != [] && b[i] == raw[0];
    if sign == [] {
      assert raw[0] == whole[0];
    } else {
      assert raw[0] == sign[0];
    }
  }

  /** White space that something else follows. */
  lemma SkipRun(b: Bytes, i: nat, j: nat, ws: Bytes)
    requires Run(b, i, j, ws) && AllWs(ws) && j < |b| && !IsWs(b[j])
    ensures SkipWs(b, i) == j
  {
    SkipWsComplete(b, i, j);
  }

  lemma KeyString(raw: Bytes, b: Bytes, k: nat, j: nat)
    requires StringOk(raw) && StandsString(raw, b, k) && j == k + 1 + |raw|
    ensures j < |b| && StringEnd(b, k + 1) == Some(j + 1) && b[k + 1..j] == raw
  {
    StringEndComplete(b, k + 1, j);
  }

  lemma ScanString(h: Handler, raw: Bytes, b: Bytes, i: nat, d: nat)
    requires StringOk(raw) && StandsString(raw, b, i)
    ensures ScanValue(h, b, i, d) == Some(FoundIn(h, Str(raw), i))
  {
    hide StringEnd, StringOk, SkipWs, ScanMembers, ScanItems, WordEnd, NumberEnd, CloseObject;
    KeyString(raw, b, i, i + 1 + |raw|);
  }

  lemma ScanNumber(h: Handler, raw: Bytes, b: Bytes, i: nat, j: nat, d: nat)
    requires NumberOk(raw) && j == i + |raw| && Run(b, i, j, raw) && Ends(b, j)
    ensures ScanValue(h, b, i, d) == Some(FoundIn(h, Num(raw), i))
  {
    NumberStarts(raw, b, i);
    NumberEndComplete(b, i, j);
  }

  lemma ScanWord(h: Handler, raw: Bytes, b: Bytes, i: nat, d: nat)
    requires (raw == TRUE || raw == FALSE || raw == NULL) && Run(b, i, i + |raw|, raw)
    ensures ScanValue(h, b, i, d) == Some(FoundIn(h, Lit(raw), i))
  {
    assert b[i] == raw[0];
    var j := WordEnd(b, i, raw);
    assert j == Some(i + |raw|);
  }

  /** A value that stands at `i` and is not cut short by what follows. */
  ghost predicate Printed(v: Value, b: Bytes, i: nat) {
    WellFormed(v) && Stands(v, b, i) && (v.Num? ==> i + Len(v) <= |b| && Ends(b, i + Len(v)))
  }

  /** White space, a value, white space and a delimiter. */
  lemma AroundValue(value: Value, after: Bytes, b: Bytes, v: nat, e: nat, a: nat, x: Byte)
    requires WellFormed(value) && AllWs(after) && e == v + Len(value) && a == e + |after|
    requires Stands(value, b, v) && Run(b, e, a, after) && Byte1(b, a, x)
    requires x == COMMA || x == RBRACKET || x == RBRACE
    ensures v < |b| && Starts(b[v]) && Printed(value, b, v) && e <= |b| && SkipWs(b, e) == a && At(b, a, x)
  {
    FirstByte(value, b, v);
    SkipRun(b, e, a, after);
    if after != [] {
      assert b[e] == after[0];
    }
  }

  /** One turn of the item reader, with its positions and results named. */
  lemma ItemStep(h: Handler, b: Bytes, i: nat, d: nat, c: seq<Span>, p: seq<Span>, v: nat, r: Found, a: nat,
      c': seq<Span>, p': seq<Span>)
    requires i <= |b| && v == SkipWs(b, i) && ScanValue(h, b, v, d) == Some(r) && a == SkipWs(b, r.end)
    requires c' == c + r.candidates && p' == p + r.processed
    ensures At(b, a, RBRACKET) ==> ScanItems(h, b, i, d, c, p) == Some(Found(a + 1, c', p'))
    ensures At(b, a, COMMA) ==> ScanItems(h, b, i, d, c, p) == ScanItems(h, b, a + 1, d, c', p')
  {
    hide SkipWs, ScanValue, IsWs;
  }

  lemma ItemFails(h: Handler, b: Bytes, i: nat, d: nat, c: seq<Span>, p: seq<Span>, v: nat)
    requires i <= |b| && v == SkipWs(b, i) && ScanValue(h, b, v, d) == None
    ensures ScanItems(h, b, i, d, c, p) == None
  {
    hide SkipWs, ScanValue, IsWs;
  }

  /** On a printed tree the reader succeeds exactly when the tree is clean and not too
      deep, and then finds what the walk finds. */
  lemma {:induction false} ScanPrinted(h: Handler, v: Value, b: Bytes, i: nat, d: nat)
    requires Printed(v, b, i)
    ensures ScanValue(h, b, i, d) == if Clean(h, v) && Depth(v) <= d then Some(FoundIn(h, v, i)) else None
    decreases v, 1
  {
    match v
    case Str(raw) => ScanString(h, raw, b, i, d);
    case Num(raw) => ScanNumber(h, raw, b, i, i + |raw|, d);
    case Lit(raw) => ScanWord(h, raw, b, i, d);
    case Arr(gap, items) => ScanArray(h, gap, items, b, i, d);
    case Obj(gap, members) => ScanObject(h, gap, members, b, i, d);
  }

  lemma {:induction false} ScanPrintedItems(h: Handler, items: Items, b: Bytes, i: nat, d: nat, c: seq<Span>,
      p: seq<Span>)
    requires items.Item? && WellFormedItems(items) && StandsItems(items, b, i)
    ensures ScanItems(h, b, i, d, c, p)
         == if CleanItems(h, items) && DepthItems(items) <= d then Some(FoundItems(h, items, i, c, p)) else None
    decreases items, 1
  {
    var v := i + |items.before|;
    var e := v + Len(items.value);
    var a := e + |items.after|;
    var r := FoundIn(h, items.value, v);
    ItemHere(items, b, i, v, e, a);
    EndOfValue(h, items.value, v);
    hide Run, Byte1, ScanItems, ScanValue, At, IsWs, AllWs, SkipWs, Stands, StandsItems, WellFormed, WellFormedItems,
      Printed, Len, Clean, CleanItems, Depth, DepthItems, FoundIn, FoundItems, Max;
    ScanPrinted(h, items.value, b, v, d);
    ItemsClean(h, items, d);
    if Clean(h, items.value) && Depth(items.value) <= d {
      ScanRestItems(h, items, b, i, d, c, p, v, a, r, c + r.candidates, p + r.processed);
    } else {
      ItemFails(h, b, i, d, c, p, v);
    }
  }

  /** The reader and the walk after a first item that both took. */
  lemma ScanRestItems(h: Handler, items: Items, b: Bytes, i: nat, d: nat, c: seq<Span>, p: seq<Span>,
                      v: nat, a: nat, r: Found, c': seq<Span>, p': seq<Span>)
    requires items.Item? && v == i + |items.before| && a == v + Len(items.value) + |items.after|
    requires i <= |b| && v == SkipWs(b, i) && ScanValue(h, b, v, d) == Some(r) && r == FoundIn(h, items.value, v)
             && a == SkipWs(b, r.end)
    requires At(b, a, if items.rest.NoItems? then RBRACKET else COMMA)
    requires items.rest.Item? ==> WellFormedItems(items.rest) && StandsItems(items.rest, b, a + 1)
    requires c' == c + r.candidates && p' == p + r.processed
    ensures ScanItems(h, b, i, d, c, p)
         == if items.rest.NoItems? || (CleanItems(h, items.rest) && DepthItems(items.rest) <= d)
            then Some(FoundItems(h, items, i, c, p)) else None
    decreases items, 0
  {
    ItemsOnTree(h, items, i, c, p, v, a, c', p');
    hide Run, Byte1, ScanItems, ScanValue, At, IsWs, AllWs, SkipWs, Stands, StandsItems, WellFormed, WellFormedItems,
      Printed, Len, Clean, CleanItems, Depth, DepthItems, FoundIn, FoundItems, Max;
    ItemStep(h, b, i, d, c, p, v, r, a, c', p');
    if items.rest.Item? {
      ScanPrintedItems(h, items.rest, b, a + 1, d, c', p');
    }
  }

  /** An item in its place. */
  lemma ItemHere(items: Items, b: Bytes, i: nat, v: nat, e: nat, a: nat)
    requires items.Item? && WellFormedItems(items) && StandsItems(items, b, i)
    requires v == i + |items.before| && e == v + Len(items.value) && a == e + |items.after|
    ensures i <= |b| && v == SkipWs(b, i) && Printed(items.value, b, v)
    ensures e <= |b| && SkipWs(b, e) == a && At(b, a, if items.rest.NoItems? then RBRACKET else COMMA)
    ensures items.rest.Item? ==> WellFormedItems(items.rest) && StandsItems(items.rest, b, a + 1)
  {
    hide Run, Byte1, At, IsWs, AllWs, SkipWs, Printed, Stands, WellFormed, Len;
    AroundValue(items.value, items.after, b, v, e, a, if items.rest.NoItems? then RBRACKET else COMMA);
    SkipRun(b, i, v, items.before);
  }

  lemma ItemsClean(h: Handler, items: Items, d: nat)
    requires items.Item?
    ensures CleanItems(h, items) && DepthItems(items) <= d
       <==> && Clean(h, items.value) && Depth(items.value) <= d
            && (items.rest.Item? ==> CleanItems(h, items.rest) && DepthItems(items.rest) <= d)
  {
    hide Clean, Depth;
    assert items.rest.NoItems? ==> CleanItems(h, items.rest) && DepthItems(items.rest) == 0;
    assert DepthItems(items) == Max(Depth(items.value), DepthItems(items.rest));
  }

  /** What the walk does after the first item. */
  lemma ItemsOnTree(h: Handler, items: Items, i: nat, c: seq<Span>, p: seq<Span>, v: nat, a: nat, c': seq<Span>,
      p': seq<Span>)
    requires items.Item? && v == i + |items.before| && a == v + Len(items.value) + |items.after|
    requires c' == c + FoundIn(h, items.value, v).candidates && p' == p + FoundIn(h, items.value, v).processed
    ensures items.rest.NoItems? ==> FoundItems(h, items, i, c, p) == Found(a + 1, c', p')
    ensures items.rest.Item? ==> FoundItems(h, items, i, c, p) == FoundItems(h, items.rest, a + 1, c', p')
  {
    EndOfValue(h, items.value, v);
    hide FoundIn, Len;
  }

  lemma {:induction false} ScanArray(h: Handler, gap: Bytes, items: Items, b: Bytes, i: nat, d: nat)
    requires Printed(Arr(gap, items), b, i)
    ensures var v := Arr(gap, items);
            ScanValue(h, b, i, d) == if Clean(h, v) && Depth(v) <= d then Some(FoundIn(h, v, i)) else None
    decreases Arr(gap, items), 0
  {
    var v := Arr(gap, items);
    assert Depth(v) == 1 + DepthItems(items) && Clean(h, v) == CleanItems(ItemHandler(h), items);
    hide StringEnd, NumberEnd, WordEnd, StringOk, ScanMembers, CloseObject, AllWs, ScanValue, ScanItems, Clean, Depth,
      At, IsWs, SkipWs;
    if items.NoItems? {
      EmptyArray(h, gap, b, i, d);
    } else {
      ArrayHere(h, gap, items, b, i, d);
      hide Printed, Stands, StandsItems, WellFormed, WellFormedItems, CleanItems, DepthItems, FoundItems, FoundIn;
      if d > 0 {
        ScanPrintedItems(ItemHandler(h), items, b, i + 1, d - 1, [], []);
      }
    }
  }

  lemma EmptyArray(h: Handler, gap: Bytes, b: Bytes, i: nat, d: nat)
    requires Printed(Arr(gap, NoItems), b, i)
    ensures CleanItems(ItemHandler(h), NoItems) && DepthItems(NoItems) == 0
    ensures ScanValue(h, b, i, d) == if d > 0 then Some(FoundIn(h, Arr(gap, NoItems), i)) else None
  {
    hide StringEnd, NumberEnd, WordEnd, StringOk, ScanMembers, CloseObject, AllWs, ScanValue, ScanItems;
    SkipRun(b, i + 1, i + 1 + |gap|, gap);
    ArrayStep(h, b, i, d, i + 1 + |gap|);
  }

  lemma ArrayHere(h: Handler, gap: Bytes, items: Items, b: Bytes, i: nat, d: nat)
    requires Printed(Arr(gap, items), b, i) && items.Item?
    ensures i < |b| && WellFormedItems(items) && StandsItems(items, b, i + 1)
    ensures ScanValue(h, b, i, d) == if d > 0 then ScanItems(ItemHandler(h), b, i + 1, d - 1, [], []) else None
    ensures FoundIn(h, Arr(gap, items), i) == FoundItems(ItemHandler(h), items, i + 1, [], [])
  {
    assert WellFormedItems(items) && StandsItems(items, b, i + 1);
    hide StringEnd, NumberEnd, WordEnd, StringOk, ScanMembers, CloseObject, AllWs, ScanValue, ScanItems, FoundItems;
    NotClosed(items.before, items.value, b, i + 1, RBRACKET);
    ArrayStep(h, b, i, d, SkipWs(b, i + 1));
  }

  lemma ArrayStep(h: Handler, b: Bytes, i: nat, d: nat, j: nat)
    requires i < |b| && b[i] == LBRACKET && j == SkipWs(b, i + 1)
    ensures d == 0 ==> ScanValue(h, b, i, d) == None
    ensures d > 0 && At(b, j, RBRACKET) ==> ScanValue(h, b, i, d) == Some(Found(j + 1, [], []))
    ensures d > 0 && !At(b, j, RBRACKET) ==> ScanValue(h, b, i, d) == ScanItems(ItemHandler(h), b, i + 1, d - 1, [], [])
  {
    hide ScanItems, SkipWs;
  }

  /** What opens with a value or a key does not close at once. */
  lemma NotClosed(before: Bytes, value: Value, b: Bytes, i: nat, x: Byte)
    requires AllWs(before) && WellFormed(value) && Run(b, i, i + |before|, before) && Stands(value, b, i + |before|)
    requires x == RBRACKET || x == RBRACE
    ensures i <= |b| && !At(b, SkipWs(b, i), x)
  {
    FirstByte(value, b, i + |before|);
    SkipRun(b, i, i + |before|, before);
  }

  /** A key and its colon. */
  lemma KeyHere(m: Members, b: Bytes, i: nat, k: nat, e: nat, v: nat)
    requires m.Member? && WellFormedMembers(m) && StandsKey(m, b, i)
    requires k == i + |m.before| && e == k + |m.key| + 2 && v == ValueAt(m, i)
    requires v < |b| && !IsWs(b[v])
    ensures i <= |b| && ScanKey(b, i) == Some((k, e, v)) && b[k + 1..e - 1] == m.key && SkipWs(b, i) == k
            && At(b, k, QUOTE)
  {
    hide StringEnd, StringOk;
    var c := e + |m.mid|;
    SkipRun(b, i, k, m.before);
    KeyString(m.key, b, k, e - 1);
    SkipRun(b, e, c, m.mid);
    SkipRun(b, c + 1, v, m.lead);
  }

  predicate Repeats(h: Handler, name: Name, f: Frame) {
    Flag(h, name).Some? && Flag(h, name).value in f.seen
  }

  /** One turn of the member reader, with its positions named. */
  lemma MemberStep(h: Handler, b: Bytes, i: nat, d: nat, f: Frame, k: nat, e: nat, v: nat, name: Name,
      r: Option<Found>, a: nat)
    requires i <= |b| && ScanKey(b, i) == Some((k, e, v)) && name == ShortString(b[k + 1..e - 1], KEY_LIMIT)
    requires ScanValue(FieldHandler(h, name), b, v, d) == r && (r.Some? ==> a == SkipWs(b, r.value.end))
    ensures ScanMembers(h, b, i, d, f)
         == if Repeats(h, name, f) || r.None? then None
            else AfterMember(h, b, d,
              Enter(h, name, Span(v, r.value.end), StringValue(b, v, r.value.end), r.value, f), a)
  {
    hide Flag, FieldHandler, Enter, StringValue, ShortString, ScanKey, SkipWs, ScanValue;
  }

  /** What stands behind a member decides how the reader goes on. */
  function AfterMember(h: Handler, b: Bytes, d: nat, f: Frame, a: nat): Option<(nat, Frame)> {
    if At(b, a, RBRACE) then Some((a + 1, f))
    else if At(b, a, COMMA) then ScanMembers(h, b, a + 1, d, f)
    else None
  }

  lemma StringHere(value: Value, b: Bytes, v: nat, e: nat)
    requires Printed(value, b, v) && e == v + Len(value)
    ensures e <= |b| && StringValue(b, v, e) == RawString(value)
  {
    FirstByte(value, b, v);
    if value.Num? {
      NumberStarts(value.raw, b, v);
    }
  }

  /** One member of a printed tree, given how its value is read. */
  lemma MemberOnTree(h: Handler, m: Members, b: Bytes, i: nat, d: nat, f: Frame, v: nat, a: nat)
    requires m.Member? && WellFormedMembers(m) && StandsMembers(m, b, i)
    requires v == ValueAt(m, i) && a == v + Len(m.value) + |m.after|
    requires Printed(m.value, b, v) ==>
               var sub := FieldHandler(h, ShortString(m.key, KEY_LIMIT));
               ScanValue(sub, b, v, d)
                 == if Clean(sub, m.value) && Depth(m.value) <= d then Some(FoundIn(sub, m.value, v)) else None
    ensures ScanMembers(h, b, i, d, f)
         == if Repeats(h, ShortString(m.key, KEY_LIMIT), f)
               || !Clean(FieldHandler(h, ShortString(m.key, KEY_LIMIT)), m.value) || Depth(m.value) > d then None
            else AfterMember(h, b, d, EnterMember(h, m, i, f).1, a)
  {
    hide Run, Byte1, ScanMembers, ScanValue, At, IsWs, AllWs, Flag, FieldHandler, StandsKey, ScanKey, StringValue,
      ShortString, RawString, AfterMember, Enter;
    var k := i + |m.before|;
    var ke := k + |m.key| + 2;
    var e := v + Len(m.value);
    var name := ShortString(m.key, KEY_LIMIT);
    var sub := FieldHandler(h, name);
    AroundValue(m.value, m.after, b, v, e, a, if m.rest.NoMembers? then RBRACE else COMMA);
    StartsIsNotWs(b[v]);
    KeyHere(m, b, i, k, ke, v);
    EndOfValue(sub, m.value, v);
    StringHere(m.value, b, v, e);
    MemberStep(h, b, i, d, f, k, ke, v, name, ScanValue(sub, b, v, d), a);
  }

  lemma {:induction false} ScanPrintedMembers(h: Handler, m: Members, b: Bytes, i: nat, d: nat, f: Frame)
    requires m.Member? && WellFormedMembers(m) && StandsMembers(m, b, i)
    ensures ScanMembers(h, b, i, d, f)
         == if CleanMembers(h, m, f.seen) && DepthMembers(m) <= d then Some(FoundMembers(h, m, i, f)) else None
    decreases m, 1
  {
    hide Run, ScanMembers, ScanValue, Flag, FieldHandler, StandsKey, ShortString, ValueAt, Enter, FoundIn;
    var v := ValueAt(m, i);
    var a := v + Len(m.value) + |m.after|;
    var name := ShortString(m.key, KEY_LIMIT);
    if Printed(m.value, b, v) {
      ScanPrinted(FieldHandler(h, name), m.value, b, v, d);
    }
    MemberOnTree(h, m, b, i, d, f, v, a);
    EnterMemberEnd(h, m, i, f);
    var f' := EnterMember(h, m, i, f).1;
    assert DepthMembers(m) == Max(Depth(m.value), DepthMembers(m.rest));
    if !Repeats(h, name, f) && Clean(FieldHandler(h, name), m.value) && Depth(m.value) <= d {
      if m.rest.Member? {
        ScanPrintedMembers(h, m.rest, b, a + 1, d, f');
      } else {
        assert DepthMembers(m.rest) == 0;
      }
    }
  }

  lemma EnterMemberEnd(h: Handler, m: Members, i: nat, f: Frame)
    requires m.Member?
    ensures var r := EnterMember(h, m, i, f); var flag := Flag(h, ShortString(m.key, KEY_LIMIT));
            && r.0 == ValueAt(m, i) + Len(m.value)
            && r.1.seen == if flag.Some? then f.seen + {flag.value} else f.seen
  {
    hide Flag, FieldHandler, ShortString, ValueAt, FoundIn;
    EndOfValue(FieldHandler(h, ShortString(m.key, KEY_LIMIT)), m.value, ValueAt(m, i));
  }

  lemma StartsIsNotWs(x: Byte)
    requires Starts(x)
    ensures !IsWs(x)
  {
  }

  lemma {:induction false} ScanObject(h: Handler, gap: Bytes, members: Members, b: Bytes, i: nat, d: nat)
    requires Printed(Obj(gap, members), b, i)
    ensures var v := Obj(gap, members);
            ScanValue(h, b, i, d) == if Clean(h, v) && Depth(v) <= d then Some(FoundIn(h, v, i)) else None
    decreases Obj(gap, members), 0
  {
    hide Flag, FieldHandler, Enter, StandsKey, ScanValue, ScanMembers, CloseObject, AllWs;
    var v := Obj(gap, members);
    var o := ObjectHandler(h);
    assert Depth(v) == 1 + DepthMembers(members) && Clean(h, v) == CleanMembers(o, members, {});
    if members.NoMembers? {
      SkipRun(b, i + 1, i + 1 + |gap|, gap);
      ObjectStep(h, b, i, d, i + 1 + |gap|);
    } else {
      assert WellFormedMembers(members) && StandsMembers(members, b, i + 1);
      OpensWithKey(members, b, i + 1);
      ObjectStep(h, b, i, d, SkipWs(b, i + 1));
      if d > 0 {
        ScanPrintedMembers(o, members, b, i + 1, d - 1, EMPTY);
      }
    }
  }

  lemma ObjectStep(h: Handler, b: Bytes, i: nat, d: nat, j: nat)
    requires i < |b| && b[i] == LBRACE && j == SkipWs(b, i + 1)
    ensures d == 0 ==> ScanValue(h, b, i, d) == None
    ensures d > 0 && At(b, j, RBRACE) ==> ScanValue(h, b, i, d) == Some(CloseObject(ObjectHandler(h), j + 1, EMPTY))
    ensures d > 0 && !At(b, j, RBRACE) ==>
              var r := ScanMembers(ObjectHandler(h), b, i + 1, d - 1, EMPTY);
              ScanValue(h, b, i, d)
                == if r.None? then None else Some(CloseObject(ObjectHandler(h), r.value.0, r.value.1))
  {
    hide ScanMembers, CloseObject;
  }

  lemma OpensWithKey(m: Members, b: Bytes, i: nat)
    requires m.Member? && WellFormedMembers(m) && StandsMembers(m, b, i)
    ensures i <= |b| && At(b, SkipWs(b, i), QUOTE)
  {
    var v := ValueAt(m, i);
    FirstByte(m.value, b, v);
    KeyHere(m, b, i, i + |m.before|, i + |m.before| + |m.key| + 2, v);
  }

  // ---------------------------------------------------- what the reader accepts is JSON

  /** Whatever the handler, what is read is a value of the grammar. */
  lemma {:induction false} ScanReads(h: Handler, b: Bytes, i: nat, d: nat) returns (v: Value)
    requires i <= |b| && ScanValue(h, b, i, d).Some?
    ensures WellFormed(v) && Stands(v, b, i) && i + Len(v) == ScanValue(h, b, i, d).value.end && Depth(v) <= d
    decreases |b| - i, 0
  {
    hide WellFormed, Stands, Len, Depth, SkipWs, NumberEnd, WordEnd, StringEnd, ScanMembers, ScanItems;
    if b[i] == LBRACE {
      v := ObjectReads(h, b, i, d);
    } else if b[i] == LBRACKET {
      v := ArrayReads(h, b, i, d);
    } else if b[i] == QUOTE {
      v := StringReads(b, i);
    } else if b[i] == 0x74 || b[i] == 0x66 || b[i] == 0x6E {
      v := WordReads(b, i);
    } else {
      v := NumberReads(b, i);
    }
  }

  lemma StringReads(b: Bytes, i: nat) returns (v: Value)
    requires i < |b| && b[i] == QUOTE && StringEnd(b, i + 1).Some?
    ensures WellFormed(v) && Stands(v, b, i) && i + Len(v) == StringEnd(b, i + 1).value && Depth(v) == 0
  {
    StringEndReads(b, i + 1);
    hide StringEnd, StringOk;
    v := Str(b[i + 1..StringEnd(b, i + 1).value - 1]);
  }

  lemma WordReads(b: Bytes, i: nat) returns (v: Value)
    requires i < |b| && (b[i] == 0x74 || b[i] == 0x66 || b[i] == 0x6E) && WordEnd(b, i, Word(b[i])).Some?
    ensures WellFormed(v) && Stands(v, b, i) && i + Len(v) == WordEnd(b, i, Word(b[i])).value && Depth(v) == 0
  {
    hide WordEnd;
    v := Lit(Word(b[i]));
  }

  lemma NumberReads(b: Bytes, i: nat) returns (v: Value)
    requires i < |b| && NumberEnd(b, i).Some?
    ensures WellFormed(v) && Stands(v, b, i) && i + Len(v) == NumberEnd(b, i).value && Depth(v) == 0
  {
    NumberEndReads(b, i);
    hide NumberEnd, NumberOk;
    v := Num(b[i..NumberEnd(b, i).value]);
  }

  lemma {:induction false} ArrayReads(h: Handler, b: Bytes, i: nat, d: nat) returns (v: Value)
    requires i < |b| && b[i] == LBRACKET && ScanValue(h, b, i, d).Some?
    ensures WellFormed(v) && Stands(v, b, i) && i + Len(v) == ScanValue(h, b, i, d).value.end && Depth(v) <= d
    decreases |b| - i - 1, 2
  {
    var j := SkipWs(b, i + 1);
    SkipWsReads(b, i + 1);
    if At(b, j, RBRACKET) {
      v := Arr(b[i + 1..j], NoItems);
    } else {
      var items := ItemsReads(ItemHandler(h), b, i + 1, d - 1, [], []);
      v := Arr([], items);
    }
  }

  lemma {:induction false} ItemsReads(h: Handler, b: Bytes, i: nat, d: nat, c: seq<Span>, p: seq<Span>)
      returns (items: Items)
    requires i <= |b| && ScanItems(h, b, i, d, c, p).Some?
    ensures items.Item? && WellFormedItems(items) && StandsItems(items, b, i)
    ensures i + LenItems(items) + 1 == ScanItems(h, b, i, d, c, p).value.end && DepthItems(items) <= d
    decreases |b| - i, 1
  {
    hide WellFormed, Stands, ScanValue, AllWs, SkipWs, StandsItems, WellFormedItems, LenItems, DepthItems;
    var v := SkipWs(b, i);
    SkipWsReads(b, i);
    var value := ScanReads(h, b, v, d);
    var r := ScanValue(h, b, v, d).value;
    var a := SkipWs(b, r.end);
    SkipWsReads(b, r.end);
    if At(b, a, RBRACKET) {
      items := Item(b[i..v], value, b[r.end..a], NoItems);
    } else {
      var rest := ItemsReads(h, b, a + 1, d, c + r.candidates, p + r.processed);
      items := Item(b[i..v], value, b[r.end..a], rest);
    }
    ItemsOf(items, b, i, v, r.end, a, d);
  }

  lemma ItemsOf(items: Items, b: Bytes, i: nat, v: nat, e: nat, a: nat, d: nat)
    requires items.Item? && i <= v && e <= a <= |b| && v <= |b| && e == v + Len(items.value)
    requires items.before == b[i..v] && items.after == b[e..a] && AllWs(items.before) && AllWs(items.after)
    requires WellFormed(items.value) && Stands(items.value, b, v) && Depth(items.value) <= d
    requires At(b, a, if items.rest.NoItems? then RBRACKET else COMMA)
    requires items.rest.Item?
             ==> WellFormedItems(items.rest) && StandsItems(items.rest, b, a + 1) && DepthItems(items.rest) <= d
    ensures WellFormedItems(items) && StandsItems(items, b, i) && DepthItems(items) <= d
    ensures i + LenItems(items) == a + if items.rest.NoItems? then 0 else 1 + LenItems(items.rest)
  {
    hide WellFormed, Stands, AllWs;
  }

  lemma {:induction false} ObjectReads(h: Handler, b: Bytes, i: nat, d: nat) returns (v: Value)
    requires i < |b| && b[i] == LBRACE && ScanValue(h, b, i, d).Some?
    ensures WellFormed(v) && Stands(v, b, i) && i + Len(v) == ScanValue(h, b, i, d).value.end && Depth(v) <= d
    decreases |b| - i - 1, 2
  {
    hide ScanMembers, Flag, FieldHandler;
    var j := SkipWs(b, i + 1);
    SkipWsReads(b, i + 1);
    ObjectStep(h, b, i, d, j);
    if At(b, j, RBRACE) {
      v := Obj(b[i + 1..j], NoMembers);
    } else {
      var members := MembersReads(ObjectHandler(h), b, i + 1, d - 1, EMPTY);
      v := Obj([], members);
    }
  }

  lemma {:induction false} MembersReads(h: Handler, b: Bytes, i: nat, d: nat, f: Frame) returns (m: Members)
    requires i <= |b| && ScanMembers(h, b, i, d, f).Some?
    ensures m.Member? && WellFormedMembers(m) && StandsMembers(m, b, i)
    ensures i + LenMembers(m) + 1 == ScanMembers(h, b, i, d, f).value.0 && DepthMembers(m) <= d
    decreases |b| - i, 1
  {
    hide WellFormed, Stands, ScanValue, Flag, FieldHandler, Enter, StringValue, ScanKey, StandsKey, ValueAt,
      ShortString, AllWs, SkipWs, StandsMembers, WellFormedMembers, LenMembers, DepthMembers, StringOk;
    var (k, e, v) := ScanKey(b, i).value;
    var name := ShortString(b[k + 1..e - 1], KEY_LIMIT);
    var before, key, mid, lead := KeyReads(b, i, k, e, v);
    var value := ScanReads(FieldHandler(h, name), b, v, d);
    var r := ScanValue(FieldHandler(h, name), b, v, d).value;
    var f' := Enter(h, name, Span(v, r.end), StringValue(b, v, r.end), r, f);
    var a := SkipWs(b, r.end);
    SkipWsReads(b, r.end);
    if At(b, a, RBRACE) {
      m := Member(before, key, mid, lead, value, b[r.end..a], NoMembers);
    } else {
      var rest := MembersReads(h, b, a + 1, d, f');
      m := Member(before, key, mid, lead, value, b[r.end..a], rest);
    }
    KeyOfMember(m, b, i, Member(before, key, mid, lead, Lit(NULL), [], NoMembers));
    MembersHere(m, b, i, v, r.end, a, d);
  }

  lemma MembersHere(m: Members, b: Bytes, i: nat, v: nat, e: nat, a: nat, d: nat)
    requires m.Member? && v == ValueAt(m, i) && e <= a <= |b| && e == v + Len(m.value)
    requires StandsKey(m, b, i) && AllWs(m.before) && StringOk(m.key) && AllWs(m.mid) && AllWs(m.lead)
    requires m.after == b[e..a] && AllWs(m.after)
    requires WellFormed(m.value) && Stands(m.value, b, v) && Depth(m.value) <= d
    requires At(b, a, if m.rest.NoMembers? then RBRACE else COMMA)
    requires m.rest.Member?
             ==> WellFormedMembers(m.rest) && StandsMembers(m.rest, b, a + 1) && DepthMembers(m.rest) <= d
    ensures WellFormedMembers(m) && StandsMembers(m, b, i) && DepthMembers(m) <= d
    ensures i + LenMembers(m) == a + if m.rest.NoMembers? then 0 else 1 + LenMembers(m.rest)
  {
    hide WellFormed, Stands, AllWs, StandsKey, StringOk;
  }

  /** A key stands whatever its value is. */
  lemma KeyOfMember(m: Members, b: Bytes, i: nat, n: Members)
    requires m.Member? && n.Member? && m.before == n.before && m.key == n.key && m.mid == n.mid && m.lead == n.lead
    requires StandsKey(n, b, i)
    ensures StandsKey(m, b, i) && ValueAt(m, i) == ValueAt(n, i)
  {
  }

  lemma KeyReads(b: Bytes, i: nat, k: nat, e: nat, v: nat) returns (before: Bytes, key: Bytes, mid: Bytes, lead: Bytes)
    requires i <= |b| && ScanKey(b, i) == Some((k, e, v))
    ensures AllWs(before) && StringOk(key) && AllWs(mid) && AllWs(lead)
    ensures var m := Member(before, key, mid, lead, Lit(NULL), [], NoMembers); StandsKey(m, b, i) && ValueAt(m, i) == v
  {
    hide SkipWs, AllWs, StringEnd, StringOk;
    SkipWsReads(b, i);
    StringEndReads(b, k + 1);
    SkipWsReads(b, e);
    var c := SkipWs(b, e);
    SkipWsReads(b, c + 1);
    before, key, mid, lead := b[i..k], b[k + 1..e - 1], b[e..c], b[c + 1..v];
  }
}

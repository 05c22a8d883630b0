/** Where the bytes of a printed tree stand in a text: the same thing as printing, said
    with positions. */
module JsonLayout {
  import opened JsonGrammar

  function Len(v: Value): nat {
    match v
    case Str(raw) => |raw| + 2
    case Num(raw) => |raw|
    case Lit(raw) => |raw|
    case Arr(gap, items) => 2 + (if items.NoItems? then |gap| else LenItems(items))
    case Obj(gap, members) => 2 + (if members.NoMembers? then |gap| else LenMembers(members))
  }

  function LenItems(items: Items): nat {
    match items
    case NoItems => 0
    case Item(before, value, after, rest) =>
      |before| + Len(value) + |after| + (if rest.NoItems? then 0 else 1 + LenItems(rest))
  }

  function LenMembers(members: Members): nat {
    match members
    case NoMembers => 0
    case Member(before, key, mid, lead, value, after, rest) =>
      |before| + (|key| + 2) + |mid| + 1 + |lead| + Len(value) + |after| +
      (if rest.NoMembers? then 0 else 1 + LenMembers(rest))
  }

  predicate Run(b: Bytes, i: int, j: int, s: Bytes) {
    0 <= i <= j <= |b| && b[i..j] == s
  }

  predicate Byte1(b: Bytes, i: int, x: Byte) {
    0 <= i < |b| && b[i] == x
  }

  predicate StandsString(raw: Bytes, b: Bytes, i: int) {
    Byte1(b, i, QUOTE) && Run(b, i + 1, i + 1 + |raw|, raw) && Byte1(b, i + 1 + |raw|, QUOTE)
  }

  /** `v` is printed at `i`. */
  predicate Stands(v: Value, b: Bytes, i: int)
    decreases v
  {
    match v
    case Str(raw) => StandsString(raw, b, i)
    case Num(raw) => Run(b, i, i + |raw|, raw)
    case Lit(raw) => Run(b, i, i + |raw|, raw)
    case Arr(gap, items) =>
      Byte1(b, i, LBRACKET) &&
      if items.NoItems? then Run(b, i + 1, i + 1 + |gap|, gap) && Byte1(b, i + 1 + |gap|, RBRACKET)
      else StandsItems(items, b, i + 1)
    case Obj(gap, members) =>
      Byte1(b, i, LBRACE) &&
      if members.NoMembers? then Run(b, i + 1, i + 1 + |gap|, gap) && Byte1(b, i + 1 + |gap|, RBRACE)
      else StandsMembers(members, b, i + 1)
  }

  /** Items and the bracket that closes them. */
  predicate StandsItems(items: Items, b: Bytes, i: int)
    requires items.Item?
    decreases items
  {
    var v := i + |items.before|;
    var e := v + Len(items.value);
    var a := e + |items.after|;
    && Run(b, i, v, items.before) && Stands(items.value, b, v) && Run(b, e, a, items.after)
    && if items.rest.NoItems? then Byte1(b, a, RBRACKET)
       else Byte1(b, a, COMMA) && StandsItems(items.rest, b, a + 1)
  }

  function ValueAt(m: Members, i: int): (v: int)
    requires m.Member?
    ensures v >= i
  {
    i + |m.before| + (|m.key| + 2) + |m.mid| + 1 + |m.lead|
  }

  predicate StandsKey(m: Members, b: Bytes, i: int)
    requires m.Member?
  {
    var k := i + |m.before|;
    var e := k + |m.key| + 2;
    var c := e + |m.mid|;
    && Run(b, i, k, m.before) && StandsString(m.key, b, k) && Run(b, e, c, m.mid)
    && Byte1(b, c, COLON) && Run(b, c + 1, ValueAt(m, i), m.lead)
  }

  predicate StandsMembers(m: Members, b: Bytes, i: int)
    requires m.Member?
    decreases m
  {
    var v := ValueAt(m, i);
    var e := v + Len(m.value);
    var a := e + |m.after|;
    && StandsKey(m, b, i) && Stands(m.value, b, v) && Run(b, e, a, m.after)
    && if m.rest.NoMembers? then Byte1(b, a, RBRACE)
       else Byte1(b, a, COMMA) && StandsMembers(m.rest, b, a + 1)
  }

  // -------------------------------------------------------------- it is printing

  lemma {:induction false} PrintLength(v: Value)
    ensures |Print(v)| == Len(v)
    decreases v
  {
    match v
    case Arr(_, items) => PrintItemsLength(items);
    case Obj(_, members) => PrintMembersLength(members);
    case _ =>
  }

  lemma {:induction false} PrintItemsLength(items: Items)
    ensures |PrintItems(items)| == LenItems(items)
    decreases items
  {
    if items.Item? {
      PrintLength(items.value);
      PrintItemsLength(items.rest);
    }
  }

  lemma {:induction false} PrintMembersLength(members: Members)
    ensures |PrintMembers(members)| == LenMembers(members)
    decreases members
  {
    if members.Member? {
      PrintLength(members.value);
      PrintMembersLength(members.rest);
    }
  }

  lemma SplitRun(b: Bytes, i: int, j: int, s: Bytes, t: Bytes)
    requires j == i + |s| + |t|
    ensures Run(b, i, j, s + t) <==> Run(b, i, i + |s|, s) && Run(b, i + |s|, j, t)
  {
    if Run(b, i, j, s + t) {
      assert b[i..i + |s|] == b[i..j][..|s|] == s;
      assert b[i + |s|..j] == b[i..j][|s|..] == t;
    }
    if Run(b, i, i + |s|, s) && Run(b, i + |s|, j, t) {
      assert b[i..j] == b[i..i + |s|] + b[i + |s|..j];
    }
  }

  lemma OneByte(b: Bytes, i: int, x: Byte)
    ensures Run(b, i, i + 1, [x]) <==> Byte1(b, i, x)
  {
    if 0 <= i < |b| {
      assert b[i..i + 1] == [b[i]];
    }
  }

  lemma StringStands(raw: Bytes, b: Bytes, i: int)
    ensures Run(b, i, i + |raw| + 2, Quoted(raw)) <==> StandsString(raw, b, i)
  {
    SplitRun(b, i, i + |raw| + 2, [QUOTE] + raw, [QUOTE]);
    SplitRun(b, i, i + 1 + |raw|, [QUOTE], raw);
    OneByte(b, i, QUOTE);
    OneByte(b, i + 1 + |raw|, QUOTE);
  }

  lemma BracketRun(b: Bytes, i: int, j: int, open: Byte, body: Bytes, close: Byte)
    requires j == i + |body| + 2
    ensures Run(b, i, j, [open] + body + [close])
       <==> Byte1(b, i, open) && Run(b, i + 1, j, body + [close])
    ensures Run(b, i + 1, j, body + [close])
       <==> Run(b, i + 1, i + 1 + |body|, body) && Byte1(b, i + 1 + |body|, close)
  {
    assert [open] + body + [close] == [open] + (body + [close]);
    SplitRun(b, i, j, [open], body + [close]);
    SplitRun(b, i + 1, j, body, [close]);
    OneByte(b, i, open);
    OneByte(b, i + 1 + |body|, close);
  }

  /** White space, a value, white space, and what is left. */
  lemma PieceRun(b: Bytes, i: int, end: int, before: Bytes, value: Bytes, after: Bytes, tail: Bytes)
    requires end == i + |before| + |value| + |after| + |tail|
    ensures var v := i + |before|; var e := v + |value|; var a := e + |after|;
            (Run(b, i, end, before + (value + (after + tail)))
             <==> Run(b, i, v, before) && Run(b, v, e, value) && Run(b, e, a, after) && Run(b, a, end, tail))
  {
    var v := i + |before|;
    var e := v + |value|;
    SplitRun(b, i, end, before, value + (after + tail));
    SplitRun(b, v, end, value, after + tail);
    SplitRun(b, e, end, after, tail);
  }

  lemma TailRun(b: Bytes, a: int, end: int, more: bool, rest: Bytes, close: Byte)
    requires end == a + 1 + if more then |rest| + 1 else 0
    ensures Run(b, a, end, if more then [COMMA] + (rest + [close]) else [close])
       <==> if more then Byte1(b, a, COMMA) && Run(b, a + 1, end, rest + [close]) else Byte1(b, a, close)
  {
    if more {
      SplitRun(b, a, end, [COMMA], rest + [close]);
      OneByte(b, a, COMMA);
    } else {
      OneByte(b, a, close);
    }
  }

  /** A value stands at `i` exactly when its text is there. */
  lemma {:induction false} PrintStands(v: Value, b: Bytes, i: int)
    ensures Run(b, i, i + Len(v), Print(v)) <==> Stands(v, b, i)
    decreases v, 0
  {
    hide Run, Byte1;
    match v
    case Str(raw) => StringStands(raw, b, i);
    case Num(_) =>
    case Lit(_) =>
    case Arr(gap, items) =>
      PrintItemsLength(items);
      BracketRun(b, i, i + Len(v), LBRACKET, if items.NoItems? then gap else PrintItems(items), RBRACKET);
      if items.Item? {
        PrintItemsStands(items, b, i + 1, i + Len(v));
      }
    case Obj(gap, members) =>
      PrintMembersLength(members);
      BracketRun(b, i, i + Len(v), LBRACE, if members.NoMembers? then gap else PrintMembers(members), RBRACE);
      if members.Member? {
        PrintMembersStands(members, b, i + 1, i + Len(v));
      }
  }

  /** The first item and what follows it, still as text. */
  lemma ItemsRun(items: Items, b: Bytes, i: int, v: int, e: int, a: int, end: int)
    requires items.Item? && v == i + |items.before| && e == v + |Print(items.value)| && a == e + |items.after|
    requires end == a + 1 + if items.rest.Item? then |PrintItems(items.rest)| + 1 else 0
    ensures Run(b, i, end, PrintItems(items) + [RBRACKET])
       <==> && Run(b, i, v, items.before) && Run(b, v, e, Print(items.value)) && Run(b, e, a, items.after)
            && if items.rest.Item? then Byte1(b, a, COMMA) && Run(b, a + 1, end, PrintItems(items.rest) + [RBRACKET])
               else Byte1(b, a, RBRACKET)
  {
    hide Run, Byte1, PrintItems, Print;
    var tail := if items.rest.Item? then [COMMA] + (PrintItems(items.rest) + [RBRACKET]) else [RBRACKET];
    ItemsText(items, tail);
    PieceRun(b, i, end, items.before, Print(items.value), items.after, tail);
    TailRun(b, a, end, items.rest.Item?, PrintItems(items.rest), RBRACKET);
  }

  lemma {:induction false} PrintItemsStands(items: Items, b: Bytes, i: int, end: int)
    requires items.Item? && end == i + LenItems(items) + 1
    ensures Run(b, i, end, PrintItems(items) + [RBRACKET]) <==> StandsItems(items, b, i)
    decreases items, 1
  {
    var v := i + |items.before|;
    var e := v + Len(items.value);
    var a := e + |items.after|;
    ItemsEnd(items, i);
    hide Run, Byte1, PrintItems, Print, LenItems, Len, StandsItems;
    PrintLength(items.value);
    PrintStands(items.value, b, v);
    if items.rest.Item? {
      PrintItemsLength(items.rest);
      PrintItemsStands(items.rest, b, a + 1, end);
      MoreItems(items, b, i, v, e, a, end);
    } else {
      ItemsRun(items, b, i, v, e, a, end);
      ItemsStand(items, b, i, v, e, a);
    }
  }

  lemma MoreItems(items: Items, b: Bytes, i: int, v: int, e: int, a: int, end: int)
    requires items.Item? && v == i + |items.before| && e == v + |Print(items.value)| && a == e + |items.after|
    requires items.rest.Item? && end == a + 1 + |PrintItems(items.rest)| + 1
    requires Run(b, v, e, Print(items.value)) <==> Stands(items.value, b, v)
    requires Run(b, a + 1, end, PrintItems(items.rest) + [RBRACKET]) <==> StandsItems(items.rest, b, a + 1)
    ensures Run(b, i, end, PrintItems(items) + [RBRACKET]) <==> StandsItems(items, b, i)
  {
    PrintLength(items.value);
    hide Run, Byte1, PrintItems, Print, LenItems, Len, StandsItems;
    ItemsRun(items, b, i, v, e, a, end);
    ItemsStand(items, b, i, v, e, a);
  }

  lemma ItemsEnd(items: Items, i: int)
    requires items.Item?
    ensures i + LenItems(items)
         == i + |items.before| + Len(items.value) + |items.after|
            + if items.rest.Item? then LenItems(items.rest) + 1 else 0
  {
  }

  lemma ItemsStand(items: Items, b: Bytes, i: int, v: int, e: int, a: int)
    requires items.Item? && v == i + |items.before| && e == v + Len(items.value) && a == e + |items.after|
    ensures StandsItems(items, b, i)
       <==> && Run(b, i, v, items.before) && Stands(items.value, b, v) && Run(b, e, a, items.after)
            && if items.rest.Item? then Byte1(b, a, COMMA) && StandsItems(items.rest, b, a + 1)
               else Byte1(b, a, RBRACKET)
  {
    hide Run, Byte1, Stands, Len;
  }

  lemma ItemsText(items: Items, tail: Bytes)
    requires items.Item?
    requires tail == if items.rest.Item? then [COMMA] + (PrintItems(items.rest) + [RBRACKET]) else [RBRACKET]
    ensures PrintItems(items) + [RBRACKET] == items.before + (Print(items.value) + (items.after + tail))
  {
    var last := if items.rest.NoItems? then [] else [COMMA] + PrintItems(items.rest);
    assert tail == last + [RBRACKET];
    assert PrintItems(items) == items.before + Print(items.value) + items.after + last;
    Regroup(items.before, Print(items.value), items.after, last, [RBRACKET]);
  }

  lemma Regroup(p: Bytes, q: Bytes, r: Bytes, s: Bytes, t: Bytes)
    ensures (p + q + r + s) + t == p + (q + (r + (s + t)))
  {
  }

  lemma MembersRun(m: Members, b: Bytes, i: int, v: int, e: int, a: int, end: int)
    requires m.Member? && v == ValueAt(m, i) && e == v + |Print(m.value)| && a == e + |m.after|
    requires end == a + 1 + if m.rest.Member? then |PrintMembers(m.rest)| + 1 else 0
    ensures Run(b, i, end, PrintMembers(m) + [RBRACE])
       <==> && StandsKey(m, b, i) && Run(b, v, e, Print(m.value)) && Run(b, e, a, m.after)
            && if m.rest.Member? then Byte1(b, a, COMMA) && Run(b, a + 1, end, PrintMembers(m.rest) + [RBRACE])
               else Byte1(b, a, RBRACE)
  {
    hide StandsKey, Byte1;
    var tail := if m.rest.Member? then [COMMA] + (PrintMembers(m.rest) + [RBRACE]) else [RBRACE];
    MembersText(m, tail);
    KeyStands(m, b, i, end, Print(m.value) + (m.after + tail));
    ValueRun(b, v, end, Print(m.value), m.after, tail);
    TailRun(b, a, end, m.rest.Member?, PrintMembers(m.rest), RBRACE);
  }

  lemma {:induction false} PrintMembersStands(m: Members, b: Bytes, i: int, end: int)
    requires m.Member? && end == i + LenMembers(m) + 1
    ensures Run(b, i, end, PrintMembers(m) + [RBRACE]) <==> StandsMembers(m, b, i)
    decreases m, 1
  {
    hide StandsKey, ValueAt, Run, Byte1;
    var v := ValueAt(m, i);
    var e := v + Len(m.value);
    var a := e + |m.after|;
    MembersEnd(m, i);
    PrintLength(m.value);
    PrintMembersLength(m.rest);
    MembersRun(m, b, i, v, e, a, end);
    PrintStands(m.value, b, v);
    if m.rest.Member? {
      PrintMembersStands(m.rest, b, a + 1, end);
      StandsMore(m, b, i, v, e, a);
    } else {
      StandsLast(m, b, i, v, e, a);
    }
  }

  lemma StandsMore(m: Members, b: Bytes, i: int, v: int, e: int, a: int)
    requires m.Member? && m.rest.Member? && v == ValueAt(m, i) && e == v + Len(m.value) && a == e + |m.after|
    ensures StandsMembers(m, b, i)
       <==>
       StandsKey(m, b, i) && Stands(m.value, b, v) && Run(b, e, a, m.after) && Byte1(b, a, COMMA)
       && StandsMembers(m.rest, b, a + 1)
  {
    hide StandsKey, Run, Byte1;
  }

  lemma StandsLast(m: Members, b: Bytes, i: int, v: int, e: int, a: int)
    requires m.Member? && m.rest.NoMembers? && v == ValueAt(m, i) && e == v + Len(m.value) && a == e + |m.after|
    ensures StandsMembers(m, b, i)
       <==> StandsKey(m, b, i) && Stands(m.value, b, v) && Run(b, e, a, m.after) && Byte1(b, a, RBRACE)
  {
    hide StandsKey, Run, Byte1;
  }

  lemma MembersEnd(m: Members, i: int)
    requires m.Member?
    ensures i + LenMembers(m)
         == ValueAt(m, i) + Len(m.value) + |m.after| + if m.rest.Member? then LenMembers(m.rest) + 1 else 0
  {
  }

  lemma ValueRun(b: Bytes, v: int, end: int, value: Bytes, after: Bytes, tail: Bytes)
    requires end == v + |value| + |after| + |tail|
    ensures var e := v + |value|; var a := e + |after|;
            Run(b, v, end, value + (after + tail))
            <==> Run(b, v, e, value) && Run(b, e, a, after) && Run(b, a, end, tail)
  {
    SplitRun(b, v, end, value, after + tail);
    SplitRun(b, v + |value|, end, after, tail);
  }

  function KeyText(m: Members): Bytes
    requires m.Member?
  {
    m.before + (Quoted(m.key) + (m.mid + ([COLON] + m.lead)))
  }

  lemma KeyStands(m: Members, b: Bytes, i: int, end: int, tail: Bytes)
    requires m.Member? && end == ValueAt(m, i) + |tail|
    ensures Run(b, i, end, KeyText(m) + tail) <==> StandsKey(m, b, i) && Run(b, ValueAt(m, i), end, tail)
  {
    var k := i + |m.before|;
    var e := k + |m.key| + 2;
    var c := e + |m.mid|;
    var v := ValueAt(m, i);
    hide Run, Byte1, StandsString, Quoted;
    assert |KeyText(m)| == v - i by { QuotedLength(m.key); }
    SplitRun(b, i, end, KeyText(m), tail);
    KeyPieces(m, b, i, k, e, c, v);
    hide ValueAt, KeyText;
  }

  lemma QuotedLength(raw: Bytes)
    ensures |Quoted(raw)| == |raw| + 2
  {
  }

  lemma KeyPieces(m: Members, b: Bytes, i: int, k: int, e: int, c: int, v: int)
    requires m.Member? && k == i + |m.before| && e == k + |m.key| + 2 && c == e + |m.mid| && v == ValueAt(m, i)
    ensures Run(b, i, v, KeyText(m)) <==> StandsKey(m, b, i)
  {
    hide Run, Byte1, StandsString, Quoted;
    QuotedLength(m.key);
    SplitRun(b, i, v, m.before, Quoted(m.key) + (m.mid + ([COLON] + m.lead)));
    SplitRun(b, k, v, Quoted(m.key), m.mid + ([COLON] + m.lead));
    SplitRun(b, e, v, m.mid, [COLON] + m.lead);
    SplitRun(b, c, v, [COLON], m.lead);
    StringStands(m.key, b, k);
    OneByte(b, c, COLON);
  }

  lemma MembersText(m: Members, tail: Bytes)
    requires m.Member?
    requires tail == if m.rest.Member? then [COMMA] + (PrintMembers(m.rest) + [RBRACE]) else [RBRACE]
    ensures PrintMembers(m) + [RBRACE] == KeyText(m) + (Print(m.value) + (m.after + tail))
  {
    var last := if m.rest.NoMembers? then [] else [COMMA] + PrintMembers(m.rest);
    assert tail == last + [RBRACE];
    assert PrintMembers(m) == m.before + Quoted(m.key) + m.mid + [COLON] + m.lead + Print(m.value) + m.after + last;
    Regroup(m.before, Quoted(m.key), m.mid, [COLON], m.lead);
    assert PrintMembers(m) == KeyText(m) + Print(m.value) + m.after + last;
    Regroup(KeyText(m), Print(m.value), m.after, last, [RBRACE]);
  }
}

/** Which strings of a request are instructions, said on the parse tree: look fields up
    by name, wherever they stand in their object.  The scanner decides while it reads,
    possibly before it has seen the fields that decide; here both are shown equal. */
module IdentityWalk {
  import opened JsonGrammar
  import opened JsonLexer
  import opened JsonLayout
  import opened IdentityScan
  import opened IdentityTree
  import opened Wrappers

  /** A field's value and where it stands. */
  datatype Field = Field(value: Value, at: nat)

  function KeyName(m: Members): Name
    requires m.Member?
  {
    ShortString(m.key, KEY_LIMIT)
  }

  function NextMember(m: Members, at: nat): nat
    requires m.Member?
  {
    ValueAt(m, at) + Len(m.value) + |m.after| + 1
  }

  function Lookup(m: Members, at: nat, name: string): Option<Field>
    decreases m
  {
    if m.NoMembers? then None
    else if KeyName(m) == Ascii(name) then Some(Field(m.value, ValueAt(m, at)))
    else Lookup(m.rest, NextMember(m, at), name)
  }

  function StringSpan(v: Value, at: nat): seq<Span> {
    if v.Str? then [Span(at, at + |v.raw| + 2)] else []
  }

  /** A string field as the source compares it; anything else reads as empty. */
  function Word(f: Option<Field>, maximum: nat): Name {
    if f.Some? && f.value.value.Str? then ShortString(f.value.value.raw, maximum) else []
  }

  /** A part of a content list: its text, unless it says it is something else. */
  function PartSpans(m: Members, at: nat): seq<Span> {
    var kind, text := Lookup(m, at, "type"), Lookup(m, at, "text");
    if text.Some? && (kind.None? || Word(kind, 128) == Ascii("text") || Word(kind, 128) == Ascii("input_text"))
    then StringSpan(text.value.value, text.value.at) else []
  }

  function MembersOf(v: Value): Members {
    if v.Obj? then v.members else NoMembers
  }

  function PartListSpans(items: Items, at: nat): seq<Span>
    decreases items
  {
    if items.NoItems? then []
    else
      var v := at + |items.before|;
      PartSpans(MembersOf(items.value), v + 1)
      + PartListSpans(items.rest, v + Len(items.value) + |items.after| + 1)
  }

  function ContentSpans(v: Value, at: nat): seq<Span> {
    match v
    case Str(_) => StringSpan(v, at)
    case Arr(_, items) => PartListSpans(items, at + 1)
    case _ => []
  }

  /** A message: its content, if its role and type make it an instruction. */
  function MessageSpans(m: Members, at: nat): seq<Span> {
    var role, kind, content := Lookup(m, at, "role"), Lookup(m, at, "type"), Lookup(m, at, "content");
    if content.Some?
       && (Word(role, 128) == Ascii("system") || Word(role, 128) == Ascii("developer"))
       && (kind.None? || Word(kind, 128) == Ascii("message"))
    then ContentSpans(content.value.value, content.value.at) else []
  }

  function MessageListSpans(items: Items, at: nat): seq<Span>
    decreases items
  {
    if items.NoItems? then []
    else
      var v := at + |items.before|;
      MessageSpans(MembersOf(items.value), v + 1)
      + MessageListSpans(items.rest, v + Len(items.value) + |items.after| + 1)
  }

  function MessagesSpans(v: Value, at: nat): seq<Span> {
    if v.Arr? then MessageListSpans(v.items, at + 1) else []
  }

  function PartsSpans(v: Value, at: nat): seq<Span> {
    var parts := Lookup(MembersOf(v), at + 1, "parts");
    if parts.Some? then ContentSpans(parts.value.value, parts.value.at) else []
  }

  /** One field of the request. */
  function FieldSpans(route: Route, name: Name, v: Value, at: nat): seq<Span> {
    if name == Ascii("instructions") && route.responses then StringSpan(v, at)
    else if name == Ascii("input") && route.responses then MessagesSpans(v, at)
    else if name == Ascii("messages") && route.chat then MessagesSpans(v, at)
    else if name == Ascii("system") && route.messages then ContentSpans(v, at)
    else if name == Ascii("systemInstruction") && route.models then PartsSpans(v, at)
    else []
  }

  /** The instruction strings of a request, in the order in which they are written. */
  function Selected(route: Route, m: Members, at: nat): seq<Span>
    decreases m
  {
    if m.NoMembers? then []
    else FieldSpans(route, KeyName(m), m.value, ValueAt(m, at)) + Selected(route, m.rest, NextMember(m, at))
  }

  // --------------------------------------------------------------- names are distinct

  lemma FieldNames()
    ensures Ascii("type") != Ascii("text") && Ascii("type") != Ascii("role")
    ensures Ascii("content") != Ascii("role") && Ascii("content") != Ascii("type")
    ensures Ascii("model") != Ascii("instructions") && Ascii("model") != Ascii("system")
    ensures Ascii("model") != Ascii("systemInstruction") && Ascii("model") != Ascii("input")
            && Ascii("model") != Ascii("messages")
    ensures Ascii("instructions") != Ascii("input") && Ascii("instructions") != Ascii("messages")
    ensures Ascii("instructions") != Ascii("system") && Ascii("instructions") != Ascii("systemInstruction")
    ensures Ascii("system") != Ascii("input") && Ascii("system") != Ascii("messages")
    ensures Ascii("system") != Ascii("systemInstruction")
    ensures Ascii("systemInstruction") != Ascii("input") && Ascii("systemInstruction") != Ascii("messages")
    ensures Ascii("input") != Ascii("messages")
  {
    assert Ascii("type")[1] != Ascii("text")[1] && Ascii("type")[0] != Ascii("role")[0];
    assert |Ascii("content")| == 7 && |Ascii("role")| == 4 && |Ascii("type")| == 4;
    assert |Ascii("model")| == 5 && |Ascii("instructions")| == 12 && |Ascii("system")| == 6;
    assert |Ascii("systemInstruction")| == 17 && |Ascii("input")| == 5 && |Ascii("messages")| == 8;
    assert Ascii("model")[0] != Ascii("input")[0];
  }

  // ------------------------------------------------------- handlers that find nothing

  /** Only strings and lists of a content, messages, and instruction fields are looked at. */
  lemma {:induction false} SkipFindsNothing(v: Value, at: nat)
    ensures FoundIn(Skip, v, at).candidates == [] && FoundIn(Skip, v, at).processed == []
    decreases v
  {
    match v
    case Arr(_, items) => if items.Item? { SkipItemsFindNothing(items, at + 1, [], []); }
    case Obj(_, members) => if members.Member? { SkipMembersFindNothing(members, at + 1, EMPTY); }
    case _ =>
  }

  lemma {:induction false} SkipItemsFindNothing(items: Items, at: nat, c: seq<Span>, p: seq<Span>)
    requires items.Item?
    ensures var r := FoundItems(Skip, items, at, c, p); r.candidates == c && r.processed == p
    decreases items
  {
    var r := FoundIn(Skip, items.value, at + |items.before|);
    SkipFindsNothing(items.value, at + |items.before|);
    assert c + [] == c && p + [] == p;
    if items.rest.Item? {
      SkipItemsFindNothing(items.rest, r.end + |items.after| + 1, c, p);
    }
  }

  lemma {:induction false} SkipMembersFindNothing(m: Members, at: nat, f: Frame)
    requires m.Member?
    ensures FoundMembers(Skip, m, at, f).1 == f
    decreases m
  {
    hide ShortString, ValueAt;
    SkipFindsNothing(m.value, ValueAt(m, at));
    var (end, f') := EnterMember(Skip, m, at, f);
    assert f' == f;
    if m.rest.Member? {
      SkipMembersFindNothing(m.rest, end + |m.after| + 1, f);
    }
  }

  // --------------------------------------------------------- what a frame has gathered

  /** A field that has been seen does not come again. */
  lemma {:induction false} NotAgain(h: Handler, m: Members, at: nat, seen: set<nat>, name: string)
    requires CleanMembers(h, m, seen) && Flag(h, Ascii(name)).Some? && Flag(h, Ascii(name)).value in seen
    ensures Lookup(m, at, name).None?
    decreases m
  {
    hide Flag, FieldHandler, ShortString, ValueAt, Clean;
    if m.Member? {
      var flag := Flag(h, KeyName(m));
      NotAgain(h, m.rest, NextMember(m, at), if flag.Some? then seen + {flag.value} else seen, name);
    }
  }

  /** The reader and the lookup agree on where the next member starts. */
  lemma NextAt(h: Handler, m: Members, at: nat, f: Frame)
    requires m.Member?
    ensures EnterMember(h, m, at, f).0 + |m.after| + 1 == NextMember(m, at)
  {
    hide Enter, Flag, ValueAt;
    EndOfValue(FieldHandler(h, KeyName(m)), m.value, ValueAt(m, at));
  }

  lemma {:induction false} PartFrame(m: Members, at: nat, f: Frame)
    requires m.Member? && CleanMembers(Part, m, f.seen)
    ensures var r := FoundMembers(Part, m, at, f).1; var kind, text := Lookup(m, at, "type"), Lookup(m, at, "text");
            && r.candidates == f.candidates && r.processed == f.processed
            && (1 in r.seen <==> 1 in f.seen || kind.Some?)
            && Metadata(r, "type") == (if kind.Some? then Word(kind, 128) else Metadata(f, "type"))
            && r.text == (if text.None? then f.text
                          else if text.value.value.Str?
                          then Some(Span(text.value.at, text.value.at + Len(text.value.value))) else None)
    decreases m
  {
    hide ValueAt, ShortString, Ascii;
    FieldNames();
    var name := KeyName(m);
    var v := ValueAt(m, at);
    SkipFindsNothing(m.value, v);
    EndOfValue(Skip, m.value, v);
    NextAt(Part, m, at, f);
    var f' := EnterMember(Part, m, at, f).1;
    assert f'.candidates == f.candidates && f'.processed == f.processed;
    if m.rest.Member? {
      PartFrame(m.rest, NextMember(m, at), f');
    }
    if name == Ascii("type") && m.rest.Member? {
      NotAgain(Part, m.rest, NextMember(m, at), f'.seen, "type");
    } else if name == Ascii("text") && m.rest.Member? {
      NotAgain(Part, m.rest, NextMember(m, at), f'.seen, "text");
    }
  }

  // ------------------------------------------------------------------ content lists

  lemma PartFinds(v: Value, at: nat)
    requires Clean(Part, v)
    ensures var r := FoundIn(Part, v, at);
            r.candidates == PartSpans(MembersOf(v), at + 1) && r.processed == []
  {
    hide Ascii, Flag, FieldHandler;
    match v
    case Obj(_, members) =>
      if members.Member? {
        PartObjectFinds(members, at);
      }
    case Arr(_, items) => if items.Item? { SkipItemsFindNothing(items, at + 1, [], []); }
    case _ =>
  }

  lemma PartObjectFinds(members: Members, at: nat)
    requires members.Member? && CleanMembers(Part, members, {})
    ensures var (end, f) := FoundMembers(Part, members, at + 1, EMPTY); var r := CloseObject(Part, end, f);
            r.candidates == PartSpans(members, at + 1) && r.processed == []
  {
    hide Ascii, Flag, FieldHandler, Lookup, FoundMembers, CleanMembers;
    PartFrame(members, at + 1, EMPTY);
  }

  lemma {:induction false} PartListFinds(items: Items, at: nat, c: seq<Span>, p: seq<Span>)
    requires items.Item? && CleanItems(Part, items)
    ensures var r := FoundItems(Part, items, at, c, p);
            r.candidates == c + PartListSpans(items, at) && r.processed == p
    decreases items
  {
    hide PartSpans;
    var v := at + |items.before|;
    var r := FoundIn(Part, items.value, v);
    PartFinds(items.value, v);
    EndOfValue(Part, items.value, v);
    assert p + [] == p;
    if items.rest.Item? {
      PartListFinds(items.rest, r.end + |items.after| + 1, c + r.candidates, p);
      assert c + r.candidates + PartListSpans(items.rest, r.end + |items.after| + 1)
          == c + (r.candidates + PartListSpans(items.rest, r.end + |items.after| + 1));
    } else {
      assert PartListSpans(items, at) == r.candidates + [];
    }
  }

  lemma ContentFinds(v: Value, at: nat)
    requires Clean(Content, v)
    ensures FoundIn(Content, v, at).candidates == ContentSpans(v, at) && FoundIn(Content, v, at).processed == []
  {
    match v
    case Arr(_, items) => if items.Item? { PartListFinds(items, at + 1, [], []); }
    case Obj(_, members) => if members.Member? { SkipMembersFindNothing(members, at + 1, EMPTY); }
    case _ =>
  }

  // ----------------------------------------------------------------------- messages

  function FieldContent(f: Option<Field>): seq<Span> {
    if f.Some? then ContentSpans(f.value.value, f.value.at) else []
  }

  lemma {:induction false} MessageFrame(m: Members, at: nat, f: Frame)
    requires m.Member? && CleanMembers(Message, m, f.seen)
    ensures var r := FoundMembers(Message, m, at, f).1;
            var role, kind, content := Lookup(m, at, "role"), Lookup(m, at, "type"), Lookup(m, at, "content");
            && r.candidates == f.candidates + FieldContent(content) && r.processed == f.processed
            && (2 in r.seen <==> 2 in f.seen || kind.Some?)
            && Metadata(r, "role") == (if role.Some? then Word(role, 128) else Metadata(f, "role"))
            && Metadata(r, "type") == (if kind.Some? then Word(kind, 128) else Metadata(f, "type"))
    decreases m
  {
    hide ValueAt, ShortString, Ascii, ContentSpans;
    FieldNames();
    var name := KeyName(m);
    var v := ValueAt(m, at);
    if name == Ascii("content") {
      ContentFinds(m.value, v);
    } else {
      SkipFindsNothing(m.value, v);
    }
    NextAt(Message, m, at, f);
    var f' := EnterMember(Message, m, at, f).1;
    assert f'.candidates == f.candidates + (if name == Ascii("content") then ContentSpans(m.value, v) else []);
    assert f'.processed == f.processed;
    if m.rest.Member? {
      MessageFrame(m.rest, NextMember(m, at), f');
      if name == Ascii("role") {
        NotAgain(Message, m.rest, NextMember(m, at), f'.seen, "role");
      } else if name == Ascii("type") {
        NotAgain(Message, m.rest, NextMember(m, at), f'.seen, "type");
      } else if name == Ascii("content") {
        NotAgain(Message, m.rest, NextMember(m, at), f'.seen, "content");
      }
    }
  }

  lemma MessageFinds(v: Value, at: nat)
    requires Clean(Message, v)
    ensures FoundIn(Message, v, at).processed == MessageSpans(MembersOf(v), at + 1)
  {
    hide Ascii, Flag, FieldHandler, ContentSpans;
    match v
    case Obj(_, members) =>
      if members.Member? {
        MessageFrame(members, at + 1, EMPTY);
      }
    case Arr(_, items) => if items.Item? { SkipItemsFindNothing(items, at + 1, [], []); }
    case _ =>
  }

  lemma {:induction false} MessageListFinds(items: Items, at: nat, c: seq<Span>, p: seq<Span>)
    requires items.Item? && CleanItems(Message, items)
    ensures FoundItems(Message, items, at, c, p).processed == p + MessageListSpans(items, at)
    decreases items
  {
    hide MessageSpans, FoundIn, Len, Clean, MembersOf;
    var v := at + |items.before|;
    var r := FoundIn(Message, items.value, v);
    MessageFinds(items.value, v);
    EndOfValue(Message, items.value, v);
    if items.rest.Item? {
      MessageListFinds(items.rest, r.end + |items.after| + 1, c + r.candidates, p + r.processed);
      assert p + r.processed + MessageListSpans(items.rest, r.end + |items.after| + 1)
          == p + (r.processed + MessageListSpans(items.rest, r.end + |items.after| + 1));
    } else {
      assert MessageListSpans(items, at) == r.processed + [];
    }
  }

  lemma MessagesFinds(v: Value, at: nat)
    requires Clean(Messages, v)
    ensures FoundIn(Messages, v, at).processed == MessagesSpans(v, at)
  {
    match v
    case Arr(_, items) => if items.Item? { MessageListFinds(items, at + 1, [], []); }
    case Obj(_, members) => if members.Member? { SkipMembersFindNothing(members, at + 1, EMPTY); }
    case _ =>
  }

  // -------------------------------------------------------------- system instructions

  lemma {:induction false} PartsFrame(m: Members, at: nat, f: Frame)
    requires m.Member? && CleanMembers(Parts, m, f.seen)
    ensures var r := FoundMembers(Parts, m, at, f).1;
            && r.candidates == f.candidates + FieldContent(Lookup(m, at, "parts")) && r.processed == f.processed
    decreases m
  {
    hide ValueAt, ShortString, Ascii, ContentSpans;
    var name := KeyName(m);
    var v := ValueAt(m, at);
    if name == Ascii("parts") {
      ContentFinds(m.value, v);
    } else {
      SkipFindsNothing(m.value, v);
    }
    NextAt(Parts, m, at, f);
    var f' := EnterMember(Parts, m, at, f).1;
    assert f'.candidates == f.candidates + (if name == Ascii("parts") then ContentSpans(m.value, v) else []);
    assert f'.processed == f.processed;
    if m.rest.Member? {
      PartsFrame(m.rest, NextMember(m, at), f');
      if name == Ascii("parts") {
        NotAgain(Parts, m.rest, NextMember(m, at), f'.seen, "parts");
      }
    }
  }

  lemma PartsFinds(v: Value, at: nat)
    requires Clean(Parts, v)
    ensures FoundIn(Parts, v, at).candidates == PartsSpans(v, at) && FoundIn(Parts, v, at).processed == []
  {
    hide Ascii, Flag, FieldHandler, ContentSpans;
    match v
    case Obj(_, members) =>
      if members.Member? {
        PartsFrame(members, at + 1, EMPTY);
      }
    case Arr(_, items) => if items.Item? { SkipItemsFindNothing(items, at + 1, [], []); }
    case _ =>
  }

  lemma PlainFinds(v: Value, at: nat)
    requires Clean(Plain, v)
    ensures FoundIn(Plain, v, at).candidates == StringSpan(v, at) && FoundIn(Plain, v, at).processed == []
  {
    match v
    case Arr(_, items) => if items.Item? { SkipItemsFindNothing(items, at + 1, [], []); }
    case Obj(_, members) => if members.Member? { SkipMembersFindNothing(members, at + 1, EMPTY); }
    case _ =>
  }

  // ------------------------------------------------------------------------ requests

  /** One field of the request: what the scanner hands on is what the walk selects. */
  lemma FieldFinds(route: Route, name: Name, v: Value, at: nat)
    requires Clean(FieldHandler(Top(route), name), v)
    ensures var h := Top(route); var r := FoundIn(FieldHandler(h, name), v, at);
            r.processed + (if Flag(h, name) == Some(2) then r.candidates else []) == FieldSpans(route, name, v, at)
  {
    hide Ascii, MessagesSpans, ContentSpans, PartsSpans, FoundIn, Clean;
    FieldNames();
    match FieldHandler(Top(route), name)
    case Messages => MessagesFinds(v, at);
    case Plain => PlainFinds(v, at);
    case Content => ContentFinds(v, at);
    case Parts => PartsFinds(v, at);
    case _ => SkipFindsNothing(v, at);
  }

  lemma {:induction false} TopFrame(route: Route, m: Members, at: nat, f: Frame)
    requires m.Member? && CleanMembers(Top(route), m, f.seen)
    ensures var r := FoundMembers(Top(route), m, at, f).1; var model := Lookup(m, at, "model");
            && r.processed == f.processed + Selected(route, m, at)
            && Metadata(r, "model") == (if model.Some? then Word(model, 2048) else Metadata(f, "model"))
    decreases m
  {
    hide ValueAt, ShortString, Ascii, FieldSpans, FieldHandler, FoundIn, Clean, Len, HasSuffix;
    var v := ValueAt(m, at);
    FieldFinds(route, KeyName(m), m.value, v);
    NextAt(Top(route), m, at, f);
    var f' := EnterMember(Top(route), m, at, f).1;
    assert f'.processed == f.processed + FieldSpans(route, KeyName(m), m.value, v);
    if m.rest.Member? {
      TopFrame(route, m.rest, NextMember(m, at), f');
      assert f.processed + FieldSpans(route, KeyName(m), m.value, v) + Selected(route, m.rest, NextMember(m, at))
          == f.processed + (FieldSpans(route, KeyName(m), m.value, v) + Selected(route, m.rest, NextMember(m, at)));
      if KeyName(m) == Ascii("model") {
        NotAgain(Top(route), m.rest, NextMember(m, at), f'.seen, "model");
      }
    } else {
      assert Selected(route, m, at) == FieldSpans(route, KeyName(m), m.value, v) + [];
    }
  }

  // ---------------------------------------------------------------- main statements

  /** A request the scanner can serve: an object, not too deep, no ambiguous field. */
  ghost predicate Accepted(route: Route, t: Text) {
    && WellFormedText(t) && t.value.Obj?
    && Clean(Top(route), t.value) && Depth(t.value) <= MAX_DEPTH
  }

  lemma TextStands(t: Text, b: Bytes)
    requires PrintText(t) == b
    ensures Run(b, 0, |t.before|, t.before) && Stands(t.value, b, |t.before|)
    ensures Run(b, |t.before| + Len(t.value), |b|, t.after)
  {
    hide Print, Stands, Len;
    var i := |t.before|;
    PrintLength(t.value);
    assert b == t.before + (Print(t.value) + t.after);
    SplitRun(b, 0, |b|, t.before, Print(t.value) + t.after);
    assert b[0..|b|] == b;
    SplitRun(b, i, |b|, Print(t.value), t.after);
    PrintStands(t.value, b, i);
  }

  /** On the text of an object the scanner succeeds exactly when the request is
      accepted, and then hands on exactly the strings the walk selects, in the order in
      which they are written and whatever the order of the fields. */
  lemma ScanFindsSelected(route: Route, t: Text)
    requires WellFormedText(t) && t.value.Obj?
    ensures var r := ScanText(route, PrintText(t));
            && (r.Some? <==> Accepted(route, t))
            && (r.Some? ==> && r.value.processed == Selected(route, t.value.members, |t.before| + 1)
                            && Metadata(r.value, "model")
                               == Word(Lookup(t.value.members, |t.before| + 1, "model"), 2048))
  {
    var b := PrintText(t);
    var i := |t.before|;
    TextStands(t, b);
    FirstByte(t.value, b, i);
    SkipRun(b, 0, i, t.before);
    var end := i + Len(t.value);
    SkipToEnd(b, end, t.after);
    ScanBody(route, t.value.gap, t.value.members, b, i);
  }

  lemma SkipToEnd(b: Bytes, i: nat, ws: Bytes)
    requires Run(b, i, |b|, ws) && AllWs(ws)
    ensures SkipWs(b, i) == |b|
  {
    SkipWsComplete(b, i, |b|);
  }

  /** The object itself. */
  lemma ScanBody(route: Route, gap: Bytes, members: Members, b: Bytes, i: nat)
    requires Printed(Obj(gap, members), b, i) && SkipWs(b, 0) == i
    requires i + Len(Obj(gap, members)) <= |b| && SkipWs(b, i + Len(Obj(gap, members))) == |b|
    ensures var r := ScanText(route, b);
            && (r.Some? <==> Clean(Top(route), Obj(gap, members)) && Depth(Obj(gap, members)) <= MAX_DEPTH)
            && (r.Some? ==> && r.value.processed == Selected(route, members, i + 1)
                            && Metadata(r.value, "model") == Word(Lookup(members, i + 1, "model"), 2048))
  {
    hide Clean, Depth, Selected, Lookup, Metadata, Word, ScanText, SkipWs, Len, Printed;
    if members.NoMembers? {
      EmptyObjectScans(route, gap, b, i);
    } else {
      FullObjectScans(route, gap, members, b, i);
    }
  }

  lemma EmptyObjectScans(route: Route, gap: Bytes, b: Bytes, i: nat)
    requires Printed(Obj(gap, NoMembers), b, i) && SkipWs(b, 0) == i
    requires i + Len(Obj(gap, NoMembers)) <= |b| && SkipWs(b, i + Len(Obj(gap, NoMembers))) == |b|
    ensures Clean(Top(route), Obj(gap, NoMembers)) && Depth(Obj(gap, NoMembers)) <= MAX_DEPTH
    ensures var r := ScanText(route, b);
            && r.Some? && r.value.processed == Selected(route, NoMembers, i + 1)
            && Metadata(r.value, "model") == Word(Lookup(NoMembers, i + 1, "model"), 2048)
  {
    hide AllWs, ScanText, ScanMembers, SkipWs, Selected, Lookup, Metadata, Word, CleanMembers;
    NothingSelected(route, i + 1);
    NothingRepeats(route);
    SkipRun(b, i + 1, i + 1 + |gap|, gap);
    TextStep(route, b, i, i + 1 + |gap|);
  }

  lemma NothingRepeats(route: Route)
    ensures CleanMembers(Top(route), NoMembers, {})
  {
  }

  lemma FullObjectScans(route: Route, gap: Bytes, members: Members, b: Bytes, i: nat)
    requires members.Member? && Printed(Obj(gap, members), b, i) && SkipWs(b, 0) == i
    requires i + Len(Obj(gap, members)) <= |b| && SkipWs(b, i + Len(Obj(gap, members))) == |b|
    ensures var r := ScanText(route, b);
            && (r.Some? <==> Clean(Top(route), Obj(gap, members)) && Depth(Obj(gap, members)) <= MAX_DEPTH)
            && (r.Some? ==> && r.value.processed == Selected(route, members, i + 1)
                            && Metadata(r.value, "model") == Word(Lookup(members, i + 1, "model"), 2048))
  {
    hide AllWs, ScanText, ScanMembers, SkipWs, Selected, Lookup, Metadata, Word, CleanMembers, DepthMembers, LenMembers,
      StandsMembers, WellFormedMembers;
    MembersBody(route, members, b, i);
    TextStep(route, b, i, SkipWs(b, i + 1));
  }

  /** Reading a text whose object starts at `i`. */
  lemma TextStep(route: Route, b: Bytes, i: nat, j: nat)
    requires i == SkipWs(b, 0) && i < |b| && b[i] == LBRACE && j == SkipWs(b, i + 1)
    ensures var r := if At(b, j, RBRACE) then Some((j + 1, EMPTY))
            else ScanMembers(Top(route), b, i + 1, MAX_DEPTH - 1, EMPTY);
            ScanText(route, b) == if r.None? || SkipWs(b, r.value.0) != |b| then None else Some(r.value.1)
  {
    hide SkipWs, ScanMembers;
  }

  lemma NothingSelected(route: Route, at: nat)
    ensures Selected(route, NoMembers, at) == [] && Lookup(NoMembers, at, "model") == None
    ensures Metadata(EMPTY, "model") == [] && Word(None, 2048) == []
  {
  }

  /** The members of the object. */
  lemma MembersBody(route: Route, members: Members, b: Bytes, i: nat)
    requires members.Member? && WellFormedMembers(members) && StandsMembers(members, b, i + 1) && i < |b|
    ensures i + 1 <= |b| && !At(b, SkipWs(b, i + 1), RBRACE)
    ensures var r := ScanMembers(Top(route), b, i + 1, MAX_DEPTH - 1, EMPTY);
            && (r.Some? <==> CleanMembers(Top(route), members, {}) && DepthMembers(members) <= MAX_DEPTH - 1)
            && (r.Some? ==> && r.value.0 == i + 1 + LenMembers(members) + 1
                            && r.value.1.processed == Selected(route, members, i + 1)
                            && Metadata(r.value.1, "model") == Word(Lookup(members, i + 1, "model"), 2048))
  {
    hide FoundMembers, Selected, Lookup, Metadata, Word, CleanMembers, DepthMembers, StandsMembers, WellFormedMembers,
      LenMembers, ScanMembers, Flag, SkipWs;
    OpensWithKey(members, b, i + 1);
    ScanPrintedMembers(Top(route), members, b, i + 1, MAX_DEPTH - 1, EMPTY);
    EndOfMembers(Top(route), members, i + 1, EMPTY);
    NothingSelected(route, i + 1);
    if CleanMembers(Top(route), members, {}) {
      TopFrame(route, members, i + 1, EMPTY);
      NothingBefore(Selected(route, members, i + 1));
    }
  }

  lemma NothingBefore(spans: seq<Span>)
    ensures EMPTY.processed + spans == spans
  {
  }

  /** The scanner accepts exactly the texts of JSON objects, by the grammar, that nest at
      most 10000 deep and repeat no tracked field. */
  lemma ScanAcceptsExactly(route: Route, b: Bytes)
    ensures ScanText(route, b).Some? <==> exists t: Text :: Accepted(route, t) && PrintText(t) == b
  {
    if ScanText(route, b).Some? {
      var t := TextReads(route, b);
      ScanFindsSelected(route, t);
      assert Accepted(route, t) && PrintText(t) == b;
    }
    if t: Text :| Accepted(route, t) && PrintText(t) == b {
      ScanFindsSelected(route, t);
    }
  }

  lemma TextReads(route: Route, b: Bytes) returns (t: Text)
    requires ScanText(route, b).Some?
    ensures WellFormedText(t) && t.value.Obj? && PrintText(t) == b
  {
    var i := SkipWs(b, 0);
    SkipWsReads(b, 0);
    var value, end := BodyReads(route, b, i);
    SkipWsReads(b, end);
    hide AllWs, SkipWs, ScanText, WellFormed, Stands;
    assert b[..i] == b[0..i] && b[end..] == b[end..|b|];
    TextOf(b, i, end, value);
    t := Text(b[..i], value, b[end..]);
  }

  lemma BodyReads(route: Route, b: Bytes, i: nat) returns (value: Value, end: nat)
    requires i == SkipWs(b, 0) && ScanText(route, b).Some?
    ensures value.Obj? && WellFormed(value) && Stands(value, b, i) && end == i + Len(value)
    ensures i <= end <= |b| && SkipWs(b, end) == |b|
  {
    var j := SkipWs(b, i + 1);
    TextMeans(route, b, i, j);
    hide SkipWs, ScanText, ScanMembers, WellFormed, Stands, Len;
    if At(b, j, RBRACE) {
      value, end := EmptyBody(b, i, j);
    } else {
      value, end := FullBody(route, b, i);
    }
  }

  lemma EmptyBody(b: Bytes, i: nat, j: nat) returns (value: Value, end: nat)
    requires At(b, i, LBRACE) && j == SkipWs(b, i + 1) && At(b, j, RBRACE)
    ensures value.Obj? && WellFormed(value) && Stands(value, b, i) && end == i + Len(value) == j + 1
  {
    SkipWsReads(b, i + 1);
    hide SkipWs, AllWs;
    value, end := Obj(b[i + 1..j], NoMembers), j + 1;
  }

  lemma FullBody(route: Route, b: Bytes, i: nat) returns (value: Value, end: nat)
    requires At(b, i, LBRACE) && ScanMembers(Top(route), b, i + 1, MAX_DEPTH - 1, EMPTY).Some?
    ensures value.Obj? && WellFormed(value) && Stands(value, b, i) && end == i + Len(value)
    ensures end == ScanMembers(Top(route), b, i + 1, MAX_DEPTH - 1, EMPTY).value.0
  {
    var members := MembersReads(Top(route), b, i + 1, MAX_DEPTH - 1, EMPTY);
    hide ScanMembers, StandsMembers, WellFormedMembers, LenMembers, WellFormed, Stands, Len;
    value, end := Obj([], members), i + 1 + LenMembers(members) + 1;
    ObjectOf(members, b, i);
  }

  lemma ObjectOf(members: Members, b: Bytes, i: nat)
    requires At(b, i, LBRACE) && members.Member? && WellFormedMembers(members) && StandsMembers(members, b, i + 1)
    ensures WellFormed(Obj([], members)) && Stands(Obj([], members), b, i)
            && Len(Obj([], members)) == LenMembers(members) + 2
  {
    hide StandsMembers, WellFormedMembers, LenMembers;
  }

  /** What an accepted text starts with. */
  lemma TextMeans(route: Route, b: Bytes, i: nat, j: nat)
    requires i == SkipWs(b, 0) && ScanText(route, b).Some?
    ensures At(b, i, LBRACE) && (j == SkipWs(b, i + 1) ==>
              if At(b, j, RBRACE) then SkipWs(b, j + 1) == |b|
              else var r := ScanMembers(Top(route), b, i + 1, MAX_DEPTH - 1, EMPTY);
                r.Some? && SkipWs(b, r.value.0) == |b|)
  {
    hide ScanMembers, SkipWs;
  }

  lemma TextOf(b: Bytes, i: nat, end: nat, v: Value)
    requires i <= end <= |b| && Stands(v, b, i) && end == i + Len(v)
    ensures PrintText(Text(b[..i], v, b[end..])) == b
  {
    hide Print, Stands, Len;
    PrintStands(v, b, i);
    assert b == b[..i] + b[i..end] + b[end..];
  }
}

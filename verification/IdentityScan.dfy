/** The instruction scanner (internal/gateway/identity_json_stream.go) as functions of
    the bytes: one recursive reader, told by a handler what to track.  The handlers
    stand for the callbacks that the source passes to its object and array readers. */
module IdentityScan {
  import opened JsonGrammar
  import opened JsonLexer
  import opened IdentityRunes
  import opened Wrappers

  /** A string with its quotes. */
  datatype Span = Span(start: nat, end: nat)

  type Name = seq<int>

  function Ascii(s: string): Name {
    seq(|s|, k requires 0 <= k < |s| => s[k] as int)
  }

  /** Which of the tracked fields the request path selects. */
  datatype Route = Route(responses: bool, chat: bool, messages: bool, models: bool)

  predicate HasSuffix(path: string, suffix: string) {
    |suffix| <= |path| && path[|path| - |suffix|..] == suffix
  }

  function RouteOf(path: string): Route {
    Route(HasSuffix(path, "/responses"), HasSuffix(path, "/chat/completions"), HasSuffix(path, "/messages"),
          MODELS <= path)
  }

  const MODELS := "/v1beta/models/"

  datatype Handler = Skip | Plain | Content | Part | Messages | Message | Parts | Top(route: Route)

  /** The flag that a tracked field sets; a second field that sets it is an error. */
  function Flag(h: Handler, key: Name): Option<nat> {
    match h
    case Part => if key == Ascii("type") then Some(1) else if key == Ascii("text") then Some(2) else None
    case Message =>
      if key == Ascii("role") then Some(1) else if key == Ascii("type") then Some(2)
      else if key == Ascii("content") then Some(4) else None
    case Parts => if key == Ascii("parts") then Some(1) else None
    case Top(route) =>
      if key == Ascii("model") then Some(1)
      else if (key == Ascii("instructions") && route.responses) || (key == Ascii("system") && route.messages)
              || (key == Ascii("systemInstruction") && route.models) then Some(2)
      else if (key == Ascii("input") && route.responses) || (key == Ascii("messages") && route.chat) then Some(4)
      else None
    case _ => None
  }

  /** How the value of a field is read. */
  function FieldHandler(h: Handler, key: Name): Handler {
    match h
    case Message => if key == Ascii("content") then Content else Skip
    case Parts => if key == Ascii("parts") then Content else Skip
    case Top(route) =>
      if Flag(h, key) == Some(4) then Messages
      else if Flag(h, key) != Some(2) then Skip
      else if key == Ascii("instructions") then Plain
      else if key == Ascii("system") then Content
      else Parts
    case _ => Skip
  }

  function ItemHandler(h: Handler): Handler {
    match h
    case Content => Part
    case Messages => Message
    case _ => Skip
  }

  /** Items and unexpected objects are read by the same reader; only some handlers say
      anything about the fields of an object. */
  function ObjectHandler(h: Handler): Handler {
    match h
    case Part => Part
    case Message => Message
    case Parts => Parts
    case Top(_) => h
    case _ => Skip
  }

  predicate IsMetadata(h: Handler, key: Name) {
    match h
    case Part => key == Ascii("type")
    case Message => key == Ascii("role") || key == Ascii("type")
    case Top(_) => key == Ascii("model")
    case _ => false
  }

  function MetadataLimit(h: Handler): nat {
    if h.Top? then 2048 else 128
  }

  const KEY_LIMIT: nat := 128
  const MAX_DEPTH: nat := 10000

  /** A string of at most `maximum` raw bytes, decoded; anything longer reads as empty. */
  function ShortString(raw: Bytes, maximum: nat): Name {
    if |raw| + 2 > maximum then [] else Decode(raw)
  }

  /** What has been read of one object. */
  datatype Frame = Frame(
    seen: set<nat>,
    metadata: map<Name, Name>,
    text: Option<Span>,
    candidates: seq<Span>,
    processed: seq<Span>)

  const EMPTY := Frame({}, map[], None, [], [])

  /** The candidates a value adds, and those it hands to the text scanner. */
  datatype Found = Found(end: nat, candidates: seq<Span>, processed: seq<Span>)

  function Metadata(f: Frame, key: string): Name {
    if Ascii(key) in f.metadata then f.metadata[Ascii(key)] else []
  }

  predicate PartIsText(f: Frame) {
    1 !in f.seen || Metadata(f, "type") == Ascii("text") || Metadata(f, "type") == Ascii("input_text")
  }

  predicate MessageInstructs(f: Frame) {
    (Metadata(f, "role") == Ascii("system") || Metadata(f, "role") == Ascii("developer"))
    && (2 !in f.seen || Metadata(f, "type") == Ascii("message"))
  }

  /** What the end of an object appends to the candidates. */
  function Closing(h: Handler, f: Frame): seq<Span> {
    if h.Part? && f.text.Some? && PartIsText(f) then [f.text.value] else []
  }

  /** What the end of an object hands to the text scanner. */
  function Handed(h: Handler, f: Frame): seq<Span> {
    if h.Message? && MessageInstructs(f) then f.candidates else []
  }

  function CloseObject(h: Handler, end: nat, f: Frame): Found {
    Found(end, f.candidates + Closing(h, f), f.processed + Handed(h, f))
  }

  /** What the end of a field hands to the text scanner. */
  function FieldHanded(h: Handler, key: Name, found: Found): seq<Span> {
    if h.Top? && Flag(h, key) == Some(2) then found.candidates else []
  }

  /** A field whose value was read.  `raw` is its contents if it was a string. */
  function Enter(h: Handler, key: Name, span: Span, raw: Option<Bytes>, found: Found, f: Frame): Frame {
    Frame(
      if Flag(h, key).Some? then f.seen + {Flag(h, key).value} else f.seen,
      if IsMetadata(h, key)
      then f.metadata[key := if raw.Some? then ShortString(raw.value, MetadataLimit(h)) else []]
      else f.metadata,
      if h.Part? && key == Ascii("text") then (if raw.Some? then Some(span) else None) else f.text,
      f.candidates + found.candidates,
      f.processed + found.processed + FieldHanded(h, key, found))
  }

  function StringValue(b: Bytes, v: nat, end: nat): Option<Bytes>
    requires v <= end <= |b|
  {
    if At(b, v, QUOTE) && v + 2 <= end then Some(b[v + 1..end - 1]) else None
  }

  function ScanValue(h: Handler, b: Bytes, i: nat, d: nat): (r: Option<Found>)
    requires i <= |b|
    ensures r.Some? ==> i < r.value.end <= |b|
    decreases |b| - i, 0
  {
    if i == |b| then None
    else if b[i] == LBRACE then
      var j := SkipWs(b, i + 1);
      if d == 0 then None
      else if At(b, j, RBRACE) then Some(CloseObject(ObjectHandler(h), j + 1, EMPTY))
      else
        var r := ScanMembers(ObjectHandler(h), b, i + 1, d - 1, EMPTY);
        if r.None? then None else Some(CloseObject(ObjectHandler(h), r.value.0, r.value.1))
    else if b[i] == LBRACKET then
      var j := SkipWs(b, i + 1);
      if d == 0 then None
      else if At(b, j, RBRACKET) then Some(Found(j + 1, [], []))
      else ScanItems(ItemHandler(h), b, i + 1, d - 1, [], [])
    else if b[i] == QUOTE then
      var j := StringEnd(b, i + 1);
      if j.None? then None
      else Some(Found(j.value, if h.Content? || h.Plain? then [Span(i, j.value)] else [], []))
    else if b[i] == 0x74 || b[i] == 0x66 || b[i] == 0x6E then
      var j := WordEnd(b, i, Word(b[i]));
      if j.None? then None else Some(Found(j.value, [], []))
    else
      var j := NumberEnd(b, i);
      if j.None? then None else Some(Found(j.value, [], []))
  }

  function ScanItems(h: Handler, b: Bytes, i: nat, d: nat, candidates: seq<Span>, processed: seq<Span>)
    : (r: Option<Found>)
    requires i <= |b|
    ensures r.Some? ==> i < r.value.end <= |b|
    decreases |b| - i, 1
  {
    var r := ScanValue(h, b, SkipWs(b, i), d);
    if r.None? then None
    else
      var a := SkipWs(b, r.value.end);
      if At(b, a, RBRACKET) then Some(Found(a + 1, candidates + r.value.candidates, processed + r.value.processed))
      else if At(b, a, COMMA)
      then ScanItems(h, b, a + 1, d, candidates + r.value.candidates, processed + r.value.processed)
      else None
  }

  /** A key and its colon: where the key starts and ends, and where the value starts. */
  function ScanKey(b: Bytes, i: nat): (r: Option<(nat, nat, nat)>)
    requires i <= |b|
    ensures r.Some? ==> i <= r.value.0 && r.value.0 + 2 <= r.value.1 < r.value.2 <= |b|
  {
    var k := SkipWs(b, i);
    if !At(b, k, QUOTE) then None
    else
      var e := StringEnd(b, k + 1);
      if e.None? || !At(b, SkipWs(b, e.value), COLON) then None
      else Some((k, e.value, SkipWs(b, SkipWs(b, e.value) + 1)))
  }

  function ScanMembers(h: Handler, b: Bytes, i: nat, d: nat, f: Frame): (r: Option<(nat, Frame)>)
    requires i <= |b|
    ensures r.Some? ==> i < r.value.0 <= |b|
    decreases |b| - i, 1
  {
    var key := ScanKey(b, i);
    if key.None? then None
    else
      var (k, e, v) := key.value;
      var name := ShortString(b[k + 1..e - 1], KEY_LIMIT);
      if Flag(h, name).Some? && Flag(h, name).value in f.seen then None
      else
        var r := ScanValue(FieldHandler(h, name), b, v, d);
        if r.None? then None
        else
          var f' := Enter(h, name, Span(v, r.value.end), StringValue(b, v, r.value.end), r.value, f);
          var a := SkipWs(b, r.value.end);
          if At(b, a, RBRACE) then Some((a + 1, f'))
          else if At(b, a, COMMA) then ScanMembers(h, b, a + 1, d, f')
          else None
  }

  /** The whole text: one object, white space around it, and nothing else. */
  function ScanText(route: Route, b: Bytes): (r: Option<Frame>) {
    var i := SkipWs(b, 0);
    if !At(b, i, LBRACE) then None
    else
      var j := SkipWs(b, i + 1);
      var r := if At(b, j, RBRACE) then Some((j + 1, EMPTY))
        else ScanMembers(Top(route), b, i + 1, MAX_DEPTH - 1, EMPTY);
      if r.None? || SkipWs(b, r.value.0) != |b| then None else Some(r.value.1)
  }
}

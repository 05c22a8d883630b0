/** JSON texts as sections 2 to 7 of RFC 8259 write them, byte by byte: a tree that
    keeps every byte, and the text it prints to.  Nothing here knows how a scanner
    works. */
module JsonGrammar {

  type Byte = int

  type Bytes = seq<Byte>

  const QUOTE: Byte := 0x22
  const BACKSLASH: Byte := 0x5C
  const COMMA: Byte := 0x2C
  const COLON: Byte := 0x3A
  const LBRACE: Byte := 0x7B
  const RBRACE: Byte := 0x7D
  const LBRACKET: Byte := 0x5B
  const RBRACKET: Byte := 0x5D

  predicate IsWs(b: Byte) {
    b == 0x20 || b == 0x09 || b == 0x0D || b == 0x0A
  }

  predicate AllWs(s: Bytes) {
    forall k | 0 <= k < |s| :: IsWs(s[k])
  }

  predicate IsDigit(b: Byte) {
    0x30 <= b <= 0x39
  }

  predicate AllDigits(s: Bytes) {
    forall k | 0 <= k < |s| :: IsDigit(s[k])
  }

  predicate IsHex(b: Byte) {
    IsDigit(b) || 0x61 <= b <= 0x66 || 0x41 <= b <= 0x46
  }

  predicate IsSimpleEscape(b: Byte) {
    b == QUOTE || b == BACKSLASH || b == 0x2F || b == 0x62 || b == 0x66 || b == 0x6E || b == 0x72 || b == 0x74
  }

  /** The length of the character that starts a string's contents, 0 if there is none:
      unescaped, a two-byte escape, or \uXXXX. */
  function CharLength(s: Bytes): (n: nat)
    ensures n <= |s|
  {
    if s == [] || s[0] < 0x20 || s[0] == QUOTE then 0
    else if s[0] != BACKSLASH then 1
    else if |s| < 2 then 0
    else if IsSimpleEscape(s[1]) then 2
    else if s[1] == 0x75 && |s| >= 6 && IsHex(s[2]) && IsHex(s[3]) && IsHex(s[4]) && IsHex(s[5]) then 6
    else 0
  }

  /** The contents of a string, between the quotes. */
  predicate StringOk(s: Bytes) {
    s == [] || (CharLength(s) > 0 && StringOk(s[CharLength(s)..]))
  }

  predicate SignOk(s: Bytes) {
    s == [] || s == [0x2D]
  }

  predicate IntOk(s: Bytes) {
    s == [0x30] || (|s| > 0 && 0x31 <= s[0] <= 0x39 && AllDigits(s))
  }

  predicate FractionOk(s: Bytes) {
    s == [] || (|s| >= 2 && s[0] == 0x2E && AllDigits(s[1..]))
  }

  predicate ExponentOk(s: Bytes) {
    s == [] ||
    (|s| >= 2 && (s[0] == 0x65 || s[0] == 0x45) &&
     (AllDigits(s[1..]) || (|s| >= 3 && (s[1] == 0x2B || s[1] == 0x2D) && AllDigits(s[2..]))))
  }

  ghost predicate NumberOk(s: Bytes) {
    exists sign: Bytes, whole: Bytes, fraction: Bytes, exponent: Bytes ::
      s == sign + whole + fraction + exponent &&
      SignOk(sign) && IntOk(whole) && FractionOk(fraction) && ExponentOk(exponent)
  }

  const TRUE: Bytes := [0x74, 0x72, 0x75, 0x65]
  const FALSE: Bytes := [0x66, 0x61, 0x6C, 0x73, 0x65]
  const NULL: Bytes := [0x6E, 0x75, 0x6C, 0x6C]

  /** A value with every byte it was written with.  `gap` is what stands between the
      brackets of an empty array or object. */
  datatype Value =
    | Str(raw: Bytes)
    | Num(raw: Bytes)
    | Lit(raw: Bytes)
    | Arr(gap: Bytes, items: Items)
    | Obj(gap: Bytes, members: Members)

  datatype Items = NoItems | Item(before: Bytes, value: Value, after: Bytes, rest: Items)

  datatype Members =
    | NoMembers
    | Member(before: Bytes, key: Bytes, mid: Bytes, lead: Bytes, value: Value, after: Bytes, rest: Members)

  function Quoted(raw: Bytes): Bytes {
    [QUOTE] + raw + [QUOTE]
  }

  function Print(v: Value): Bytes {
    match v
    case Str(raw) => Quoted(raw)
    case Num(raw) => raw
    case Lit(raw) => raw
    case Arr(gap, items) => [LBRACKET] + (if items.NoItems? then gap else PrintItems(items)) + [RBRACKET]
    case Obj(gap, members) => [LBRACE] + (if members.NoMembers? then gap else PrintMembers(members)) + [RBRACE]
  }

  function PrintItems(items: Items): Bytes {
    match items
    case NoItems => []
    case Item(before, value, after, rest) =>
      before + Print(value) + after + (if rest.NoItems? then [] else [COMMA] + PrintItems(rest))
  }

  function PrintMembers(members: Members): Bytes {
    match members
    case NoMembers => []
    case Member(before, key, mid, lead, value, after, rest) =>
      before + Quoted(key) + mid + [COLON] + lead + Print(value) + after +
      (if rest.NoMembers? then [] else [COMMA] + PrintMembers(rest))
  }

  ghost predicate WellFormed(v: Value) {
    match v
    case Str(raw) => StringOk(raw)
    case Num(raw) => NumberOk(raw)
    case Lit(raw) => raw == TRUE || raw == FALSE || raw == NULL
    case Arr(gap, items) => AllWs(gap) && WellFormedItems(items)
    case Obj(gap, members) => AllWs(gap) && WellFormedMembers(members)
  }

  ghost predicate WellFormedItems(items: Items) {
    items.Item? ==>
      AllWs(items.before) && WellFormed(items.value) && AllWs(items.after) && WellFormedItems(items.rest)
  }

  ghost predicate WellFormedMembers(members: Members) {
    members.Member? ==>
      && AllWs(members.before) && StringOk(members.key) && AllWs(members.mid) && AllWs(members.lead)
      && WellFormed(members.value) && AllWs(members.after) && WellFormedMembers(members.rest)
  }

  function Max(a: nat, b: nat): nat {
    if a < b then b else a
  }

  /** How deep arrays and objects nest. */
  function Depth(v: Value): nat {
    match v
    case Arr(_, items) => 1 + DepthItems(items)
    case Obj(_, members) => 1 + DepthMembers(members)
    case _ => 0
  }

  function DepthItems(items: Items): nat {
    if items.NoItems? then 0 else Max(Depth(items.value), DepthItems(items.rest))
  }

  function DepthMembers(members: Members): nat {
    if members.NoMembers? then 0 else Max(Depth(members.value), DepthMembers(members.rest))
  }

  /** A whole text: one value with white space around it. */
  datatype Text = Text(before: Bytes, value: Value, after: Bytes)

  function PrintText(t: Text): Bytes {
    t.before + Print(t.value) + t.after
  }

  ghost predicate WellFormedText(t: Text) {
    AllWs(t.before) && WellFormed(t.value) && AllWs(t.after)
  }
}

/** Frames as sections 5.2, 5.4 and 5.5 of RFC 6455 write them, and what the filter does
    on a stream of them.  The filter does not ask for the shortest length encoding. */
module WebsocketFrames {
  import opened WebsocketFilter

  /** `form` is the number of bytes that carry the length after the second byte. */
  datatype Header = Header(fin: bool, reserved: int, opcode: int, masked: bool, form: int, length: int, key: Bytes)

  datatype Frame = Frame(header: Header, payload: Bytes)

  function Power256(n: nat): (p: int)
    ensures p >= 1
  {
    if n == 0 then 1 else 256 * Power256(n - 1)
  }

  /** `n` bytes, most significant first. */
  function ToBytes(x: int, n: nat): (s: Bytes)
    requires 0 <= x < Power256(n)
    ensures |s| == n && AllBytes(s)
    decreases n
  {
    if n == 0 then [] else ToBytes(x / 256, n - 1) + [x % 256]
  }

  ghost predicate WellFormed(h: Header) {
    && 0 <= h.reserved < 8 && 0 <= h.opcode < 16 && |h.key| == 4 && AllBytes(h.key) && 0 <= h.length
    && (h.form == 0 || h.form == 2 || h.form == 8)
    && (if h.form == 0 then h.length < 126 else h.length < Power256(h.form))
  }

  function FirstByte(fin: bool, reserved: int, opcode: int): int {
    (if fin then 128 else 0) + reserved * 16 + opcode
  }

  function SecondByte(masked: bool, code: int): int {
    (if masked then 128 else 0) + code
  }

  function LengthField(h: Header): Bytes
    requires WellFormed(h)
  {
    if h.form == 0 then [] else ToBytes(h.length, h.form)
  }

  function Code(h: Header): int {
    if h.form == 0 then h.length else if h.form == 2 then 126 else 127
  }

  function EncodeHeader(h: Header): Bytes
    requires WellFormed(h)
  {
    [FirstByte(h.fin, h.reserved, h.opcode), SecondByte(h.masked, Code(h))] + LengthField(h) + h.key
  }

  /** Where a stream stands between frames: inside a fragmented message or not, and how
      much of that message has come. */
  datatype Place = Place(open: bool, message: int)

  const START := Place(false, 0)

  predicate IsControl(h: Header) {
    h.opcode >= 8
  }

  /** Section 5.2: masked, nothing reserved, a known opcode.  Section 5.4: a continuation
      only inside a message, a new message only outside of one.  Section 5.5: control
      frames whole and small.  And no message beyond the limit. */
  predicate Allowed(limit: nat, p: Place, h: Header) {
    && h.reserved == 0 && h.masked && h.length < SIGN_BIT
    && if IsControl(h) then h.fin && h.length <= 125 && 8 <= h.opcode <= 10
       else h.opcode <= 2 && (h.opcode == 0 <==> p.open) && (if p.open then p.message else 0) + h.length <= limit
  }

  function After(p: Place, h: Header): Place {
    if IsControl(h) then p
    else if h.fin then START
    else Place(true, (if h.opcode == 0 then p.message else 0) + h.length)
  }

  ghost predicate IsFrame(f: Frame) {
    WellFormed(f.header) && AllBytes(f.payload) && |f.payload| == f.header.length
  }

  ghost predicate Legal(limit: nat, p: Place, frames: seq<Frame>)
    decreases |frames|
  {
    frames == [] ||
    (IsFrame(frames[0]) && Allowed(limit, p, frames[0].header) && Legal(limit, After(p, frames[0].header), frames[1..]))
  }

  function PlaceAfter(p: Place, frames: seq<Frame>): Place
    decreases |frames|
  {
    if frames == [] then p else PlaceAfter(After(p, frames[0].header), frames[1..])
  }

  function Encode(frames: seq<Frame>): Bytes
    requires forall f | f in frames :: IsFrame(f)
    decreases |frames|
  {
    if frames == [] then []
    else
      assert frames[0] in frames && IsFrame(frames[0]);
      EncodeHeader(frames[0].header) + frames[0].payload + Encode(frames[1..])
  }

  // ---------------------------------------------------------- the size of a message

  /** The payload of the message that the last data frame belongs to, so far. */
  function MessageSize(frames: seq<Frame>): int
    decreases |frames|
  {
    if frames == [] then 0
    else
      var last := frames[|frames| - 1].header;
      var before := MessageSize(frames[..|frames| - 1]);
      if IsControl(last) then before
      else if last.opcode != 0 then last.length
      else before + last.length
  }

  lemma {:induction false} LegalPrefix(limit: nat, p: Place, s: seq<Frame>, t: seq<Frame>)
    ensures Legal(limit, p, s + t) <==> Legal(limit, p, s) && Legal(limit, PlaceAfter(p, s), t)
    ensures PlaceAfter(p, s + t) == PlaceAfter(PlaceAfter(p, s), t)
    decreases |s|
  {
    if s == [] {
      assert s + t == t;
    } else {
      assert (s + t)[1..] == s[1..] + t;
      LegalPrefix(limit, After(p, s[0].header), s[1..], t);
    }
  }

  /** In a legal stream no message, complete or not, is larger than the limit. */
  lemma {:induction false} MessagesWithinLimit(limit: nat, frames: seq<Frame>)
    requires Legal(limit, START, frames)
    ensures MessageSize(frames) <= limit
    ensures PlaceAfter(START, frames).open ==> PlaceAfter(START, frames).message == MessageSize(frames)
    decreases |frames|
  {
    hide WellFormed;
    if frames == [] {
    } else {
      var front, last := frames[..|frames| - 1], frames[|frames| - 1];
      assert frames == front + [last];
      LegalPrefix(limit, START, front, [last]);
      MessagesWithinLimit(limit, front);
      assert [last][1..] == [];
    }
  }

  // ------------------------------------------------------------- reading what is written

  lemma {:induction false} ReadsBack(x: int, n: nat)
    requires 0 <= x < Power256(n)
    ensures BigEndian(ToBytes(x, n)) == x
    decreases n
  {
    if n == 0 {
    } else {
      var s := ToBytes(x, n);
      assert s[..n - 1] == ToBytes(x / 256, n - 1);
      ReadsBack(x / 256, n - 1);
    }
  }

  lemma {:induction false} WritesBack(s: Bytes)
    requires AllBytes(s)
    ensures 0 <= BigEndian(s) < Power256(|s|) && ToBytes(BigEndian(s), |s|) == s
    decreases |s|
  {
    if s == [] {
    } else {
      WritesBack(s[..|s| - 1]);
      assert s == s[..|s| - 1] + [s[|s| - 1]];
    }
  }

  lemma FirstByteReads(fin: bool, reserved: int, opcode: int, x: int)
    requires 0 <= reserved < 8 && 0 <= opcode < 16 && x == FirstByte(fin, reserved, opcode)
    ensures 0 <= x < 256 && (x >= 128 <==> fin) && x / 16 % 8 == reserved && Opcode(x) == opcode
  {
  }

  lemma FirstByteWrites(x: int)
    requires 0 <= x < 256
    ensures 0 <= x / 16 % 8 < 8 && 0 <= x % 16 < 16 && x == FirstByte(x >= 128, x / 16 % 8, x % 16)
  {
  }

  lemma SecondByteReads(masked: bool, code: int, x: int)
    requires 0 <= code < 128 && x == SecondByte(masked, code)
    ensures 0 <= x < 256 && (x >= 128 <==> masked) && x % 128 == code
  {
  }

  lemma FirstTwo(h: Header)
    requires WellFormed(h)
    ensures var e := EncodeHeader(h);
            && |e| == 6 + h.form && LengthBytes(e[1]) == h.form && Complete(e) && AllBytes(e)
            && (e[0] >= 128 <==> h.fin) && (e[1] >= 128 <==> h.masked)
            && e[0] / 16 % 8 == h.reserved && Opcode(e[0]) == h.opcode
            && PayloadLength(e) == h.length
  {
    var e := EncodeHeader(h);
    FirstByteReads(h.fin, h.reserved, h.opcode, e[0]);
    SecondByteReads(h.masked, Code(h), e[1]);
    hide FirstByte, SecondByte, Opcode;
    if h.form != 0 {
      ReadsBack(h.length, h.form);
      assert e[2..2 + h.form] == LengthField(h);
    }
    hide BigEndian, ToBytes, Power256;
  }

  function HeaderOf(e: Bytes): Header
    requires Complete(e) && |e| == 6 + LengthBytes(e[1])
  {
    var n := LengthBytes(e[1]);
    Header(e[0] >= 128, e[0] / 16 % 8, e[0] % 16, e[1] >= 128, n, PayloadLength(e), e[2 + n..])
  }

  lemma HeaderParts(e: Bytes, n: nat)
    requires AllBytes(e) && Complete(e) && n == LengthBytes(e[1]) && |e| == 6 + n
    ensures var h := HeaderOf(e); WellFormed(h) && Code(h) == e[1] % 128 && LengthField(h) == e[2..2 + n]
  {
    FirstByteWrites(e[0]);
    if n != 0 {
      WritesBack(e[2..2 + n]);
    }
    hide BigEndian, ToBytes, Power256;
  }

  /** Any complete header is one that the standard's layout writes. */
  lemma HeaderExists(e: Bytes)
    requires AllBytes(e) && Complete(e) && |e| == 6 + LengthBytes(e[1])
    ensures WellFormed(HeaderOf(e)) && EncodeHeader(HeaderOf(e)) == e
  {
    var n := LengthBytes(e[1]);
    HeaderParts(e, n);
    FirstByteWrites(e[0]);
    assert e[1] == SecondByte(e[1] >= 128, e[1] % 128);
    hide FirstByte, SecondByte, LengthField, Code, PayloadLength, WellFormed, LengthBytes;
    assert e == [e[0], e[1]] + e[2..2 + n] + e[2 + n..];
  }

  lemma MalformedMeans(h: Header)
    requires WellFormed(h)
    ensures var e := EncodeHeader(h);
            Complete(e) && (!Malformed(e) <==>
              && h.reserved == 0 && h.masked && h.length < SIGN_BIT
              && if IsControl(h) then h.fin && h.length <= 125 && 8 <= h.opcode <= 10 else h.opcode <= 2)
  {
    FirstTwo(h);
    hide PayloadLength, EncodeHeader, Complete;
  }

  /** The filter refuses exactly the headers that are not allowed where they stand. */
  lemma JudgeIsAllowed(limit: nat, s: State, p: Place, h: Header)
    requires WellFormed(h) && s.header == EncodeHeader(h) && s.open == p.open && s.message == p.message
    requires 0 <= p.message <= limit && (!p.open ==> p.message == 0)
    ensures Complete(s.header) && (Judge(limit, s).1 <==> !Allowed(limit, p, h))
    ensures Allowed(limit, p, h) ==>
              var t := Judge(limit, s).0;
              && t.header == s.header && t.remaining == s.remaining && t.control == IsControl(h) && t.final == h.fin
              && var q := After(p, h); var u := EndFrame(t); u.open == q.open && u.message == q.message
  {
    FirstTwo(h);
    MalformedMeans(h);
    hide PayloadLength, EncodeHeader, Complete, Malformed, LengthBytes, AllBytes;
  }
}

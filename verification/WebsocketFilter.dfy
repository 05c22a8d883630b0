/** The filter between a client and an upgraded connection
    (internal/gateway/resource_websocket.go:42-129): frames are checked header by header
    before anything of them is forwarded. */
module WebsocketFilter {

  type Bytes = seq<int>

  predicate AllBytes(p: Bytes) {
    forall k | 0 <= k < |p| :: 0 <= p[k] < 256
  }

  /** The writer's fields.  A header is gathered only while nothing of a frame remains. */
  datatype State = State(header: Bytes, remaining: nat, message: nat, open: bool, final: bool, control: bool)

  const INITIAL := State([], 0, 0, false, false, false)

  /** How many bytes carry the length, by the seven bits in the second byte. */
  function LengthBytes(second: int): nat {
    if second % 128 == 126 then 2 else if second % 128 == 127 then 8 else 0
  }

  /** The header is not complete until the four bytes of a mask have come. */
  predicate Complete(header: Bytes) {
    |header| >= 2 && |header| >= 6 + LengthBytes(header[1])
  }

  function BigEndian(s: Bytes): (n: int)
    decreases |s|
  {
    if s == [] then 0 else BigEndian(s[..|s| - 1]) * 256 + s[|s| - 1]
  }

  function PayloadLength(header: Bytes): int
    requires Complete(header)
  {
    var n := LengthBytes(header[1]);
    if n == 0 then header[1] % 128 else BigEndian(header[2..2 + n])
  }

  function Opcode(first: int): int {
    first % 16
  }

  const SIGN_BIT: int := 0x8000_0000_0000_0000

  /** What is wrong with a header whatever came before it. */
  predicate Malformed(header: Bytes)
    requires Complete(header)
  {
    var opcode := Opcode(header[0]);
    || header[0] / 16 % 8 != 0 || header[1] < 128 || PayloadLength(header) >= SIGN_BIT
    || (opcode >= 8 && (header[0] < 128 || PayloadLength(header) > 125 || (opcode != 8 && opcode != 9 && opcode != 10)))
    || (opcode < 8 && opcode != 0 && opcode != 1 && opcode != 2)
  }

  /** The fields after a complete header was looked at, and whether it is refused. */
  function Judge(limit: nat, s: State): (State, bool)
    requires Complete(s.header)
  {
    var opcode := Opcode(s.header[0]);
    var t := s.(final := s.header[0] >= 128, control := opcode >= 8);
    if t.control then (t, Malformed(s.header))
    else
      var wrongPlace := if opcode == 0 then !s.open else s.open;
      var u := if opcode != 0 then t.(message := 0, open := true) else t;
      if PayloadLength(s.header) > limit - u.message then (u, true)
      else (u.(message := u.message + (if PayloadLength(s.header) < 0 then 0 else PayloadLength(s.header))),
            Malformed(s.header) || wrongPlace)
  }

  function EndFrame(s: State): State {
    if !s.control && s.final then s.(open := false, message := 0) else s
  }

  /** What some input does: the state after it, the bytes passed on, how many were
      consumed, and whether a header was refused. */
  datatype Result = Result(state: State, forwarded: Bytes, consumed: nat, refused: bool)

  function Step(limit: nat, s: State, x: int): Result {
    if s.remaining > 0 then
      var t := s.(remaining := s.remaining - 1);
      Result(if t.remaining == 0 then EndFrame(t) else t, [x], 1, false)
    else
      var t := s.(header := s.header + [x]);
      if !Complete(t.header) then Result(t, [], 1, false)
      else
        var (u, refused) := Judge(limit, t);
        if refused then Result(u, [], 1, true)
        else
          var length := PayloadLength(t.header);
          var v := u.(header := [], remaining := if length < 0 then 0 else length);
          Result(if length == 0 then EndFrame(v) else v, t.header, 1, false)
  }

  /** A whole input, up to the header that is refused. */
  function Run(limit: nat, s: State, p: Bytes): Result
    decreases |p|
  {
    if p == [] then Result(s, [], 0, false)
    else
      var r := Step(limit, s, p[0]);
      if r.refused then r
      else
        var t := Run(limit, r.state, p[1..]);
        Result(t.state, r.forwarded + t.forwarded, 1 + t.consumed, t.refused)
  }

  /** One input after another. */
  function Then(r: Result, t: Result): Result {
    if r.refused then r else Result(t.state, r.forwarded + t.forwarded, r.consumed + t.consumed, t.refused)
  }

  lemma {:induction false} RunJoin(limit: nat, s: State, p: Bytes, q: Bytes)
    ensures Run(limit, s, p + q) == Then(Run(limit, s, p), Run(limit, Run(limit, s, p).state, q))
    decreases |p|
  {
    hide Step;
    if p == [] {
      assert p + q == q;
      var t := Run(limit, s, q);
      assert [] + t.forwarded == t.forwarded;
    } else {
      assert (p + q)[1..] == p[1..] + q;
      var r := Step(limit, s, p[0]);
      if !r.refused {
        RunJoin(limit, r.state, p[1..], q);
        var t := Run(limit, r.state, p[1..]);
        var u := Run(limit, t.state, q);
        assert r.forwarded + (t.forwarded + u.forwarded) == r.forwarded + t.forwarded + u.forwarded;
      }
    }
  }

  /** Once a header was refused it is refused again, with every further byte. */
  ghost predicate Dead(limit: nat, s: State) {
    && s.remaining == 0 && Complete(s.header) && s.message <= limit && PayloadLength(s.header) >= 0
    && Judge(limit, s).1
  }

  ghost predicate Sane(limit: nat, s: State) {
    s.message <= limit && (s.header != [] ==> s.remaining == 0) && AllBytes(s.header)
  }

  lemma {:induction false} BigEndianNat(s: Bytes)
    requires AllBytes(s)
    ensures BigEndian(s) >= 0
    decreases |s|
  {
    if s == [] {
    } else {
      BigEndianNat(s[..|s| - 1]);
    }
  }

  lemma LengthIsNat(header: Bytes)
    requires Complete(header) && AllBytes(header)
    ensures PayloadLength(header) >= 0
  {
    if LengthBytes(header[1]) > 0 {
      BigEndianNat(header[2..2 + LengthBytes(header[1])]);
    }
  }

  /** A longer buffer is judged by the same bytes. */
  lemma SameHeader(header: Bytes, x: int)
    requires Complete(header)
    ensures Complete(header + [x]) && PayloadLength(header + [x]) == PayloadLength(header)
    ensures (header + [x])[0] == header[0] && (Malformed(header + [x]) <==> Malformed(header))
  {
    var n := LengthBytes(header[1]);
    assert (header + [x])[2..2 + n] == header[2..2 + n];
  }

  /** The message count stays within the limit, so that the difference is never negative. */
  lemma StepIsSane(limit: nat, s: State, x: int)
    requires Sane(limit, s) && 0 <= x < 256
    ensures Sane(limit, Step(limit, s, x).state)
    ensures Step(limit, s, x).refused ==> Dead(limit, Step(limit, s, x).state)
  {
    var header := s.header + [x];
    if s.remaining == 0 && Complete(header) {
      LengthIsNat(header);
      hide PayloadLength, Complete, Malformed;
    }
  }

  lemma DeadStays(limit: nat, s: State, x: int)
    requires Dead(limit, s) && 0 <= x < 256
    ensures var r := Step(limit, s, x); r.refused && r.forwarded == [] && Dead(limit, r.state)
  {
    SameHeader(s.header, x);
    hide PayloadLength, Complete, Malformed;
  }

  lemma {:induction false} RunIsSane(limit: nat, s: State, p: Bytes)
    requires Sane(limit, s) && AllBytes(p)
    ensures Sane(limit, Run(limit, s, p).state)
    ensures Run(limit, s, p).refused ==> Dead(limit, Run(limit, s, p).state)
    decreases |p|
  {
    hide Step;
    if p == [] {
    } else {
      StepIsSane(limit, s, p[0]);
      if !Step(limit, s, p[0]).refused {
        RunIsSane(limit, Step(limit, s, p[0]).state, p[1..]);
      }
    }
  }

  // ------------------------------------------------------------- any chunking is the same

  /** Calls one after another, also after a refusal: the bytes passed on and whether
      anything was refused. */
  function Calls(limit: nat, s: State, chunks: seq<Bytes>): (Bytes, bool)
    decreases |chunks|
  {
    if chunks == [] then ([], false)
    else
      var r := Run(limit, s, chunks[0]);
      var (forwarded, refused) := Calls(limit, r.state, chunks[1..]);
      (r.forwarded + forwarded, r.refused || refused)
  }

  function Concat(chunks: seq<Bytes>): Bytes
    decreases |chunks|
  {
    if chunks == [] then [] else chunks[0] + Concat(chunks[1..])
  }

  lemma {:induction false} DeadForwardsNothing(limit: nat, s: State, chunks: seq<Bytes>)
    requires Dead(limit, s) && AllBytes(Concat(chunks))
    ensures Calls(limit, s, chunks).0 == []
    decreases |chunks|
  {
    hide Dead, Step;
    if chunks == [] {
    } else {
      assert forall k | 0 <= k < |chunks[0]| :: chunks[0][k] == Concat(chunks)[k];
      assert forall k | 0 <= k < |Concat(chunks[1..])| :: Concat(chunks[1..])[k] == Concat(chunks)[|chunks[0]| + k];
      if chunks[0] != [] {
        DeadStays(limit, s, chunks[0][0]);
      }
      DeadForwardsNothing(limit, Run(limit, s, chunks[0]).state, chunks[1..]);
    }
  }

  /** Neither what is forwarded nor the verdict depends on how the client's bytes are
      split into calls; after a refusal no call forwards anything. */
  lemma {:induction false} AnySplitIsTheSame(limit: nat, s: State, chunks: seq<Bytes>)
    requires Sane(limit, s) && AllBytes(Concat(chunks))
    ensures var r := Run(limit, s, Concat(chunks)); Calls(limit, s, chunks) == (r.forwarded, r.refused)
    decreases |chunks|
  {
    hide Dead, Step, Sane;
    if chunks == [] {
    } else {
      var rest := Concat(chunks[1..]);
      assert forall k | 0 <= k < |chunks[0]| :: chunks[0][k] == Concat(chunks)[k];
      assert forall k | 0 <= k < |rest| :: rest[k] == Concat(chunks)[|chunks[0]| + k];
      var r := Run(limit, s, chunks[0]);
      RunIsSane(limit, s, chunks[0]);
      RunJoin(limit, s, chunks[0], rest);
      if r.refused {
        DeadForwardsNothing(limit, r.state, chunks[1..]);
        assert r.forwarded + [] == r.forwarded;
      } else {
        AnySplitIsTheSame(limit, r.state, chunks[1..]);
      }
    }
  }
}

/** What the filter forwards of any input: whole legal frames, and of the frame that is
    cut off by the end of the input its header and what there is of its payload.  It
    refuses exactly at the first header that is not allowed where it stands. */
module WebsocketStream {
  import opened WebsocketFilter
  import opened WebsocketFrames

  /** Between two frames, at a place in the stream. */
  ghost predicate Idle(limit: nat, s: State, p: Place) {
    && s.header == [] && s.remaining == 0 && s.open == p.open && s.message == p.message
    && 0 <= p.message <= limit && (!p.open ==> p.message == 0)
  }

  /** How an input ends behind its last whole frame. */
  datatype Tail =
    | Partial(start: Bytes)
    | Open(header: Header, start: Bytes)
    | Refused(header: Header, rest: Bytes)

  ghost predicate IsTail(limit: nat, p: Place, t: Tail) {
    match t
    case Partial(start) => AllBytes(start) && !Complete(start)
    case Open(h, start) => WellFormed(h) && AllBytes(start) && Allowed(limit, p, h) && |start| < h.length
    case Refused(h, rest) => WellFormed(h) && AllBytes(rest) && !Allowed(limit, p, h)
  }

  function TailBytes(t: Tail): Bytes
    requires !t.Partial? ==> WellFormed(t.header)
  {
    match t
    case Partial(start) => start
    case Open(h, start) => EncodeHeader(h) + start
    case Refused(h, rest) => EncodeHeader(h) + rest
  }

  /** The part of it that passes. */
  function Passed(t: Tail): Bytes
    requires t.Open? ==> WellFormed(t.header)
  {
    if t.Open? then EncodeHeader(t.header) + t.start else []
  }

  // ------------------------------------------------------------------- one header

  lemma ShorterIsIncomplete(e: Bytes, k: nat)
    requires Complete(e) && |e| == 6 + LengthBytes(e[1]) && k < |e|
    ensures !Complete(e[..k])
  {
    if k >= 2 {
      assert e[..k][1] == e[1];
    }
  }

  /** Bytes of a header are gathered while it is not complete. */
  lemma {:induction false} Gathers(limit: nat, s: State, e: Bytes, k: nat)
    requires s.header == [] && s.remaining == 0 && k <= |e| && forall i | 0 <= i <= k :: !Complete(e[..i])
    ensures Run(limit, s, e[..k]) == Result(s.(header := e[..k]), [], k, false)
    decreases k
  {
    if k == 0 {
    } else {
      hide Step, Run;
      var front, x := e[..k - 1], e[k - 1];
      Gathers(limit, s, e, k - 1);
      assert e[..k] == front + [x] && !Complete(e[..k]);
      Completes(limit, s, front, x);
      GatherStep(limit, s.(header := front), x, e[..k]);
    }
  }

  lemma StepConsumes(limit: nat, s: State, x: int)
    ensures Step(limit, s, x).consumed == 1
  {
  }

  lemma OneStep(limit: nat, s: State, x: int)
    ensures Run(limit, s, [x]) == Step(limit, s, x)
  {
    StepConsumes(limit, s, x);
    hide Step;
    var r := Step(limit, s, x);
    assert [x][1..] == [];
    assert r.forwarded + [] == r.forwarded;
  }

  lemma GatherStep(limit: nat, s: State, x: int, e: Bytes)
    requires s.remaining == 0 && e == s.header + [x] && !Complete(e)
    ensures Step(limit, s, x) == Result(s.(header := e), [], 1, false)
  {
  }

  /** The byte that completes a header. */
  lemma HeaderStep(limit: nat, s: State, x: int, e: Bytes, length: nat)
    requires s.remaining == 0 && e == s.header + [x] && Complete(e) && PayloadLength(e) == length
    ensures var (u, refused) := Judge(limit, s.(header := e)); var r := Step(limit, s, x);
            && r.consumed == 1 && r.refused == refused && r.forwarded == (if refused then [] else e)
            && (refused ==> r.state == u)
            && (!refused ==> var v := u.(header := [], remaining := length);
                             r.state == if length == 0 then EndFrame(v) else v)
  {
    hide Judge, Complete, PayloadLength, EndFrame;
  }

  /** The state behind a header that passed. */
  function Started(s: State, h: Header): State {
    if h.length < 0 then s
    else
      var t := s.(header := [], remaining := h.length, control := IsControl(h), final := h.fin);
      if IsControl(h) then t
      else t.(open := true, message := (if h.opcode == 0 then s.message else 0) + h.length)
  }

  lemma HeaderPrefixes(h: Header)
    requires WellFormed(h)
    ensures var e := EncodeHeader(h); |e| > 0 && Complete(e) && forall i | 0 <= i < |e| :: !Complete(e[..i])
  {
    FirstTwo(h);
    hide EncodeHeader;
    var e := EncodeHeader(h);
    forall i | 0 <= i < |e|
      ensures !Complete(e[..i])
    {
      ShorterIsIncomplete(e, i);
    }
  }

  lemma HeaderRun(limit: nat, s: State, p: Place, h: Header)
    requires Idle(limit, s, p) && WellFormed(h)
    ensures var e := EncodeHeader(h); var r := Run(limit, s, e);
            && r.consumed == |e| && (r.refused <==> !Allowed(limit, p, h))
            && r.forwarded == (if r.refused then [] else e)
            && (!r.refused ==> r.state == if h.length == 0 then EndFrame(Started(s, h)) else Started(s, h))
  {
    var e := EncodeHeader(h);
    HeaderPrefixes(h);
    hide EncodeHeader, Step, Run, Judge, EndFrame, Started, Allowed, WellFormed, Complete;
    var k := |e| - 1;
    Gathers(limit, s, e, k);
    LastHeaderStep(limit, s, p, h, e, k);
    Completes(limit, s, e[..k], e[k]);
    assert e == e[..k] + [e[k]];
  }

  /** A header gathered up to its last byte, and that byte. */
  lemma Completes(limit: nat, s: State, front: Bytes, x: int)
    requires Run(limit, s, front) == Result(s.(header := front), [], |front|, false)
    ensures var r := Step(limit, s.(header := front), x);
            Run(limit, s, front + [x]) == Result(r.state, r.forwarded, |front| + 1, r.refused)
  {
    StepConsumes(limit, s.(header := front), x);
    OneStep(limit, s.(header := front), x);
    RunJoin(limit, s, front, [x]);
    hide Step, Run;
    var r := Step(limit, s.(header := front), x);
    assert [] + r.forwarded == r.forwarded;
  }

  lemma LastHeaderStep(limit: nat, s: State, p: Place, h: Header, e: Bytes, k: nat)
    requires Idle(limit, s, p) && WellFormed(h) && e == EncodeHeader(h) && k + 1 == |e|
    ensures var r := Step(limit, s.(header := e[..k]), e[k]);
            && r.consumed == 1 && (r.refused <==> !Allowed(limit, p, h))
            && r.forwarded == (if r.refused then [] else e)
            && (!r.refused ==> r.state == if h.length == 0 then EndFrame(Started(s, h)) else Started(s, h))
  {
    FirstTwo(h);
    hide EncodeHeader, PayloadLength, Allowed, Judge, Complete, AllBytes, Step, EndFrame, WellFormed, LengthBytes;
    assert e == e[..k] + [e[k]];
    LastByte(limit, s, p, h, e[..k], e[k]);
  }

  lemma LastByte(limit: nat, s: State, p: Place, h: Header, front: Bytes, x: int)
    requires Idle(limit, s, p) && WellFormed(h) && front + [x] == EncodeHeader(h)
    ensures var r := Step(limit, s.(header := front), x);
            && r.consumed == 1 && (r.refused <==> !Allowed(limit, p, h))
            && r.forwarded == (if r.refused then [] else EncodeHeader(h))
            && (!r.refused ==> r.state == if h.length == 0 then EndFrame(Started(s, h)) else Started(s, h))
  {
    FirstTwo(h);
    hide EncodeHeader, PayloadLength, Allowed, Judge, Complete, AllBytes, Step, EndFrame, WellFormed, LengthBytes;
    var t := s.(header := EncodeHeader(h));
    HeaderStep(limit, s.(header := front), x, EncodeHeader(h), h.length);
    JudgeIsAllowed(limit, t, p, h);
    if Allowed(limit, p, h) {
      JudgeStarts(limit, t, p, h);
      StartedSame(s, t, h);
    }
    hide Started;
  }

  lemma StartedSame(s: State, t: State, h: Header)
    requires t == s.(header := t.header) && h.length >= 0
    ensures Started(t, h) == Started(s, h)
  {
  }

  lemma JudgeStarts(limit: nat, s: State, p: Place, h: Header)
    requires WellFormed(h) && s.header == EncodeHeader(h) && s.open == p.open && s.message == p.message
    requires Allowed(limit, p, h) && 0 <= p.message <= limit && (!p.open ==> p.message == 0)
    ensures Complete(s.header) && Judge(limit, s).0.(header := [], remaining := h.length) == Started(s, h)
  {
    FirstTwo(h);
    MalformedMeans(h);
    hide PayloadLength, EncodeHeader, Complete, Malformed, LengthBytes, AllBytes;
  }

  // ------------------------------------------------------------------ payloads, frames

  lemma {:induction false} PayloadRun(limit: nat, s: State, p: Bytes)
    requires |p| <= s.remaining
    ensures var t := s.(remaining := s.remaining - |p|);
            Run(limit, s, p) == Result(if p != [] && t.remaining == 0 then EndFrame(t) else t, p, |p|, false)
    decreases |p|
  {
    if p == [] {
    } else {
      var r := Step(limit, s, p[0]);
      assert [p[0]] + p[1..] == p;
      if |p| == 1 {
        OneStep(limit, s, p[0]);
        assert p == [p[0]];
      } else {
        PayloadRun(limit, r.state, p[1..]);
      }
    }
  }

  lemma FrameRun(limit: nat, s: State, p: Place, f: Frame)
    requires Idle(limit, s, p) && IsFrame(f) && Allowed(limit, p, f.header)
    ensures var b := EncodeHeader(f.header) + f.payload; var r := Run(limit, s, b);
            r.forwarded == b && r.consumed == |b| && !r.refused && Idle(limit, r.state, After(p, f.header))
  {
    var e := EncodeHeader(f.header);
    HeaderRun(limit, s, p, f.header);
    RunJoin(limit, s, e, f.payload);
    PayloadRun(limit, Run(limit, s, e).state, f.payload);
    hide EncodeHeader, Run, WellFormed;
  }

  lemma LegalAreFrames(limit: nat, p: Place, frames: seq<Frame>)
    requires Legal(limit, p, frames)
    ensures forall f | f in frames :: IsFrame(f)
    decreases |frames|
  {
    if frames == [] {
    } else {
      LegalAreFrames(limit, After(p, frames[0].header), frames[1..]);
      assert forall f | f in frames :: f == frames[0] || f in frames[1..];
    }
  }

  /** Legal frames pass as they are. */
  lemma {:induction false} FramesRun(limit: nat, s: State, p: Place, frames: seq<Frame>)
    requires Idle(limit, s, p) && Legal(limit, p, frames) && forall f | f in frames :: IsFrame(f)
    ensures var b := Encode(frames); var r := Run(limit, s, b);
            r.forwarded == b && r.consumed == |b| && !r.refused && Idle(limit, r.state, PlaceAfter(p, frames))
    decreases |frames|
  {
    if frames == [] {
    } else {
      var f := frames[0];
      var b := EncodeHeader(f.header) + f.payload;
      FrameRun(limit, s, p, f);
      hide Idle, Step, EncodeHeader, IsFrame, Allowed;
      var r := Run(limit, s, b);
      FramesRun(limit, r.state, After(p, f.header), frames[1..]);
      RunJoin(limit, s, b, Encode(frames[1..]));
    }
  }

  lemma PartialRun(limit: nat, s: State, start: Bytes)
    requires s.header == [] && s.remaining == 0 && !Complete(start)
    ensures Run(limit, s, start) == Result(s.(header := start), [], |start|, false)
  {
    forall i | 0 <= i <= |start|
      ensures !Complete(start[..i])
    {
      if i >= 2 {
        assert start[..i][1] == start[1];
      }
    }
    Gathers(limit, s, start, |start|);
    assert start[..|start|] == start;
  }

  lemma TailRun(limit: nat, s: State, p: Place, t: Tail)
    requires Idle(limit, s, p) && IsTail(limit, p, t)
    ensures var r := Run(limit, s, TailBytes(t)); r.forwarded == Passed(t) && (r.refused <==> t.Refused?)
  {
    match t
    case Partial(start) => PartialRun(limit, s, start);
    case Open(h, start) =>
      HeaderRun(limit, s, p, h);
      RunJoin(limit, s, EncodeHeader(h), start);
      PayloadRun(limit, Run(limit, s, EncodeHeader(h)).state, start);
    case Refused(h, rest) =>
      HeaderRun(limit, s, p, h);
      RunJoin(limit, s, EncodeHeader(h), rest);
  }

  // ----------------------------------------------------------------- the whole input

  /** An input seen as frames and a tail. */
  ghost predicate Parses(limit: nat, p: Place, input: Bytes, frames: seq<Frame>, t: Tail) {
    && Legal(limit, p, frames) && (forall f | f in frames :: IsFrame(f)) && IsTail(limit, PlaceAfter(p, frames), t)
    && input == Encode(frames) + TailBytes(t)
  }

  /** However an input is seen as legal frames and a tail: exactly the frames and the
      passing part of the tail are forwarded, and it is refused exactly if the tail says
      so. */
  lemma ForwardsLegalPart(limit: nat, input: Bytes, frames: seq<Frame>, t: Tail)
    requires Parses(limit, START, input, frames, t)
    ensures var r := Run(limit, INITIAL, input);
            r.forwarded == Encode(frames) + Passed(t) && (r.refused <==> t.Refused?)
  {
    hide Legal, Encode, TailBytes, Passed, Step, WellFormed, Allowed;
    FramesRun(limit, INITIAL, START, frames);
    hide Run;
    RunJoin(limit, INITIAL, Encode(frames), TailBytes(t));
    TailRun(limit, Run(limit, INITIAL, Encode(frames)).state, PlaceAfter(START, frames), t);
  }

  /** And every input can be seen that way. */
  lemma {:induction false} EveryInputParses(limit: nat, p: Place, input: Bytes) returns (frames: seq<Frame>, t: Tail)
    requires AllBytes(input)
    ensures Parses(limit, p, input, frames, t)
    decreases |input|
  {
    frames := [];
    if !Complete(input) {
      t := Partial(input);
      assert [] + input == input;
      return;
    }
    var h, e, rest := SplitHeader(input);
    hide HeaderOf, EncodeHeader, Allowed, WellFormed, Complete;
    if !Allowed(limit, p, h) {
      t := Refused(h, rest);
      assert [] + input == input;
    } else if |rest| < h.length {
      t := Open(h, rest);
      assert [] + input == input;
    } else {
      var payload, behind := rest[..h.length], rest[h.length..];
      assert rest == payload + behind;
      var more, t' := EveryInputParses(limit, After(p, h), behind);
      frames, t := [Frame(h, payload)] + more, t';
      Prepend(limit, p, Frame(h, payload), more, t, behind);
      assert input == e + payload + behind;
    }
  }

  /** A complete header and what stands behind it. */
  lemma SplitHeader(input: Bytes) returns (h: Header, e: Bytes, rest: Bytes)
    requires AllBytes(input) && Complete(input)
    ensures WellFormed(h) && e == EncodeHeader(h) && input == e + rest && AllBytes(rest) && h.length >= 0 && |e| > 0
  {
    var n := 6 + LengthBytes(input[1]);
    e, rest := input[..n], input[n..];
    assert input == e + rest && e[1] == input[1];
    HeaderExists(e);
    h := HeaderOf(e);
  }

  lemma Prepend(limit: nat, p: Place, f: Frame, frames: seq<Frame>, t: Tail, input: Bytes)
    requires IsFrame(f) && Allowed(limit, p, f.header) && Parses(limit, After(p, f.header), input, frames, t)
    ensures Parses(limit, p, EncodeHeader(f.header) + f.payload + input, [f] + frames, t)
  {
    hide IsFrame, Allowed, TailBytes, EncodeHeader, WellFormed, Encode;
    var all := [f] + frames;
    assert all[0] == f && all[1..] == frames;
    assert forall g | g in all :: g == f || g in frames;
    assert PlaceAfter(p, all) == PlaceAfter(After(p, f.header), frames);
    PrependBytes(f, frames, TailBytes(t));
  }

  lemma PrependBytes(f: Frame, frames: seq<Frame>, tail: Bytes)
    requires IsFrame(f) && forall g | g in frames :: IsFrame(g)
    ensures forall g | g in [f] + frames :: IsFrame(g)
    ensures EncodeHeader(f.header) + f.payload + (Encode(frames) + tail) == Encode([f] + frames) + tail
  {
    hide EncodeHeader;
    assert ([f] + frames)[1..] == frames;
  }

  /** Split into calls in any way, the client's bytes are forwarded as far as they are
      legal, and nothing behind the first refused header ever is. */
  lemma ClientBytes(limit: nat, chunks: seq<Bytes>) returns (frames: seq<Frame>, t: Tail)
    requires AllBytes(Concat(chunks))
    ensures Parses(limit, START, Concat(chunks), frames, t)
    ensures Calls(limit, INITIAL, chunks) == (Encode(frames) + Passed(t), t.Refused?)
    ensures forall k | 0 <= k <= |frames| :: MessageSize(frames[..k]) <= limit
  {
    frames, t := EveryInputParses(limit, START, Concat(chunks));
    ForwardsLegalPart(limit, Concat(chunks), frames, t);
    AnySplitIsTheSame(limit, INITIAL, chunks);
    forall k | 0 <= k <= |frames|
      ensures MessageSize(frames[..k]) <= limit
    {
      assert frames == frames[..k] + frames[k..];
      LegalPrefix(limit, START, frames[..k], frames[k..]);
      MessagesWithinLimit(limit, frames[..k]);
    }
  }
}

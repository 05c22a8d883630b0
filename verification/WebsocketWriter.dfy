/** The filter's `Write` as the gateway runs it: a header buffer, a count of payload
    bytes that remain, and an upgraded connection that may take less than it is given.
    It is proved to do what `WebsocketFilter.Run` says. */
module WebsocketWriter {
  import opened WebsocketFilter
  import opened WebsocketStream
  import opened Wrappers

  /** How the connection answers a write: everything, or so much, with or without an
      error. */
  datatype Answer = All | Some(bytes: nat, error: bool)

  class ResourceWebsocket {
    const limit: nat
    /** The answers of the connection, one for each write to it. */
    const answers: nat -> Answer
    var writes: nat
    var sink: Bytes
    var header: Bytes
    var remaining: nat
    var message: nat
    var messageOpen: bool
    var final: bool
    var control: bool
    var tooLarge: bool
    var reports: nat

    constructor (limit: nat, answers: nat -> Answer)
      ensures this.limit == limit && this.answers == answers && Now() == INITIAL && Valid()
      ensures sink == [] && !tooLarge && reports == 0 && writes == 0
    {
      this.limit, this.answers, writes, sink := limit, answers, 0, [];
      header, remaining, message, messageOpen, final, control := [], 0, 0, false, false, false;
      tooLarge, reports := false, 0;
    }

    function Now(): State
      reads this
    {
      State(header, remaining, message, messageOpen, final, control)
    }

    ghost predicate Valid()
      reads this
    {
      Sane(limit, Now()) && reports == (if tooLarge then 1 else 0)
    }

    /** The connection takes part of `q`. */
    method Forward(q: Bytes) returns (written: nat, error: bool)
      modifies `writes, `sink
      ensures written <= |q| && sink == old(sink) + q[..written] && writes == old(writes) + 1
      ensures answers(old(writes)).All? ==> written == |q| && !error
    {
      var answer := answers(writes);
      written, error := |q|, false;
      if answer.Some? {
        written, error := if answer.bytes < |q| then answer.bytes else |q|, answer.error;
      }
      sink, writes := sink + q[..written], writes + 1;
    }

    /** The first refusal is reported; the connection is closed on every one. */
    method Reject()
      requires Valid()
      modifies `tooLarge, `reports
      ensures tooLarge && Valid()
    {
      if !tooLarge {
        tooLarge, reports := true, reports + 1;
      }
    }

    method EndOfFrame()
      modifies `messageOpen, `message
      ensures Now() == EndFrame(old(Now()))
    {
      if !control && final {
        messageOpen, message := false, 0;
      }
    }

    /** The fields and the verdict on a complete header. */
    method Check() returns (invalid: bool, length: nat)
      requires Valid() && Complete(header)
      modifies `message, `messageOpen, `final, `control
      ensures Valid() && length == PayloadLength(header)
      ensures (Now(), invalid) == Judge(limit, old(Now()))
    {
      LengthIsNat(header);
      var first, second := header[0], header[1];
      var opcode := first % 16;
      final, control := first >= 128, opcode >= 8;
      length := PayloadLength(header);
      invalid := first / 16 % 8 != 0 || second < 128 || length >= SIGN_BIT;
      hide PayloadLength, Complete, LengthBytes;
      if control {
        invalid := invalid || !final || length > 125 || (opcode != 8 && opcode != 9 && opcode != 10);
      } else {
        invalid := invalid || (opcode != 0 && opcode != 1 && opcode != 2) || (opcode == 0 && !messageOpen)
                   || (opcode != 0 && messageOpen);
        if opcode != 0 {
          message, messageOpen := 0, true;
        }
        if length > limit - message {
          invalid := true;
        } else {
          message := message + length;
        }
      }
    }

    /** Part of a payload. */
    method PassPayload(piece: Bytes) returns (written: nat, ok: bool)
      requires Valid() && 0 < |piece| <= remaining
      modifies this
      ensures Valid() && tooLarge == old(tooLarge) && writes == old(writes) + 1
      ensures written <= |piece| && sink == old(sink) + piece[..written]
      ensures ok ==> written == |piece| && Now() == Run(limit, old(Now()), piece).state
      ensures answers(old(writes)).All? ==> ok
    {
      PayloadRun(limit, Now(), piece);
      hide Run, Step;
      var error;
      written, error := Forward(piece);
      remaining := remaining - written;
      ok := !error && written == |piece|;
      if ok && remaining == 0 {
        EndOfFrame();
      }
    }

    /** A header that was checked. */
    method PassHeader(length: nat) returns (ok: bool)
      requires Valid()
      modifies this
      ensures Valid() && writes == old(writes) + 1 && tooLarge == old(tooLarge)
      ensures old(sink) <= sink <= old(sink) + old(header)
      ensures ok ==> sink == old(sink) + old(header)
      ensures ok ==> var v := old(Now()).(header := [], remaining := length);
              Now() == if length == 0 then EndFrame(v) else v
      ensures !ok ==> answers(old(writes)) != All
    {
      ghost var full := header;
      var written, error := Forward(header);
      ok := !error && written == |header|;
      if ok {
        assert full[..written] == full;
        header, remaining := [], length;
        if length == 0 {
          EndOfFrame();
        }
      }
    }

    /** One byte of a header; the byte that completes it decides. */
    method TakeHeaderByte(x: int) returns (ok: bool)
      requires Valid() && remaining == 0 && 0 <= x < 256
      modifies this
      ensures Valid() && old(writes) <= writes
      ensures var r := Step(limit, old(Now()), x);
              && old(sink) <= sink <= old(sink) + r.forwarded
              && (ok ==> !r.refused && Now() == r.state && sink == old(sink) + r.forwarded && tooLarge == old(tooLarge))
              && (r.refused ==> !ok && Now() == r.state && r.forwarded == [] && tooLarge)
              && (!ok && !r.refused ==> answers(old(writes)) != All)
    {
      hide Judge, EndFrame, Complete, Step, Sane, PayloadLength;
      ghost var s := Now();
      StepIsSane(limit, s, x);
      GathersSanely(limit, s, x);
      header := header + [x];
      if !Complete(header) {
        GatherStep(limit, s, x, header);
        return true;
      }
      ghost var full := header;
      var invalid, length := Check();
      HeaderStep(limit, s, x, full, length);
      if invalid {
        Reject();
        return false;
      }
      ok := PassHeader(length);
    }

    /** The client's bytes.  With a connection that takes everything the call does
        exactly what `Run` says; with any other, what reached it is a prefix of that. */
    method Write(p: Bytes) returns (n: nat, ok: bool)
      requires Valid() && AllBytes(p)
      modifies this
      ensures Valid() && n <= |p|
      ensures old(sink) <= sink <= old(sink) + Run(limit, old(Now()), p).forwarded
      ensures (forall i | i >= old(writes) :: answers(i).All?) ==>
                var r := Run(limit, old(Now()), p);
                && Now() == r.state && sink == old(sink) + r.forwarded && n == r.consumed && ok == !r.refused
                && tooLarge == (old(tooLarge) || r.refused)
    {
      hide Step, Run, Sane;
      ghost var whole := Run(limit, Now(), p);
      ghost var sent: Bytes := [];
      n, ok := 0, true;
      Begin(limit, Now(), p);
      while n < |p|
        invariant n <= |p| && Valid() && sink == old(sink) + sent && writes >= old(writes)
        invariant whole == Then(Result(Now(), sent, n, false), Run(limit, Now(), p[n..]))
        invariant tooLarge == old(tooLarge)
        decreases |p| - n
      {
        ghost var t := Now();
        if remaining > 0 {
          var size := if |p| - n > remaining then remaining else |p| - n;
          Continue(limit, whole, t, sent, n, p, size);
          PayloadRun(limit, t, p[n..n + size]);
          var written;
          written, ok := PassPayload(p[n..n + size]);
          Grown(old(sink), sent, p[n..n + size], written, whole.forwarded);
          sent, n := sent + p[n..n + size][..written], n + written;
          if !ok {
            return;
          }
        } else {
          OneMore(limit, whole, t, sent, n, p);
          ok := TakeHeaderByte(p[n]);
          n := n + 1;
          ghost var passed := Step(limit, t, p[n - 1]).forwarded;
          PrefixGrows(old(sink), sent, passed, sink, whole.forwarded);
          if !ok {
            return;
          }
          sent := sent + passed;
        }
      }
      Finish(limit, whole, Now(), sent, n, p);
    }
  }

  lemma GathersSanely(limit: nat, s: State, x: int)
    requires Sane(limit, s) && s.remaining == 0 && 0 <= x < 256
    ensures Sane(limit, s.(header := s.header + [x]))
  {
  }

  lemma PrefixGrows(before: Bytes, sent: Bytes, passed: Bytes, sink: Bytes, all: Bytes)
    requires before + sent <= sink <= before + sent + passed && sent + passed <= all
    ensures before <= sink <= before + all
    ensures before + sent + passed == before + (sent + passed)
  {
    assert before + all == before + sent + passed + all[|sent + passed|..];
  }

  lemma Begin(limit: nat, s: State, p: Bytes)
    ensures Run(limit, s, p) == Then(Result(s, [], 0, false), Run(limit, s, p[0..]))
  {
    hide Step, Run;
    assert p[0..] == p;
    var r := Run(limit, s, p);
    assert [] + r.forwarded == r.forwarded;
  }

  /** A piece of the input at once. */
  lemma Continue(limit: nat, whole: Result, t: State, sent: Bytes, n: nat, p: Bytes, size: nat)
    requires n + size <= |p| && whole == Then(Result(t, sent, n, false), Run(limit, t, p[n..]))
    ensures var r := Run(limit, t, p[n..n + size]);
            && (r.refused ==> whole == Result(r.state, sent + r.forwarded, n + r.consumed, true))
            && (!r.refused ==> whole == Then(Result(r.state, sent + r.forwarded, n + r.consumed, false),
                                             Run(limit, r.state, p[n + size..])))
            && sent + r.forwarded <= whole.forwarded
  {
    hide Step, Run;
    assert p[n..] == p[n..n + size] + p[n + size..];
    RunJoin(limit, t, p[n..n + size], p[n + size..]);
    var r, u := Run(limit, t, p[n..n + size]), Run(limit, Run(limit, t, p[n..n + size]).state, p[n + size..]);
    assert sent + (r.forwarded + u.forwarded) == sent + r.forwarded + u.forwarded;
  }

  lemma OneMore(limit: nat, whole: Result, t: State, sent: Bytes, n: nat, p: Bytes)
    requires n < |p| && whole == Then(Result(t, sent, n, false), Run(limit, t, p[n..]))
    ensures var r := Step(limit, t, p[n]);
            && (r.refused ==> whole == Result(r.state, sent + r.forwarded, n + 1, true))
            && (!r.refused
               ==> whole == Then(Result(r.state, sent + r.forwarded, n + 1, false), Run(limit, r.state, p[n + 1..])))
            && sent + r.forwarded <= whole.forwarded
  {
    StepConsumes(limit, t, p[n]);
    hide Step, Run;
    Continue(limit, whole, t, sent, n, p, 1);
    assert p[n..n + 1] == [p[n]];
    OneStep(limit, t, p[n]);
  }

  lemma Grown(before: Bytes, sent: Bytes, piece: Bytes, written: nat, all: Bytes)
    requires written <= |piece| && sent + piece <= all
    ensures before + sent + piece[..written] == before + (sent + piece[..written]) <= before + all
    ensures written == |piece| ==> piece[..written] == piece
  {
    assert sent + piece[..written] <= sent + piece;
  }

  lemma Finish(limit: nat, whole: Result, t: State, sent: Bytes, n: nat, p: Bytes)
    requires n == |p| && whole == Then(Result(t, sent, n, false), Run(limit, t, p[n..]))
    ensures whole == Result(t, sent, n, false)
  {
    assert p[n..] == [];
    assert sent + [] == sent;
  }
}

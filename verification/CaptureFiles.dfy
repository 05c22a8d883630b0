/** Writing and reading capture files (internal/gateway/capture.go:135-299). */
module CaptureFiles {
  import opened SealedChunks
  import opened Wrappers

  const LIMIT := 16_777_216
  const CHUNK := 65_536
  const CAPTURE := Format([0x43, 0x50, 0x47, 0x57, 0x31], CHUNK, false, Some(LIMIT), LAST_SEQUENCE)

  function Kept(given: Bytes): Bytes {
    if |given| <= LIMIT then given else given[..LIMIT]
  }

  /** What an interrupted writer leaves: the start of a file, not all of it. */
  ghost predicate Torn(c: Cipher, prefix: Bytes, disk: Bytes) {
    exists chunks :: GoodChunks(CAPTURE, chunks) && disk < File(CAPTURE, c, prefix, chunks)
  }

  class CaptureWriter {
    const cipher: Cipher
    const prefix: Bytes
    /** What the disk takes of each write; None is all of it. */
    const space: nat -> Option<nat>
    var diskWrites: nat
    var disk: Bytes
    var sequence: nat
    var buffer: Bytes
    var written: nat
    var truncated: bool
    var failed: bool
    var isOpen: bool
    /** Everything that was written while nothing had failed. */
    ghost var given: Bytes
    /** The chunks that are on disk. */
    ghost var chunks: seq<Bytes>

    /** Working, with `rest` of the input still to be taken. */
    ghost predicate Working(rest: Bytes)
      reads this
    {
      && |prefix| == 8 && Sound(cipher) && isOpen && !failed && |buffer| < CHUNK
      && disk == Header(CAPTURE, prefix) + Frames(CAPTURE, cipher, prefix, 0, chunks) && sequence == |chunks|
      && (forall k | 0 <= k < |chunks| :: 0 < |chunks[k]| <= CHUNK)
      && Concat(chunks) + buffer + rest == Kept(given) && written == |Kept(given)| && truncated == (|given| > LIMIT)
    }

    ghost predicate Valid()
      reads this
    {
      && |prefix| == 8 && Sound(cipher)
      && (!failed && isOpen ==> Working([]))
      && (failed && isOpen ==> Torn(cipher, prefix, disk))
      && (!isOpen ==> Closed())
    }

    /** What a closed writer leaves. */
    ghost predicate Closed()
      reads this
    {
      && (!failed ==> ReadFile(CAPTURE, cipher, disk) == Some(Kept(given)) && (truncated <==> |given| > LIMIT))
      && (ReadFile(CAPTURE, cipher, disk) == None || ReadFile(CAPTURE, cipher, disk) == Some(Kept(given)))
    }

    /** From here on the disk takes every write. */
    ghost predicate Roomy()
      reads this
    {
      forall i | i >= diskWrites :: space(i).None?
    }

    constructor (cipher: Cipher, prefix: Bytes, space: nat -> Option<nat>)
      requires Sound(cipher) && |prefix| == 8
      ensures Valid() && given == [] && !failed && isOpen
      ensures this.cipher == cipher && this.prefix == prefix
    {
      this.cipher, this.prefix, this.space := cipher, prefix, space;
      diskWrites, disk, sequence, buffer, written := 0, Header(CAPTURE, prefix), 0, [], 0;
      truncated, failed, isOpen, given, chunks := false, false, true, [], [];
    }

    method Disk(q: Bytes) returns (ok: bool)
      modifies `disk, `diskWrites
      ensures ok ==> disk == old(disk) + q
      ensures !ok ==> old(disk) <= disk < old(disk) + q || (q == [] && disk == old(disk))
      ensures old(Roomy()) ==> ok && Roomy()
    {
      var room := space(diskWrites);
      diskWrites := diskWrites + 1;
      if room.None? || room.value >= |q| {
        disk := disk + q;
        return true;
      }
      disk := disk + q[..room.value];
      ok := false;
    }

    /** One frame: its length, then the sealed chunk. */
    method Flush(plain: Bytes) returns (ok: bool)
      requires Sound(cipher)
      modifies `disk, `diskWrites, `sequence
      ensures sequence == old(sequence) + 1
      ensures var frame := Frame(CAPTURE, cipher, prefix, old(sequence), plain);
              if ok then disk == old(disk) + frame else old(disk) <= disk < old(disk) + frame
      ensures old(Roomy()) ==> ok && Roomy()
    {
      var sealed := cipher.seal(Nonce(prefix, sequence), plain, []);
      assert |sealed| == |plain| + OVERHEAD;
      hide Sound, Nonce, BigEndian4;
      var length := BigEndian4(|sealed|);
      ghost var frame := Frame(CAPTURE, cipher, prefix, sequence, plain);
      assert frame == length + sealed;
      sequence := sequence + 1;
      ok := Disk(length);
      if !ok {
        assert disk < old(disk) + length <= old(disk) + frame;
        return;
      }
      assert disk + sealed == old(disk) + frame;
      ok := Disk(sealed);
    }

    /** Fills the buffer, and flushes it when it is full. */
    method TakeSome(rest: Bytes) returns (rest': Bytes)
      requires Working(rest) && |rest| > 0
      modifies `buffer, `disk, `diskWrites, `sequence, `failed, `chunks
      ensures |rest'| < |rest| && given == old(given)
      ensures if failed then Torn(cipher, prefix, disk) else Working(rest')
      ensures old(Roomy()) ==> !failed && Roomy()
    {
      hide Sound, Frames, Concat, Kept, Frame;
      var n := if |rest| < CHUNK - |buffer| then |rest| else CHUNK - |buffer|;
      assert rest == rest[..n] + rest[n..];
      assert Concat(chunks) + buffer + rest == Concat(chunks) + (buffer + rest[..n]) + rest[n..];
      buffer, rest' := buffer + rest[..n], rest[n..];
      if |buffer| == CHUNK {
        Appended(cipher, prefix, chunks, buffer, rest', given);
        ghost var before := disk;
        var ok := Flush(buffer);
        if !ok {
          TornHere(cipher, prefix, chunks, buffer, disk, before);
          failed := true;
          return;
        }
        assert disk == Header(CAPTURE, prefix) + Frames(CAPTURE, cipher, prefix, 0, chunks + [buffer]) by {
          Grouped(Header(CAPTURE, prefix), Frames(CAPTURE, cipher, prefix, 0, chunks),
            Frame(CAPTURE, cipher, prefix, |chunks|, buffer));
        }
        assert Concat(chunks) + buffer + [] + rest' == Concat(chunks) + buffer + rest';
        chunks, buffer := chunks + [buffer], [];
      }
    }

    /** Never fails for the caller; beyond the limit, or after a failure, input is
        dropped. */
    method Write(p: Bytes)
      requires Valid()
      modifies this
      ensures Valid() && isOpen == old(isOpen)
      ensures old(isOpen) && !old(failed) ==> given == old(given) + p
      ensures old(failed) ==> failed && given == old(given)
      ensures old(Roomy()) ==> Roomy() && failed == old(failed)
    {
      if failed || !isOpen {
        return;
      }
      hide Sound, Frames, Concat, Torn, CaptureWriter.Closed;
      var rest := p;
      if |rest| > LIMIT - written {
        rest := rest[..LIMIT - written];
        truncated := true;
      }
      KeptMore(given, p, rest);
      written := written + |rest|;
      assert Concat(chunks) + buffer + [] == Concat(chunks) + buffer;
      given := given + p;
      while |rest| > 0 && !failed
        invariant given == old(given) + p && isOpen && |prefix| == 8 && Sound(cipher)
        invariant if failed then Torn(cipher, prefix, disk) else Working(rest)
        invariant old(Roomy()) ==> Roomy() && !failed
        decreases |rest|, if failed then 0 else 1
      {
        hide CaptureWriter.Working;
        rest := TakeSome(rest);
      }
    }

    /** Flushes what is left and the empty frame that ends the file.  Without an error
        the file reads back as the first 16 MiB of everything written; an interrupted
        file does not read at all.  Closing again repeats the answer. */
    method Close(closes: bool) returns (cut: bool, ok: bool)
      requires Valid()
      modifies this
      ensures Valid() && !isOpen && given == old(given) && cut == truncated == old(truncated) && ok == !failed
      ensures !old(isOpen) ==> disk == old(disk) && failed == old(failed)
      ensures ok ==> ReadFile(CAPTURE, cipher, disk) == Some(Kept(given)) && (cut <==> |given| > LIMIT)
      ensures !ok ==> ReadFile(CAPTURE, cipher, disk) == None || ReadFile(CAPTURE, cipher, disk) == Some(Kept(given))
      ensures old(Roomy()) && !old(failed) && closes ==> ok
    {
      hide Sound, Frames, Concat, Kept, Frame, Torn, ReadFile;
      cut := truncated;
      if !isOpen {
        return cut, !failed;
      }
      ghost var before := disk;
      ok := !failed;
      if ok {
        assert Concat(chunks) + buffer + [] == Concat(chunks) + buffer;
        if |buffer| > 0 {
          assert Concat(chunks) + buffer == Concat(chunks) + buffer + [];
          Appended(cipher, prefix, chunks, buffer, [], given);
          ok := Flush(buffer);
          if ok {
            Grouped(Header(CAPTURE, prefix), Frames(CAPTURE, cipher, prefix, 0, chunks),
              Frame(CAPTURE, cipher, prefix, |chunks|, buffer));
            chunks := chunks + [buffer];
          } else {
            TornHere(cipher, prefix, chunks, buffer, disk, before);
          }
        }
      }
      if ok {
        ok := EndFile();
      } else {
        TornIsRefused(cipher, prefix, disk);
      }
      ok := ok && closes;
      failed, isOpen := !ok, false;
    }

    method EndFile() returns (ok: bool)
      requires |prefix| == 8 && Sound(cipher) && sequence == |chunks| && Concat(chunks) == Kept(given)
      requires disk == Header(CAPTURE, prefix) + Frames(CAPTURE, cipher, prefix, 0, chunks)
      requires forall k | 0 <= k < |chunks| :: 0 < |chunks[k]| <= CHUNK
      modifies `disk, `diskWrites, `sequence
      ensures ReadFile(CAPTURE, cipher, disk) == if ok then Some(Kept(given)) else None
      ensures old(Roomy()) ==> ok
    {
      hide Sound, Frames, Concat, Frame, ReadFile;
      ghost var before := disk;
      ok := Flush([]);
      FramesJoin(CAPTURE, cipher, prefix, 0, chunks, [[]]);
      OneFrame(CAPTURE, cipher, prefix, |chunks|, []);
      Grouped(Header(CAPTURE, prefix), Frames(CAPTURE, cipher, prefix, 0, chunks),
        Frame(CAPTURE, cipher, prefix, |chunks|, []));
      ChunksAreFew(chunks);
      if ok {
        assert disk == File(CAPTURE, cipher, prefix, chunks);
        FileReads(CAPTURE, cipher, prefix, chunks);
      } else {
        assert disk < File(CAPTURE, cipher, prefix, chunks);
        PrefixRefused(CAPTURE, cipher, prefix, chunks, disk);
      }
    }
  }

  lemma TornIsRefused(c: Cipher, prefix: Bytes, disk: Bytes)
    requires Torn(c, prefix, disk) && Sound(c) && |prefix| == 8
    ensures ReadFile(CAPTURE, c, disk) == None
  {
    hide File, ReadFile, GoodChunks;
    var chunks :| GoodChunks(CAPTURE, chunks) && disk < File(CAPTURE, c, prefix, chunks);
    PrefixRefused(CAPTURE, c, prefix, chunks, disk);
  }

  lemma Grouped(p: Bytes, q: Bytes, r: Bytes)
    ensures p + q + r == p + (q + r)
  {
  }

  lemma KeptMore(given: Bytes, p: Bytes, rest: Bytes)
    requires rest == if |p| > LIMIT - |Kept(given)| then p[..LIMIT - |Kept(given)|] else p
    ensures Kept(given) + rest == Kept(given + p)
    ensures |given + p| > LIMIT <==> |given| > LIMIT || |p| > LIMIT - |Kept(given)|
  {
  }

  lemma {:induction false} ConcatJoin(s: seq<Bytes>, t: seq<Bytes>)
    ensures Concat(s + t) == Concat(s) + Concat(t)
    decreases |s|
  {
    if s == [] {
      assert s + t == t;
    } else {
      assert (s + t)[1..] == s[1..] + t;
      ConcatJoin(s[1..], t);
    }
  }

  lemma {:induction false} ChunksAreFew(chunks: seq<Bytes>)
    requires forall k | 0 <= k < |chunks| :: 0 < |chunks[k]|
    ensures |chunks| <= |Concat(chunks)|
    decreases |chunks|
  {
    if chunks == [] {
    } else {
      ChunksAreFew(chunks[1..]);
    }
  }

  lemma OneChunk(chunk: Bytes)
    ensures Concat([chunk]) == chunk
  {
    assert [chunk][1..] == [];
    assert chunk + [] == chunk;
  }

  /** One more chunk is on its way. */
  lemma Appended(c: Cipher, prefix: Bytes, chunks: seq<Bytes>, buffer: Bytes, rest: Bytes, all: Bytes)
    requires (forall k | 0 <= k < |chunks| :: 0 < |chunks[k]| <= CHUNK) && 0 < |buffer| <= CHUNK
    requires Concat(chunks) + buffer + rest == Kept(all)
    ensures Frames(CAPTURE, c, prefix, 0, chunks + [buffer])
         == Frames(CAPTURE, c, prefix, 0, chunks) + Frame(CAPTURE, c, prefix, |chunks|, buffer)
    ensures Concat(chunks + [buffer]) == Concat(chunks) + buffer && GoodChunks(CAPTURE, chunks + [buffer])
  {
    hide Frame;
    FramesJoin(CAPTURE, c, prefix, 0, chunks, [buffer]);
    OneFrame(CAPTURE, c, prefix, |chunks|, buffer);
    ConcatJoin(chunks, [buffer]);
    OneChunk(buffer);
    ChunksAreFew(chunks + [buffer]);
  }

  /** A frame that did not reach the disk whole. */
  lemma TornHere(c: Cipher, prefix: Bytes, chunks: seq<Bytes>, buffer: Bytes, disk: Bytes, before: Bytes)
    requires before == Header(CAPTURE, prefix) + Frames(CAPTURE, c, prefix, 0, chunks)
    requires before <= disk < before + Frame(CAPTURE, c, prefix, |chunks|, buffer)
    requires GoodChunks(CAPTURE, chunks + [buffer])
    requires Frames(CAPTURE, c, prefix, 0, chunks + [buffer])
          == Frames(CAPTURE, c, prefix, 0, chunks) + Frame(CAPTURE, c, prefix, |chunks|, buffer)
    ensures Torn(c, prefix, disk)
  {
    hide Frame, Frames, Concat;
    var more := chunks + [buffer];
    FramesJoin(CAPTURE, c, prefix, 0, more, [[]]);
    var h, f, g, last :=
      Header(CAPTURE, prefix), Frames(CAPTURE, c, prefix, 0, chunks), Frame(CAPTURE, c, prefix, |chunks|, buffer),
      Frames(CAPTURE, c, prefix, |more|, [[]]);
    Grouped(h, f, g);
    Grouped(h, f + g, last);
    assert File(CAPTURE, c, prefix, more) == before + g + last;
    hide File, GoodChunks;
    assert disk < before + g <= before + g + last;
  }

  /** `readPath`: frame by frame, up to the empty one. */
  method ReadCapture(c: Cipher, file: Bytes) returns (r: Option<Bytes>)
    ensures r == ReadFile(CAPTURE, c, file)
  {
    hide Nonce, BigEndian4, Number4;
    if |file| < 13 || file[..5] != CAPTURE.magic {
      return None;
    }
    var prefix := file[5..13];
    var at, sequence, out := 13, 0, [];
    while true
      invariant at <= |file| && sequence <= |out| <= LIMIT
      invariant ReadFrames(CAPTURE, c, prefix, file, at, sequence, out) == ReadFile(CAPTURE, c, file)
      decreases |file| - at
    {
      if at + 4 > |file| {
        return None;
      }
      var size := Number4(file[at..at + 4]);
      if size < OVERHEAD || size > CHUNK + OVERHEAD {
        return None;
      }
      if at + 4 + size > |file| {
        return None;
      }
      var plain := c.open(Nonce(prefix, sequence), file[at + 4..at + 4 + size], []);
      if plain.None? {
        return None;
      }
      if |plain.value| == 0 {
        if at + 4 + size < |file| {
          return None;
        }
        return Some(out);
      }
      if |out| + |plain.value| > LIMIT {
        return None;
      }
      at, sequence, out := at + 4 + size, sequence + 1, out + plain.value;
    }
  }
}

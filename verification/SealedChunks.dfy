/** Files of sealed chunks: captures (internal/gateway/capture.go:135-299) and backups
    (internal/backup/crypto.go:17-106).  The cipher is a parameter; all that is asked of
    it is that opening undoes sealing and that sealing adds 16 bytes. */
module SealedChunks {
  import opened Wrappers

  type Bytes = seq<int>

  const OVERHEAD := 16
  const LAST_SEQUENCE := 0xFFFF_FFFF

  /** Sealing and opening under a nonce, with additional data. */
  datatype Cipher = Cipher(seal: (Bytes, Bytes, Bytes) -> Bytes, open: (Bytes, Bytes, Bytes) -> Option<Bytes>)

  ghost predicate Sound(c: Cipher) {
    forall nonce, plain, extra ::
      && c.open(nonce, c.seal(nonce, plain, extra), extra) == Some(plain)
      && |c.seal(nonce, plain, extra)| == |plain| + OVERHEAD
  }

  /** The two formats.  `bound` says whether header and sequence number are authenticated
      with every frame; `limit` is what a reader returns at most, `frames` how many frames
      it reads at most. */
  datatype Format = Format(magic: Bytes, chunk: nat, bound: bool, limit: Option<nat>, frames: nat)

  predicate GoodFormat(f: Format) {
    0 < f.chunk <= 0x10_0000 && f.frames <= LAST_SEQUENCE
  }

  function BigEndian4(x: int): (s: Bytes)
    ensures |s| == 4
  {
    [x / 256 / 256 / 256 % 256, x / 256 / 256 % 256, x / 256 % 256, x % 256]
  }

  function Number4(s: Bytes): int
    requires |s| == 4
  {
    ((s[0] * 256 + s[1]) * 256 + s[2]) * 256 + s[3]
  }

  lemma NumberBack(x: int)
    requires 0 <= x <= LAST_SEQUENCE
    ensures Number4(BigEndian4(x)) == x
  {
    var a := x / 256;
    var b := a / 256;
    var c := b / 256;
    assert x == a * 256 + x % 256 && a == b * 256 + a % 256 && b == c * 256 + b % 256 && c % 256 == c;
  }

  function Nonce(prefix: Bytes, sequence: nat): Bytes {
    prefix + BigEndian4(sequence)
  }

  /** No nonce is used twice in a file. */
  lemma NoncesDiffer(prefix: Bytes, i: nat, j: nat)
    requires i <= LAST_SEQUENCE && j <= LAST_SEQUENCE && i != j
    ensures Nonce(prefix, i) != Nonce(prefix, j)
  {
    NumberBack(i);
    NumberBack(j);
    assert Nonce(prefix, i)[|prefix|..] == BigEndian4(i) && Nonce(prefix, j)[|prefix|..] == BigEndian4(j);
  }

  function Header(f: Format, prefix: Bytes): Bytes {
    f.magic + prefix
  }

  function Extra(f: Format, prefix: Bytes, sequence: nat): Bytes {
    if f.bound then Header(f, prefix) + BigEndian4(sequence) else []
  }

  function Sealed(f: Format, c: Cipher, prefix: Bytes, sequence: nat, plain: Bytes): Bytes {
    c.seal(Nonce(prefix, sequence), plain, Extra(f, prefix, sequence))
  }

  function Frame(f: Format, c: Cipher, prefix: Bytes, sequence: nat, plain: Bytes): Bytes {
    BigEndian4(|Sealed(f, c, prefix, sequence, plain)|) + Sealed(f, c, prefix, sequence, plain)
  }

  /** The frames of some chunks, from a sequence number on. */
  function Frames(f: Format, c: Cipher, prefix: Bytes, sequence: nat, chunks: seq<Bytes>): Bytes
    decreases |chunks|
  {
    if chunks == [] then []
    else Frame(f, c, prefix, sequence, chunks[0]) + Frames(f, c, prefix, sequence + 1, chunks[1..])
  }

  /** A whole file: header, chunks, and the empty frame that ends it. */
  function File(f: Format, c: Cipher, prefix: Bytes, chunks: seq<Bytes>): Bytes {
    Header(f, prefix) + Frames(f, c, prefix, 0, chunks + [[]])
  }

  function Concat(chunks: seq<Bytes>): Bytes
    decreases |chunks|
  {
    if chunks == [] then [] else chunks[0] + Concat(chunks[1..])
  }

  // ---------------------------------------------------------------------- the reader

  /** What comes of the frames from `at` on, `out` bytes having been read before them. */
  function ReadFrames(f: Format, c: Cipher, prefix: Bytes, file: Bytes, at: nat, sequence: nat, out: Bytes)
    : Option<Bytes>
    requires at <= |file|
    decreases |file| - at
  {
    if at + 4 > |file| then None
    else
      var size := Number4(file[at..at + 4]);
      if size < OVERHEAD || size > f.chunk + OVERHEAD || sequence >= f.frames then None
      else if at + 4 + size > |file| then None
      else
        var plain := c.open(Nonce(prefix, sequence), file[at + 4..at + 4 + size], Extra(f, prefix, sequence));
        if plain.None? then None
        else if plain.value == [] then (if at + 4 + size == |file| then Some(out) else None)
        else if f.limit.Some? && |out| + |plain.value| > f.limit.value then None
        else ReadFrames(f, c, prefix, file, at + 4 + size, sequence + 1, out + plain.value)
  }

  function ReadFile(f: Format, c: Cipher, file: Bytes): Option<Bytes> {
    if |file| < |f.magic| + 8 || file[..|f.magic|] != f.magic then None
    else ReadFrames(f, c, file[|f.magic|..|f.magic| + 8], file, |f.magic| + 8, 0, [])
  }

  /** Chunks that the writers make: none empty, none too large, not too many, and no more
      than the reader's limit. */
  ghost predicate GoodChunks(f: Format, chunks: seq<Bytes>) {
    && (forall k | 0 <= k < |chunks| :: 0 < |chunks[k]| <= f.chunk)
    && |chunks| < f.frames && (f.limit.Some? ==> |Concat(chunks)| <= f.limit.value)
  }

  lemma FrameReads(f: Format, c: Cipher, prefix: Bytes, sequence: nat, plain: Bytes, file: Bytes, at: nat, end: nat)
    requires Sound(c) && GoodFormat(f) && |plain| <= f.chunk && at <= end <= |file|
    requires file[at..end] == Frame(f, c, prefix, sequence, plain)
    ensures end == at + 4 + |plain| + OVERHEAD
    ensures Number4(file[at..at + 4]) == |plain| + OVERHEAD
    ensures c.open(Nonce(prefix, sequence), file[at + 4..end], Extra(f, prefix, sequence)) == Some(plain)
  {
    var sealed := Sealed(f, c, prefix, sequence, plain);
    assert |sealed| == |plain| + OVERHEAD;
    NumberBack(|sealed|);
    assert file[at..at + 4] == file[at..end][..4] == BigEndian4(|sealed|);
    assert file[at + 4..end] == file[at..end][4..] == sealed;
  }

  /** One turn of the reader, with its values named. */
  lemma ReadsStep(f: Format, c: Cipher, prefix: Bytes, file: Bytes, at: nat, next: nat, sequence: nat, out: Bytes,
      plain: Bytes)
    requires 0 < |plain| <= f.chunk && next <= |file| && sequence < f.frames && next == at + 4 + |plain| + OVERHEAD
    requires Number4(file[at..at + 4]) == |plain| + OVERHEAD
    requires c.open(Nonce(prefix, sequence), file[at + 4..next], Extra(f, prefix, sequence)) == Some(plain)
    requires f.limit.Some? ==> |out| + |plain| <= f.limit.value
    ensures ReadFrames(f, c, prefix, file, at, sequence, out)
            == ReadFrames(f, c, prefix, file, next, sequence + 1, out + plain)
  {
    hide Extra, Nonce, Number4;
  }

  lemma ReadsOne(f: Format, c: Cipher, prefix: Bytes, file: Bytes, at: nat, next: nat, sequence: nat, out: Bytes,
      plain: Bytes)
    requires Sound(c) && GoodFormat(f) && 0 < |plain| <= f.chunk && at <= next <= |file| && sequence < f.frames
    requires file[at..next] == Frame(f, c, prefix, sequence, plain)
    requires f.limit.Some? ==> |out| + |plain| <= f.limit.value
    ensures ReadFrames(f, c, prefix, file, at, sequence, out)
            == ReadFrames(f, c, prefix, file, next, sequence + 1, out + plain)
  {
    hide Frame, Extra, Nonce, Sound, Number4, ReadFrames;
    FrameReads(f, c, prefix, sequence, plain, file, at, next);
    ReadsStep(f, c, prefix, file, at, next, sequence, out, plain);
  }

  /** Reading on behind some chunks. */
  lemma {:induction false} ChunksRead(
    f: Format, c: Cipher, prefix: Bytes, file: Bytes, at: nat, end: nat, sequence: nat, out: Bytes, chunks: seq<Bytes>)
    requires Sound(c) && GoodFormat(f) && at <= end <= |file| && file[at..end] == Frames(f, c, prefix, sequence, chunks)
    requires forall k | 0 <= k < |chunks| :: 0 < |chunks[k]| <= f.chunk
    requires sequence + |chunks| <= f.frames && (f.limit.Some? ==> |out| + |Concat(chunks)| <= f.limit.value)
    ensures ReadFrames(f, c, prefix, file, at, sequence, out)
         == ReadFrames(f, c, prefix, file, end, sequence + |chunks|, out + Concat(chunks))
    decreases |chunks|
  {
    hide Frame, Extra, Nonce, Sound;
    if chunks == [] {
      assert at == end && out + [] == out;
    } else {
      var frame := Frame(f, c, prefix, sequence, chunks[0]);
      var next := at + |frame|;
      assert file[at..next] == file[at..end][..|frame|] == frame;
      assert file[next..end] == file[at..end][|frame|..];
      ReadsOne(f, c, prefix, file, at, next, sequence, out, chunks[0]);
      hide ReadFrames;
      ChunksRead(f, c, prefix, file, next, end, sequence + 1, out + chunks[0], chunks[1..]);
      assert out + chunks[0] + Concat(chunks[1..]) == out + Concat(chunks);
    }
  }

  lemma {:induction false} FramesJoin(f: Format, c: Cipher, prefix: Bytes, sequence: nat, s: seq<Bytes>, t: seq<Bytes>)
    ensures Frames(f, c, prefix, sequence, s + t)
         == Frames(f, c, prefix, sequence, s) + Frames(f, c, prefix, sequence + |s|, t)
    decreases |s|
  {
    hide Frame;
    if s == [] {
      assert s + t == t;
    } else {
      assert (s + t)[1..] == s[1..] + t;
      FramesJoin(f, c, prefix, sequence + 1, s[1..], t);
    }
  }

  lemma OneFrame(f: Format, c: Cipher, prefix: Bytes, sequence: nat, plain: Bytes)
    ensures Frames(f, c, prefix, sequence, [plain]) == Frame(f, c, prefix, sequence, plain)
  {
    hide Frame;
    assert [plain][1..] == [];
    assert Frame(f, c, prefix, sequence, plain) + [] == Frame(f, c, prefix, sequence, plain);
  }

  /** A file gives back what was written. */
  lemma FileReads(f: Format, c: Cipher, prefix: Bytes, chunks: seq<Bytes>)
    requires Sound(c) && GoodFormat(f) && |prefix| == 8 && GoodChunks(f, chunks)
    ensures ReadFile(f, c, File(f, c, prefix, chunks)) == Some(Concat(chunks))
  {
    var file := File(f, c, prefix, chunks);
    BodyReads(f, c, prefix, chunks, file);
  }

  lemma HeaderReads(f: Format, c: Cipher, prefix: Bytes, file: Bytes)
    requires |prefix| == 8 && Header(f, prefix) <= file
    ensures ReadFile(f, c, file) == ReadFrames(f, c, prefix, file, |f.magic| + 8, 0, [])
  {
    hide ReadFrames;
    var h := Header(f, prefix);
    assert file[..|f.magic|] == h[..|f.magic|] == f.magic;
    assert file[|f.magic|..|f.magic| + 8] == h[|f.magic|..|h|] == prefix;
  }

  /** Any file that starts like this one and holds at least its frames. */
  lemma BodyReads(f: Format, c: Cipher, prefix: Bytes, chunks: seq<Bytes>, file: Bytes)
    requires Sound(c) && GoodFormat(f) && |prefix| == 8 && GoodChunks(f, chunks) && File(f, c, prefix, chunks) <= file
    ensures ReadFile(f, c, file) == if file == File(f, c, prefix, chunks) then Some(Concat(chunks)) else None
  {
    hide Frame, ReadFile, Sound;
    var whole := File(f, c, prefix, chunks);
    var start := |f.magic| + 8;
    var frames := Frames(f, c, prefix, 0, chunks);
    var middle := start + |frames|;
    FramesJoin(f, c, prefix, 0, chunks, [[]]);
    OneFrame(f, c, prefix, |chunks|, []);
    var last := Frame(f, c, prefix, |chunks|, []);
    var end := middle + |last|;
    assert whole == Header(f, prefix) + (frames + last);
    assert file[..|whole|] == whole && |whole| == end;
    assert file[start..middle] == whole[start..middle] == frames;
    assert file[middle..end] == whole[middle..end] == last;
    HeaderReads(f, c, prefix, file);
    ChunksRead(f, c, prefix, file, start, middle, 0, [], chunks);
    assert [] + Concat(chunks) == Concat(chunks);
    FrameReads(f, c, prefix, |chunks|, [], file, middle, end);
    hide Frames, Concat, File;
  }

  /** With anything behind it, it is refused. */
  lemma ExtensionRefused(f: Format, c: Cipher, prefix: Bytes, chunks: seq<Bytes>, more: Bytes)
    requires Sound(c) && GoodFormat(f) && |prefix| == 8 && GoodChunks(f, chunks) && more != []
    ensures ReadFile(f, c, File(f, c, prefix, chunks) + more) == None
  {
    hide ReadFile, File;
    BodyReads(f, c, prefix, chunks, File(f, c, prefix, chunks) + more);
  }

  // ----------------------------------------------------------------- what is cut off

  /** Behind what is left of a frame that was cut, nothing can be read. */
  lemma CutFrame(f: Format, c: Cipher, prefix: Bytes, sequence: nat, plain: Bytes, file: Bytes, at: nat, out: Bytes)
    requires Sound(c) && GoodFormat(f) && |plain| <= f.chunk && at <= |file| && sequence < f.frames
    requires file[at..] < Frame(f, c, prefix, sequence, plain)
    ensures ReadFrames(f, c, prefix, file, at, sequence, out) == None
  {
    var frame := Frame(f, c, prefix, sequence, plain);
    var sealed := Sealed(f, c, prefix, sequence, plain);
    assert |sealed| == |plain| + OVERHEAD;
    NumberBack(|sealed|);
    if at + 4 <= |file| {
      assert file[at..at + 4] == file[at..][..4] == frame[..4] == BigEndian4(|sealed|);
      assert at + 4 + |sealed| > |file|;
    }
  }

  /** The chunks whose frames are whole in a prefix of the frames. */
  lemma {:induction false} WholeFrames(f: Format, c: Cipher, prefix: Bytes, sequence: nat, chunks: seq<Bytes>,
      cut: Bytes)
    returns (k: nat, rest: Bytes)
    requires cut < Frames(f, c, prefix, sequence, chunks)
    ensures k < |chunks| && cut == Frames(f, c, prefix, sequence, chunks[..k]) + rest
    ensures rest < Frame(f, c, prefix, sequence + k, chunks[k])
    decreases |chunks|
  {
    hide Frame;
    var frame := Frame(f, c, prefix, sequence, chunks[0]);
    var behind := Frames(f, c, prefix, sequence + 1, chunks[1..]);
    assert Frames(f, c, prefix, sequence, chunks) == frame + behind;
    if |cut| < |frame| {
      k, rest := 0, cut;
      assert cut == (frame + behind)[..|cut|] == frame[..|cut|];
      assert chunks[..0] == [] && [] + rest == cut;
    } else {
      var tail := cut[|frame|..];
      assert cut == (frame + behind)[..|cut|];
      assert cut[..|frame|] == frame && tail == behind[..|tail|];
      var j, r := WholeFrames(f, c, prefix, sequence + 1, chunks[1..], tail);
      k, rest := j + 1, r;
      assert chunks[..k] == [chunks[0]] + chunks[1..][..j];
      assert chunks[..k][1..] == chunks[1..][..j];
      assert cut == frame + tail;
      assert frame + (Frames(f, c, prefix, sequence + 1, chunks[1..][..j]) + rest)
          == frame + Frames(f, c, prefix, sequence + 1, chunks[1..][..j]) + rest;
    }
  }

  lemma {:induction false} ConcatPrefix(chunks: seq<Bytes>, k: nat)
    requires k <= |chunks|
    ensures |Concat(chunks[..k])| <= |Concat(chunks)|
    decreases |chunks|
  {
    if k == 0 {
    } else {
      assert chunks[..k][1..] == chunks[1..][..k - 1];
      ConcatPrefix(chunks[1..], k - 1);
    }
  }

  /** Of a file that was cut anywhere, nothing is accepted. */
  lemma PrefixRefused(f: Format, c: Cipher, prefix: Bytes, chunks: seq<Bytes>, cut: Bytes)
    requires Sound(c) && GoodFormat(f) && |prefix| == 8 && GoodChunks(f, chunks) && cut < File(f, c, prefix, chunks)
    ensures ReadFile(f, c, cut) == None
  {
    hide Frame, ReadFrames, Frames, Sound, Concat;
    var h := Header(f, prefix);
    var all := chunks + [[]];
    if |cut| >= |h| {
      var body := Frames(f, c, prefix, 0, all);
      assert cut == (h + body)[..|cut|];
      assert h <= cut && cut[|h|..] == body[..|cut| - |h|];
      var k, rest := WholeFrames(f, c, prefix, 0, all, cut[|h|..]);
      assert all[..k] == chunks[..k];
      var middle := |h| + |Frames(f, c, prefix, 0, chunks[..k])|;
      assert cut == h + (Frames(f, c, prefix, 0, chunks[..k]) + rest);
      assert cut[|h|..middle] == Frames(f, c, prefix, 0, chunks[..k]);
      assert cut[middle..] == rest;
      HeaderReads(f, c, prefix, cut);
      ConcatPrefix(chunks, k);
      ChunksRead(f, c, prefix, cut, |h|, middle, 0, [], chunks[..k]);
      CutFrame(f, c, prefix, k, all[k], cut, middle, [] + Concat(chunks[..k]));
    }
  }
}

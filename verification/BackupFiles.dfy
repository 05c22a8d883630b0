/** Encrypting and decrypting a backup (internal/backup/crypto.go:17-106). */
module BackupFiles {
  import opened SealedChunks
  import opened Wrappers

  const CHUNK := 65_536
  const BACKUP := Format([0x43, 0x50, 0x42, 0x41, 0x43, 0x4B, 0x30, 0x32], CHUNK, true, None, LAST_SEQUENCE)

  /** What reading the source in full buffers gives: whole chunks, then a shorter one. */
  function Split(data: Bytes): (chunks: seq<Bytes>)
    ensures Concat(chunks) == data && forall k | 0 <= k < |chunks| :: 0 < |chunks[k]| <= CHUNK
    decreases |data|
  {
    if data == [] then []
    else
      var n := if |data| < CHUNK then |data| else CHUNK;
      assert data[..n] + data[n..] == data;
      [data[..n]] + Split(data[n..])
  }

  lemma {:induction false} SplitSize(data: Bytes)
    ensures |Split(data)| == (|data| + CHUNK - 1) / CHUNK
    decreases |data|
  {
    if |data| > CHUNK {
      SplitSize(data[CHUNK..]);
    } else if data != [] {
      assert data[|data|..] == [];
    }
  }

  /** The data fits: with its last, empty frame it has fewer than 2^32 - 1 of them. */
  predicate Fits(data: Bytes) {
    |data| <= (LAST_SEQUENCE - 1) * CHUNK
  }

  lemma FitsInFrames(data: Bytes)
    ensures Fits(data) <==> |Split(data)| < LAST_SEQUENCE
  {
    SplitSize(data);
  }

  /** Seals the data chunk by chunk; fails exactly when it is too large. */
  method Encrypt(c: Cipher, prefix: Bytes, data: Bytes) returns (r: Option<Bytes>)
    requires |prefix| == 8
    ensures r == if Fits(data) then Some(File(BACKUP, c, prefix, Split(data))) else None
  {
    hide Frame, Extra, Nonce, BigEndian4, Fits, Split, Frames, Sealed;
    FitsInFrames(data);
    var file := Header(BACKUP, prefix);
    var at, sequence := 0, 0;
    assert data[0..] == data;
    while true
      invariant 0 <= at <= |data| && sequence <= LAST_SEQUENCE
      invariant sequence + |Split(data[at..])| == |Split(data)|
      invariant file + Frames(BACKUP, c, prefix, sequence, Split(data[at..]) + [[]])
                == File(BACKUP, c, prefix, Split(data))
      decreases |data| - at
    {
      var n := if |data| - at < CHUNK then |data| - at else CHUNK;
      var plain := data[at..at + n];
      if sequence == LAST_SEQUENCE {
        return None;
      }
      NextFrame(c, prefix, sequence, data[at..], n);
      assert data[at..][n..] == data[at + n..] && data[at..][..n] == plain;
      var sealed := Sealed(BACKUP, c, prefix, sequence, plain);
      var frame := BigEndian4(|sealed|) + sealed;
      assert frame == Frame(BACKUP, c, prefix, sequence, plain) by {
        FrameIs(c, prefix, sequence, plain);
      }
      if n == 0 {
        assert file + frame == File(BACKUP, c, prefix, Split(data));
        return Some(file + frame);
      }
      ghost var rest := Frames(BACKUP, c, prefix, sequence + 1, Split(data[at + n..]) + [[]]);
      assert file + (frame + rest) == file + frame + rest;
      file, at, sequence := file + frame, at + n, sequence + 1;
    }
  }

  lemma FrameIs(c: Cipher, prefix: Bytes, sequence: nat, plain: Bytes)
    ensures var sealed := Sealed(BACKUP, c, prefix, sequence, plain);
            Frame(BACKUP, c, prefix, sequence, plain) == BigEndian4(|sealed|) + sealed
  {
  }

  /** The first frame of what is left. */
  lemma NextFrame(c: Cipher, prefix: Bytes, sequence: nat, data: Bytes, n: nat)
    requires n == if |data| < CHUNK then |data| else CHUNK
    ensures var frame := Frame(BACKUP, c, prefix, sequence, data[..n]);
            Frames(BACKUP, c, prefix, sequence, Split(data) + [[]])
              == frame + if n == 0 then [] else Frames(BACKUP, c, prefix, sequence + 1, Split(data[n..]) + [[]])
    ensures |Split(data)| == if n == 0 then 0 else 1 + |Split(data[n..])|
  {
    hide Frame;
    if n == 0 {
      assert Split(data) + [[]] == [[]];
      OneFrame(BACKUP, c, prefix, sequence, []);
      assert data[..0] == [];
    } else {
      var chunks := Split(data) + [[]];
      assert chunks[0] == data[..n] && chunks[1..] == Split(data[n..]) + [[]];
    }
  }

  method Decrypt(c: Cipher, file: Bytes) returns (r: Option<Bytes>)
    ensures r == ReadFile(BACKUP, c, file)
  {
    hide Nonce, BigEndian4, Number4, Extra;
    if |file| < 16 || file[..8] != BACKUP.magic {
      return None;
    }
    var prefix := file[8..16];
    var at, sequence, out := 16, 0, [];
    while true
      invariant at <= |file|
      invariant ReadFrames(BACKUP, c, prefix, file, at, sequence, out) == ReadFile(BACKUP, c, file)
      decreases |file| - at
    {
      if at + 4 > |file| {
        return None;
      }
      var size := Number4(file[at..at + 4]);
      if size < OVERHEAD || size > CHUNK + OVERHEAD || sequence >= LAST_SEQUENCE {
        return None;
      }
      if at + 4 + size > |file| {
        return None;
      }
      var plain := c.open(Nonce(prefix, sequence), file[at + 4..at + 4 + size], Extra(BACKUP, prefix, sequence));
      if plain.None? {
        return None;
      }
      if |plain.value| == 0 {
        if at + 4 + size < |file| {
          return None;
        }
        return Some(out);
      }
      at, sequence, out := at + 4 + size, sequence + 1, out + plain.value;
    }
  }

  /** Decrypting gives back what was encrypted, and nothing comes of a file that was cut
      or has something behind it. */
  lemma BackupRoundTrip(c: Cipher, prefix: Bytes, data: Bytes, cut: Bytes, more: Bytes)
    requires Sound(c) && |prefix| == 8 && Fits(data)
    ensures var file := File(BACKUP, c, prefix, Split(data));
            && ReadFile(BACKUP, c, file) == Some(data)
            && (cut < file ==> ReadFile(BACKUP, c, cut) == None)
            && (more != [] ==> ReadFile(BACKUP, c, file + more) == None)
  {
    hide ReadFile, File, Sound;
    FitsInFrames(data);
    FileReads(BACKUP, c, prefix, Split(data));
    if cut < File(BACKUP, c, prefix, Split(data)) {
      PrefixRefused(BACKUP, c, prefix, Split(data), cut);
    }
    if more != [] {
      ExtensionRefused(BACKUP, c, prefix, Split(data), more);
    }
  }
}

/** What leaves the gateway, byte by byte and told on the tree and the decoded texts
    (internal/gateway/codex_identity.go:53-90): every byte of the request stays except
    those of the phrases that are to go from the selected strings. */
module IdentityOutcome {
  import opened JsonGrammar
  import opened IdentityScan
  import opened IdentityTree
  import opened IdentityWalk
  import opened IdentityText
  import opened IdentityCuts
  import opened IdentityMeaning
  import opened IdentityPatches
  import opened IdentityRewrite
  import opened Wrappers

  /** The byte at `k` belongs to a phrase that is to go from one of these strings. */
  ghost predicate Goes(m: Matchers, b: Bytes, rows: seq<Span>, k: int) {
    exists s: Span, spans ::
      s in rows && s.start + 2 <= s.end <= |b| && Emits(m, b, s.start + 1, s.end - 1, spans) && Covered(spans, k)
  }

  /** The bytes from `k` on that do not go. */
  ghost function Rest(m: Matchers, b: Bytes, rows: seq<Span>, k: nat): Bytes
    requires k <= |b|
    decreases |b| - k
  {
    if k == |b| then [] else (if Goes(m, b, rows, k) then [] else [b[k]]) + Rest(m, b, rows, k + 1)
  }

  lemma GoesExactly(m: Matchers, b: Bytes, rows: seq<Span>, k: int)
    requires Sound(m) && Readable(b, rows) && PatchesOf(m, b, rows).Some?
    ensures Goes(m, b, rows, k) <==> Covered(PatchesOf(m, b, rows).value, k)
  {
    hide Sound, StringOk, Emits, Covered, PatchesOf, TextRemovals;
    PatchesCover(m, b, rows, k);
    if Goes(m, b, rows, k) {
      var s: Span, spans :| s in rows && s.start + 2 <= s.end <= |b| && Emits(m, b, s.start + 1, s.end - 1, spans)
                            && Covered(spans, k);
      EmitsExactly(m, b, s.start + 1, s.end - 1, spans);
      assert CutFrom(m, b, s, k);
    }
    if s :| s in rows && CutFrom(m, b, s, k) {
      var spans := TextRemovals(m, b, s.start + 1, s.end - 1).value;
      EmitsExactly(m, b, s.start + 1, s.end - 1, spans);
      assert Emits(m, b, s.start + 1, s.end - 1, spans) && Covered(spans, k);
    }
  }

  lemma {:induction false} RestIsKept(m: Matchers, b: Bytes, rows: seq<Span>, k: nat)
    requires Sound(m) && Readable(b, rows) && PatchesOf(m, b, rows).Some? && k <= |b|
    ensures Rest(m, b, rows, k) == Keep(b[k..], k, PatchesOf(m, b, rows).value)
    decreases |b| - k
  {
    hide Sound, Readable, Covered, PatchesOf, Goes;
    if k < |b| {
      GoesExactly(m, b, rows, k);
      RestIsKept(m, b, rows, k + 1);
      assert b[k..][0] == b[k] && b[k..][1..] == b[k + 1..];
    }
  }

  lemma {:induction false} NothingKeptBack(m: Matchers, b: Bytes, rows: seq<Span>, k: nat)
    requires k <= |b| && forall j | k <= j < |b| :: !Goes(m, b, rows, j)
    ensures Rest(m, b, rows, k) == b[k..]
    decreases |b| - k
  {
    hide Goes;
    if k < |b| {
      NothingKeptBack(m, b, rows, k + 1);
      assert b[k..] == [b[k]] + b[k + 1..];
    }
  }

  /** What an accepted request is rewritten to is what is left of its bytes. */
  lemma RewrittenIsRest(m: Matchers, route: Route, t: Text)
    requires Sound(m) && Accepted(route, t)
    ensures PrintText(Rewritten(m, route, t)) == Rest(m, PrintText(t), Rows(route, t), 0)
    ensures Patches(m, route, t) == [] ==> Rest(m, PrintText(t), Rows(route, t), 0) == PrintText(t)
  {
    hide Sound, Accepted, Rows, PatchesOf, PrintText, Patches, Rewritten, Keep, Rest, Readable;
    PatchesAre(m, route, t);
    RewrittenIsAccepted(m, route, t);
    var b := PrintText(t);
    RestIsKept(m, b, Rows(route, t), 0);
    assert b[0..] == b;
    if Patches(m, route, t) == [] {
      NothingCovered();
      KeepAll(b, 0, []);
    }
  }

  // ------------------------------------------------------------------------- the path

  /** Which fields of a request hold instructions depends on how its path ends, or on how
      it begins. */
  lemma RouteMeans(path: string)
    ensures var r := RouteOf(path);
            && (r.responses <==> exists p :: path == p + "/responses")
            && (r.chat <==> exists p :: path == p + "/chat/completions")
            && (r.messages <==> exists p :: path == p + "/messages")
            && (r.models <==> exists p :: path == "/v1beta/models/" + p)
  {
    Ends(path, "/responses");
    Ends(path, "/chat/completions");
    Ends(path, "/messages");
    if r: string :| path == "/v1beta/models/" + r {
      assert MODELS <= path;
    }
    if MODELS <= path {
      assert path == "/v1beta/models/" + path[|MODELS|..];
    }
  }

  lemma Ends(path: string, suffix: string)
    ensures HasSuffix(path, suffix) <==> exists p :: path == p + suffix
  {
    if HasSuffix(path, suffix) {
      assert path == path[..|path| - |suffix|] + suffix;
    }
  }
}

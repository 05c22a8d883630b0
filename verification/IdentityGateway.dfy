/** A request body on its way through the gateway
    (internal/gateway/codex_identity.go:53-90): scanned, and replaced only if something
    is to be removed and the model's routing asks for it. */
module IdentityGateway {
  import opened JsonGrammar
  import opened IdentityScan
  import opened IdentityTree
  import opened IdentityWalk
  import opened IdentityText
  import opened IdentityTextReader
  import opened IdentityPatches
  import opened IdentityReader
  import opened IdentityRewrite
  import opened IdentityCuts
  import opened IdentityOutcome
  import opened Wrappers

  function After(s: seq<Span>, r: Option<seq<Span>>): Option<seq<Span>> {
    if r.None? then None else Some(s + r.value)
  }

  lemma AfterNothing(r: Option<seq<Span>>)
    ensures After([], r) == r
  {
    if r.Some? {
      assert [] + r.value == r.value;
    }
  }

  lemma AfterMore(s: seq<Span>, t: seq<Span>, r: Option<seq<Span>>)
    ensures After(s + t, r) == After(s, After(t, r))
  {
    if r.Some? {
      assert s + t + r.value == s + (t + r.value);
    }
  }

  /** The text scanner over all rows that the JSON scanner handed on. */
  method ProcessRows(m: Matchers, b: Bytes, rows: seq<Span>) returns (patches: seq<Span>)
    requires Sound(m) && Readable(b, rows)
    ensures PatchesOf(m, b, rows) == Some(patches)
  {
    hide StringOk, Sound, TextRemovals, Cuts;
    patches := [];
    var i := 0;
    assert rows[0..] == rows;
    AfterNothing(PatchesOf(m, b, rows));
    while i < |rows|
      invariant 0 <= i <= |rows|
      invariant After(patches, PatchesOf(m, b, rows[i..])) == PatchesOf(m, b, rows)
    {
      assert rows[i] in rows;
      assert rows[i..][0] == rows[i] && rows[i..][1..] == rows[i + 1..];
      var emitted := ScanIdentityText(m, b, rows[i].start + 1, rows[i].end - 1);
      AfterMore(patches, emitted, PatchesOf(m, b, rows[i + 1..]));
      patches := patches + emitted;
      i := i + 1;
    }
    assert rows[i..] == [] && patches + [] == patches;
  }

  function BeforeColon(s: string): string {
    if s == "" || s[0] == ':' then "" else [s[0]] + BeforeColon(s[1..])
  }

  /** The model a request is for: the one it names, or the one in a path that has it. */
  function Wanted(path: string, model: Name): Name {
    if model == [] && MODELS <= path then Ascii(BeforeColon(path[|MODELS|..])) else model
  }

  function NamedModel(t: Text): Name {
    Word(Lookup(MembersOf(t.value), |t.before| + 1, "model"), 2048)
  }

  /** What becomes of a body that the scanner accepts. */
  function Forwarded(m: Matchers, path: string, allowed: Name -> bool, t: Text): Bytes
    requires Sound(m) && Accepted(RouteOf(path), t)
  {
    if Patches(m, RouteOf(path), t) == [] || !allowed(Wanted(path, NamedModel(t)))
    then PrintText(t) else PrintText(Rewritten(m, RouteOf(path), t))
  }

  /** Either nothing is touched, or exactly the phrases that are to go are gone. */
  lemma ForwardedIsRest(m: Matchers, path: string, allowed: Name -> bool, t: Text)
    requires Sound(m) && Accepted(RouteOf(path), t)
    ensures Forwarded(m, path, allowed, t)
         == if allowed(Wanted(path, NamedModel(t))) then Rest(m, PrintText(t), Rows(RouteOf(path), t), 0)
            else PrintText(t)
  {
    RewrittenIsRest(m, RouteOf(path), t);
    hide Sound, Accepted, PrintText, Rewritten, Patches, Rest, Rows, RouteOf, Wanted, NamedModel;
  }

  /** The model is the one that the request names; if it names none, a path of the models
      route names it, up to the colon before the action. */
  lemma WantedMeans(path: string, model: Name)
    ensures model != [] ==> Wanted(path, model) == model
    ensures model == [] && !("/v1beta/models/" <= path) ==> Wanted(path, model) == []
    ensures model == [] ==> forall name: string, action: string | ':' !in name ::
              && (path == "/v1beta/models/" + name + ":" + action ==> Wanted(path, model) == Ascii(name))
              && (path == "/v1beta/models/" + name ==> Wanted(path, model) == Ascii(name))
  {
    forall name: string, action: string | ':' !in name
      ensures path == "/v1beta/models/" + name + ":" + action ==> BeforeColon(path[|MODELS|..]) == name
      ensures path == "/v1beta/models/" + name ==> BeforeColon(path[|MODELS|..]) == name
    {
      if path == "/v1beta/models/" + name + ":" + action {
        assert path[|MODELS|..] == name + ":" + action;
        CutAtColon(name, ":" + action);
        assert name + (":" + action) == name + ":" + action;
      }
      if path == "/v1beta/models/" + name {
        assert path[|MODELS|..] == name + "";
        CutAtColon(name, "");
      }
    }
  }

  lemma {:induction false} CutAtColon(name: string, rest: string)
    requires ':' !in name && (rest == "" || rest[0] == ':')
    ensures BeforeColon(name + rest) == name
    decreases |name|
  {
    if name == "" {
      assert name + rest == rest;
    } else {
      assert (name + rest)[1..] == name[1..] + rest;
      CutAtColon(name[1..], rest);
      assert name == [name[0]] + name[1..];
    }
  }

  /** A body that is no accepted request goes on as it came; any other is rewritten as
      its tree says, and loses exactly the bytes of the phrases that are to go. */
  method RewriteBody(m: Matchers, path: string, allowed: Name -> bool, b: Bytes) returns (body: Bytes)
    requires Sound(m)
    ensures !(exists t :: Accepted(RouteOf(path), t) && PrintText(t) == b) ==> body == b
    ensures forall t | Accepted(RouteOf(path), t) && PrintText(t) == b :: body == Forwarded(m, path, allowed, t)
    ensures forall t | Accepted(RouteOf(path), t) && PrintText(t) == b ::
              body == if allowed(Wanted(path, NamedModel(t))) then Rest(m, b, Rows(RouteOf(path), t), 0) else b
  {
    hide Rest, Sound, Accepted, ScanText, PrintText, PatchesOf, Rows, RouteOf;
    var route := RouteOf(path);
    ScanAcceptsExactly(route, b);
    var s := new Reader(b);
    var ok, model := s.ScanRequest(route);
    if !ok {
      return b;
    }
    ghost var t :| Accepted(route, t) && PrintText(t) == b;
    forall t | Accepted(route, t) && PrintText(t) == b
      ensures s.processed == Rows(route, t) && model == NamedModel(t)
    {
      ScanHandsRows(route, t);
    }
    PatchesAre(m, route, t);
    var patches := ProcessRows(m, b, s.processed);
    forall t | Accepted(route, t) && PrintText(t) == b
      ensures Patches(m, route, t) == patches && Keep(b, 0, patches) == PrintText(Rewritten(m, route, t))
    {
      PatchesAre(m, route, t);
      RewrittenIsAccepted(m, route, t);
    }
    forall t | Accepted(route, t) && PrintText(t) == b
      ensures Forwarded(m, path, allowed, t)
           == if allowed(Wanted(path, NamedModel(t))) then Rest(m, b, Rows(route, t), 0) else b
    {
      ForwardedIsRest(m, path, allowed, t);
    }
    if |patches| == 0 || !allowed(Wanted(path, model)) {
      return b;
    }
    var output, length := ApplyPatches(b, patches);
    body := output.value;
  }

  lemma ScanHandsRows(route: Route, t: Text)
    requires Accepted(route, t)
    ensures var r := ScanText(route, PrintText(t));
            && r.Some? && r.value.processed == Rows(route, t)
            && Metadata(r.value, "model") == NamedModel(t)
  {
    hide ScanText, Selected, Lookup, Word, WellFormed, Clean, PrintText;
    ScanFindsSelected(route, t);
  }
}

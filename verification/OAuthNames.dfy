/** The names a user can call on an OAuth channel, and when two of them are in conflict
    (internal/service/keys.go:1364-1433, internal/service/oauth_alias_conflicts.go:21-109).
    Names are trimmed and in lower case, which is how the source compares them. */
module OAuthNames {

  type Name = string

  datatype Setting = Setting(id: Name, enabled: bool)

  /** `name` is the model, `alias` what the user calls it; `fork` keeps the model's own
      name as well. */
  datatype Alias = Alias(name: Name, alias: Name, fork: bool)

  // ---------------------------------------------------------------- what is visible

  predicate Known(models: seq<Setting>, m: Name) {
    Setting(m, true) in models || Setting(m, false) in models
  }

  predicate On(models: seq<Setting>, m: Name) {
    Setting(m, true) in models
  }

  predicate HasAlias(aliases: seq<Alias>, m: Name, n: Name) {
    Alias(m, n, true) in aliases || Alias(m, n, false) in aliases
  }

  predicate Forked(aliases: seq<Alias>, m: Name) {
    exists k :: 0 <= k < |aliases| && aliases[k].name == m && aliases[k].fork
  }

  /** The model has an alias other than its own name. */
  predicate Renamed(aliases: seq<Alias>, m: Name) {
    exists k :: 0 <= k < |aliases| && aliases[k].name == m && aliases[k].alias != "" && aliases[k].alias != m
  }

  predicate KeepsOriginal(aliases: seq<Alias>, m: Name) {
    !Renamed(aliases, m) || Forked(aliases, m)
  }

  /** A user can call `n` and reaches the model `m`; `alias` says whether that is another
      name than the model's own.  A model that is off shows nothing; a configured model
      that the catalog does not list shows what its entries say. */
  predicate Shows(models: seq<Setting>, aliases: seq<Alias>, n: Name, m: Name, alias: bool) {
    && n != ""
    && if Known(models, m) then
         On(models, m) && if alias then n != m && HasAlias(aliases, m, n) else n == m && KeepsOriginal(aliases, m)
       else if alias then n != m && HasAlias(aliases, m, n)
       else n == m && (HasAlias(aliases, m, m) || Forked(aliases, m))
  }

  /** Every visible name reaches one model; an entry that names no model does not count. */
  ghost predicate OneOwner(models: seq<Setting>, aliases: seq<Alias>) {
    forall n, m, m', a, a' ::
      Shows(models, aliases, n, m, a) && Shows(models, aliases, n, m', a') && m != "" && m' != "" ==> m == m'
  }

  /** No name of one channel is an alias there or on the other: only models' own names may
      be shared, which pools them on purpose. */
  ghost predicate Apart(models: seq<Setting>, aliases: seq<Alias>, models': seq<Setting>, aliases': seq<Alias>) {
    forall n, m, m', a, a' ::
      Shows(models, aliases, n, m, a) && Shows(models', aliases', n, m', a') ==> !a && !a'
  }

  // ------------------------------------------------------------- the check of a channel

  /** A claim of a name by an owner. */
  datatype Claim = Claim(name: Name, owner: Name)

  function ModelClaims(m: Setting, aliases: seq<Alias>): seq<Claim> {
    if !m.enabled then []
    else (if KeepsOriginal(aliases, m.id) then [Claim(m.id, m.id)] else []) + AliasClaims(m.id, aliases)
  }

  /** The aliases of one model, without its own name. */
  function AliasClaims(m: Name, aliases: seq<Alias>): seq<Claim> {
    if aliases == [] then []
    else
      (if aliases[0].name == m && aliases[0].alias != m then [Claim(aliases[0].alias, m)] else [])
      + AliasClaims(m, aliases[1..])
  }

  function ModelsClaims(models: seq<Setting>, aliases: seq<Alias>): seq<Claim> {
    if models == [] then [] else ModelClaims(models[0], aliases) + ModelsClaims(models[1..], aliases)
  }

  /** The claims of a model that the catalog does not list, in the order of its entries. */
  function GroupClaims(m: Name, aliases: seq<Alias>): seq<Claim> {
    if aliases == [] then []
    else
      var e := aliases[0];
      (if e.name != m then [] else [Claim(e.alias, m)] + if e.fork then [Claim(m, m)] else [])
      + GroupClaims(m, aliases[1..])
  }

  function OtherClaims(order: seq<Name>, aliases: seq<Alias>): seq<Claim> {
    if order == [] then [] else GroupClaims(order[0], aliases) + OtherClaims(order[1..], aliases)
  }

  /** The models that only entries name. */
  function Missing(models: seq<Setting>, aliases: seq<Alias>): set<Name> {
    set e | e in aliases && !Known(models, e.name) :: e.name
  }

  /** An order in which a map can yield a set of models. */
  ghost predicate Orders(order: seq<Name>, s: set<Name>) {
    && (forall m :: m in order <==> m in s)
    && (forall i, j | 0 <= i < j < |order| :: order[i] != order[j])
  }

  /** All claims in the order in which they are made; `order` is how the map yields the
      models that the catalog does not list. */
  function Claims(models: seq<Setting>, aliases: seq<Alias>, order: seq<Name>): seq<Claim> {
    ModelsClaims(models, aliases) + OtherClaims(order, aliases)
  }

  ghost predicate Agree(claims: seq<Claim>) {
    forall i, j | 0 <= i < j < |claims| ::
      claims[i].name == claims[j].name && claims[i].name != "" && claims[i].owner != "" && claims[j].owner != ""
      ==> claims[i].owner == claims[j].owner
  }

  /** No claim of a name comes after one of another owner.  A claim without an owner is
      nobody's, but it may not come after one that has an owner. */
  ghost predicate InTurn(claims: seq<Claim>) {
    forall i, j | 0 <= i < j < |claims| ::
      claims[i].name == claims[j].name && claims[i].name != "" && claims[i].owner != ""
      ==> claims[i].owner == claims[j].owner
  }

  class NameTable {
    var used: map<Name, Name>
    ghost var made: seq<Claim>

    constructor ()
      ensures Valid() && made == []
    {
      used, made := map[], [];
    }

    /** The table holds the last owner of every claimed name. */
    ghost predicate Valid()
      reads this
    {
      && InTurn(made)
      && (forall n | n in used :: n != "" && Claim(n, used[n]) in made)
      && (forall c | c in made && c.name != "" :: c.name in used && (c.owner != "" ==> used[c.name] == c.owner))
    }

    method Take(name: Name, owner: Name) returns (ok: bool)
      requires Valid()
      modifies this
      ensures Valid() && (ok ==> made == old(made) + [Claim(name, owner)])
      ensures !ok ==> !InTurn(old(made) + [Claim(name, owner)])
    {
      ghost var c := Claim(name, owner);
      ghost var before := made;
      if name == "" {
        made := made + [c];
        return true;
      }
      if name in used && used[name] != "" && used[name] != owner {
        ghost var i :| 0 <= i < |made| && made[i] == Claim(name, used[name]);
        assert (made + [c])[i] == made[i] && (made + [c])[|made|] == c;
        return false;
      }
      made := made + [c];
      used := used[name := owner];
      forall i, j | 0 <= i < j < |made| && made[i].name == made[j].name && made[i].name != "" && made[i].owner != ""
        ensures made[i].owner == made[j].owner
      {
        assert before[i] in before;
      }
      assert forall n | n in used && n != name :: Claim(n, used[n]) in before;
      assert made[|before|] == c;
      ok := true;
    }
  }

  lemma NotEvenFirst(s: seq<Claim>, t: seq<Claim>)
    requires !InTurn(s)
    ensures !InTurn(s + t)
  {
    var i, j :| 0 <= i < j < |s| && s[i].name == s[j].name && s[i].name != ""
                && s[i].owner != "" && s[i].owner != s[j].owner;
    assert (s + t)[i] == s[i] && (s + t)[j] == s[j];
  }

  /** Claims a list of names; stops at the first that another owner holds. */
  method TakeAll(table: NameTable, claims: seq<Claim>) returns (ok: bool)
    requires table.Valid()
    modifies table
    ensures table.Valid() && (ok ==> table.made == old(table.made) + claims)
    ensures !ok ==> !InTurn(old(table.made) + claims)
  {
    hide Agree, InTurn;
    ghost var before := table.made;
    var i := 0;
    assert before + claims[..0] == before;
    while i < |claims|
      invariant 0 <= i <= |claims| && table.Valid() && table.made == before + claims[..i]
    {
      assert before + claims[..i + 1] == before + claims[..i] + [claims[i]];
      ok := table.Take(claims[i].name, claims[i].owner);
      if !ok {
        NotEvenFirst(before + claims[..i + 1], claims[i + 1..]);
        assert before + claims == before + claims[..i + 1] + claims[i + 1..];
        return;
      }
      i := i + 1;
    }
    assert claims[..i] == claims;
    ok := true;
  }

  method KeepsOriginalName(aliases: seq<Alias>, m: Name) returns (keep: bool)
    ensures keep == KeepsOriginal(aliases, m)
  {
    keep := true;
    var i := 0;
    while i < |aliases|
      invariant 0 <= i <= |aliases| && keep
      invariant forall k | 0 <= k < i :: !(aliases[k].name == m && aliases[k].alias != "" && aliases[k].alias != m)
    {
      if aliases[i].name == m && aliases[i].alias != "" && aliases[i].alias != m {
        keep := false;
        break;
      }
      i := i + 1;
    }
    ghost var renamed := !keep;
    i := 0;
    while i < |aliases|
      invariant 0 <= i <= |aliases| && renamed == Renamed(aliases, m)
      invariant keep == (!renamed || exists k :: 0 <= k < i && aliases[k].name == m && aliases[k].fork)
    {
      if aliases[i].name == m && aliases[i].fork {
        keep := true;
      }
      i := i + 1;
    }
  }

  method AliasesOf(m: Name, aliases: seq<Alias>) returns (claims: seq<Claim>)
    ensures claims == AliasClaims(m, aliases)
  {
    claims := [];
    var i := 0;
    assert aliases[0..] == aliases && [] + AliasClaims(m, aliases) == AliasClaims(m, aliases);
    while i < |aliases|
      invariant 0 <= i <= |aliases| && claims + AliasClaims(m, aliases[i..]) == AliasClaims(m, aliases)
    {
      assert aliases[i..][0] == aliases[i] && aliases[i..][1..] == aliases[i + 1..];
      if aliases[i].name == m && aliases[i].alias != m {
        assert claims + ([Claim(aliases[i].alias, m)] + AliasClaims(m, aliases[i + 1..]))
            == claims + [Claim(aliases[i].alias, m)] + AliasClaims(m, aliases[i + 1..]);
        claims := claims + [Claim(aliases[i].alias, m)];
      } else {
        assert [] + AliasClaims(m, aliases[i + 1..]) == AliasClaims(m, aliases[i + 1..]);
      }
      i := i + 1;
    }
    assert claims + [] == claims;
  }

  /** Takes one group of claims; `rest` is what is still to come. */
  method TakeGroup(table: NameTable, claims: seq<Claim>, ghost rest: seq<Claim>, ghost all: seq<Claim>)
      returns (ok: bool)
    requires table.Valid() && all == table.made + (claims + rest)
    modifies table
    ensures table.Valid() && (ok ==> table.made + rest == all) && (!ok ==> !InTurn(all))
  {
    hide Agree, InTurn;
    ghost var before := table.made;
    assert before + (claims + rest) == before + claims + rest;
    ok := TakeAll(table, claims);
    if !ok {
      NotEvenFirst(before + claims, rest);
    }
  }

  method ClaimModels(table: NameTable, models: seq<Setting>, aliases: seq<Alias>) returns (ok: bool)
    requires table.Valid()
    modifies table
    ensures table.Valid() && (ok ==> table.made == old(table.made) + ModelsClaims(models, aliases))
    ensures !ok ==> !InTurn(old(table.made) + ModelsClaims(models, aliases))
  {
    hide Agree, InTurn, KeepsOriginal, NameTable.Valid;
    var i := 0;
    ghost var all := table.made + ModelsClaims(models, aliases);
    assert models[0..] == models;
    while i < |models|
      invariant 0 <= i <= |models| && table.Valid() && table.made + ModelsClaims(models[i..], aliases) == all
    {
      var m := models[i];
      assert models[i..][0] == m && models[i..][1..] == models[i + 1..];
      var keep := KeepsOriginalName(aliases, m.id);
      var own := AliasesOf(m.id, aliases);
      ok := TakeGroup(table, if !m.enabled then [] else (if keep then [Claim(m.id, m.id)] else []) + own,
                      ModelsClaims(models[i + 1..], aliases), all);
      if !ok {
        return;
      }
      i := i + 1;
    }
    assert table.made + [] == table.made;
    ok := true;
  }

  method GroupOf(m: Name, aliases: seq<Alias>) returns (claims: seq<Claim>)
    ensures claims == GroupClaims(m, aliases)
  {
    claims := [];
    var i := 0;
    assert aliases[0..] == aliases;
    while i < |aliases|
      invariant 0 <= i <= |aliases| && claims + GroupClaims(m, aliases[i..]) == GroupClaims(m, aliases)
    {
      var e := aliases[i];
      assert aliases[i..][0] == e && aliases[i..][1..] == aliases[i + 1..];
      var more := if e.name != m then [] else [Claim(e.alias, m)] + if e.fork then [Claim(m, m)] else [];
      assert claims + (more + GroupClaims(m, aliases[i + 1..])) == claims + more + GroupClaims(m, aliases[i + 1..]);
      claims := claims + more;
      i := i + 1;
    }
    assert claims + [] == claims;
  }

  lemma {:induction false} OtherClaimsJoin(first: seq<Name>, rest: seq<Name>, aliases: seq<Alias>)
    ensures OtherClaims(first + rest, aliases) == OtherClaims(first, aliases) + OtherClaims(rest, aliases)
    decreases |first|
  {
    if first == [] {
      assert first + rest == rest;
    } else {
      assert (first + rest)[1..] == first[1..] + rest;
      OtherClaimsJoin(first[1..], rest, aliases);
    }
  }

  lemma {:induction false} SomeOrder(s: set<Name>) returns (order: seq<Name>)
    ensures Orders(order, s)
    decreases |s|
  {
    order := [];
    if s == {} {
    } else {
      var m :| m in s;
      var rest := SomeOrder(s - {m});
      order := [m] + rest;
    }
  }

  lemma OneOrder(first: seq<Name>, m: Name, rest: seq<Name>, done: set<Name>, left: set<Name>)
    requires Orders(first, done) && Orders(rest, left) && m !in done && m !in left && done !! left
    ensures Orders(first + [m] + rest, done + {m} + left)
  {
    var order := first + [m] + rest;
    forall i, j | 0 <= i < j < |order|
      ensures order[i] != order[j]
    {
      assert i < |first| ==> order[i] in first;
      assert j < |first| ==> order[j] == first[j];
      assert j > |first| ==> order[j] == rest[j - |first| - 1] && order[j] in rest;
      assert i > |first| ==> order[i] == rest[i - |first| - 1];
    }
  }

  /** The models that only entries name, one after the other as the map yields them. */
  method ClaimOthers(table: NameTable, models: seq<Setting>, aliases: seq<Alias>)
      returns (ok: bool, ghost order: seq<Name>)
    requires table.Valid()
    modifies table
    ensures table.Valid() && Orders(order, Missing(models, aliases))
    ensures ok ==> table.made == old(table.made) + OtherClaims(order, aliases)
    ensures !ok ==> !InTurn(old(table.made) + OtherClaims(order, aliases))
  {
    hide Agree, InTurn, NameTable.Valid, Known, GroupClaims, OtherClaims;
    order := [];
    ghost var before := table.made;
    var left := Missing(models, aliases);
    ghost var done: set<Name> := {};
    NothingTaken(before, aliases);
    while left != {}
      invariant table.Valid() && table.made == before + OtherClaims(order, aliases)
      invariant Orders(order, done) && done !! left && done + left == Missing(models, aliases)
      decreases left
    {
      var m :| m in left;
      left := left - {m};
      var claims := GroupOf(m, aliases);
      ghost var rest := SomeOrder(left);
      OneOrder(order, m, rest, done, left);
      OneOrder(order, m, [], done, {});
      assert order + [m] + [] == order + [m] && done + {m} + {} == done + {m};
      OneTaken(before, order, m, rest, aliases);
      ok := TakeGroup(table, claims, OtherClaims(rest, aliases), before + OtherClaims(order + [m] + rest, aliases));
      if !ok {
        order := order + [m] + rest;
        assert done + {m} + left == Missing(models, aliases);
        return;
      }
      order, done := order + [m], done + {m};
      SameEnd(table.made, before + OtherClaims(order, aliases), OtherClaims(rest, aliases));
    }
    ok := true;
  }

  lemma NothingTaken(before: seq<Claim>, aliases: seq<Alias>)
    ensures before == before + OtherClaims([], aliases)
  {
  }

  lemma OneTaken(before: seq<Claim>, order: seq<Name>, m: Name, rest: seq<Name>, aliases: seq<Alias>)
    ensures before + OtherClaims(order + [m] + rest, aliases)
         == before + OtherClaims(order, aliases) + (GroupClaims(m, aliases) + OtherClaims(rest, aliases))
    ensures before + OtherClaims(order + [m] + rest, aliases)
         == before + OtherClaims(order + [m], aliases) + OtherClaims(rest, aliases)
  {
    hide GroupClaims;
    OtherClaimsJoin(order + [m], rest, aliases);
    OtherClaimsJoin(order, [m], aliases);
    assert [m][1..] == [] && OtherClaims([m], aliases) == GroupClaims(m, aliases) + [];
    hide OtherClaims;
  }

  lemma SameEnd(s: seq<Claim>, t: seq<Claim>, end: seq<Claim>)
    requires s + end == t + end
    ensures s == t
  {
    assert |s| == |t|;
    assert (s + end)[..|s|] == s && (t + end)[..|s|] == t;
  }

  predicate NamedModels(models: seq<Setting>) {
    forall m | m in models :: m.id != ""
  }

  /** An entry that names no model has a name that a model shows. */
  ghost predicate BlankShared(models: seq<Setting>, aliases: seq<Alias>) {
    exists n, m, a, a' :: m != "" && Shows(models, aliases, n, m, a) && Shows(models, aliases, n, "", a')
  }

  /** And the model is one of the catalog. */
  ghost predicate BlankListed(models: seq<Setting>, aliases: seq<Alias>) {
    exists n, m, a, a' ::
      m != "" && Known(models, m) && Shows(models, aliases, n, m, a) && Shows(models, aliases, n, "", a')
  }

  /** `validateOAuthAliasNames`, for the order in which the map yielded the models that the
      catalog does not list.  No error means one owner for every visible name; an error
      means that some name has two, or that an entry without a model shares a name. */
  method ValidateAliasNames(models: seq<Setting>, aliases: seq<Alias>) returns (ok: bool, ghost order: seq<Name>)
    ensures Orders(order, Missing(models, aliases)) && (ok <==> InTurn(Claims(models, aliases, order)))
    ensures ok ==> OneOwner(models, aliases)
    ensures NamedModels(models) ==>
              (ok ==> !BlankListed(models, aliases))
              && (OneOwner(models, aliases) && !BlankShared(models, aliases) ==> ok)
  {
    hide InTurn, Agree, OneOwner, BlankListed, BlankShared, NamedModels, Orders;
    var table := new NameTable();
    ok := ClaimModels(table, models, aliases);
    assert [] + ModelsClaims(models, aliases) == ModelsClaims(models, aliases);
    if !ok {
      order := SomeOrder(Missing(models, aliases));
      NotEvenFirst(ModelsClaims(models, aliases), OtherClaims(order, aliases));
    } else {
      ok, order := ClaimOthers(table, models, aliases);
      if ok {
        TableAgrees(table);
      }
    }
    if ok {
      TurnsAgree(Claims(models, aliases, order));
      AgreeIsOneOwner(models, aliases, order);
    }
    if NamedModels(models) {
      if ok {
        BlankListedFails(models, aliases, order);
      } else if OneOwner(models, aliases) && !BlankShared(models, aliases) {
        NoBlanksPass(models, aliases, order);
      }
    }
  }

  /** If every entry names a model, the check is exact in every order. */
  lemma NamedIsUnshared(models: seq<Setting>, aliases: seq<Alias>)
    requires NamedModels(models) && forall e | e in aliases :: e.name != ""
    ensures !BlankShared(models, aliases)
  {
    assert forall n, a :: !Shows(models, aliases, n, "", a);
    hide Shows;
  }

  lemma TurnsAgree(claims: seq<Claim>)
    requires InTurn(claims)
    ensures Agree(claims)
  {
  }

  /** A claim of an entry without a model is made after those of the catalog. */
  lemma BlankListedFails(models: seq<Setting>, aliases: seq<Alias>, order: seq<Name>)
    requires Orders(order, Missing(models, aliases)) && InTurn(Claims(models, aliases, order)) && NamedModels(models)
    ensures !BlankListed(models, aliases)
  {
    hide Shows, Known, ModelsClaims, OtherClaims, InTurn, Orders;
    if BlankListed(models, aliases) {
      var n, m, a, a' :| m != "" && Known(models, m) && Shows(models, aliases, n, m, a)
                         && Shows(models, aliases, n, "", a');
      var first, rest := ModelsClaims(models, aliases), OtherClaims(order, aliases);
      ListedClaims(models, aliases, order, n, m, a);
      ListedClaims(models, aliases, order, n, "", a');
      var i :| 0 <= i < |first| && first[i] == Claim(n, m);
      var j :| 0 <= j < |rest| && rest[j] == Claim(n, "");
      NotInTurn(first + rest, i, |first| + j);
    }
  }

  lemma NotInTurn(claims: seq<Claim>, i: nat, j: nat)
    requires i < j < |claims| && claims[i].name == claims[j].name && claims[i].name != ""
    requires claims[i].owner != "" && claims[i].owner != claims[j].owner
    ensures !InTurn(claims)
  {
  }

  /** Which of the two lists of claims a visible name is in. */
  lemma ListedClaims(models: seq<Setting>, aliases: seq<Alias>, order: seq<Name>, n: Name, m: Name, a: bool)
    requires Orders(order, Missing(models, aliases)) && NamedModels(models) && Shows(models, aliases, n, m, a)
    ensures n != "" && (m == "" ==> !Known(models, m))
    ensures if Known(models, m) then Claim(n, m) in ModelsClaims(models, aliases)
            else Claim(n, m) in OtherClaims(order, aliases)
  {
    ModelsClaimsMean(models, aliases, n, m);
    OtherClaimsMean(order, aliases, n, m);
    MissingMeans(models, aliases, m);
    hide HasAlias, Forked, KeepsOriginal, Missing;
  }

  /** With one owner for each name, only an entry without a model can come out of turn. */
  lemma NoBlanksPass(models: seq<Setting>, aliases: seq<Alias>, order: seq<Name>)
    requires Orders(order, Missing(models, aliases)) && OneOwner(models, aliases) && !BlankShared(models, aliases)
    ensures InTurn(Claims(models, aliases, order))
  {
    hide Claims, Shows, OneOwner, Orders;
    var claims := Claims(models, aliases, order);
    AgreeIsOneOwner(models, aliases, order);
    forall i, j | 0 <= i < j < |claims| && claims[i].name == claims[j].name && claims[i].name != ""
      && claims[i].owner != ""
      ensures claims[i].owner == claims[j].owner
    {
      assert claims[i] in claims && claims[j] in claims;
      ClaimsMean(models, aliases, order, claims[i].name, claims[i].owner);
      ClaimsMean(models, aliases, order, claims[j].name, claims[j].owner);
    }
  }

  /** The check passes however the map yields the models exactly if every visible name has
      one owner and no entry without a model shares a name. */
  lemma PassesInEveryOrderExactly(models: seq<Setting>, aliases: seq<Alias>)
    requires NamedModels(models)
    ensures (forall order | Orders(order, Missing(models, aliases)) :: InTurn(Claims(models, aliases, order)))
            <==> OneOwner(models, aliases) && !BlankShared(models, aliases)
  {
    hide OneOwner, BlankShared, InTurn, Orders, Claims, Missing;
    var some := SomeOrder(Missing(models, aliases));
    if OneOwner(models, aliases) && !BlankShared(models, aliases) {
      forall order | Orders(order, Missing(models, aliases))
        ensures InTurn(Claims(models, aliases, order))
      {
        NoBlanksPass(models, aliases, order);
      }
    } else if BlankShared(models, aliases) {
      var order := BlankLast(models, aliases);
    } else if InTurn(Claims(models, aliases, some)) {
      TurnsAgree(Claims(models, aliases, some));
      AgreeIsOneOwner(models, aliases, some);
    }
  }

  /** The entries without a model come last. */
  lemma BlankLast(models: seq<Setting>, aliases: seq<Alias>) returns (order: seq<Name>)
    requires NamedModels(models) && BlankShared(models, aliases)
    ensures Orders(order, Missing(models, aliases)) && !InTurn(Claims(models, aliases, order))
  {
    hide Shows, ModelsClaims, OtherClaims, InTurn, Orders, Missing, GroupClaims;
    var n, m, a, a' :| m != "" && Shows(models, aliases, n, m, a) && Shows(models, aliases, n, "", a');
    var others := Missing(models, aliases);
    BlankIsMissing(models, aliases, n, a');
    var rest := SomeOrder(others - {""});
    NoOrder();
    OneOrder(rest, "", [], others - {""}, {});
    assert rest + [""] + [] == rest + [""] && others - {""} + {""} + {} == others;
    order := rest + [""];
    NamesAreNotEmpty(models, aliases, n, m, a);
    OtherClaimsJoin(rest, [""], aliases);
    var front, back := ModelsClaims(models, aliases) + OtherClaims(rest, aliases), OtherClaims([""], aliases);
    assert Claims(models, aliases, order) == front + back;
    ClaimsMean(models, aliases, order, n, m);
    OtherClaimsMean([""], aliases, n, m);
    BlankGroup(models, aliases, n, a');
    assert Claim(n, m) in front;
    var i :| 0 <= i < |front| && front[i] == Claim(n, m);
    var j :| 0 <= j < |back| && back[j] == Claim(n, "");
    NotInTurn(front + back, i, |front| + j);
  }

  lemma NoOrder()
    ensures Orders([], {})
  {
  }

  lemma BlankIsMissing(models: seq<Setting>, aliases: seq<Alias>, n: Name, a: bool)
    requires NamedModels(models) && Shows(models, aliases, n, "", a)
    ensures "" in Missing(models, aliases)
  {
    MissingMeans(models, aliases, "");
    hide HasAlias, Forked, KeepsOriginal, Missing;
  }

  lemma BlankGroup(models: seq<Setting>, aliases: seq<Alias>, n: Name, a: bool)
    requires NamedModels(models) && Shows(models, aliases, n, "", a)
    ensures Claim(n, "") in OtherClaims([""], aliases)
  {
    OtherClaimsMean([""], aliases, n, "");
    hide HasAlias, Forked, KeepsOriginal, OtherClaims;
  }

  /** The check passes in some order exactly if every visible name has one owner and no
      entry without a model shares a name with a model of the catalog.  Between the two
      conditions Go's map decides. */
  lemma PassesInSomeOrderExactly(models: seq<Setting>, aliases: seq<Alias>)
    requires NamedModels(models)
    ensures (exists order :: Orders(order, Missing(models, aliases)) && InTurn(Claims(models, aliases, order)))
            <==> OneOwner(models, aliases) && !BlankListed(models, aliases)
  {
    hide OneOwner, BlankListed, InTurn, Orders, Claims, Missing;
    if order :| Orders(order, Missing(models, aliases)) && InTurn(Claims(models, aliases, order)) {
      TurnsAgree(Claims(models, aliases, order));
      AgreeIsOneOwner(models, aliases, order);
      BlankListedFails(models, aliases, order);
    }
    if OneOwner(models, aliases) && !BlankListed(models, aliases) {
      var order := BlankFirst(models, aliases);
    }
  }

  /** The entries without a model come first among those that the catalog does not list. */
  lemma BlankFirst(models: seq<Setting>, aliases: seq<Alias>) returns (order: seq<Name>)
    requires NamedModels(models) && OneOwner(models, aliases) && !BlankListed(models, aliases)
    ensures Orders(order, Missing(models, aliases)) && InTurn(Claims(models, aliases, order))
  {
    hide Shows, ModelsClaims, OtherClaims, InTurn, Orders, Missing, OneOwner, BlankListed, NamedModels, Known;
    var others := Missing(models, aliases);
    var rest := SomeOrder(others - {""});
    if "" in others {
      NoOrder();
      OneOrder([], "", rest, {}, others - {""});
      assert [] + [""] + rest == [""] + rest && {} + {""} + (others - {""}) == others;
      order := [""] + rest;
      OtherClaimsJoin([""], rest, aliases);
    } else {
      assert others - {""} == others;
      order := rest;
    }
    var first, end := ModelsClaims(models, aliases), OtherClaims(rest, aliases);
    var blank := if "" in others then OtherClaims([""], aliases) else [];
    assert Claims(models, aliases, order) == first + blank + end;
    AgreeIsOneOwner(models, aliases, order);
    forall n, o | Claim(n, o) in blank
      ensures o == ""
    {
      OtherClaimsMean([""], aliases, n, o);
    }
    forall n, o | Claim(n, o) in end
      ensures o != ""
    {
      OtherClaimsMean(rest, aliases, n, o);
      assert o in rest <==> o in others - {""} by { OrderHas(rest, others - {""}, o); }
    }
    forall n, o | n != "" && Claim(n, o) in first
      ensures Claim(n, "") !in first + blank
    {
      ListedFirst(models, aliases, order, n, o, first + blank, end);
    }
    BlanksInTurn(first, blank, end);
  }

  lemma OrderHas(order: seq<Name>, s: set<Name>, m: Name)
    requires Orders(order, s)
    ensures m in order <==> m in s
  {
  }

  lemma ListedFirst(models: seq<Setting>, aliases: seq<Alias>, order: seq<Name>, n: Name, o: Name, front: seq<Claim>,
      end: seq<Claim>)
    requires NamedModels(models) && Orders(order, Missing(models, aliases)) && !BlankListed(models, aliases)
    requires Claims(models, aliases, order) == front + end && n != ""
    requires Claim(n, o) in ModelsClaims(models, aliases)
    ensures Claim(n, "") !in front
  {
    hide Shows, Claims, Orders, Missing, ModelsClaims;
    ClaimsMean(models, aliases, order, n, "");
    ModelsClaimsShow(models, aliases, n, o);
    assert Known(models, o) && NamedModels(models) ==> o != "";
    assert Claim(n, "") in front ==> Claim(n, "") in front + end;
  }

  lemma ModelsClaimsShow(models: seq<Setting>, aliases: seq<Alias>, n: Name, o: Name)
    requires n != "" && Claim(n, o) in ModelsClaims(models, aliases)
    ensures Known(models, o) && (Shows(models, aliases, n, o, true) || Shows(models, aliases, n, o, false))
  {
    ModelsClaimsMean(models, aliases, n, o);
    hide HasAlias, Forked, KeepsOriginal, ModelsClaims;
  }

  lemma BlanksInTurn(first: seq<Claim>, blank: seq<Claim>, end: seq<Claim>)
    requires Agree(first + blank + end)
    requires (forall n, o | Claim(n, o) in blank :: o == "") && (forall n, o | Claim(n, o) in end :: o != "")
    requires forall n, o | n != "" && Claim(n, o) in first :: Claim(n, "") !in first + blank
    ensures InTurn(first + blank + end)
  {
    var claims := first + blank + end;
    forall i, j | 0 <= i < j < |claims| && claims[i].name == claims[j].name && claims[i].name != ""
      && claims[i].owner != ""
      ensures claims[i].owner == claims[j].owner
    {
      var c, d := claims[i], claims[j];
      assert c == Claim(c.name, c.owner) && d == Claim(d.name, d.owner);
      assert j >= |first + blank| ==> d in end;
      assert j < |first + blank| ==> d in first + blank;
      assert |first| <= i < |first + blank| ==> c in blank;
      assert i < |first| ==> c in first;
    }
  }

  /** An entry without a model beside a model of the catalog is always refused, though no
      name reaches two models; beside a model that only entries name, the map decides. */
  lemma BlankEntriesMatter()
    ensures forall s, order | s == [Alias("m", "n", false), Alias("", "n", false)]
                              || s == [Alias("", "n", false), Alias("m", "n", false)] ::
              var models := [Setting("m", true)];
              OneOwner(models, s) && (Orders(order, Missing(models, s)) ==> !InTurn(Claims(models, s, order)))
    ensures var models, s := [Setting("x", true)], [Alias("m", "n", false), Alias("", "n", false)];
            && (exists order :: Orders(order, Missing(models, s)) && InTurn(Claims(models, s, order)))
            && (exists order :: Orders(order, Missing(models, s)) && !InTurn(Claims(models, s, order)))
  {
    var listed, unlisted := [Setting("m", true)], [Setting("x", true)];
    var one, two := [Alias("m", "n", false), Alias("", "n", false)], [Alias("", "n", false), Alias("m", "n", false)];
    BlankBeside(listed, one);
    BlankBeside(listed, two);
    BlankBeside(unlisted, one);
    hide OneOwner, BlankShared, BlankListed, InTurn, Orders, Claims, Missing;
    PassesInSomeOrderExactly(listed, one);
    PassesInSomeOrderExactly(listed, two);
    PassesInSomeOrderExactly(unlisted, one);
    PassesInEveryOrderExactly(unlisted, one);
  }

  lemma BlankBeside(models: seq<Setting>, s: seq<Alias>)
    requires models == [Setting("m", true)] || models == [Setting("x", true)]
    requires forall e :: e in s <==> e == Alias("m", "n", false) || e == Alias("", "n", false)
    ensures NamedModels(models) && OneOwner(models, s) && BlankShared(models, s)
    ensures BlankListed(models, s) <==> models == [Setting("m", true)]
  {
    assert models[0] in models && Alias("m", "n", false) in s && Alias("", "n", false) in s;
    assert Shows(models, s, "n", "m", true) && Shows(models, s, "n", "", true);
    forall n, m, a | Shows(models, s, n, m, a)
      ensures (n == "n" && (m == "m" || m == "")) || (n == "x" && m == "x" && Known(models, "x"))
    {
      BesideShows(models, s, n, m, a);
    }
    hide Shows;
  }

  lemma BesideShows(models: seq<Setting>, s: seq<Alias>, n: Name, m: Name, a: bool)
    requires models == [Setting("m", true)] || models == [Setting("x", true)]
    requires forall e :: e in s <==> e == Alias("m", "n", false) || e == Alias("", "n", false)
    requires Shows(models, s, n, m, a)
    ensures (n == "n" && (m == "m" || m == "")) || (n == "x" && m == "x" && Known(models, "x"))
  {
    assert forall k | 0 <= k < |s| :: s[k] in s;
    assert Alias("m", "n", false) in s;
    var k :| 0 <= k < |s| && s[k] == Alias("m", "n", false);
    assert Renamed(s, "m") && !Forked(s, m);
    assert HasAlias(s, m, n) ==> n == "n" && (m == "m" || m == "");
    hide Forked, Renamed, HasAlias;
  }

  lemma TableAgrees(table: NameTable)
    requires table.Valid()
    ensures InTurn(table.made) && Agree(table.made)
  {
  }

  // ---------------------------------------------------------------- claims are what shows

  lemma {:induction false} AliasClaimsMean(m: Name, aliases: seq<Alias>, n: Name, o: Name)
    ensures Claim(n, o) in AliasClaims(m, aliases) <==> o == m && n != m && HasAlias(aliases, m, n)
    decreases |aliases|
  {
    if aliases == [] {
    } else {
      AliasClaimsMean(m, aliases[1..], n, o);
      assert forall e :: e in aliases <==> e == aliases[0] || e in aliases[1..];
    }
  }

  lemma {:induction false} ModelsClaimsMean(models: seq<Setting>, aliases: seq<Alias>, n: Name, o: Name)
    ensures Claim(n, o) in ModelsClaims(models, aliases)
       <==> On(models, o) && ((n == o && KeepsOriginal(aliases, o)) || (n != o && HasAlias(aliases, o, n)))
    decreases |models|
  {
    hide KeepsOriginal, HasAlias;
    if models == [] {
    } else {
      var m := models[0];
      ModelsClaimsMean(models[1..], aliases, n, o);
      AliasClaimsMean(m.id, aliases, n, o);
      assert forall e :: e in models <==> e == models[0] || e in models[1..];
    }
  }

  lemma {:induction false} GroupClaimsMean(m: Name, aliases: seq<Alias>, n: Name, o: Name)
    ensures Claim(n, o) in GroupClaims(m, aliases)
       <==> o == m && (HasAlias(aliases, m, n) || (n == m && Forked(aliases, m)))
    decreases |aliases|
  {
    if aliases == [] {
    } else {
      var e := aliases[0];
      var rest := aliases[1..];
      GroupClaimsMean(m, rest, n, o);
      assert forall x :: x in aliases <==> x == e || x in rest;
      assert Forked(aliases, m) <==> (e.name == m && e.fork) || Forked(rest, m) by {
        if Forked(rest, m) {
          var k :| 0 <= k < |rest| && rest[k].name == m && rest[k].fork;
          assert aliases[k + 1] == rest[k];
        }
        if Forked(aliases, m) {
          var k :| 0 <= k < |aliases| && aliases[k].name == m && aliases[k].fork;
          assert k > 0 ==> rest[k - 1] == aliases[k];
        }
      }
    }
  }

  lemma {:induction false} OtherClaimsMean(order: seq<Name>, aliases: seq<Alias>, n: Name, o: Name)
    ensures Claim(n, o) in OtherClaims(order, aliases)
       <==> o in order && (HasAlias(aliases, o, n) || (n == o && Forked(aliases, o)))
    decreases |order|
  {
    hide HasAlias, Forked, GroupClaims;
    if order == [] {
    } else {
      GroupClaimsMean(order[0], aliases, n, o);
      OtherClaimsMean(order[1..], aliases, n, o);
      assert forall m :: m in order <==> m == order[0] || m in order[1..];
    }
  }

  lemma MissingMeans(models: seq<Setting>, aliases: seq<Alias>, m: Name)
    ensures m in Missing(models, aliases) ==> !Known(models, m)
    ensures !Known(models, m) && Forked(aliases, m) ==> m in Missing(models, aliases)
    ensures forall n :: !Known(models, m) && HasAlias(aliases, m, n) ==> m in Missing(models, aliases)
  {
    hide Known;
    if !Known(models, m) && Forked(aliases, m) {
      var k :| 0 <= k < |aliases| && aliases[k].name == m && aliases[k].fork;
      assert aliases[k] in aliases;
    }
    forall n | !Known(models, m) && HasAlias(aliases, m, n)
      ensures m in Missing(models, aliases)
    {
      var e := Alias(m, n, Alias(m, n, true) in aliases);
      assert e in aliases;
    }
  }

  /** A name is claimed by an owner exactly if a user can call it and reaches the owner. */
  lemma ClaimsMean(models: seq<Setting>, aliases: seq<Alias>, order: seq<Name>, n: Name, o: Name)
    requires n != "" && Orders(order, Missing(models, aliases))
    ensures Claim(n, o) in Claims(models, aliases, order) <==> exists a :: Shows(models, aliases, n, o, a)
  {
    hide KeepsOriginal, HasAlias, Forked, Missing;
    ModelsClaimsMean(models, aliases, n, o);
    OtherClaimsMean(order, aliases, n, o);
    MissingMeans(models, aliases, o);
    assert Shows(models, aliases, n, o, true) || Shows(models, aliases, n, o, false)
       <==> exists a :: Shows(models, aliases, n, o, a);
  }

  lemma AgreeIsOneOwner(models: seq<Setting>, aliases: seq<Alias>, order: seq<Name>)
    requires Orders(order, Missing(models, aliases))
    ensures Agree(Claims(models, aliases, order)) <==> OneOwner(models, aliases)
  {
    hide Claims, Shows, Orders, Missing;
    var claims := Claims(models, aliases, order);
    if Agree(claims) {
      forall n, m, m', a, a' | Shows(models, aliases, n, m, a) && Shows(models, aliases, n, m', a')
        && m != "" && m' != ""
        ensures m == m'
      {
        NamesAreNotEmpty(models, aliases, n, m, a);
        ClaimsMean(models, aliases, order, n, m);
        ClaimsMean(models, aliases, order, n, m');
        var i :| 0 <= i < |claims| && claims[i] == Claim(n, m);
        var j :| 0 <= j < |claims| && claims[j] == Claim(n, m');
      }
    }
    if OneOwner(models, aliases) {
      forall i, j | 0 <= i < j < |claims| && claims[i].name == claims[j].name && claims[i].name != ""
        && claims[i].owner != "" && claims[j].owner != ""
        ensures claims[i].owner == claims[j].owner
      {
        assert claims[i] in claims && claims[j] in claims;
        ClaimsMean(models, aliases, order, claims[i].name, claims[i].owner);
        ClaimsMean(models, aliases, order, claims[j].name, claims[j].owner);
      }
    }
  }

  lemma NamesAreNotEmpty(models: seq<Setting>, aliases: seq<Alias>, n: Name, m: Name, a: bool)
    requires Shows(models, aliases, n, m, a)
    ensures n != ""
  {
  }

  // -------------------------------------------------------------- the check across channels

  datatype Visible = Visible(name: Name, model: Name, alias: bool)

  /** Exactly what a channel shows, as a list. */
  ghost predicate Lists(names: seq<Visible>, models: seq<Setting>, aliases: seq<Alias>) {
    && (forall n, m, a :: n != "" ==> (Visible(n, m, a) in names <==> Shows(models, aliases, n, m, a)))
    && (forall v | v in names && v.name == "" :: !v.alias)
  }

  /** The names of the aliases that a model shows. */
  method AppendAliases(names: seq<Visible>, m: Name, aliases: seq<Alias>) returns (r: seq<Visible>)
    ensures forall v :: v in r <==>
              v in names || (v.alias && v.model == m && v.name != "" && v.name != m && HasAlias(aliases, m, v.name))
  {
    r := names;
    var i := 0;
    while i < |aliases|
      invariant 0 <= i <= |aliases|
      invariant forall v :: v in r <==>
                  v in names || (v.alias && v.model == m && v.name != "" && v.name != m
                    && HasAlias(aliases[..i], m, v.name))
    {
      var e := aliases[i];
      assert aliases[..i + 1] == aliases[..i] + [e];
      if e.name == m && e.alias != "" && e.alias != m {
        r := r + [Visible(e.alias, m, true)];
      }
      i := i + 1;
    }
    assert aliases[..i] == aliases;
  }

  /** What the models of the catalog show, as far as they were looked at. */
  predicate ModelShows(models: seq<Setting>, aliases: seq<Alias>, v: Visible) {
    On(models, v.model) && v.name != ""
    && if v.alias then v.name != v.model && HasAlias(aliases, v.model, v.name)
       else v.name == v.model && KeepsOriginal(aliases, v.model)
  }

  /** What the entries of other models show, as far as they were looked at. */
  predicate OtherShows(models: seq<Setting>, aliases: seq<Alias>, v: Visible) {
    !Known(models, v.model) && v.name != ""
    && if v.alias then v.name != v.model && HasAlias(aliases, v.model, v.name)
       else v.name == v.model && (HasAlias(aliases, v.model, v.model) || Forked(aliases, v.model))
  }

  lemma OneMoreModel(models: seq<Setting>, m: Setting, aliases: seq<Alias>, v: Visible)
    ensures ModelShows(models + [m], aliases, v) <==>
              ModelShows(models, aliases, v) || (m.enabled && v.model == m.id && ModelShows([m], aliases, v))
  {
    hide KeepsOriginal, HasAlias;
    assert forall s :: s in models + [m] <==> s in models || s == m;
  }

  lemma OneMoreEntry(models: seq<Setting>, aliases: seq<Alias>, e: Alias, v: Visible)
    ensures OtherShows(models, aliases + [e], v) <==>
              OtherShows(models, aliases, v)
              || (!Known(models, e.name)
                  && ((e.alias != "" && v == Visible(e.alias, e.name, e.alias != e.name))
                      || (e.fork && e.name != "" && v == Visible(e.name, e.name, false))))
  {
    hide Known;
    assert forall x :: x in aliases + [e] <==> x in aliases || x == e;
    assert Forked(aliases + [e], v.model) <==> Forked(aliases, v.model) || (e.name == v.model && e.fork) by {
      if Forked(aliases, v.model) {
        var k :| 0 <= k < |aliases| && aliases[k].name == v.model && aliases[k].fork;
        assert (aliases + [e])[k] == aliases[k];
      }
      assert (aliases + [e])[|aliases|] == e;
    }
  }

  method ModelNames(models: seq<Setting>, aliases: seq<Alias>) returns (names: seq<Visible>)
    ensures forall v: Visible :: v.name != "" ==> (v in names <==> ModelShows(models, aliases, v))
    ensures forall v | v in names && v.name == "" :: !v.alias
  {
    hide KeepsOriginal, HasAlias;
    names := [];
    var i := 0;
    while i < |models|
      invariant 0 <= i <= |models|
      invariant forall v: Visible :: v.name != "" ==> (v in names <==> ModelShows(models[..i], aliases, v))
      invariant forall v | v in names && v.name == "" :: !v.alias
    {
      var m := models[i];
      assert models[..i + 1] == models[..i] + [m];
      ghost var before := names;
      if m.enabled {
        names := AppendAliases(names, m.id, aliases);
        var keep := KeepsOriginalName(aliases, m.id);
        if keep {
          names := names + [Visible(m.id, m.id, false)];
        }
      }
      forall v: Visible | v.name != ""
        ensures v in names <==> ModelShows(models[..i + 1], aliases, v)
      {
        OneMoreModel(models[..i], m, aliases, v);
      }
      i := i + 1;
    }
    assert models[..i] == models;
  }

  method OtherNames(models: seq<Setting>, aliases: seq<Alias>) returns (names: seq<Visible>)
    ensures forall v: Visible :: v.name != "" ==> (v in names <==> OtherShows(models, aliases, v))
    ensures forall v | v in names && v.name == "" :: !v.alias
  {
    hide OtherShows, Known;
    names := [];
    var i := 0;
    NoEntries(models);
    while i < |aliases|
      invariant 0 <= i <= |aliases|
      invariant forall v: Visible :: v.name != "" ==> (v in names <==> OtherShows(models, aliases[..i], v))
      invariant forall v | v in names && v.name == "" :: !v.alias
    {
      var e := aliases[i];
      assert aliases[..i + 1] == aliases[..i] + [e];
      if !Known(models, e.name) {
        if e.alias != "" {
          names := names + [Visible(e.alias, e.name, e.alias != e.name)];
        }
        if e.fork {
          names := names + [Visible(e.name, e.name, false)];
        }
      }
      forall v: Visible | v.name != ""
        ensures v in names <==> OtherShows(models, aliases[..i + 1], v)
      {
        OneMoreEntry(models, aliases[..i], e, v);
      }
      i := i + 1;
    }
    assert aliases[..i] == aliases;
  }

  lemma NoEntries(models: seq<Setting>)
    ensures forall v: Visible :: !OtherShows(models, [], v)
  {
  }

  /** `oauthVisibleNames`, in the order in which they are found. */
  method VisibleNames(models: seq<Setting>, aliases: seq<Alias>) returns (names: seq<Visible>)
    ensures Lists(names, models, aliases)
  {
    var own := ModelNames(models, aliases);
    var others := OtherNames(models, aliases);
    names := own + others;
    forall n, m, a | n != ""
      ensures Visible(n, m, a) in names <==> Shows(models, aliases, n, m, a)
    {
      ShowsEither(models, aliases, n, m, a);
      assert Visible(n, m, a) in names <==> Visible(n, m, a) in own || Visible(n, m, a) in others;
    }
  }

  lemma ShowsEither(models: seq<Setting>, aliases: seq<Alias>, n: Name, m: Name, a: bool)
    ensures Shows(models, aliases, n, m, a)
       <==> ModelShows(models, aliases, Visible(n, m, a)) || OtherShows(models, aliases, Visible(n, m, a))
  {
    hide HasAlias, KeepsOriginal, Forked;
  }

  ghost predicate NoClash(names: seq<Visible>, other: seq<Visible>) {
    forall v, w | v in names && w in other && v.name == w.name :: !v.alias && !w.alias
  }

  /** Comparing the lists is comparing the channels. */
  lemma NoClashIsApart(
    names: seq<Visible>, models: seq<Setting>, aliases: seq<Alias>, other: seq<Visible>, models': seq<Setting>,
      aliases': seq<Alias>)
    requires Lists(names, models, aliases) && Lists(other, models', aliases')
    ensures NoClash(names, other) <==> Apart(models, aliases, models', aliases')
  {
    hide Shows;
    if NoClash(names, other) {
      forall n, m, m', a, a' | Shows(models, aliases, n, m, a) && Shows(models', aliases', n, m', a')
        ensures !a && !a'
      {
        NamesAreNotEmpty(models, aliases, n, m, a);
        assert Visible(n, m, a) in names && Visible(n, m', a') in other;
      }
    }
    if Apart(models, aliases, models', aliases') {
      forall v, w | v in names && w in other && v.name == w.name
        ensures !v.alias && !w.alias
      {
        if v.name != "" {
          assert v == Visible(v.name, v.model, v.alias) && w == Visible(w.name, w.model, w.alias);
          assert Shows(models, aliases, v.name, v.model, v.alias) && Shows(models', aliases', w.name, w.model, w.alias);
        }
      }
    }
  }

  lemma ApartIsSymmetric(models: seq<Setting>, aliases: seq<Alias>, models': seq<Setting>, aliases': seq<Alias>)
    ensures Apart(models, aliases, models', aliases') <==> Apart(models', aliases', models, aliases)
  {
    hide Shows;
  }

  /** One channel's names against those of another. */
  method CrossCheck(names: seq<Visible>, other: seq<Visible>) returns (ok: bool)
    ensures ok <==> NoClash(names, other)
  {
    var i := 0;
    while i < |names|
      invariant 0 <= i <= |names|
      invariant forall v, w | v in names[..i] && w in other && v.name == w.name :: !v.alias && !w.alias
    {
      var j := 0;
      while j < |other|
        invariant 0 <= j <= |other|
        invariant forall w | w in other[..j] && names[i].name == w.name :: !names[i].alias && !w.alias
      {
        if names[i].name == other[j].name && (names[i].alias || other[j].alias) {
          assert names[i] in names && other[j] in other;
          return false;
        }
        assert other[..j + 1] == other[..j] + [other[j]];
        j := j + 1;
      }
      assert other[..j] == other;
      assert names[..i + 1] == names[..i] + [names[i]];
      i := i + 1;
    }
    assert names[..i] == names;
    ok := true;
  }
}

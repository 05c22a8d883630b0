/** What preflight demands of a channel's preset, told without its loops
    (internal/service/oauth_presets.go:151-214). */
module OAuthTargets {
  import opened OAuthNames
  import opened OAuthRouting
  import opened OAuthPresets
  import opened WildcardMatch

  /** The preset has each model of the catalog once, and no other. */
  ghost predicate Covers(catalog: seq<Name>, models: seq<Setting>) {
    && (forall m :: m in catalog <==> exists k :: 0 <= k < |models| && models[k].id == m)
    && (forall j, k | 0 <= j < k < |models| :: models[j].id != models[k].id)
  }

  /** A model that a pattern keeps off was kept off by the same pattern when the preset was
      made, and stays off; one that no pattern keeps off was free then. */
  ghost predicate SameWildcard(c: Channel, t: ChannelPreset, m: Name) {
    || ((forall i | 0 <= i < |c.rules| :: !ByPattern(c.rules[i], m)) && (m in t.wildcards ==> t.wildcards[m] == ""))
    || (exists i | 0 <= i < |c.rules| ::
          && ByPattern(c.rules[i], m) && (forall j | 0 <= j < i :: !ByPattern(c.rules[j], m))
          && m in t.wildcards && t.wildcards[m] == c.rules[i] && Setting(m, true) !in t.models)
  }

  function Indices(aliases: seq<Alias>, m: Name): set<nat> {
    set k: nat | k < |aliases| && aliases[k].name == m
  }

  /** What may be stored and applied. */
  ghost predicate Sensible(c: Channel, t: ChannelPreset) {
    && Covers(c.catalog, t.models)
    && (forall m | m in c.catalog :: SameWildcard(c, t, m))
    && (forall e | e in t.aliases :: Setting(e.name, true) in t.models && IsAliasID(e.alias))
    && (forall j, k | 0 <= j < k < |t.aliases| ::
          t.aliases[j].name == t.aliases[k].name ==> t.aliases[j].alias != t.aliases[k].alias)
    && (forall m :: |Indices(t.aliases, m)| <= 32)
    && OneOwner(t.models, t.aliases)
  }

  lemma {:induction false} EntriesAreIndices(aliases: seq<Alias>, m: Name)
    ensures |Indices(aliases, m)| == EntriesFor(aliases, m)
    decreases |aliases|
  {
    if aliases == [] {
    } else {
      var n := |aliases| - 1;
      EntriesAreIndices(aliases[..n], m);
      if aliases[n].name == m {
        assert Indices(aliases, m) == Indices(aliases[..n], m) + {n};
      } else {
        assert Indices(aliases, m) == Indices(aliases[..n], m);
      }
    }
  }

  lemma {:induction false} FirstPattern(rules: seq<string>, m: Name)
    ensures PatternRule(rules, m) == "" <==> forall i | 0 <= i < |rules| :: !ByPattern(rules[i], m)
    ensures forall i | 0 <= i < |rules| && ByPattern(rules[i], m)
              && (forall j | 0 <= j < i :: !ByPattern(rules[j], m)) :: PatternRule(rules, m) == rules[i]
    ensures PatternRule(rules, m) != "" ==>
              exists i | 0 <= i < |rules| ::
                ByPattern(rules[i], m) && (forall j | 0 <= j < i :: !ByPattern(rules[j], m))
    decreases |rules|
  {
    NoEmptyPattern(m);
    hide ByPattern;
    if rules == [] {
    } else {
      var rest := rules[1..];
      assert forall i | 0 <= i < |rest| :: rest[i] == rules[i + 1];
      FirstPattern(rest, m);
      if !ByPattern(rules[0], m) && PatternRule(rest, m) != "" {
        var i :| 0 <= i < |rest| && ByPattern(rest[i], m) && forall j | 0 <= j < i :: !ByPattern(rest[j], m);
        forall j | 0 <= j < i + 1
          ensures !ByPattern(rules[j], m)
        {
          if j > 0 {
            assert rules[j] == rest[j - 1];
          }
        }
        assert ByPattern(rules[i + 1], m);
      }
    }
  }

  lemma NoEmptyPattern(m: Name)
    ensures !ByPattern("", m)
  {
  }

  /** For one model: the recorded pattern is the one in force, and it is obeyed. */
  lemma WildcardExactly(c: Channel, t: ChannelPreset, m: Name)
    ensures SameWildcard(c, t, m) <==>
            && WildcardOf(t, m) == PatternRule(c.rules, m)
            && (WildcardOf(t, m) != "" ==> Setting(m, true) !in t.models)
  {
    FirstPattern(c.rules, m);
    NoEmptyPattern(m);
    hide ByPattern, PatternRule;
  }

  lemma CoversExactly(c: Channel, t: ChannelPreset)
    requires forall k | 0 <= k < |t.models| :: t.models[k].id in c.catalog
    requires forall j, k | 0 <= j < k < |t.models| :: t.models[j].id != t.models[k].id
    ensures |t.models| == |c.catalog| <==>
            forall m | m in c.catalog :: exists k :: 0 <= k < |t.models| && t.models[k].id == m
  {
    var ids := set k: nat | k < |t.models| :: t.models[k].id;
    var all := set m | m in c.catalog;
    DistinctCount(t.models);
    CatalogCount(c.catalog);
    assert ids <= all;
    if |t.models| == |c.catalog| {
      SubsetOfSize(ids, all);
      assert forall m | m in c.catalog :: m in ids;
    }
    if forall m | m in c.catalog :: exists k :: 0 <= k < |t.models| && t.models[k].id == m {
      assert all <= ids;
      assert all == ids;
    }
  }

  lemma {:induction false} DistinctCount(models: seq<Setting>)
    requires forall j, k | 0 <= j < k < |models| :: models[j].id != models[k].id
    ensures |set k: nat | k < |models| :: models[k].id| == |models|
    decreases |models|
  {
    if models == [] {
    } else {
      var n := |models| - 1;
      DistinctCount(models[..n]);
      assert (set k: nat | k < |models| :: models[k].id)
          == (set k: nat | k < n :: models[..n][k].id) + {models[n].id};
    }
  }

  lemma {:induction false} CatalogCount(catalog: seq<Name>)
    requires forall j, k | 0 <= j < k < |catalog| :: catalog[j] != catalog[k]
    ensures |set m | m in catalog| == |catalog|
    decreases |catalog|
  {
    if catalog == [] {
    } else {
      CatalogCount(catalog[1..]);
      assert (set m | m in catalog) == (set m | m in catalog[1..]) + {catalog[0]};
    }
  }

  /** With each model listed once, it is on exactly if its line says so. */
  lemma GoodModelsExactly(c: Channel, t: ChannelPreset)
    ensures |t.models| == |c.catalog| && GoodModels(c, t, |t.models|) <==>
            Covers(c.catalog, t.models) && forall m | m in c.catalog :: SameWildcard(c, t, m)
  {
    forall m
      ensures SameWildcard(c, t, m) <==>
              && WildcardOf(t, m) == PatternRule(c.rules, m)
              && (WildcardOf(t, m) != "" ==> Setting(m, true) !in t.models)
    {
      WildcardExactly(c, t, m);
    }
    hide SameWildcard, WildcardOf, PatternRule;
    if |t.models| == |c.catalog| && GoodModels(c, t, |t.models|) {
      assert forall k | 0 <= k < |t.models| :: GoodModel(c, t, t.models[k]);
      CoversExactly(c, t);
    }
    if Covers(c.catalog, t.models) && forall m | m in c.catalog :: SameWildcard(c, t, m) {
      CoversExactly(c, t);
      forall k | 0 <= k < |t.models|
        ensures GoodModel(c, t, t.models[k])
      {
        GoodName(c.catalog, t.models[k].id);
        assert t.models[k] == Setting(t.models[k].id, t.models[k].enabled);
      }
    }
  }

  /** Preflight accepts exactly the presets that make sense. */
  lemma GoodPresetExactly(c: Channel, t: ChannelPreset)
    ensures GoodPreset(c, t) <==> Sensible(c, t)
  {
    GoodModelsExactly(c, t);
    assert t.aliases[..|t.aliases|] == t.aliases;
    forall m
      ensures |Indices(t.aliases, m)| == EntriesFor(t.aliases, m)
    {
      EntriesAreIndices(t.aliases, m);
    }
    hide GoodModels, Covers, SameWildcard, OneOwner, IsAliasID, Indices, EntriesFor;
    assert (forall k | 0 <= k < |t.aliases| :: GoodEntry(t, t.aliases[k])) <==>
           (forall e | e in t.aliases :: Setting(e.name, true) in t.models && IsAliasID(e.alias));
  }
}

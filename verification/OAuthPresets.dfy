/** Applying a stored routing preset to several channels, and going back when that fails
    (internal/service/oauth_presets.go:158-300, oauth_global_presets.go:76-213). */
module OAuthPresets {
  import opened OAuthNames
  import opened OAuthRouting
  import opened OAuthPortal
  import opened WildcardMatch

  /** `wildcards` is the pattern that was in force for a model when the preset was made. */
  datatype ChannelPreset = ChannelPreset(models: seq<Setting>, wildcards: map<Name, string>, aliases: seq<Alias>)

  /** The entries of models that the catalog does not list; presets leave them alone. */
  function Unlisted(catalog: seq<Name>, aliases: seq<Alias>): seq<Alias> {
    if aliases == [] then []
    else (if aliases[0].name in catalog then [] else [aliases[0]]) + Unlisted(catalog, aliases[1..])
  }

  function Listed(catalog: seq<Name>, aliases: seq<Alias>): seq<Alias> {
    if aliases == [] then []
    else (if aliases[0].name in catalog then [aliases[0]] else []) + Listed(catalog, aliases[1..])
  }

  lemma {:induction false} ListedHas(catalog: seq<Name>, aliases: seq<Alias>, e: Alias)
    ensures e in Listed(catalog, aliases) <==> e in aliases && e.name in catalog
    ensures e in Unlisted(catalog, aliases) <==> e in aliases && e.name !in catalog
    decreases |aliases|
  {
    if aliases == [] {
    } else {
      ListedHas(catalog, aliases[1..], e);
      assert forall x :: x in aliases <==> x == aliases[0] || x in aliases[1..];
    }
  }

  /** What a channel records of itself. */
  function CurrentPreset(c: Channel): ChannelPreset {
    ChannelPreset(Settings(c), map m | m in c.catalog :: PatternRule(c.rules, m), Listed(c.catalog, c.aliases))
  }

  /** A preset that fits a channel: the models of its catalog, each once, and no entries
      of others. */
  ghost predicate Fits(c: Channel, t: ChannelPreset) {
    && (forall m: Name :: Known(t.models, m) <==> m in c.catalog)
    && (forall m: Name :: !(Setting(m, true) in t.models && Setting(m, false) in t.models))
    && (forall e | e in t.aliases :: e.name in c.catalog)
  }

  /** What the target shows, with the entries that the preset leaves alone. */
  predicate TargetShows(c: Channel, t: ChannelPreset, n: Name, m: Name, a: bool) {
    Shows(t.models, t.aliases + Unlisted(c.catalog, c.aliases), n, m, a)
  }

  /** The channel routes as the target says. */
  ghost predicate Routes(d: Channel, c: Channel, t: ChannelPreset) {
    forall n, m, a :: ShowsOn(d, n, m, a) == TargetShows(c, t, n, m, a)
  }

  ghost predicate SameRouting(c: Channel, d: Channel) {
    forall n, m, a :: ShowsOn(c, n, m, a) == ShowsOn(d, n, m, a)
  }

  lemma CurrentFits(c: Channel)
    ensures Fits(c, CurrentPreset(c))
  {
    var t := CurrentPreset(c);
    forall m: Name
      ensures Known(t.models, m) <==> m in c.catalog
      ensures !(Setting(m, true) in t.models && Setting(m, false) in t.models)
    {
      SettingsMean(c, m);
      CurrentSetting(c, m);
    }
    forall e | e in t.aliases
      ensures e.name in c.catalog
    {
      ListedHas(c.catalog, c.aliases, e);
    }
  }

  lemma CurrentSetting(c: Channel, m: Name)
    ensures Setting(m, true) in Settings(c) ==> !Off(c.rules, m)
    ensures Setting(m, false) in Settings(c) ==> Off(c.rules, m)
  {
    hide Off;
    var s := Settings(c);
    if Setting(m, true) in s {
      var i :| 0 <= i < |s| && s[i] == Setting(m, true);
    }
    if Setting(m, false) in s {
      var i :| 0 <= i < |s| && s[i] == Setting(m, false);
    }
  }

  /** Going to one's own record is going back. */
  lemma CurrentRoutes(c: Channel, d: Channel)
    requires Routes(d, c, CurrentPreset(c))
    ensures SameRouting(c, d)
  {
    hide Shows;
    forall n, m, a
      ensures ShowsOn(c, n, m, a) == ShowsOn(d, n, m, a)
    {
      forall e: Alias
        ensures e in Listed(c.catalog, c.aliases) + Unlisted(c.catalog, c.aliases) <==> e in c.aliases
      {
        ListedHas(c.catalog, c.aliases, e);
      }
      SameEntriesShow(Settings(c), c.aliases, Listed(c.catalog, c.aliases) + Unlisted(c.catalog, c.aliases), n, m, a);
      assert ShowsOn(d, n, m, a) == TargetShows(c, CurrentPreset(c), n, m, a);
    }
  }

  lemma SameEntriesShow(models: seq<Setting>, s: seq<Alias>, t: seq<Alias>, n: Name, m: Name, a: bool)
    requires forall e: Alias :: e in s <==> e in t
    ensures Shows(models, s, n, m, a) == Shows(models, t, n, m, a)
  {
    EntriesDecide(s, t, m);
    hide Renamed, Forked, HasAlias;
  }

  // -------------------------------------------------------- what the last save leaves

  /** The line of a form for one model of the target. */
  ghost predicate LineFor(i: Input, t: ChannelPreset) {
    && (forall x: Name :: x in i.aliases <==> x != "" && x != i.model && HasAlias(t.aliases, i.model, x))
    && (i.keep <==> Forked(t.aliases, i.model) || forall e | e in t.aliases :: e.name != i.model)
  }

  /** The choice that comes of it shows what the target's entries show. */
  lemma LineShows(i: Input, ch: Choice, t: ChannelPreset, m: Name)
    requires LineFor(i, t) && Means(i, ch) && i.model == m && m != ""
    ensures forall x: Name :: x in ch.aliases <==> x != "" && x != m && HasAlias(t.aliases, m, x)
    ensures ch.aliases != [] <==> Renamed(t.aliases, m)
    ensures ch.aliases != [] ==> (ch.keep <==> Forked(t.aliases, m))
    ensures ch.aliases == [] ==> ch.keep
  {
    forall x: Name
      ensures x in ch.aliases <==> x != "" && x != m && HasAlias(t.aliases, m, x)
    {
    }
    if ch.aliases != [] {
      assert ch.aliases[0] in ch.aliases;
      HasIsRenamed(t.aliases, m, ch.aliases[0]);
    }
    if Renamed(t.aliases, m) {
      var x := RenamedHas(t.aliases, m);
      assert x in ch.aliases;
    }
  }

  lemma HasIsRenamed(aliases: seq<Alias>, m: Name, x: Name)
    requires HasAlias(aliases, m, x) && x != "" && x != m
    ensures Renamed(aliases, m) && exists e :: e in aliases && e.name == m
  {
    var e := if Alias(m, x, true) in aliases then Alias(m, x, true) else Alias(m, x, false);
    assert e in aliases;
    var k :| 0 <= k < |aliases| && aliases[k] == e;
  }

  lemma RenamedHas(aliases: seq<Alias>, m: Name) returns (x: Name)
    requires Renamed(aliases, m)
    ensures x != "" && x != m && HasAlias(aliases, m, x)
  {
    var k :| 0 <= k < |aliases| && aliases[k].name == m && aliases[k].alias != "" && aliases[k].alias != m;
    x := aliases[k].alias;
    assert aliases[k] in aliases && aliases[k] == Alias(m, x, aliases[k].fork);
  }

  /** The entries of one model after the last save. */
  ghost predicate EntriesAre(aliases: seq<Alias>, m: Name, ch: Choice) {
    forall e: Alias | e.name == m :: e in aliases <==> e.alias in ch.aliases && e.fork == ch.keep
  }

  lemma SavedShows(aliases: seq<Alias>, m: Name, ch: Choice)
    requires EntriesAre(aliases, m, ch) && forall x | x in ch.aliases :: x != "" && x != m
    ensures forall x: Name :: HasAlias(aliases, m, x) <==> x in ch.aliases
    ensures Renamed(aliases, m) <==> ch.aliases != []
    ensures Forked(aliases, m) <==> ch.aliases != [] && ch.keep
  {
    forall x: Name
      ensures HasAlias(aliases, m, x) <==> x in ch.aliases
    {
      assert Alias(m, x, ch.keep) in aliases <==> x in ch.aliases;
      assert Alias(m, x, !ch.keep) !in aliases;
    }
    if ch.aliases != [] {
      assert ch.aliases[0] in ch.aliases;
      var e := Alias(m, ch.aliases[0], ch.keep);
      assert e in aliases;
      var k :| 0 <= k < |aliases| && aliases[k] == e;
    }
    if Renamed(aliases, m) {
      var x := RenamedHas(aliases, m);
    }
    if Forked(aliases, m) {
      var k :| 0 <= k < |aliases| && aliases[k].name == m && aliases[k].fork;
      assert aliases[k] in aliases;
    }
  }

  /** A channel in which exactly the target's models are on, and every one of them has
      the entries of its line. */
  ghost predicate Reached(d: Channel, c: Channel, t: ChannelPreset, choices: map<Name, Choice>) {
    && d.catalog == c.catalog
    && (forall m | m in c.catalog :: !Off(d.rules, m) <==> On(t.models, m))
    && (forall e: Alias | e.name !in c.catalog :: e in d.aliases <==> e in c.aliases)
    && (forall m | m in c.catalog && On(t.models, m) ::
          m in choices && EntriesAre(d.aliases, m, choices[m])
          && exists i :: LineFor(i, t) && i.model == m && Means(i, choices[m]))
  }

  lemma ReachedRoutes(d: Channel, c: Channel, t: ChannelPreset, choices: map<Name, Choice>)
    requires Reached(d, c, t, choices) && Fits(c, t)
    ensures Routes(d, c, t)
  {
    hide Shows;
    forall n, m, a
      ensures ShowsOn(d, n, m, a) == TargetShows(c, t, n, m, a)
    {
      ReachedShows(d, c, t, choices, n, m, a);
    }
  }

  lemma ReachedShows(d: Channel, c: Channel, t: ChannelPreset, choices: map<Name, Choice>, n: Name, m: Name, a: bool)
    requires Reached(d, c, t, choices) && Fits(c, t)
    ensures ShowsOn(d, n, m, a) == TargetShows(c, t, n, m, a)
  {
    SettingsMean(d, m);
    var all := t.aliases + Unlisted(c.catalog, c.aliases);
    forall e: Alias | e.name == m
      ensures e in all <==> if m in c.catalog then e in t.aliases else e in c.aliases
    {
      ListedHas(c.catalog, c.aliases, e);
    }
    hide Settings, Off, Means, LineFor, HasAlias, Renamed, Forked, Unlisted;
    if m in c.catalog {
      EntriesDecide(all, t.aliases, m);
      if On(t.models, m) {
        GoodName(c.catalog, m);
        var ch := choices[m];
        var i :| LineFor(i, t) && i.model == m && Means(i, ch);
        LineShows(i, ch, t, m);
        SavedShows(d.aliases, m, ch);
      }
    } else {
      EntriesDecide(all, d.aliases, m);
    }
  }

  // ----------------------------------------------------------------- one channel's apply

  lemma ManagedStays(a: Config, b: Config, d: Config, c: string)
    requires OnlyManaged(a, b, c) && OnlyManaged(b, d, c)
    ensures OnlyManaged(a, d, c)
  {
    hide OffByPattern, Plain;
  }

  /** Switching one model on or off leaves everything the portal does not manage. */
  lemma PatternsStay(c: Channel, m: Name, rules: seq<string>, x: Name)
    requires Plain(c.catalog) && m in c.catalog && x in c.catalog
    requires rules == c.rules || rules == c.rules + [m] || rules == WithoutRule(c.rules, m)
    ensures OffByPattern(rules, x) == OffByPattern(c.rules, x)
  {
    PlainMeans(c.catalog, m, x);
    hide ByPattern, Plain;
    forall r: string
      ensures ByPattern(r, x) ==> (r in rules <==> r in c.rules)
    {
      WithoutRuleHas(c.rules, m, r);
    }
    SamePatterns(rules, c.rules, x);
    SamePatterns(c.rules, rules, x);
  }

  lemma SamePatterns(s: seq<string>, t: seq<string>, x: Name)
    requires forall r: string :: ByPattern(r, x) ==> (r in s <==> r in t)
    ensures OffByPattern(s, x) ==> OffByPattern(t, x)
  {
    hide ByPattern;
    if OffByPattern(s, x) {
      var k :| 0 <= k < |s| && ByPattern(s[k], x);
      assert s[k] in t;
      var j :| 0 <= j < |t| && t[j] == s[k];
    }
  }

  lemma DisablingManaged(c: Channel, m: Name, d: Channel)
    requires Disabling(c, m, d) && m in c.catalog
    ensures SameFrame(c, d)
    ensures forall x | Off(c.rules, x) :: Off(d.rules, x)
  {
    GoodName(c.catalog, m);
    hide Off, OffByPattern, WithoutAliases, ByPattern, Plain;
    forall x | Plain(c.catalog) && x in c.catalog
      ensures OffByPattern(c.rules, x) == OffByPattern(d.rules, x)
    {
      PatternsStay(c, m, d.rules, x);
    }
    forall x
      ensures Off(c.rules, x) ==> Off(c.rules + [m], x)
    {
      WithRuleOff(c.rules, m, x);
    }
    forall e: Alias
      ensures e in WithoutAliases(c.aliases, m) <==> e in c.aliases && e.name != m
    {
      WithoutAliasesHas(c.aliases, m, e);
    }
  }

  lemma EnablingManaged(c: Channel, m: Name)
    requires m in c.catalog
    ensures SameFrame(c, Enabled(c, m))
    ensures forall x | Off(Enabled(c, m).rules, x) :: Off(c.rules, x)
    ensures Plain(c.catalog) ==>
              forall x | x in c.catalog && x != m :: Off(Enabled(c, m).rules, x) == Off(c.rules, x)
  {
    GoodName(c.catalog, m);
    hide Off, OffByPattern, ByPattern, Plain, WithoutRule;
    forall x
      ensures Off(Enabled(c, m).rules, x) ==> Off(c.rules, x)
    {
      WithoutRuleOff(c.rules, m, x);
    }
    forall x | Plain(c.catalog) && x in c.catalog
      ensures OffByPattern(c.rules, x) == OffByPattern(Enabled(c, m).rules, x)
      ensures x != m ==> Off(Enabled(c, m).rules, x) == Off(c.rules, x)
    {
      PatternsStay(c, m, Enabled(c, m).rules, x);
      PlainMeans(c.catalog, m, x);
      WithoutRuleOff(c.rules, m, x);
    }
  }

  lemma FrameManaged(before: Config, after: Config, c: string)
    requires c in before && after.Keys == before.Keys && SameFrame(before[c], after[c])
    requires forall o | o in before && o != c :: after[o] == before[o]
    ensures OnlyManaged(before, after, c)
  {
  }

  /** Switches off what the target has off. */
  method TurnOff(p: Portal, c: string, t: ChannelPreset) returns (ok: bool)
    requires c in p.channels
    modifies p
    ensures OnlyManaged(old(p.channels), p.channels, c)
    ensures ok ==> forall m | m in p.channels[c].catalog :: !Off(p.channels[c].rules, m) ==> On(t.models, m)
  {
    hide Off, OffByPattern, On, GoodCatalog, Disabling, SameFrame, WithoutAliases, Plain;
    ghost var before := p.channels;
    SameFrameAlways(before, c);
    var models := Settings(p.channels[c]);
    var catalog := p.channels[c].catalog;
    var i := 0;
    while i < |models|
      invariant 0 <= i <= |models| && OnlyManaged(before, p.channels, c)
      invariant p.channels[c].catalog == catalog
      invariant forall k | 0 <= k < |catalog| ::
                Off(before[c].rules, catalog[k]) ==> Off(p.channels[c].rules, catalog[k])
      invariant forall k | 0 <= k < i :: On(t.models, catalog[k]) || Off(p.channels[c].rules, catalog[k])
    {
      ghost var now := p.channels;
      if models[i].enabled && !On(t.models, models[i].id) {
        ok := p.DisableModel(c, models[i].id);
        DisablingManaged(now[c], models[i].id, p.channels[c]);
        FrameManaged(now, p.channels, c);
        ManagedStays(before, now, p.channels, c);
        DisablingCatalog(now[c], models[i].id, p.channels[c]);
        if !ok {
          return;
        }
      }
      i := i + 1;
    }
    ok := true;
  }

  lemma DisablingCatalog(c: Channel, m: Name, d: Channel)
    requires Disabling(c, m, d)
    ensures d.catalog == c.catalog
  {
  }

  /** Switches on what the target has on. */
  method TurnOn(p: Portal, c: string, t: ChannelPreset) returns (ok: bool)
    requires c in p.channels
    requires forall m | m in p.channels[c].catalog :: !Off(p.channels[c].rules, m) ==> On(t.models, m)
    modifies p
    ensures OnlyManaged(old(p.channels), p.channels, c)
    ensures ok ==> forall m | m in p.channels[c].catalog && On(t.models, m) :: !Off(p.channels[c].rules, m)
    ensures ok && Plain(p.channels[c].catalog) ==>
              forall m | m in p.channels[c].catalog && !Off(p.channels[c].rules, m) :: On(t.models, m)
  {
    hide Off, OffByPattern, On, GoodCatalog, SameFrame, WithoutRule, Plain, Alone;
    ghost var before := p.channels;
    SameFrameAlways(before, c);
    ok := p.Read();
    if !ok {
      return;
    }
    var models := Settings(p.channels[c]);
    var catalog := p.channels[c].catalog;
    var i := 0;
    while i < |models|
      invariant 0 <= i <= |models| && OnlyManaged(before, p.channels, c)
      invariant p.channels[c].catalog == catalog
      invariant Plain(catalog) ==> forall m | m in catalog :: !Off(p.channels[c].rules, m) ==> On(t.models, m)
      invariant forall m | m in catalog :: !Off(before[c].rules, m) ==> !Off(p.channels[c].rules, m)
      invariant forall k | 0 <= k < i :: On(t.models, catalog[k]) ==> !Off(p.channels[c].rules, catalog[k])
    {
      ghost var now := p.channels;
      var m := models[i].id;
      if !models[i].enabled && On(t.models, m) {
        ok := p.EnableModel(c, m, false);
        EnablingManaged(now[c], m);
        SameFrameAlways(now, c);
        if p.channels != now {
          FrameManaged(now, p.channels, c);
        }
        ManagedStays(before, now, p.channels, c);
        if !ok {
          return;
        }
      }
      i := i + 1;
    }
    ok := true;
  }

  /** The line of the last form for one model. */
  method LineOf(t: ChannelPreset, m: Name) returns (line: Input)
    ensures line.model == m && LineFor(line, t)
  {
    var names: seq<Name>, any, keep := [], false, false;
    var i := 0;
    while i < |t.aliases|
      invariant 0 <= i <= |t.aliases|
      invariant forall x: Name :: x in names <==> x != "" && x != m && HasAlias(t.aliases[..i], m, x)
      invariant any <==> exists k :: 0 <= k < i && t.aliases[k].name == m
      invariant keep <==> exists k :: 0 <= k < i && t.aliases[k].name == m && t.aliases[k].fork
    {
      var e := t.aliases[i];
      assert t.aliases[..i + 1] == t.aliases[..i] + [e];
      if e.name == m {
        if e.alias != "" && e.alias != m {
          names := names + [e.alias];
        }
        any, keep := true, keep || e.fork;
      }
      i := i + 1;
    }
    assert t.aliases[..i] == t.aliases;
    line := Input(m, names, !any || keep);
  }

  /** One line for every model that is on. */
  method Lines(c: Channel, t: ChannelPreset) returns (inputs: seq<Input>)
    ensures forall k | 0 <= k < |inputs| :: LineFor(inputs[k], t)
  {
    hide LineFor;
    inputs := [];
    var models := Settings(c);
    var i := 0;
    while i < |models|
      invariant 0 <= i <= |models| && forall k | 0 <= k < |inputs| :: LineFor(inputs[k], t)
    {
      if models[i].enabled {
        var line := LineOf(t, models[i].id);
        inputs := inputs + [line];
      }
      i := i + 1;
    }
  }

  method ClearLines(c: Channel) returns (inputs: seq<Input>) {
    inputs := [];
    var models := Settings(c);
    var i := 0;
    while i < |models|
      invariant 0 <= i <= |models|
    {
      if models[i].enabled {
        inputs := inputs + [Input(models[i].id, [], true)];
      }
      i := i + 1;
    }
  }

  /** The last save brings the channel to its target. */
  lemma LastSaveReaches(c: Channel, before: Channel, after: Channel, t: ChannelPreset, inputs: seq<Input>,
      choices: map<Name, Choice>)
    requires Fits(c, t) && SameFrame(c, before) && Choices(before, inputs, choices)
             && Saved(before, choices, after.aliases)
    requires after.catalog == before.catalog && after.rules == before.rules
    requires forall k | 0 <= k < |inputs| :: LineFor(inputs[k], t)
    requires forall m | m in before.catalog :: !Off(before.rules, m) <==> On(t.models, m)
    ensures Reached(after, c, t, choices)
  {
    hide Off, OffByPattern, LineFor, Means, On;
    forall m | m in c.catalog && On(t.models, m)
      ensures m in choices && EntriesAre(after.aliases, m, choices[m])
      ensures exists i :: LineFor(i, t) && i.model == m && Means(i, choices[m])
    {
      var k :| 0 <= k < |inputs| && inputs[k].model == m && Means(inputs[k], choices[m]);
      assert LineFor(inputs[k], t);
    }
  }

  /** `applyOAuthChannelPreset`: clear the entries, switch off, switch on, set the
      entries.  If it succeeds every name has one owner, and the channel routes as the
      target says, whatever it was like before, unless a model's own name is a pattern. */
  method ApplyChannel(p: Portal, c: string, t: ChannelPreset) returns (ok: bool)
    requires c in p.channels && Fits(p.channels[c], t)
    modifies p
    ensures OnlyManaged(old(p.channels), p.channels, c)
    ensures ok ==> OwnNames(p.channels[c])
    ensures ok && Plain(p.channels[c].catalog) ==> Routes(p.channels[c], old(p.channels)[c], t)
  {
    hide Routes, OwnNames, Fits, Choices, Saved, Off, On, LineFor, SameFrame, Reached, Plain, CanSave, BlankListed,
      BlankShared;
    ghost var before := p.channels;
    SameFrameAlways(before, c);
    ok := p.Read();
    if !ok {
      return;
    }
    ghost var none;
    var cleared := ClearLines(p.channels[c]);
    ghost var entries;
    ok, none, entries := p.SetAliases(c, cleared, false);
    ManagedStays(before, before, p.channels, c);
    if !ok {
      return;
    }
    ghost var now := p.channels;
    ok := TurnOff(p, c, t);
    ManagedStays(before, now, p.channels, c);
    if !ok {
      return;
    }
    now := p.channels;
    ok := TurnOn(p, c, t);
    ManagedStays(before, now, p.channels, c);
    if !ok {
      return;
    }
    now := p.channels;
    var inputs := Lines(p.channels[c], t);
    ghost var choices;
    ok, choices, entries := p.SetAliases(c, inputs, false);
    ManagedStays(before, now, p.channels, c);
    if !ok {
      return;
    }
    FrameCatalog(before[c], now[c]);
    FrameCatalog(now[c], p.channels[c]);
    if Plain(p.channels[c].catalog) {
      LastSaveReaches(before[c], now[c], p.channels[c], t, inputs, choices);
      ReachedRoutes(p.channels[c], before[c], t, choices);
    }
    ok := p.Read();
  }

  lemma ManagedCatalog(before: Config, after: Config, c: string)
    requires OnlyManaged(before, after, c) && c in before
    ensures c in after && after[c].catalog == before[c].catalog
  {
    hide OffByPattern, Plain;
  }

  lemma FrameCatalog(c: Channel, d: Channel)
    requires SameFrame(c, d)
    ensures d.catalog == c.catalog
  {
  }

  // ------------------------------------------------------------------- several channels

  datatype Verdict = Refused | Applied | Restored | Broken

  type Preset = map<string, ChannelPreset>

  /** What a channel should be after a preset: as the preset says, or as it is. */
  function TargetOf(config: Config, requested: Preset, c: string): ChannelPreset
    requires c in config
  {
    if c in requested then requested[c] else CurrentPreset(config[c])
  }

  /** Where two channels would show the same name as an alias. */
  ghost predicate TargetsApart(config: Config, requested: Preset, c: string, d: string)
    requires c in config && d in config
  {
    var s, t := TargetOf(config, requested, c), TargetOf(config, requested, d);
    Apart(s.models, s.aliases + Unlisted(config[c].catalog, config[c].aliases),
          t.models, t.aliases + Unlisted(config[d].catalog, config[d].aliases))
  }

  function WildcardOf(t: ChannelPreset, m: Name): string {
    if m in t.wildcards then t.wildcards[m] else ""
  }

  /** A model of a preset as preflight wants it: in the catalog, under the same pattern
      as before, and not switched on against that pattern. */
  predicate GoodModel(c: Channel, t: ChannelPreset, m: Setting) {
    && m.id != "" && m.id in c.catalog && WildcardOf(t, m.id) == PatternRule(c.rules, m.id)
    && (WildcardOf(t, m.id) != "" ==> !m.enabled)
  }

  predicate GoodEntry(t: ChannelPreset, e: Alias) {
    On(t.models, e.name) && IsAliasID(e.alias)
  }

  function EntriesFor(aliases: seq<Alias>, m: Name): nat {
    if aliases == [] then 0
    else EntriesFor(aliases[..|aliases| - 1], m) + if aliases[|aliases| - 1].name == m then 1 else 0
  }

  /** Entries as preflight wants them: of models that are on, well formed, no pair twice,
      at most 32 of a model. */
  ghost predicate GoodEntries(t: ChannelPreset, n: nat)
    requires n <= |t.aliases|
  {
    (forall k | 0 <= k < n :: GoodEntry(t, t.aliases[k])) && PairsDiffer(t, n) && AtMost32(t, n)
  }

  ghost predicate PairsDiffer(t: ChannelPreset, n: nat)
    requires n <= |t.aliases|
  {
    forall j, k | 0 <= j < k < n :: (t.aliases[j].name, t.aliases[j].alias) != (t.aliases[k].name, t.aliases[k].alias)
  }

  ghost predicate AtMost32(t: ChannelPreset, n: nat)
    requires n <= |t.aliases|
  {
    forall m :: EntriesFor(t.aliases[..n], m) <= 32
  }

  ghost predicate GoodModels(c: Channel, t: ChannelPreset, n: nat)
    requires n <= |t.models|
  {
    && (forall k | 0 <= k < n :: GoodModel(c, t, t.models[k]))
    && (forall j, k | 0 <= j < k < n :: t.models[j].id != t.models[k].id)
  }

  /** What `validateOAuthChannelPreset` accepts, but for the reasoning caps. */
  ghost predicate GoodPreset(c: Channel, t: ChannelPreset) {
    && |t.models| == |c.catalog| && GoodModels(c, t, |t.models|)
    && GoodEntries(t, |t.aliases|) && OneOwner(t.models, t.aliases)
  }

  /** What preflight accepts.  Every channel is looked at, included or not. */
  ghost predicate Prepared(config: Config, requested: Preset, capsFit: string -> bool) {
    && requested != map[] && requested.Keys <= config.Keys
    && (forall c | c in config :: GoodPreset(config[c], TargetOf(config, requested, c)) && capsFit(c))
    && (forall c, d | c in config && d in config && c != d :: TargetsApart(config, requested, c, d))
  }

  lemma MoreModels(c: Channel, t: ChannelPreset, n: nat)
    requires n < |t.models|
    ensures GoodModels(c, t, n + 1)
       <==>
       GoodModels(c, t, n) && GoodModel(c, t, t.models[n])
       && forall j | 0 <= j < n :: t.models[j].id != t.models[n].id
    ensures GoodModels(c, t, |t.models|) ==> GoodModels(c, t, n + 1)
  {
    hide GoodModel;
  }

  lemma {:induction false} FewerEntries(aliases: seq<Alias>, n: nat, m: Name)
    requires n <= |aliases|
    ensures EntriesFor(aliases[..n], m) <= EntriesFor(aliases, m)
    decreases |aliases|
  {
    if n == |aliases| {
      assert aliases[..n] == aliases;
    } else {
      FewerEntries(aliases[..|aliases| - 1], n, m);
      assert aliases[..|aliases| - 1][..n] == aliases[..n];
    }
  }

  lemma OneMoreEntry(t: ChannelPreset, n: nat, m: Name)
    requires n < |t.aliases|
    ensures EntriesFor(t.aliases[..n + 1], m) == EntriesFor(t.aliases[..n], m) + if t.aliases[n].name == m then 1 else 0
    ensures EntriesFor(t.aliases[..n + 1], m) <= EntriesFor(t.aliases[..|t.aliases|], m)
  {
    assert t.aliases[..n + 1][..n] == t.aliases[..n];
    assert t.aliases[..|t.aliases|] == t.aliases;
    FewerEntries(t.aliases, n + 1, m);
  }

  lemma MoreEntries(t: ChannelPreset, n: nat)
    requires n < |t.aliases|
    ensures var e := t.aliases[n];
            (GoodEntries(t, n + 1)
             <==> GoodEntries(t, n) && GoodEntry(t, e) && EntriesFor(t.aliases[..n], e.name) < 32
                  && forall j | 0 <= j < n :: (t.aliases[j].name, t.aliases[j].alias) != (e.name, e.alias))
    ensures GoodEntries(t, |t.aliases|) ==> GoodEntries(t, n + 1)
  {
    NotTooMany(t, n);
    hide GoodEntry, EntriesFor;
    var e := t.aliases[n];
    assert PairsDiffer(t, n + 1) <==>
           PairsDiffer(t, n)
           && forall j | 0 <= j < n :: (t.aliases[j].name, t.aliases[j].alias) != (e.name, e.alias);
    assert PairsDiffer(t, |t.aliases|) ==> PairsDiffer(t, n + 1);
    hide PairsDiffer, AtMost32;
  }

  lemma NotTooMany(t: ChannelPreset, n: nat)
    requires n < |t.aliases|
    ensures AtMost32(t, n + 1) <==> AtMost32(t, n) && EntriesFor(t.aliases[..n], t.aliases[n].name) < 32
    ensures AtMost32(t, |t.aliases|) ==> AtMost32(t, n + 1)
  {
    forall m
      ensures EntriesFor(t.aliases[..n + 1], m) == EntriesFor(t.aliases[..n], m)
              + if t.aliases[n].name == m then 1 else 0
      ensures EntriesFor(t.aliases[..n + 1], m) <= EntriesFor(t.aliases[..|t.aliases|], m)
    {
      OneMoreEntry(t, n, m);
    }
    var front, more, all := t.aliases[..n], t.aliases[..n + 1], t.aliases[..|t.aliases|];
    hide EntriesFor;
    if AtMost32(t, n) && EntriesFor(front, t.aliases[n].name) < 32 {
      forall m
        ensures EntriesFor(more, m) <= 32
      {
        assert EntriesFor(front, m) <= 32;
      }
    }
    if AtMost32(t, n + 1) {
      assert EntriesFor(more, t.aliases[n].name) <= 32;
      forall m
        ensures EntriesFor(front, m) <= 32
      {
        assert EntriesFor(more, m) <= 32;
      }
    }
    if AtMost32(t, |t.aliases|) {
      forall m
        ensures EntriesFor(more, m) <= 32
      {
        assert EntriesFor(all, m) <= 32;
      }
    }
  }

  /** `validateOAuthChannelPreset`; whether the caps suit the channel is left open. */
  method ValidateChannelPreset(c: Channel, t: ChannelPreset, capsFit: bool) returns (ok: bool)
    ensures ok <==> GoodPreset(c, t) && capsFit
  {
    hide GoodModel, GoodEntries, GoodModels, OneOwner, NamedModels, BlankListed, BlankShared, Orders, Claims;
    if |t.models| != |c.catalog| {
      return false;
    }
    ok := ValidateModels(c, t);
    if !ok {
      return;
    }
    ok := ValidateEntries(t);
    if !ok {
      return;
    }
    ghost var order;
    ok, order := ValidateAliasNames(t.models, t.aliases);
    PresetNamed(c, t);
    ok := ok && capsFit;
  }

  method ValidateModels(c: Channel, t: ChannelPreset) returns (ok: bool)
    ensures ok <==> GoodModels(c, t, |t.models|)
  {
    var seen: set<Name> := {};
    var i := 0;
    assert GoodModels(c, t, 0);
    hide GoodModels;
    while i < |t.models|
      invariant 0 <= i <= |t.models| && GoodModels(c, t, i)
      invariant forall m :: m in seen <==> exists k :: 0 <= k < i && t.models[k].id == m
    {
      var m := t.models[i];
      MoreModels(c, t, i);
      if m.id == "" || m.id !in c.catalog || m.id in seen {
        return false;
      }
      var off, wildcard := ExcludedModelRule(m.id, c.rules);
      if wildcard != WildcardOf(t, m.id) || (WildcardOf(t, m.id) != "" && m.enabled) {
        return false;
      }
      seen := seen + {m.id};
      i := i + 1;
    }
    ok := true;
  }

  method ValidateEntries(t: ChannelPreset) returns (ok: bool)
    ensures ok <==> GoodEntries(t, |t.aliases|)
  {
    var seen: set<(Name, Name)>, counts: map<Name, nat> := {}, map[];
    var i := 0;
    assert GoodEntries(t, 0);
    hide GoodEntries, On, IsAliasID;
    while i < |t.aliases|
      invariant 0 <= i <= |t.aliases| && GoodEntries(t, i)
      invariant forall p :: p in seen <==> exists k :: 0 <= k < i && (t.aliases[k].name, t.aliases[k].alias) == p
      invariant forall m :: EntriesFor(t.aliases[..i], m) == if m in counts then counts[m] else 0
    {
      var e := t.aliases[i];
      MoreEntries(t, i);
      forall m
        ensures EntriesFor(t.aliases[..i + 1], m) == EntriesFor(t.aliases[..i], m) + if e.name == m then 1 else 0
      {
        OneMoreEntry(t, i, m);
      }
      if !On(t.models, e.name) {
        return false;
      }
      counts := counts[e.name := (if e.name in counts then counts[e.name] else 0) + 1];
      if !IsAliasID(e.alias) || (e.name, e.alias) in seen || counts[e.name] > 32 {
        return false;
      }
      seen := seen + {(e.name, e.alias)};
      i := i + 1;
    }
    ok := true;
  }

  /** Every entry names a model that is on, so the check of the names is exact. */
  lemma PresetNamed(c: Channel, t: ChannelPreset)
    requires GoodModels(c, t, |t.models|) && GoodEntries(t, |t.aliases|)
    ensures NamedModels(t.models) && !BlankShared(t.models, t.aliases)
  {
    hide IsAliasID;
    forall m | m in t.models
      ensures m.id != ""
    {
      var k :| 0 <= k < |t.models| && t.models[k] == m;
      assert GoodModel(c, t, t.models[k]);
    }
    forall e | e in t.aliases
      ensures e.name != ""
    {
      var k :| 0 <= k < |t.aliases| && t.aliases[k] == e;
      assert GoodEntry(t, t.aliases[k]);
      assert Setting(e.name, true) in t.models;
    }
    NamedIsUnshared(t.models, t.aliases);
  }

  /** A preset that is accepted is about exactly the models of the catalog. */
  lemma GoodPresetFits(c: Channel, t: ChannelPreset)
    requires GoodPreset(c, t)
    ensures Fits(c, t)
  {
    hide GoodEntry, OneOwner, EntriesFor;
    var seen := set k: nat | k < |t.models| :: t.models[k].id;
    DistinctModels(c, t, |t.models|);
    forall k | 0 <= k < |t.aliases|
      ensures On(t.models, t.aliases[k].name)
    {
      GoodEntryIsOn(t, t.aliases[k]);
    }
    forall m | m in seen
      ensures m in c.catalog
    {
      var k: nat :| k < |t.models| && t.models[k].id == m;
      assert GoodModel(c, t, t.models[k]);
    }
    AllModels(c, t, seen);
  }

  lemma GoodEntryIsOn(t: ChannelPreset, e: Alias)
    requires GoodEntry(t, e)
    ensures On(t.models, e.name)
  {
    hide IsAliasID;
  }

  lemma {:induction false} DistinctModels(c: Channel, t: ChannelPreset, n: nat)
    requires n <= |t.models| && GoodModels(c, t, n)
    ensures |set k: nat | k < n :: t.models[k].id| == n
    decreases n
  {
    hide GoodModel;
    if n == 0 {
    } else {
      DistinctModels(c, t, n - 1);
      assert (set k: nat | k < n :: t.models[k].id)
             == (set k: nat | k < n - 1 :: t.models[k].id) + {t.models[n - 1].id};
    }
  }

  lemma CatalogSize(catalog: seq<Name>)
    ensures |set m | m in catalog| <= |catalog|
    decreases |catalog|
  {
    if catalog == [] {
    } else {
      CatalogSize(catalog[1..]);
      assert (set m | m in catalog) == (set m | m in catalog[1..]) + {catalog[0]};
    }
  }

  lemma AllModels(c: Channel, t: ChannelPreset, seen: set<Name>)
    requires |t.models| == |c.catalog| == |seen| && seen <= set m | m in c.catalog
    requires forall m :: m in seen <==> exists k :: 0 <= k < |t.models| && t.models[k].id == m
    requires forall j, k | 0 <= j < k < |t.models| :: t.models[j].id != t.models[k].id
    requires forall k | 0 <= k < |t.aliases| :: On(t.models, t.aliases[k].name)
    ensures Fits(c, t)
  {
    var all := set m | m in c.catalog;
    CatalogSize(c.catalog);
    SubsetOfSize(seen, all);
    assert seen == all;
    forall m: Name
      ensures Known(t.models, m) <==> m in c.catalog
      ensures !(Setting(m, true) in t.models && Setting(m, false) in t.models)
    {
      if m in c.catalog {
        assert m in all && m in seen;
        var k :| 0 <= k < |t.models| && t.models[k].id == m;
        assert t.models[k] in t.models && t.models[k] == Setting(m, t.models[k].enabled);
      }
      if Known(t.models, m) {
        var b := Setting(m, true) in t.models;
        var k :| 0 <= k < |t.models| && t.models[k] == Setting(m, b);
        assert m in seen;
      }
    }
  }

  /** Every pair of channels, as both would be. */
  method ValidateTargets(config: Config, requested: Preset) returns (ok: bool)
    ensures ok <==> forall c, d | c in config && d in config && c != d :: TargetsApart(config, requested, c, d)
  {
    hide Lists, NoClash, Apart;
    var left := config.Keys;
    while left != {}
      invariant left <= config.Keys
      invariant forall c, d | c in config && c !in left && d in config && c != d ::
                TargetsApart(config, requested, c, d)
      decreases left
    {
      var c :| c in left;
      var s := TargetOf(config, requested, c);
      var rest := Unlisted(config[c].catalog, config[c].aliases);
      var names := VisibleNames(s.models, s.aliases + rest);
      var others := config.Keys - {c};
      while others != {}
        invariant others <= config.Keys - {c}
        invariant forall d | d in config && c != d && d !in others :: TargetsApart(config, requested, c, d)
        decreases others
      {
        var d :| d in others;
        var t := TargetOf(config, requested, d);
        var rest' := Unlisted(config[d].catalog, config[d].aliases);
        var names' := VisibleNames(t.models, t.aliases + rest');
        ok := CrossCheck(names, names');
        NoClashIsApart(names, s.models, s.aliases + rest, names', t.models, t.aliases + rest');
        if !ok {
          return;
        }
        others := others - {d};
      }
      left := left - {c};
    }
    ok := true;
  }

  /** `prepareOAuthPreset`: reads only, and refuses exactly what does not fit. */
  method Prepare(config: Config, requested: Preset, capsFit: string -> bool) returns (ok: bool)
    ensures ok <==> Prepared(config, requested, capsFit)
  {
    hide GoodPreset, TargetsApart;
    if requested == map[] || !(requested.Keys <= config.Keys) {
      return false;
    }
    var left := config.Keys;
    while left != {}
      invariant left <= config.Keys
      invariant forall c | c in config && c !in left ::
                GoodPreset(config[c], TargetOf(config, requested, c)) && capsFit(c)
      decreases left
    {
      var c :| c in left;
      ok := ValidateChannelPreset(config[c], TargetOf(config, requested, c), capsFit(c));
      if !ok {
        return;
      }
      left := left - {c};
    }
    ok := ValidateTargets(config, requested);
  }

  /** Some channels were touched; what the portal does not manage is as it was
      everywhere, and the others are exactly as they were. */
  ghost predicate Touched(before: Config, after: Config, touched: set<string>) {
    && after.Keys == before.Keys
    && (forall c | c in before && c !in touched :: after[c] == before[c])
    && (forall c | c in before :: SameFrame(before[c], after[c]))
  }

  lemma TouchMore(before: Config, now: Config, after: Config, touched: set<string>, c: string)
    requires Touched(before, now, touched) && OnlyManaged(now, after, c) && c in before
    ensures Touched(before, after, touched + {c})
    ensures forall d | d in before && d != c :: after[d] == now[d]
  {
    hide OffByPattern, Plain;
  }

  /** The record of a channel fits every channel with the same frame. */
  lemma FitsFrame(c: Channel, d: Channel, t: ChannelPreset)
    requires SameFrame(c, d) && Fits(c, t)
    ensures Fits(d, t)
  {
  }

  /** A target shows the same from any channel with the same frame. */
  lemma RoutesFrame(c: Channel, now: Channel, d: Channel, t: ChannelPreset)
    requires SameFrame(c, now) && Routes(d, now, t)
    ensures Routes(d, c, t)
  {
    hide Shows;
    forall n, m, a
      ensures ShowsOn(d, n, m, a) == TargetShows(c, t, n, m, a)
    {
      forall e: Alias
        ensures e in t.aliases + Unlisted(now.catalog, now.aliases) <==> e in t.aliases + Unlisted(c.catalog, c.aliases)
      {
        ListedHas(c.catalog, c.aliases, e);
        ListedHas(now.catalog, now.aliases, e);
      }
      SameEntriesShow(t.models, t.aliases + Unlisted(now.catalog, now.aliases),
        t.aliases + Unlisted(c.catalog, c.aliases), n, m, a);
      assert ShowsOn(d, n, m, a) == TargetShows(now, t, n, m, a);
    }
  }

  lemma CurrentShows(c: Channel)
    ensures Routes(c, c, CurrentPreset(c))
  {
    hide Shows;
    forall n, m, a
      ensures ShowsOn(c, n, m, a) == TargetShows(c, CurrentPreset(c), n, m, a)
    {
      forall e: Alias
        ensures e in Listed(c.catalog, c.aliases) + Unlisted(c.catalog, c.aliases) <==> e in c.aliases
      {
        ListedHas(c.catalog, c.aliases, e);
      }
      SameEntriesShow(Settings(c), c.aliases, Listed(c.catalog, c.aliases) + Unlisted(c.catalog, c.aliases), n, m, a);
    }
  }

  lemma RoutesApart(c: Channel, c0: Channel, s: ChannelPreset, d: Channel, d0: Channel, t: ChannelPreset)
    requires Routes(c, c0, s) && Routes(d, d0, t)
    requires Apart(s.models, s.aliases + Unlisted(c0.catalog, c0.aliases),
             t.models, t.aliases + Unlisted(d0.catalog, d0.aliases))
    ensures Distinct(c, d)
  {
    hide Shows;
    forall n, m, m', a, a' | Shows(Settings(c), c.aliases, n, m, a) && Shows(Settings(d), d.aliases, n, m', a')
      ensures !a && !a'
    {
      assert ShowsOn(c, n, m, a) && ShowsOn(d, n, m', a');
      assert TargetShows(c0, s, n, m, a) && TargetShows(d0, t, n, m', a');
    }
  }

  /** Once every included channel routes as its target, nothing is in conflict. */
  lemma AppliedIsConflictFree(before: Config, after: Config, requested: Preset)
    requires ConflictFree(before) && after.Keys == before.Keys && requested.Keys <= before.Keys
    requires forall c, d | c in before && d in before && c != d :: TargetsApart(before, requested, c, d)
    requires forall c | c in requested :: Routes(after[c], before[c], requested[c]) && OwnNames(after[c])
    requires forall c | c in before && c !in requested :: after[c] == before[c]
    ensures ConflictFree(after)
  {
    hide Routes, OwnNames, Distinct, Fits, Apart;
    forall c | c in before
      ensures Routes(after[c], before[c], TargetOf(before, requested, c)) && OwnNames(after[c])
    {
      CurrentShows(before[c]);
    }
    forall c, d | c in before && d in before && c != d
      ensures Distinct(after[c], after[d])
    {
      assert TargetsApart(before, requested, c, d);
      RoutesApart(after[c], before[c], TargetOf(before, requested, c), after[d], before[d],
        TargetOf(before, requested, d));
    }
  }

  /** If every channel routes as it did, nothing is in conflict. */
  lemma RestoredIsConflictFree(before: Config, after: Config)
    requires ConflictFree(before) && after.Keys == before.Keys
             && forall c | c in before :: SameRouting(before[c], after[c])
    ensures ConflictFree(after)
  {
    hide OwnNames, Distinct, ShowsOn;
    forall c | c in before
      ensures OwnNames(after[c])
    {
      FewerNames(before[c], after[c]);
    }
    forall c, d | c in before && d in before && c != d
      ensures Distinct(after[c], after[d])
    {
      FewerNames(before[c], after[c]);
      FewerNames(before[d], after[d]);
      DistinctBothWays(after[c], before[d]);
      DistinctBothWays(after[d], after[c]);
    }
  }

  function AsSet(order: seq<string>): set<string> {
    set c | c in order
  }

  /** What a channel is after its preset was applied. */
  ghost predicate Arrived(d: Channel, c: Channel, t: ChannelPreset) {
    OwnNames(d) && (Plain(c.catalog) ==> Routes(d, c, t))
  }

  lemma ArrivedFrame(c: Channel, now: Channel, d: Channel, t: ChannelPreset)
    requires SameFrame(c, now) && OwnNames(d) && (Plain(d.catalog) ==> Routes(d, now, t)) && d.catalog == now.catalog
    ensures Arrived(d, c, t)
  {
    hide OwnNames, Routes, Plain, OffByPattern;
    if Plain(c.catalog) {
      RoutesFrame(c, now, d, t);
    }
  }

  /** One channel after the other, until one fails. */
  method ApplyInOrder(p: Portal, order: seq<string>, requested: Preset) returns (ok: bool, attempted: seq<string>)
    requires forall c | c in requested :: c in p.channels && Fits(p.channels[c], requested[c])
    requires forall i, j | 0 <= i < j < |order| :: order[i] != order[j]
    modifies p
    ensures Touched(old(p.channels), p.channels, AsSet(attempted)) && AsSet(attempted) <= requested.Keys
    ensures ok ==> forall c | c in order && c in requested ::
                     Arrived(p.channels[c], old(p.channels)[c], requested[c])
  {
    hide Arrived, Fits, SameFrame, OnlyManaged, Plain, Routes, OwnNames;
    ghost var before := p.channels;
    attempted := [];
    TouchNothing(before);
    var i := 0;
    while i < |order|
      invariant 0 <= i <= |order|
      invariant Touched(before, p.channels, AsSet(attempted)) && AsSet(attempted) <= requested.Keys
      invariant forall c | c in attempted :: c in order[..i]
      invariant forall c | c in order[..i] && c in requested :: Arrived(p.channels[c], before[c], requested[c])
    {
      var c := order[i];
      assert order[..i + 1] == order[..i] + [c];
      assert c !in order[..i];
      if c in requested {
        ghost var now := p.channels;
        attempted := attempted + [c];
        assert AsSet(attempted) == AsSet(attempted[..|attempted| - 1]) + {c};
        assert attempted[..|attempted| - 1] + [c] == attempted;
        FitsFrame(before[c], now[c], requested[c]);
        ok := ApplyChannel(p, c, requested[c]);
        TouchMore(before, now, p.channels, AsSet(attempted[..|attempted| - 1]), c);
        if !ok {
          return;
        }
        ManagedCatalog(now, p.channels, c);
        ArrivedFrame(before[c], now[c], p.channels[c], requested[c]);
      }
      i := i + 1;
    }
    assert order[..i] == order;
    ok := true;
  }

  lemma TouchNothing(config: Config)
    ensures Touched(config, config, AsSet([]))
  {
  }

  /** Back through the attempted channels; goes on after a failure, and reports it. */
  method RollBack(p: Portal, before: Config, attempted: seq<string>) returns (ok: bool)
    requires Touched(before, p.channels, AsSet(attempted))
    requires forall c | c in attempted :: c in before
    modifies p
    ensures Touched(before, p.channels, AsSet(attempted))
    ensures ok ==> forall c | c in attempted && Plain(before[c].catalog) :: SameRouting(before[c], p.channels[c])
  {
    hide Routes, Fits, SameFrame, SameRouting, OnlyManaged, Plain, OwnNames;
    ok := true;
    var i := |attempted|;
    while i > 0
      invariant 0 <= i <= |attempted| && Touched(before, p.channels, AsSet(attempted))
      invariant ok ==> forall k | i <= k < |attempted| && Plain(before[attempted[k]].catalog) ::
                  SameRouting(before[attempted[k]], p.channels[attempted[k]])
    {
      i := i - 1;
      var c := attempted[i];
      ghost var now := p.channels;
      CurrentFits(before[c]);
      FitsFrame(before[c], now[c], CurrentPreset(before[c]));
      var restored := ApplyChannel(p, c, CurrentPreset(before[c]));
      TouchMore(before, now, p.channels, AsSet(attempted), c);
      assert AsSet(attempted) + {c} == AsSet(attempted);
      FrameCatalog(before[c], now[c]);
      FrameCatalog(before[c], p.channels[c]);
      if restored {
        if Plain(before[c].catalog) {
          RoutesFrame(before[c], now[c], p.channels[c], CurrentPreset(before[c]));
          CurrentRoutes(before[c], p.channels[c]);
        }
      } else {
        ok := false;
      }
    }
  }

  lemma SameRoutingItself(c: Channel)
    ensures SameRouting(c, c)
  {
  }

  /** No included channel has a model whose own name is a pattern for another. */
  ghost predicate AllPlain(config: Config, requested: Preset) {
    forall c | c in requested && c in config :: Plain(config[c].catalog)
  }

  /** `ApplyOAuthPreset`.  Refused: exactly when preflight does not pass, and nothing was
      written.  Applied: every included channel routes as the preset says and the others
      are untouched.  Restored: every channel routes as before.  In all three cases
      nothing is in conflict that was not before.  All of this where no model's own name is
      a pattern for another's. */
  method ApplyPreset(p: Portal, order: seq<string>, requested: Preset, capsFit: string -> bool)
      returns (verdict: Verdict)
    requires (forall c :: c in order <==> c in p.channels) && forall i, j | 0 <= i < j < |order| :: order[i] != order[j]
    modifies p
    ensures Touched(old(p.channels), p.channels, requested.Keys)
    ensures verdict.Refused? <==> !(p.answers(old(p.readings)) && Prepared(old(p.channels), requested, capsFit))
    ensures verdict.Refused? ==> p.channels == old(p.channels)
    ensures verdict.Applied? ==> forall c | c in requested ::
              c in p.channels && Arrived(p.channels[c], old(p.channels)[c], requested[c])
    ensures verdict.Restored? ==> forall c | c in p.channels && Plain(old(p.channels)[c].catalog) ::
              SameRouting(old(p.channels)[c], p.channels[c])
    ensures old(ConflictFree(p.channels)) && !verdict.Broken? && old(AllPlain(p.channels, requested)) ==>
              ConflictFree(p.channels)
  {
    hide Arrived, OwnNames, Distinct, Fits, SameRouting, SameFrame, ConflictFree, TargetsApart, GoodPreset, Plain;
    var before := p.channels;
    TouchNothing(before);
    TouchWiden(before, before, AsSet([]), requested.Keys);
    var ok := p.Read();
    if !ok {
      return Refused;
    }
    ok := Prepare(before, requested, capsFit);
    if !ok {
      return Refused;
    }
    forall c | c in requested
      ensures c in before && Fits(before[c], requested[c])
    {
      GoodPresetFits(before[c], TargetOf(before, requested, c));
    }
    var attempted;
    ok, attempted := ApplyInOrder(p, order, requested);
    TouchWiden(before, p.channels, AsSet(attempted), requested.Keys);
    if ok {
      ok := p.Read();
      if ok {
        if ConflictFree(before) && AllPlain(before, requested) {
          forall c | c in requested
            ensures Routes(p.channels[c], before[c], requested[c]) && OwnNames(p.channels[c])
          {
            ArrivedRoutes(p.channels[c], before[c], requested[c]);
          }
          AppliedIsConflictFree(before, p.channels, requested);
        }
        return Applied;
      }
    }
    assert forall c | c in attempted :: c in AsSet(attempted);
    ok := RollBack(p, before, attempted);
    TouchWiden(before, p.channels, AsSet(attempted), requested.Keys);
    var refreshed := p.Read();
    if !ok || !refreshed {
      return Broken;
    }
    forall c | c in before && (Plain(before[c].catalog) || c !in requested)
      ensures SameRouting(before[c], p.channels[c])
    {
      SameRoutingItself(before[c]);
      assert c in attempted <==> c in AsSet(attempted);
    }
    if ConflictFree(before) && AllPlain(before, requested) {
      RestoredIsConflictFree(before, p.channels);
    }
    verdict := Restored;
  }

  lemma ArrivedRoutes(d: Channel, c: Channel, t: ChannelPreset)
    requires Arrived(d, c, t) && Plain(c.catalog)
    ensures Routes(d, c, t) && OwnNames(d)
  {
  }

  lemma TouchWiden(before: Config, after: Config, s: set<string>, t: set<string>)
    requires Touched(before, after, s) && s <= t
    ensures Touched(before, after, t)
  {
  }

  const HIDING := Channel(["m", "x"], [], [Alias("m", "a", false), Alias("x", "m", false)])

  lemma HidingSettings(aliases: seq<Alias>)
    ensures Settings(HIDING.(aliases := aliases)) == [Setting("m", true), Setting("x", true)]
  {
  }

  lemma HidingShows(n: Name, m: Name, a: bool)
    requires ShowsOn(HIDING, n, m, a)
    ensures (m == "m" && n == "a") || (m == "x" && n == "m")
  {
    HidingSettings(HIDING.aliases);
    var aliases := HIDING.aliases;
    assert aliases[0] == Alias("m", "a", false) && aliases[1] == Alias("x", "m", false);
    assert Renamed(aliases, "m") && Renamed(aliases, "x") && !Forked(aliases, m);
    assert HasAlias(aliases, m, n) ==> Alias(m, n, false) in aliases;
    hide Settings;
  }

  lemma HidingIsFine()
    ensures OwnNames(HIDING)
  {
    hide Shows;
    forall n, m, m', a, a' | Shows(Settings(HIDING), HIDING.aliases, n, m, a)
      && Shows(Settings(HIDING), HIDING.aliases, n, m', a')
      ensures m == m'
    {
      HidingShows(n, m, a);
      HidingShows(n, m', a');
    }
  }

  const COLLISION: Config := map["codex" := HIDING]

  /** The exception is real: with the rule back and the entries gone, the model's own name
      comes out from behind its alias, and another model uses it. */
  lemma ExposedNameCollides()
    ensures ConflictFree(COLLISION)
    ensures !ConflictFree(SwitchedOff(COLLISION, "codex", "m", LateOnce(), Always(), 0, 0).0)
  {
    HidingIsFine();
    HidingSettings(HIDING.aliases);
    var aliases, settings := HIDING.aliases, [Setting("m", true), Setting("x", true)];
    assert aliases[0] == Alias("m", "a", false) && aliases[1] == Alias("x", "m", false) && settings[1] in settings;
    assert ShowsOn(HIDING, "m", "x", true);
    assert settings[0] in settings;
    SettingsMean(HIDING, "m");
    hide Shows, Settings, Off, Distinct, OwnNames;
    HalfDone(COLLISION, "codex", "m");
    ExposingIsSafeExactly(COLLISION, "codex", "m");
  }
}

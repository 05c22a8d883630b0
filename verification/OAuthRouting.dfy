/** Saving aliases and switching models of one OAuth channel
    (internal/service/keys.go:1234-1357, 1447-1595), on an upstream whose writes may fail
    before or after they took effect and whose reads may fail. */
module OAuthRouting {
  import opened OAuthNames
  import opened WildcardMatch
  import opened Wrappers

  /** A list of models as the client hands it on: none without a name, none twice. */
  predicate GoodCatalog(catalog: seq<Name>) {
    && (forall i | 0 <= i < |catalog| :: catalog[i] != "")
    && (forall i, j | 0 <= i < j < |catalog| :: catalog[i] != catalog[j])
  }

  type Catalog = s: seq<Name> | GoodCatalog(s)

  /** `catalog` is what upstream defines, `rules` what is switched off, exactly or by a
      pattern. */
  datatype Channel = Channel(catalog: Catalog, rules: seq<string>, aliases: seq<Alias>)

  type Config = map<string, Channel>

  lemma GoodName(catalog: Catalog, m: Name)
    requires m in catalog
    ensures m != ""
  {
  }

  /** `ListOAuthModelDefinitions` (internal/cpamp/client.go:863-907): whatever upstream
      lists, blank and overlong names and repetitions are dropped. */
  method ListDefinitions(ids: seq<Name>, short: Name -> bool) returns (catalog: Catalog)
    ensures forall m :: m in catalog <==> m in ids && m != "" && short(m)
  {
    var result: seq<Name>, seen: set<Name> := [], {};
    var i := 0;
    while i < |ids|
      invariant 0 <= i <= |ids| && GoodCatalog(result)
      invariant forall m :: m in result <==> m in ids[..i] && m != "" && short(m)
      invariant forall m :: m in seen <==> m in result
    {
      var id := ids[i];
      assert ids[..i + 1] == ids[..i] + [id];
      if id != "" && short(id) && id !in seen {
        seen, result := seen + {id}, result + [id];
      }
      i := i + 1;
    }
    assert ids[..i] == ids;
    catalog := result;
  }

  predicate ByPattern(rule: string, m: Name) {
    rule != m && STAR in rule && Accepts(rule, m)
  }

  predicate Excludes(rule: string, m: Name) {
    rule != "" && (rule == m || ByPattern(rule, m))
  }

  predicate Off(rules: seq<string>, m: Name) {
    exists k :: 0 <= k < |rules| && Excludes(rules[k], m)
  }

  predicate OffByPattern(rules: seq<string>, m: Name) {
    exists k :: 0 <= k < |rules| && ByPattern(rules[k], m)
  }

  /** The first pattern that switches a model off; empty if there is none. */
  function PatternRule(rules: seq<string>, m: Name): string {
    if rules == [] then "" else if ByPattern(rules[0], m) then rules[0] else PatternRule(rules[1..], m)
  }

  lemma {:induction false} PatternRuleIs(rules: seq<string>, m: Name)
    ensures PatternRule(rules, m) != "" <==> OffByPattern(rules, m)
    decreases |rules|
  {
    hide Accepts;
    if rules == [] {
    } else {
      PatternRuleIs(rules[1..], m);
      if OffByPattern(rules[1..], m) {
        var k :| 0 <= k < |rules[1..]| && ByPattern(rules[1..][k], m);
        assert rules[k + 1] == rules[1..][k];
      }
      if OffByPattern(rules, m) && !ByPattern(rules[0], m) {
        var k :| 0 <= k < |rules| && ByPattern(rules[k], m);
        assert rules[1..][k - 1] == rules[k];
      }
    }
  }

  method ExcludedModelRule(m: Name, rules: seq<string>) returns (matched: bool, wildcard: string)
    requires m != ""
    ensures matched == Off(rules, m) && wildcard == PatternRule(rules, m)
  {
    matched, wildcard := false, "";
    var i := 0;
    while i < |rules|
      invariant 0 <= i <= |rules|
      invariant matched == exists k :: 0 <= k < i && Excludes(rules[k], m)
      invariant PatternRule(rules, m) == PatternRule(rules[i..], m)
    {
      var rule := rules[i];
      assert rules[i..][0] == rule && rules[i..][1..] == rules[i + 1..];
      if rule != "" {
        if rule == m {
          matched := true;
        } else if STAR in rule {
          var matches := WildcardModelMatch(rule, m);
          if matches {
            assert ByPattern(rules[i], m) && Excludes(rules[i], m);
            return true, rule;
          }
        }
      }
      i := i + 1;
    }
  }

  function Settings(c: Channel): seq<Setting> {
    seq(|c.catalog|, i requires 0 <= i < |c.catalog| => Setting(c.catalog[i], !Off(c.rules, c.catalog[i])))
  }

  lemma SettingsMean(c: Channel, m: Name)
    ensures On(Settings(c), m) <==> m in c.catalog && !Off(c.rules, m)
    ensures Known(Settings(c), m) <==> m in c.catalog
  {
    hide Off;
    var s := Settings(c);
    if m in c.catalog {
      var i :| 0 <= i < |c.catalog| && c.catalog[i] == m;
      assert s[i] == Setting(m, !Off(c.rules, m));
    }
    forall b | Setting(m, b) in s
      ensures m in c.catalog && b == !Off(c.rules, m)
    {
      var i :| 0 <= i < |s| && s[i] == Setting(m, b);
    }
  }

  predicate ShowsOn(c: Channel, n: Name, m: Name, a: bool) {
    Shows(Settings(c), c.aliases, n, m, a)
  }

  ghost predicate OwnNames(c: Channel) {
    OneOwner(Settings(c), c.aliases)
  }

  ghost predicate Distinct(c: Channel, d: Channel) {
    Apart(Settings(c), c.aliases, Settings(d), d.aliases)
  }

  /** Every visible name has one owner in its channel, and no alias is also visible on
      another channel. */
  ghost predicate ConflictFree(config: Config) {
    && (forall c | c in config :: OwnNames(config[c]))
    && (forall c, d | c in config && d in config && c != d :: Distinct(config[c], config[d]))
  }

  /** A channel that shows nothing new brings no conflict. */
  lemma FewerNames(c: Channel, d: Channel)
    requires forall n, m, a :: ShowsOn(d, n, m, a) ==> ShowsOn(c, n, m, a)
    ensures OwnNames(c) ==> OwnNames(d)
    ensures forall e :: Distinct(c, e) ==> Distinct(d, e)
  {
    hide Shows;
    if OwnNames(c) {
      forall n, m, m', a, a' | Shows(Settings(d), d.aliases, n, m, a) && Shows(Settings(d), d.aliases, n, m', a')
        && m != "" && m' != ""
        ensures m == m'
      {
        assert ShowsOn(d, n, m, a) && ShowsOn(d, n, m', a');
      }
    }
    forall e | Distinct(c, e)
      ensures Distinct(d, e)
    {
      forall n, m, m', a, a' | Shows(Settings(d), d.aliases, n, m, a) && Shows(Settings(e), e.aliases, n, m', a')
        ensures !a && !a'
      {
        assert ShowsOn(d, n, m, a);
      }
    }
  }

  lemma DistinctBothWays(c: Channel, d: Channel)
    ensures Distinct(c, d) <==> Distinct(d, c)
  {
    hide Settings, Apart;
    ApartIsSymmetric(Settings(c), c.aliases, Settings(d), d.aliases);
  }

  /** One channel is replaced by another that agrees with itself and with the others. */
  lemma ReplaceOne(config: Config, c: string, d: Channel)
    requires ConflictFree(config) && c in config && OwnNames(d)
    requires forall o | o in config && o != c :: Distinct(d, config[o])
    ensures ConflictFree(config[c := d])
  {
    hide OwnNames, Distinct;
    forall x, y | x in config && y in config && x != y
      ensures Distinct(config[c := d][x], config[c := d][y])
    {
      if y == c {
        DistinctBothWays(d, config[x]);
      }
    }
  }

  lemma ReplaceByFewer(config: Config, c: string, d: Channel)
    requires ConflictFree(config) && c in config
    requires forall n, m, a :: ShowsOn(d, n, m, a) ==> ShowsOn(config[c], n, m, a)
    ensures ConflictFree(config[c := d])
  {
    hide OwnNames, Distinct, ShowsOn;
    FewerNames(config[c], d);
    ReplaceOne(config, c, d);
  }

  // ------------------------------------------------------------------ switching models

  function WithoutRule(rules: seq<string>, m: Name): seq<string> {
    if rules == [] then [] else (if rules[0] == m then [] else [rules[0]]) + WithoutRule(rules[1..], m)
  }

  function WithoutAliases(aliases: seq<Alias>, m: Name): seq<Alias> {
    if aliases == [] then [] else (if aliases[0].name == m then [] else [aliases[0]]) + WithoutAliases(aliases[1..], m)
  }

  lemma {:induction false} WithoutRuleHas(rules: seq<string>, m: Name, r: string)
    ensures r in WithoutRule(rules, m) <==> r in rules && r != m
    decreases |rules|
  {
    if rules == [] {
    } else {
      WithoutRuleHas(rules[1..], m, r);
      assert forall x :: x in rules <==> x == rules[0] || x in rules[1..];
    }
  }

  lemma {:induction false} WithoutAliasesHas(aliases: seq<Alias>, m: Name, e: Alias)
    ensures e in WithoutAliases(aliases, m) <==> e in aliases && e.name != m
    decreases |aliases|
  {
    if aliases == [] {
    } else {
      WithoutAliasesHas(aliases[1..], m, e);
      assert forall x :: x in aliases <==> x == aliases[0] || x in aliases[1..];
    }
  }

  lemma OffMeans(rules: seq<string>, m: Name)
    ensures Off(rules, m) <==> exists r :: r in rules && Excludes(r, m)
  {
    hide Excludes;
    if r :| r in rules && Excludes(r, m) {
      var k :| 0 <= k < |rules| && rules[k] == r;
    }
    if Off(rules, m) {
      var k :| 0 <= k < |rules| && Excludes(rules[k], m);
      assert rules[k] in rules;
    }
  }

  /** Taking out the exact rule of a model switches nothing off, and switches on what no
      other rule keeps off. */
  lemma WithoutRuleOff(rules: seq<string>, m: Name, x: Name)
    requires m != ""
    ensures Off(WithoutRule(rules, m), m) <==> OffByPattern(rules, m)
    ensures Off(WithoutRule(rules, m), x) ==> Off(rules, x)
    ensures x != m && !ByPattern(m, x) ==> (Off(WithoutRule(rules, m), x) <==> Off(rules, x))
  {
    OffMeans(rules, x);
    OffMeans(WithoutRule(rules, m), x);
    OffMeans(WithoutRule(rules, m), m);
    hide Accepts;
    forall r: string
      ensures r in WithoutRule(rules, m) <==> r in rules && r != m
    {
      WithoutRuleHas(rules, m, r);
    }
    assert OffByPattern(rules, m) <==> exists r :: r in rules && ByPattern(r, m) by {
      if r :| r in rules && ByPattern(r, m) {
        var k :| 0 <= k < |rules| && rules[k] == r;
      }
      if OffByPattern(rules, m) {
        var k :| 0 <= k < |rules| && ByPattern(rules[k], m);
        assert rules[k] in rules;
      }
    }
    hide Off, OffByPattern, WithoutRule;
  }

  lemma WithRuleOff(rules: seq<string>, m: Name, x: Name)
    requires m != ""
    ensures Off(rules + [m], x) <==> x == m || ByPattern(m, x) || Off(rules, x)
  {
    OffMeans(rules, x);
    OffMeans(rules + [m], x);
    hide Off, ByPattern;
    assert forall r :: r in rules + [m] <==> r in rules || r == m;
    assert Excludes(m, x) <==> x == m || ByPattern(m, x);
  }

  /** No model's own name is a pattern that another model's name matches. */
  predicate Plain(catalog: Catalog) {
    forall i, j | 0 <= i < |catalog| && 0 <= j < |catalog| :: !ByPattern(catalog[i], catalog[j])
  }

  lemma PlainMeans(catalog: Catalog, m: Name, x: Name)
    requires Plain(catalog) && m in catalog && x in catalog
    ensures !ByPattern(m, x)
  {
    hide ByPattern;
    var i :| 0 <= i < |catalog| && catalog[i] == m;
    var j :| 0 <= j < |catalog| && catalog[j] == x;
    assert !ByPattern(catalog[i], catalog[j]);
  }

  /** Switching one model never switches another exactly if the catalog is plain. */
  lemma SwitchesAreApartExactly(catalog: Catalog)
    ensures (forall rules: seq<string>, m, x | m in catalog && x in catalog && m != x ::
               Off(rules + [m], x) == Off(rules, x))
            <==> Plain(catalog)
  {
    hide ByPattern, Off;
    if Plain(catalog) {
      forall rules: seq<string>, m, x | m in catalog && x in catalog && m != x
        ensures Off(rules + [m], x) == Off(rules, x)
      {
        GoodName(catalog, m);
        PlainMeans(catalog, m, x);
        WithRuleOff(rules, m, x);
      }
    } else {
      var i, j :| 0 <= i < |catalog| && 0 <= j < |catalog| && ByPattern(catalog[i], catalog[j]);
      var m, x := catalog[i], catalog[j];
      var none: seq<string> := [];
      NotItsOwn(m, x);
      WithRuleOff(none, m, x);
      NothingIsOff(x);
      assert m in catalog && x in catalog;
      assert Off(none + [m], x) != Off(none, x);
    }
  }

  lemma NotItsOwn(m: Name, x: Name)
    requires ByPattern(m, x)
    ensures m != x
  {
  }

  lemma NothingIsOff(x: Name)
    ensures !Off([], x)
  {
  }

  /** The rule of the model is not all that keeps some other model off. */
  ghost predicate Alone(c: Channel, m: Name) {
    forall x | x in c.catalog && x != m && Off(c.rules, x) :: Off(WithoutRule(c.rules, m), x)
  }

  lemma PlainIsAlone(c: Channel, m: Name)
    requires Plain(c.catalog) && m in c.catalog
    ensures Alone(c, m)
  {
    hide ByPattern, Off, WithoutRule;
    GoodName(c.catalog, m);
    forall x | x in c.catalog && x != m && Off(c.rules, x)
      ensures Off(WithoutRule(c.rules, m), x)
    {
      PlainMeans(c.catalog, m, x);
      WithoutRuleOff(c.rules, m, x);
    }
  }

  /** A model that is switched off shows nothing, whatever becomes of its aliases. */
  lemma DisabledShowsLess(c: Channel, m: Name, rules: seq<string>, aliases: seq<Alias>)
    requires m in c.catalog && m != ""
    requires rules == c.rules + [m] || (rules == c.rules && Off(c.rules, m))
    requires aliases == c.aliases || aliases == WithoutAliases(c.aliases, m)
    ensures forall n, o, a :: ShowsOn(Channel(c.catalog, rules, aliases), n, o, a) ==> ShowsOn(c, n, o, a)
  {
    var d := Channel(c.catalog, rules, aliases);
    forall n, o, a | ShowsOn(d, n, o, a)
      ensures ShowsOn(c, n, o, a)
    {
      SettingsMean(c, o);
      SettingsMean(d, o);
      WithRuleOff(c.rules, m, o);
      hide Settings, Off, On, Known, ByPattern;
      if o != m {
        SameEntriesOf(c.aliases, aliases, m, o, n);
      }
    }
  }

  /** Another model's entries are as they were. */
  lemma SameEntriesOf(before: seq<Alias>, after: seq<Alias>, m: Name, o: Name, n: Name)
    requires after == before || after == WithoutAliases(before, m)
    requires o != m
    ensures HasAlias(after, o, n) == HasAlias(before, o, n)
    ensures KeepsOriginal(after, o) == KeepsOriginal(before, o) && Forked(after, o) == Forked(before, o)
  {
    forall e: Alias | e.name == o
      ensures e in after <==> e in before
    {
      WithoutAliasesHas(before, m, e);
    }
    hide WithoutAliases;
    EntriesDecide(before, after, o);
  }

  /** What a model keeps and shows depends on its entries alone. */
  lemma EntriesDecide(s: seq<Alias>, t: seq<Alias>, o: Name)
    requires forall e: Alias | e.name == o :: e in s <==> e in t
    ensures Renamed(s, o) == Renamed(t, o) && Forked(s, o) == Forked(t, o)
    ensures forall n :: HasAlias(s, o, n) == HasAlias(t, o, n)
  {
    EntriesLeadTo(s, t, o);
    EntriesLeadTo(t, s, o);
  }

  lemma EntriesLeadTo(s: seq<Alias>, t: seq<Alias>, o: Name)
    requires forall e: Alias | e.name == o && e in s :: e in t
    ensures Renamed(s, o) ==> Renamed(t, o)
    ensures Forked(s, o) ==> Forked(t, o)
  {
    if Renamed(s, o) {
      var k :| 0 <= k < |s| && s[k].name == o && s[k].alias != "" && s[k].alias != o;
      assert s[k] in t;
      var j :| 0 <= j < |t| && t[j] == s[k];
    }
    if Forked(s, o) {
      var k :| 0 <= k < |s| && s[k].name == o && s[k].fork;
      assert s[k] in t;
      var j :| 0 <= j < |t| && t[j] == s[k];
    }
  }

  /** Switching a model on changes the settings of that model alone. */
  function EnabledSettings(c: Channel, m: Name): seq<Setting> {
    seq(|c.catalog|, i requires 0 <= i < |c.catalog| =>
      Setting(c.catalog[i], !Off(c.rules, c.catalog[i]) || c.catalog[i] == m))
  }

  lemma EnablingGives(c: Channel, m: Name)
    requires Alone(c, m) && m != "" && !OffByPattern(c.rules, m)
    ensures Settings(Enabled(c, m)) == EnabledSettings(c, m)
  {
    hide Off, WithoutRule, OffByPattern, ByPattern;
    var d := Enabled(c, m);
    forall i | 0 <= i < |c.catalog|
      ensures Settings(d)[i] == EnabledSettings(c, m)[i]
    {
      WithoutRuleOff(c.rules, m, c.catalog[i]);
    }
    assert Settings(d) == EnabledSettings(c, m);
  }

  function Enabled(c: Channel, m: Name): Channel {
    c.(rules := WithoutRule(c.rules, m))
  }

  /** The names are checked as if this model alone came on.  Whatever the entries are, they
      are in order afterwards if they passed that check, exactly if no other model is kept
      off by the rule of this one alone. */
  lemma EnablingIsCheckedExactly(c: Channel, m: Name)
    requires m in c.catalog && !OffByPattern(c.rules, m)
    ensures (forall aliases: seq<Alias> ::
               OneOwner(EnabledSettings(c, m), aliases) ==> OneOwner(Settings(Enabled(c, m)), aliases))
            <==> Alone(c, m)
  {
    hide Off, OffByPattern, WithoutRule, OneOwner, Settings, EnabledSettings;
    GoodName(c.catalog, m);
    if Alone(c, m) {
      EnablingGives(c, m);
    } else {
      var x :| x in c.catalog && x != m && Off(c.rules, x) && !Off(WithoutRule(c.rules, m), x);
      CheckedBefore(c, m, x);
      CollidesAfter(c, m, x);
    }
  }

  /** An alias of the model that is the other one's name passes, as the other one is off. */
  lemma CheckedBefore(c: Channel, m: Name, x: Name)
    requires m in c.catalog && x in c.catalog && x != m && Off(c.rules, x)
    ensures OneOwner(EnabledSettings(c, m), [Alias(m, x, false)])
  {
    var settings, aliases := EnabledSettings(c, m), [Alias(m, x, false)];
    assert !On(settings, x) && Known(settings, x) && Known(settings, m) by {
      hide Off;
      var i :| 0 <= i < |c.catalog| && c.catalog[i] == x;
      var j :| 0 <= j < |c.catalog| && c.catalog[j] == m;
      assert settings[i] == Setting(x, false) && settings[j] == Setting(m, true);
      assert forall k | 0 <= k < |settings| && settings[k] == Setting(x, true) :: c.catalog[k] == x;
    }
    hide Off, EnabledSettings, On, Known;
    GoodName(c.catalog, x);
    forall n, o, a | Shows(settings, aliases, n, o, a)
      ensures (n == x && o == m) || (n == o && o != x && o != m)
    {
      OnlyEntryShows(settings, m, x, n, o, a);
    }
    hide Shows;
  }

  lemma OnlyEntryShows(settings: seq<Setting>, m: Name, x: Name, n: Name, o: Name, a: bool)
    requires Known(settings, x) && !On(settings, x) && Known(settings, m) && x != m && x != ""
    requires Shows(settings, [Alias(m, x, false)], n, o, a)
    ensures (n == x && o == m) || (n == o && o != x && o != m)
  {
    var aliases := [Alias(m, x, false)];
    assert aliases[0] == Alias(m, x, false);
    assert Renamed(aliases, m) && !Forked(aliases, o);
    assert HasAlias(aliases, o, n) ==> o == m && n == x;
    hide On, Known, Renamed, Forked, HasAlias;
  }

  lemma CollidesAfter(c: Channel, m: Name, x: Name)
    requires m in c.catalog && x in c.catalog && x != m && !OffByPattern(c.rules, m)
    requires !Off(WithoutRule(c.rules, m), x)
    ensures !OneOwner(Settings(Enabled(c, m)), [Alias(m, x, false)])
  {
    var d, aliases := Enabled(c, m), [Alias(m, x, false)];
    GoodName(c.catalog, m);
    GoodName(c.catalog, x);
    WithoutRuleOff(c.rules, m, x);
    SettingsMean(d, x);
    SettingsMean(d, m);
    hide Off, OffByPattern, WithoutRule, Settings;
    assert aliases[0] == Alias(m, x, false);
    assert Shows(Settings(d), aliases, x, m, true) && Shows(Settings(d), aliases, x, x, false);
  }

  const PATTERN_NAME := Channel(["a*", "a"], ["a*"], [Alias("a*", "a", false)])

  /** It happens: a model whose name is a pattern was switched off and took another with
      it; switched on again, it brings back both, and only one was checked. */
  lemma PatternNameIsNotAlone()
    ensures var c := PATTERN_NAME;
            && OwnNames(c) && !OffByPattern(c.rules, "a*") && !Alone(c, "a*")
            && OneOwner(EnabledSettings(c, "a*"), c.aliases) && !OwnNames(Enabled(c, "a*"))
  {
    var c := PATTERN_NAME;
    assert c.catalog[0] == "a*" && c.catalog[1] == "a";
    PatternRules(c.rules);
    hide Off, OffByPattern, WithoutRule, Settings, EnabledSettings, OneOwner;
    CheckedBefore(c, "a*", "a");
    CollidesAfter(c, "a*", "a");
    NothingOnIsFine(c);
  }

  lemma PatternRules(rules: seq<string>)
    requires rules == ["a*"]
    ensures Off(rules, "a*") && Off(rules, "a") && !OffByPattern(rules, "a*") && !Off(WithoutRule(rules, "a*"), "a")
  {
    StarMatches();
    assert rules[0] == "a*";
    hide Accepts;
    assert ByPattern(rules[0], "a") && Excludes(rules[0], "a") && Excludes(rules[0], "a*");
    assert rules[1..] == [] && WithoutRule(rules, "a*") == [];
  }

  /** A channel whose models are all off, with entries for them only. */
  lemma NothingOnIsFine(c: Channel)
    requires forall m | m in c.catalog :: Off(c.rules, m)
    requires forall e | e in c.aliases :: e.name in c.catalog
    ensures OwnNames(c)
  {
    forall n, m, a
      ensures !Shows(Settings(c), c.aliases, n, m, a)
    {
      SettingsMean(c, m);
      hide Settings, Off, On, Known;
      assert forall k | 0 <= k < |c.aliases| :: c.aliases[k] in c.aliases;
    }
    hide Shows, Settings;
  }

  lemma StarMatches()
    ensures Accepts("a*", "a")
  {
    assert "a*"[0] == 'a' && "a*"[1] == STAR && "a"[0] == 'a';
  }

  // ------------------------------------------------------------------ the portal's writes

  /** `Late` is an error after the write took effect. */
  datatype Outcome = Done | Failed | Late

  datatype Input = Input(model: Name, aliases: seq<Name>, keep: bool)

  datatype Choice = Choice(aliases: seq<Name>, keep: bool)

  predicate IsAliasID(x: Name) {
    && x != "" && |x| <= 128 && (x[0] in FIRST)
    && forall k | 0 <= k < |x| :: x[k] in FIRST + "._:/-"
  }

  const FIRST: string := "ABCDEFGHIJKLMNOPQRSTUVWXYZabcdefghijklmnopqrstuvwxyz0123456789"

  /** What a form's line means: the aliases other than the model's own name, and whether
      the own name is kept. */
  ghost predicate Means(i: Input, c: Choice) {
    && (forall x: Name :: x in c.aliases <==> x in i.aliases && x != "" && x != i.model)
    && (c.keep <==> i.keep || i.model in i.aliases || c.aliases == [])
  }

  /** The entries after a save: those of models that are not in the catalog, and one for
      every chosen alias. */
  ghost predicate Saved(c: Channel, choices: map<Name, Choice>, next: seq<Alias>) {
    forall e: Alias :: e in next <==>
      || (e in c.aliases && e.name !in c.catalog)
      || (e.name in choices && e.alias in choices[e.name].aliases && e.fork == choices[e.name].keep)
  }

  ghost predicate Choices(c: Channel, inputs: seq<Input>, choices: map<Name, Choice>) {
    && (forall m: Name :: m in choices <==> m in c.catalog && !Off(c.rules, m))
    && (forall m | m in choices ::
       exists k :: 0 <= k < |inputs| && inputs[k].model == m && Means(inputs[k], choices[m]))
  }

  /** The names a line asks for, other than the model's own. */
  function Asked(names: seq<Name>, m: Name): set<Name> {
    set x | x in names && x != "" && x != m
  }

  /** Well-formed names, and none of them twice. */
  predicate GoodNames(names: seq<Name>) {
    names == [] ||
    var front, x := names[..|names| - 1], names[|names| - 1];
    GoodNames(front) && (x == "" || (IsAliasID(x) && x !in front))
  }

  lemma {:induction false} GoodFront(names: seq<Name>, n: nat)
    requires n <= |names| && GoodNames(names)
    ensures GoodNames(names[..n])
    decreases |names|
  {
    if n == |names| {
      assert names[..n] == names;
    } else {
      GoodFront(names[..|names| - 1], n);
      assert names[..|names| - 1][..n] == names[..n];
    }
  }

  /** A line that is accepted asks for at most 32 names. */
  predicate GoodLine(i: Input) {
    GoodNames(i.aliases) && |Asked(i.aliases, i.model)| <= 32
  }

  /** What is known after the first `k` names of a line. */
  predicate ChosenSoFar(i: Input, k: nat, keep: bool, aliases: seq<Name>, seen: set<Name>)
    requires k <= |i.aliases|
  {
    && GoodNames(i.aliases[..k]) && seen == Asked(i.aliases[..k], "")
    && |aliases| == |Asked(i.aliases[..k], i.model)| <= 32 && (set x | x in aliases) == Asked(i.aliases[..k], i.model)
    && keep == (i.keep || i.model in i.aliases[..k])
  }

  method ChooseAliases(i: Input) returns (r: Option<Choice>)
    requires i.model != ""
    ensures r.Some? <==> GoodLine(i)
    ensures r.Some? ==> Means(i, r.value)
  {
    NothingChosen(i);
    hide IsAliasID, Asked, GoodNames, GoodLine, Means, ChosenSoFar;
    var keep, aliases, seen := i.keep, [], {};
    var k := 0;
    while k < |i.aliases|
      invariant 0 <= k <= |i.aliases| && ChosenSoFar(i, k, keep, aliases, seen)
    {
      var x := i.aliases[k];
      if x != "" {
        if !IsAliasID(x) || x in seen {
          StopsAtName(i, k, keep, aliases, seen);
          return None;
        }
        ChoosesMore(i, k, keep, aliases, seen);
        seen := seen + {x};
        if x == i.model {
          keep := true;
        } else {
          aliases := aliases + [x];
          if |aliases| > 32 {
            return None;
          }
        }
      } else {
        SkipsBlank(i, k, keep, aliases, seen);
      }
      k := k + 1;
    }
    AllChosen(i, keep, aliases, seen);
    if |aliases| == 0 {
      keep := true;
    }
    r := Some(Choice(aliases, keep));
  }

  lemma NothingChosen(i: Input)
    ensures ChosenSoFar(i, 0, i.keep, [], {})
  {
    assert i.aliases[..0] == [];
    assert Asked([], i.model) == {} && Asked([], "") == {};
  }

  lemma StopsAtName(i: Input, k: nat, keep: bool, aliases: seq<Name>, seen: set<Name>)
    requires k < |i.aliases| && ChosenSoFar(i, k, keep, aliases, seen) && i.aliases[k] != ""
    requires !IsAliasID(i.aliases[k]) || i.aliases[k] in seen
    ensures !GoodLine(i)
  {
    hide IsAliasID, GoodNames;
    StillGood(i.aliases, k);
  }

  lemma SkipsBlank(i: Input, k: nat, keep: bool, aliases: seq<Name>, seen: set<Name>)
    requires k < |i.aliases| && ChosenSoFar(i, k, keep, aliases, seen) && i.aliases[k] == "" && i.model != ""
    ensures ChosenSoFar(i, k + 1, keep, aliases, seen)
  {
    StillGood(i.aliases, k);
    MoreAsked(i.aliases, i.model, k);
    MoreAsked(i.aliases, "", k);
    hide IsAliasID, GoodNames, Asked;
  }

  lemma ChoosesMore(i: Input, k: nat, keep: bool, aliases: seq<Name>, seen: set<Name>)
    requires k < |i.aliases| && ChosenSoFar(i, k, keep, aliases, seen)
    requires i.aliases[k] != "" && IsAliasID(i.aliases[k]) && i.aliases[k] !in seen
    ensures i.aliases[k] == i.model ==> ChosenSoFar(i, k + 1, true, aliases, seen + {i.aliases[k]})
    ensures i.aliases[k] != i.model && |aliases| < 32 ==>
              ChosenSoFar(i, k + 1, keep, aliases + [i.aliases[k]], seen + {i.aliases[k]})
    ensures i.aliases[k] != i.model && |aliases| >= 32 ==> !GoodLine(i)
  {
    var x := i.aliases[k];
    var front, more := i.aliases[..k], i.aliases[..k + 1];
    hide IsAliasID, GoodNames, Asked, GoodLine;
    if x in front {
      AllAsked(front, x);
    }
    StillGood(i.aliases, k);
    MoreAsked(i.aliases, i.model, k);
    MoreAsked(i.aliases, "", k);
    TooManyAsked(i, k);
    AddName(aliases, Asked(front, i.model), x);
  }

  lemma AllAsked(names: seq<Name>, x: Name)
    requires x != "" && x in names
    ensures x in Asked(names, "")
  {
  }

  lemma TooManyAsked(i: Input, k: nat)
    requires k < |i.aliases|
    ensures |Asked(i.aliases[..k + 1], i.model)| > 32 ==> !GoodLine(i)
  {
    MoreAsked(i.aliases, i.model, k);
    hide Asked, GoodNames;
    SubsetOfSize(Asked(i.aliases[..k + 1], i.model), Asked(i.aliases, i.model));
  }

  lemma AddName(aliases: seq<Name>, asked: set<Name>, x: Name)
    requires (set y | y in aliases) == asked
    ensures (set y | y in aliases + [x]) == asked + {x}
    ensures x !in asked ==> |asked + {x}| == |asked| + 1
  {
  }

  lemma AllChosen(i: Input, keep: bool, aliases: seq<Name>, seen: set<Name>)
    requires ChosenSoFar(i, |i.aliases|, keep, aliases, seen)
    ensures GoodLine(i) && Means(i, Choice(aliases, keep || aliases == []))
  {
    hide IsAliasID, GoodNames;
    assert i.aliases[..|i.aliases|] == i.aliases;
    forall x: Name
      ensures x in aliases <==> x in Asked(i.aliases, i.model)
    {
      assert x in aliases <==> x in (set y | y in aliases);
    }
  }

  lemma MoreAsked(names: seq<Name>, m: Name, k: nat)
    requires k < |names|
    ensures names[..k + 1] == names[..k] + [names[k]]
    ensures Asked(names[..k + 1], m) == Asked(names[..k], m)
            + if names[k] != "" && names[k] != m then {names[k]} else {}
    ensures names[k] != "" && names[k] !in names[..k] ==> names[k] !in Asked(names[..k], m)
    ensures Asked(names[..k + 1], m) <= Asked(names, m)
  {
    assert names[..k + 1] == names[..k] + [names[k]];
  }

  lemma StillGood(names: seq<Name>, k: nat)
    requires k < |names|
    ensures GoodNames(names[..k + 1])
            <==> GoodNames(names[..k]) && (names[k] == "" || (IsAliasID(names[k]) && names[k] !in names[..k]))
    ensures GoodNames(names) ==> GoodNames(names[..k + 1])
  {
    hide IsAliasID;
    assert names[..k + 1][..k] == names[..k];
    if GoodNames(names) {
      GoodFront(names, k + 1);
    }
  }

  ghost function OnSet(c: Channel): set<Name> {
    set m | m in c.catalog && !Off(c.rules, m)
  }

  lemma {:induction false} SubsetOfSize(s: set<Name>, t: set<Name>)
    requires s <= t
    ensures |s| <= |t| && (|s| == |t| ==> s == t)
    decreases |s|
  {
    if s != {} {
      var x :| x in s;
      SubsetOfSize(s - {x}, t - {x});
      assert s == s - {x} + {x} && t == t - {x} + {x};
    } else if t != {} {
      var x :| x in t;
      assert t == t - {x} + {x};
    }
  }

  lemma ListedOnce(catalog: Catalog, i: nat)
    requires i < |catalog|
    ensures catalog[i] !in catalog[..i] && catalog[i] != ""
  {
  }

  method CountOn(c: Channel) returns (n: nat)
    ensures n == |OnSet(c)|
  {
    n := 0;
    var i := 0;
    ghost var found: set<Name> := {};
    hide Off, GoodCatalog;
    while i < |c.catalog|
      invariant 0 <= i <= |c.catalog| && n == |found|
      invariant forall m :: m in found <==> m in c.catalog[..i] && !Off(c.rules, m)
    {
      var m := c.catalog[i];
      assert c.catalog[..i + 1] == c.catalog[..i] + [m];
      ListedOnce(c.catalog, i);
      var off, wild := ExcludedModelRule(m, c.rules);
      if !off {
        n, found := n + 1, found + {m};
      }
      i := i + 1;
    }
    assert c.catalog[..i] == c.catalog;
    assert found == OnSet(c);
  }

  /** A form that is accepted: one line for every model that is on, and no other. */
  ghost predicate GoodForm(c: Channel, inputs: seq<Input>) {
    && |inputs| == |OnSet(c)|
    && (forall k | 0 <= k < |inputs| ::
       inputs[k].model in c.catalog && !Off(c.rules, inputs[k].model) && GoodLine(inputs[k]))
    && OneLineEach(inputs, |inputs|)
  }

  ghost predicate OneLineEach(inputs: seq<Input>, n: nat) {
    forall j, k | 0 <= j < k < n && k < |inputs| :: inputs[j].model != inputs[k].model
  }

  lemma MoreLines(inputs: seq<Input>, n: nat)
    requires n < |inputs|
    ensures OneLineEach(inputs, n + 1)
            <==> OneLineEach(inputs, n) && forall j | 0 <= j < n :: inputs[j].model != inputs[n].model
    ensures OneLineEach(inputs, |inputs|) ==> OneLineEach(inputs, n + 1)
  {
  }

  /** What is known after the first `n` lines of a form. */
  ghost predicate ReadSoFar(c: Channel, inputs: seq<Input>, n: nat, choices: map<Name, Choice>)
    requires n <= |inputs|
  {
    && |choices.Keys| == n && choices.Keys <= OnSet(c) && OneLineEach(inputs, n)
    && (forall k | 0 <= k < n :: inputs[k].model in choices && GoodLine(inputs[k]))
    && AllMeant(inputs, n, choices)
  }

  ghost predicate AllMeant(inputs: seq<Input>, n: nat, choices: map<Name, Choice>)
    requires n <= |inputs|
  {
    forall m | m in choices :: exists k :: 0 <= k < n && inputs[k].model == m && Means(inputs[k], choices[m])
  }

  lemma MeansMore(inputs: seq<Input>, n: nat, choices: map<Name, Choice>, choice: Choice)
    requires n < |inputs| && AllMeant(inputs, n, choices) && inputs[n].model !in choices && Means(inputs[n], choice)
    ensures AllMeant(inputs, n + 1, choices[inputs[n].model := choice])
  {
    hide Means;
    var more := choices[inputs[n].model := choice];
    forall m | m in more
      ensures exists k :: 0 <= k < n + 1 && inputs[k].model == m && Means(inputs[k], more[m])
    {
      if m == inputs[n].model {
        assert Means(inputs[n], more[m]);
      } else {
        var k :| 0 <= k < n && inputs[k].model == m && Means(inputs[k], choices[m]);
        assert Means(inputs[k], more[m]);
      }
    }
  }

  method ReadInputs(c: Channel, inputs: seq<Input>) returns (r: Option<map<Name, Choice>>)
    ensures r.Some? <==> GoodForm(c, inputs)
    ensures r.Some? ==> Choices(c, inputs, r.value)
  {
    var count := CountOn(c);
    if |inputs| != count {
      return None;
    }
    assert ReadSoFar(c, inputs, 0, map[]);
    hide Off, Means, GoodCatalog, GoodLine, GoodForm, Choices, OnSet, ReadSoFar;
    var choices: map<Name, Choice> := map[];
    var i := 0;
    while i < |inputs|
      invariant 0 <= i <= |inputs| && ReadSoFar(c, inputs, i, choices)
    {
      var choice := ReadLine(c, choices, inputs[i]);
      if choice.None? {
        StopsAtLine(c, inputs, i, choices);
        return None;
      }
      ReadsMore(c, inputs, i, choices, choice.value);
      choices := choices[inputs[i].model := choice.value];
      i := i + 1;
    }
    AllRead(c, inputs, choices);
    r := Some(choices);
  }

  lemma StopsAtLine(c: Channel, inputs: seq<Input>, n: nat, choices: map<Name, Choice>)
    requires n < |inputs| && ReadSoFar(c, inputs, n, choices)
    requires var i := inputs[n]; !(i.model in c.catalog && i.model !in choices && !Off(c.rules, i.model) && GoodLine(i))
    ensures !GoodForm(c, inputs)
  {
    hide Off, Means, GoodLine;
    if inputs[n].model in choices {
      var k :| 0 <= k < n && inputs[k].model == inputs[n].model && Means(inputs[k], choices[inputs[n].model]);
      assert !OneLineEach(inputs, |inputs|);
    }
  }

  lemma ReadsMore(c: Channel, inputs: seq<Input>, n: nat, choices: map<Name, Choice>, choice: Choice)
    requires n < |inputs| && ReadSoFar(c, inputs, n, choices)
    requires var i := inputs[n];
             i.model in c.catalog && i.model !in choices && !Off(c.rules, i.model) && GoodLine(i) && Means(i, choice)
    ensures ReadSoFar(c, inputs, n + 1, choices[inputs[n].model := choice])
  {
    hide Off, Means, GoodLine, OneLineEach, AllMeant;
    var more := choices[inputs[n].model := choice];
    MoreKeys(choices, inputs[n].model, choice, OnSet(c));
    hide OnSet;
    MoreLines(inputs, n);
    MeansMore(inputs, n, choices, choice);
    assert forall k | 0 <= k < n + 1 :: inputs[k].model in more && GoodLine(inputs[k]);
  }

  lemma MoreKeys(choices: map<Name, Choice>, m: Name, choice: Choice, all: set<Name>)
    requires m !in choices && choices.Keys <= all && m in all
    ensures |choices[m := choice].Keys| == |choices.Keys| + 1 && choices[m := choice].Keys <= all
    ensures forall x :: x in choices[m := choice] <==> x in choices || x == m
  {
    assert choices[m := choice].Keys == choices.Keys + {m};
  }

  lemma AllRead(c: Channel, inputs: seq<Input>, choices: map<Name, Choice>)
    requires ReadSoFar(c, inputs, |inputs|, choices) && |inputs| == |OnSet(c)|
    ensures GoodForm(c, inputs) && Choices(c, inputs, choices)
  {
    SubsetOfSize(choices.Keys, OnSet(c));
    hide Off, Means, GoodLine, OneLineEach;
    forall k | 0 <= k < |inputs|
      ensures inputs[k].model in c.catalog && !Off(c.rules, inputs[k].model)
    {
      assert inputs[k].model in OnSet(c);
    }
  }

  method ReadLine(c: Channel, choices: map<Name, Choice>, i: Input) returns (r: Option<Choice>)
    ensures r.Some? <==> i.model in c.catalog && i.model !in choices && !Off(c.rules, i.model) && GoodLine(i)
    ensures r.Some? ==> Means(i, r.value)
  {
    hide Off, Means, GoodCatalog, GoodLine;
    if i.model !in c.catalog || i.model in choices {
      return None;
    }
    GoodName(c.catalog, i.model);
    var off, pattern := ExcludedModelRule(i.model, c.rules);
    if off {
      return None;
    }
    r := ChooseAliases(i);
  }

  /** The entries that are written. */
  method BuildEntries(c: Channel, choices: map<Name, Choice>) returns (next: seq<Alias>)
    requires forall m :: m in choices ==> m in c.catalog
    ensures Saved(c, choices, next)
  {
    next := [];
    var i := 0;
    while i < |c.aliases|
      invariant 0 <= i <= |c.aliases|
      invariant forall e: Alias :: e in next <==> e in c.aliases[..i] && e.name !in c.catalog
    {
      assert c.aliases[..i + 1] == c.aliases[..i] + [c.aliases[i]];
      if c.aliases[i].name !in c.catalog {
        next := next + [c.aliases[i]];
      }
      i := i + 1;
    }
    assert c.aliases[..i] == c.aliases;
    i := 0;
    while i < |c.catalog|
      invariant 0 <= i <= |c.catalog|
      invariant forall e: Alias :: e in next <==>
                  || (e in c.aliases && e.name !in c.catalog)
                  || (e.name in c.catalog[..i] && e.name in choices && e.alias in choices[e.name].aliases
                     && e.fork == choices[e.name].keep)
    {
      var m := c.catalog[i];
      assert c.catalog[..i + 1] == c.catalog[..i] + [m];
      if m in choices {
        var entries := EntriesOf(m, choices[m]);
        next := next + entries;
      }
      i := i + 1;
    }
    assert c.catalog[..i] == c.catalog;
  }

  method EntriesOf(m: Name, choice: Choice) returns (entries: seq<Alias>)
    ensures forall e: Alias :: e in entries <==> e.name == m && e.alias in choice.aliases && e.fork == choice.keep
  {
    entries := [];
    var i := 0;
    while i < |choice.aliases|
      invariant 0 <= i <= |choice.aliases|
      invariant forall e: Alias ::
                e in entries <==> e.name == m && e.alias in choice.aliases[..i] && e.fork == choice.keep
    {
      assert choice.aliases[..i + 1] == choice.aliases[..i] + [choice.aliases[i]];
      entries := entries + [Alias(m, choice.aliases[i], choice.keep)];
      i := i + 1;
    }
    assert choice.aliases[..i] == choice.aliases;
  }
}

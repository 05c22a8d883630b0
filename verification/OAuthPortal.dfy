/** The portal's operations on the configuration of all channels.  One of them at a time
    runs, as the source's mutex sees to. */
module OAuthPortal {
  import opened OAuthNames
  import opened OAuthRouting
  import opened WildcardMatch
  import opened Wrappers

  /** Only this channel differs, and in it nothing that the portal does not manage: the
      catalog, the patterns unless a model's own name is one, and the entries of models that
      the catalog does not list. */
  ghost predicate OnlyManaged(before: Config, after: Config, c: string) {
    && after.Keys == before.Keys
    && (forall o | o in before && o != c :: after[o] == before[o])
    && (c in before ==> SameFrame(before[c], after[c]))
  }

  ghost predicate SameFrame(c: Channel, d: Channel) {
    && c.catalog == d.catalog
    && (Plain(c.catalog) ==> forall m | m in c.catalog :: OffByPattern(c.rules, m) == OffByPattern(d.rules, m))
    && (forall e: Alias | e.name !in c.catalog :: e in c.aliases <==> e in d.aliases)
  }

  ghost predicate AllApart(config: Config, c: string, models: seq<Setting>, aliases: seq<Alias>) {
    forall o | o in config && o != c :: Apart(models, aliases, Settings(config[o]), config[o].aliases)
  }

  /** What a save of `next` has to meet. */
  ghost predicate CanSave(config: Config, c: string, inputs: seq<Input>, cross: bool, next: seq<Alias>)
    requires c in config
  {
    && config[c].catalog != [] && GoodForm(config[c], inputs) && OneOwner(Settings(config[c]), next)
    && (cross ==> AllApart(config, c, Settings(config[c]), next))
  }

  /** What switching a model on has to meet. */
  ghost predicate CanEnable(config: Config, c: string, m: Name, cross: bool)
    requires c in config
  {
    && m in config[c].catalog && !OffByPattern(config[c].rules, m)
    && OneOwner(EnabledSettings(config[c], m), config[c].aliases)
    && (cross ==> AllApart(config, c, EnabledSettings(config[c], m), config[c].aliases))
  }

  // --------------------------------------------------------- switching off, write by write

  /** The channels after a write that ended like this. */
  function Wrote(config: Config, c: string, d: Channel, outcome: Outcome): (r: Config)
    requires c in config
    ensures r.Keys == config.Keys
  {
    if outcome == Failed then config else config[c := d]
  }

  /** What switching a model off leaves: the rule is added, then the entries are taken away,
      and whatever fails after the rule takes it back.  `w` and `r` count the writes and the
      reads before. */
  function SwitchedOff(config: Config, c: string, m: Name, outcomes: nat -> Outcome, answers: nat -> bool,
      w: nat, r: nat)
    : (Config, bool)
    requires c in config
  {
    var d := config[c];
    if !answers(r) || m !in d.catalog then (config, false)
    else if Off(d.rules, m) then
      if answers(r + 1) then Removed(config, c, m, d, outcomes, answers, w, r + 2) else (config, false)
    else
      var ruled := Wrote(config, c, d.(rules := d.rules + [m]), outcomes(w));
      if outcomes(w) != Done || !answers(r + 1) then (ruled, false)
      else Removed(ruled, c, m, d, outcomes, answers, w + 1, r + 2)
  }

  /** The entries of the model go, or everything goes back to what `d` was. */
  function Removed(config: Config, c: string, m: Name, d: Channel, outcomes: nat -> Outcome, answers: nat -> bool,
      w: nat, r: nat)
    : (Config, bool)
    requires c in config
  {
    var left := WithoutAliases(d.aliases, m);
    if multiset(left) == multiset(d.aliases) then
      if answers(r) then (config, true) else (Wrote(config, c, config[c].(rules := d.rules), outcomes(w)), false)
    else
      var taken := Wrote(config, c, config[c].(aliases := left), outcomes(w));
      if outcomes(w) != Done then (Wrote(taken, c, taken[c].(rules := d.rules), outcomes(w + 1)), false)
      else if answers(r) && answers(r + 1) then (taken, true)
      else
        var back := Wrote(taken, c, taken[c].(aliases := d.aliases), outcomes(w + 1));
        (Wrote(back, c, back[c].(rules := d.rules), outcomes(w + 2)), false)
  }

  /** Whatever fails, the rule is there or not and the entries are there or not. */
  lemma RemovedLeaves(config: Config, c: string, m: Name, d: Channel, outcomes: nat -> Outcome, answers: nat -> bool,
      w: nat, r: nat)
    requires c in config && config[c].catalog == d.catalog && config[c].aliases == d.aliases
    ensures var (after, ok) := Removed(config, c, m, d, outcomes, answers, w, r);
            && OthersSame(config, after, c) && after[c].catalog == d.catalog
            && (after[c].rules == config[c].rules || after[c].rules == d.rules)
            && (after[c].aliases == d.aliases || after[c].aliases == WithoutAliases(d.aliases, m))
            && (ok ==> after[c] == Channel(d.catalog, config[c].rules, WithoutAliases(d.aliases, m)))
            && (outcomes(w) == Done && answers(r) && answers(r + 1) ==> ok)
  {
    var left := WithoutAliases(d.aliases, m);
    hide WithoutAliases, Wrote, GoodCatalog, OthersSame;
    if multiset(left) == multiset(d.aliases) {
      NothingRemoved(d.aliases, m);
      Writes(config, c, config[c].(rules := d.rules), outcomes(w));
      OthersStay(config, config, config, c);
    } else {
      var taken := Wrote(config, c, config[c].(aliases := left), outcomes(w));
      Writes(config, c, config[c].(aliases := left), outcomes(w));
      Writes(taken, c, taken[c].(rules := d.rules), outcomes(w + 1));
      OthersStay(config, taken, Wrote(taken, c, taken[c].(rules := d.rules), outcomes(w + 1)), c);
      var back := Wrote(taken, c, taken[c].(aliases := d.aliases), outcomes(w + 1));
      Writes(taken, c, taken[c].(aliases := d.aliases), outcomes(w + 1));
      Writes(back, c, back[c].(rules := d.rules), outcomes(w + 2));
      OthersStay(config, taken, back, c);
      OthersStay(config, back, Wrote(back, c, back[c].(rules := d.rules), outcomes(w + 2)), c);
    }
  }

  lemma Writes(config: Config, c: string, d: Channel, outcome: Outcome)
    requires c in config
    ensures var r := Wrote(config, c, d, outcome);
            OthersSame(config, r, c) && (r[c] == d || (r[c] == config[c] && outcome == Failed))
  {
  }

  lemma OthersStay(before: Config, now: Config, after: Config, c: string)
    ensures OthersSame(before, before, c)
    ensures OthersSame(before, now, c) && OthersSame(now, after, c) ==> OthersSame(before, after, c)
  {
  }

  ghost predicate OthersSame(before: Config, after: Config, c: string) {
    after.Keys == before.Keys && forall o | o in before && o != c :: after[o] == before[o]
  }

  lemma SwitchedOffLeaves(config: Config, c: string, m: Name, outcomes: nat -> Outcome, answers: nat -> bool, w: nat,
      r: nat)
    requires c in config
    ensures var (after, ok) := SwitchedOff(config, c, m, outcomes, answers, w, r);
            && OthersSame(config, after, c) && Disabling(config[c], m, after[c])
            && (after == config || m in after[c].catalog)
            && (ok ==>
                  m in after[c].catalog && Off(after[c].rules, m)
                  && after[c].aliases == WithoutAliases(config[c].aliases, m))
  {
    var d := config[c];
    if m in d.catalog {
      GoodName(d.catalog, m);
      hide Off, WithoutAliases, Removed, Wrote, ByPattern, GoodCatalog;
      WithRuleOff(d.rules, m, m);
      if Off(d.rules, m) {
        RemovedLeaves(config, c, m, d, outcomes, answers, w, r + 2);
      } else {
        var ruled := Wrote(config, c, d.(rules := d.rules + [m]), outcomes(w));
        RuleWritten(config, c, m, outcomes(w));
        RemovedLeaves(ruled, c, m, d, outcomes, answers, w + 1, r + 2);
      }
    }
  }

  /** If upstream does not fail, every model of the catalog can be switched off. */
  lemma SwitchedOffQuiet(config: Config, c: string, m: Name, outcomes: nat -> Outcome, answers: nat -> bool, w: nat,
      r: nat)
    requires c in config && (forall i | i >= w :: outcomes(i) == Done) && (forall i | i >= r :: answers(i))
    ensures SwitchedOff(config, c, m, outcomes, answers, w, r).1 <==> m in config[c].catalog
  {
    hide Off, WithoutAliases, Wrote, ByPattern, GoodCatalog;
    assert outcomes(w) == Done && outcomes(w + 1) == Done;
    assert answers(r) && answers(r + 1) && answers(r + 2) && answers(r + 3);
  }

  lemma RuleWritten(config: Config, c: string, m: Name, outcome: Outcome)
    requires c in config
    ensures var d := config[c]; var ruled := Wrote(config, c, d.(rules := d.rules + [m]), outcome);
            && OthersSame(config, ruled, c) && ruled[c].catalog == d.catalog && ruled[c].aliases == d.aliases
            && (outcome == Failed ==> ruled == config)
            && ruled[c].rules == if outcome == Failed then d.rules else d.rules + [m]
  {
  }

  class Portal {
    var channels: Config
    const outcomes: nat -> Outcome
    const answers: nat -> bool
    var writes: nat
    var readings: nat

    constructor (channels: Config, outcomes: nat -> Outcome, answers: nat -> bool)
      ensures this.channels == channels && this.outcomes == outcomes && this.answers == answers
    {
      this.channels, this.outcomes, this.answers, writes, readings := channels, outcomes, answers, 0, 0;
    }

    /** From here on upstream answers every read and takes every write. */
    ghost predicate Quiet()
      reads this
    {
      && (forall i | i >= readings :: answers(i))
      && (forall i | i >= writes :: outcomes(i) == Done)
    }

    method Read() returns (ok: bool)
      modifies `readings
      ensures readings == old(readings) + 1
      ensures ok == answers(old(readings)) && (old(Quiet()) ==> ok && Quiet())
    {
      ok := answers(readings);
      readings := readings + 1;
    }

    method WriteAliases(c: string, aliases: seq<Alias>) returns (ok: bool)
      requires c in channels
      modifies `channels, `writes
      ensures writes == old(writes) + 1 && ok == (outcomes(old(writes)) == Done)
      ensures channels == Wrote(old(channels), c, old(channels)[c].(aliases := aliases), outcomes(old(writes)))
      ensures old(Quiet()) ==> ok && Quiet()
    {
      var outcome := outcomes(writes);
      writes := writes + 1;
      if outcome != Failed {
        channels := channels[c := channels[c].(aliases := aliases)];
      }
      ok := outcome == Done;
    }

    method WriteRules(c: string, rules: seq<string>) returns (ok: bool)
      requires c in channels
      modifies `channels, `writes
      ensures writes == old(writes) + 1 && ok == (outcomes(old(writes)) == Done)
      ensures channels == Wrote(old(channels), c, old(channels)[c].(rules := rules), outcomes(old(writes)))
      ensures old(Quiet()) ==> ok && Quiet()
    {
      var outcome := outcomes(writes);
      writes := writes + 1;
      if outcome != Failed {
        channels := channels[c := channels[c].(rules := rules)];
      }
      ok := outcome == Done;
    }

    /** `validateCrossChannelAliases`: a channel as it would be against all others. */
    method ValidateCrossChannel(c: string, models: seq<Setting>, aliases: seq<Alias>) returns (ok: bool)
      modifies `readings
      ensures ok ==> AllApart(channels, c, models, aliases)
      ensures old(Quiet()) ==> Quiet() && (ok <==> AllApart(channels, c, models, aliases))
    {
      hide Apart, Lists, NoClash;
      ok := Read();
      if !ok {
        return;
      }
      var current := VisibleNames(models, aliases);
      var left := channels.Keys;
      while left != {}
        invariant left <= channels.Keys && (old(Quiet()) ==> Quiet())
        invariant forall o | o in channels && o != c && o !in left ::
                  Apart(models, aliases, Settings(channels[o]), channels[o].aliases)
        decreases left
      {
        var o :| o in left;
        if o != c {
          ok := Read();
          if !ok {
            return;
          }
          var names := VisibleNames(Settings(channels[o]), channels[o].aliases);
          ok := CrossCheck(current, names);
          NoClashIsApart(current, models, aliases, names, Settings(channels[o]), channels[o].aliases);
          if !ok {
            return;
          }
        }
        left := left - {o};
      }
      ok := true;
    }

    /** `setOAuthModelAliases`: replaces the entries of the channel's models by `next`.
        Whatever upstream does, the channel is as it was or holds the checked entries;
        if upstream does not fail, the save succeeds exactly when it may. */
    method SetAliases(c: string, inputs: seq<Input>, cross: bool)
      returns (ok: bool, ghost choices: map<Name, Choice>, ghost next: seq<Alias>)
      requires c in channels
      modifies this
      ensures OnlyManaged(old(channels), channels, c) && channels[c].rules == old(channels)[c].rules
      ensures channels == old(channels) || OwnNames(channels[c])
      ensures channels == old(channels)
              || (cross ==> forall o | o in channels && o != c :: Distinct(channels[c], channels[o]))
      ensures ok ==> OwnNames(channels[c]) && Choices(old(channels)[c], inputs, choices)
                     && Saved(old(channels)[c], choices, channels[c].aliases)
      ensures old(Quiet()) ==> Quiet()
      ensures old(Quiet()) && old(channels)[c].catalog != [] && GoodForm(old(channels)[c], inputs) ==>
                Choices(old(channels)[c], inputs, choices) && Saved(old(channels)[c], choices, next)
      ensures old(Quiet()) && ok ==>
                CanSave(old(channels), c, inputs, cross, next) && !BlankListed(Settings(old(channels)[c]), next)
      ensures old(Quiet()) && CanSave(old(channels), c, inputs, cross, next) ==>
                ok || BlankShared(Settings(old(channels)[c]), next)
    {
      hide Choices, Saved, OneOwner, Apart, Settings, GoodCatalog, GoodForm, AllApart, BlankListed, BlankShared,
        NamedModels, Orders, Claims;
      choices, next := map[], [];
      ghost var before := channels;
      var channel := channels[c];
      SameFrameAlways(before, c);
      ok := Read();
      if !ok || |channel.catalog| == 0 {
        ok := false;
        return;
      }
      var chosen := ReadInputs(channel, inputs);
      if chosen.None? {
        ok := false;
        return;
      }
      choices := chosen.value;
      ChosenInCatalog(channel, inputs, chosen.value);
      var entries := BuildEntries(channel, chosen.value);
      next := entries;
      ghost var order;
      ok, order := ValidateAliasNames(Settings(channel), entries);
      SettingsNamed(channel);
      if !ok {
        return;
      }
      if cross {
        ok := ValidateCrossChannel(c, Settings(channel), entries);
        if !ok {
          return;
        }
      }
      SavedKeepsFrame(channel, choices, entries);
      if multiset(entries) == multiset(channel.aliases) {
        SameElements(entries, channel.aliases);
        SavedIsWhatItHolds(channel, choices, entries, channel.aliases);
        SameEntriesOwn(channel, entries);
        ok := true;
        return;
      }
      ok := WriteAliases(c, entries);
      WrittenAliases(before, channels, c, entries);
      ApartIsDistinct(before, c, entries);
      if ok {
        ok := Read();
      }
    }

    /** `setOAuthModelEnabled` with true: takes out the exact rule, once the names that
        appear were checked. */
    method EnableModel(c: string, m: Name, cross: bool) returns (ok: bool)
      requires c in channels
      modifies this
      ensures channels == old(channels) || channels == old(channels)[c := Enabled(old(channels)[c], m)]
      ensures channels == old(channels) || (m in channels[c].catalog && !OffByPattern(old(channels)[c].rules, m))
      ensures channels == old(channels) || !Alone(old(channels)[c], m) || OwnNames(channels[c])
      ensures channels == old(channels) || !Alone(old(channels)[c], m)
              || (cross ==> forall o | o in channels && o != c :: Distinct(channels[c], channels[o]))
      ensures ok ==>
                m in channels[c].catalog && channels == old(channels)[c := Enabled(old(channels)[c], m)]
                && !Off(channels[c].rules, m)
      ensures old(Quiet()) ==> Quiet()
      ensures old(Quiet()) && ok ==>
                CanEnable(old(channels), c, m, cross)
                && !BlankListed(EnabledSettings(old(channels)[c], m), old(channels)[c].aliases)
      ensures old(Quiet()) && CanEnable(old(channels), c, m, cross) ==>
                ok || BlankShared(EnabledSettings(old(channels)[c], m), old(channels)[c].aliases)
    {
      hide OneOwner, Apart, Settings, Off, OffByPattern, WithoutRule, EnabledSettings, AllApart, GoodCatalog, Alone,
        BlankListed, BlankShared, NamedModels, Orders, Claims;
      ghost var before := channels;
      ok := Read();
      var channel := channels[c];
      if !ok || m !in channel.catalog {
        return false;
      }
      GoodName(channel.catalog, m);
      var matched, wildcard := ExcludedModelRule(m, channel.rules);
      PatternRuleIs(channel.rules, m);
      if wildcard != "" {
        return false;
      }
      if Alone(channel, m) {
        EnablingGives(channel, m);
      }
      var settings := EnabledSettings(channel, m);
      ghost var order;
      ok, order := ValidateAliasNames(settings, channel.aliases);
      EnabledNamed(channel, m);
      if !ok {
        return;
      }
      if cross {
        ok := ValidateCrossChannel(c, settings, channel.aliases);
        if !ok {
          return;
        }
      }
      WithoutRuleOff(channel.rules, m, m);
      if Alone(channel, m) {
        EnabledDistinct(before, c, m);
      }
      if matched {
        ok := WriteRules(c, WithoutRule(channel.rules, m));
        if !ok {
          return;
        }
      } else {
        NoSuchRule(channel.rules, m);
        assert channels == channels[c := Enabled(channel, m)];
      }
      ok := Read();
    }

    /** `setOAuthModelEnabled` with false: adds an exact rule, then takes the entries of
        the model away; if that fails the rule is taken back. */
    method DisableModel(c: string, m: Name) returns (ok: bool)
      requires c in channels
      modifies this
      ensures channels.Keys == old(channels).Keys
              && forall o | o in channels && o != c :: channels[o] == old(channels)[o]
      ensures Disabling(old(channels)[c], m, channels[c]) && (channels == old(channels) || m in channels[c].catalog)
      ensures ok ==> m in channels[c].catalog && Off(channels[c].rules, m)
                     && channels[c].aliases == WithoutAliases(old(channels)[c].aliases, m)
      ensures (channels, ok) == SwitchedOff(old(channels), c, m, outcomes, answers, old(writes), old(readings))
      ensures old(Quiet()) ==> Quiet() && (ok <==> m in old(channels)[c].catalog)
    {
      hide Off, OffByPattern, WithoutAliases, Settings, Removed, Disabling;
      SwitchedOffLeaves(channels, c, m, outcomes, answers, writes, readings);
      if Quiet() {
        SwitchedOffQuiet(channels, c, m, outcomes, answers, writes, readings);
      }
      ok := Read();
      var channel := channels[c];
      if !ok || m !in channel.catalog {
        return false;
      }
      GoodName(channel.catalog, m);
      var matched, wildcard := ExcludedModelRule(m, channel.rules);
      if !matched {
        ok := WriteRules(c, channel.rules + [m]);
        if !ok {
          return;
        }
      }
      ok := Read();
      if !ok {
        return;
      }
      ok := RemoveEntries(c, m, channel);
    }

    method RemoveEntries(c: string, m: Name, channel: Channel) returns (ok: bool)
      requires c in channels
      modifies this
      ensures (channels, ok) == Removed(old(channels), c, m, channel, outcomes, answers, old(writes), old(readings))
      ensures old(Quiet()) ==> Quiet()
    {
      hide WithoutAliases, Wrote, GoodCatalog, Portal.Quiet;
      var aliases := WithoutAliases(channel.aliases, m);
      var changed := multiset(aliases) != multiset(channel.aliases);
      if changed {
        ok := WriteAliases(c, aliases);
        if !ok {
          var restored := WriteRules(c, channel.rules);
          return;
        }
        ok := Read();
        if !ok {
          var first := WriteAliases(c, channel.aliases);
          var second := WriteRules(c, channel.rules);
          return;
        }
      }
      ok := Read();
      if !ok {
        if changed {
          var first := WriteAliases(c, channel.aliases);
        }
        var second := WriteRules(c, channel.rules);
      }
    }

    /** A switch as the page offers it: no conflict arises, unless switching off fails half
        way for a model whose own name is taken, or switching on brings back a model that
        only the rule of this one kept off. */
    method SetModelEnabled(c: string, m: Name, enabled: bool) returns (ok: bool)
      modifies this
      ensures channels.Keys == old(channels).Keys
      ensures forall o | o in channels && o != c :: channels[o] == old(channels)[o]
      ensures ok ==> c in channels && m in channels[c].catalog
                     && (if enabled then channels[c] == Enabled(old(channels)[c], m) && !Off(channels[c].rules, m)
                         else
                           Off(channels[c].rules, m)
                           && channels[c].aliases == WithoutAliases(old(channels)[c].aliases, m)
                           && Disabling(old(channels)[c], m, channels[c]))
      ensures c in channels && !enabled ==>
                (channels, ok) == SwitchedOff(old(channels), c, m, outcomes, answers, old(writes), old(readings))
      ensures c in channels && old(ConflictFree(channels))
              && (if enabled then Alone(old(channels)[c], m) else ok || !Risky(old(channels), c, m)) ==>
                ConflictFree(channels)
      ensures c in channels && old(Quiet()) && !enabled ==> (ok <==> m in old(channels)[c].catalog)
      ensures c in channels && old(Quiet()) && enabled && ok ==>
                CanEnable(old(channels), c, m, true)
                && !BlankListed(EnabledSettings(old(channels)[c], m), old(channels)[c].aliases)
      ensures c in channels && old(Quiet()) && enabled && CanEnable(old(channels), c, m, true) ==>
                ok || BlankShared(EnabledSettings(old(channels)[c], m), old(channels)[c].aliases)
      ensures c !in channels ==> !ok && channels == old(channels)
    {
      hide OwnNames, Distinct, Off, OffByPattern, WithoutAliases, WithoutRule, ShowsOn, GoodCatalog, CanEnable,
        SwitchedOff, NameIsFree, Alone, BlankListed, BlankShared, EnabledSettings;
      ghost var before := channels;
      if c !in channels {
        return false;
      }
      if enabled {
        ok := EnableModel(c, m, true);
        if channels != before && ConflictFree(before) && Alone(before[c], m) {
          assert forall o | o in before && o != c :: channels[o] == before[o];
          ReplaceOne(before, c, channels[c]);
        }
      } else {
        ok := DisableModel(c, m);
        assert channels == before[c := channels[c]];
        if channels != before && ConflictFree(before) && (ok || !Risky(before, c, m)) {
          DisablingIsFine(before, c, m, channels[c]);
        }
      }
    }

    /** Saving aliases: no conflict arises. */
    method SaveAliases(c: string, inputs: seq<Input>)
        returns (ok: bool, ghost choices: map<Name, Choice>, ghost next: seq<Alias>)
      modifies this
      ensures old(ConflictFree(channels)) ==> ConflictFree(channels)
      ensures OnlyManaged(old(channels), channels, c)
      ensures ok ==> c in channels && Choices(old(channels)[c], inputs, choices)
                     && Saved(old(channels)[c], choices, channels[c].aliases)
                        && channels[c].rules == old(channels)[c].rules
      ensures c in channels && old(Quiet()) && ok ==>
                CanSave(old(channels), c, inputs, true, next) && !BlankListed(Settings(old(channels)[c]), next)
      ensures c in channels && old(Quiet()) && CanSave(old(channels), c, inputs, true, next) ==>
                ok || BlankShared(Settings(old(channels)[c]), next)
    {
      hide OwnNames, Distinct, Choices, Saved, GoodCatalog, CanSave, SameFrame, BlankListed, BlankShared, Settings;
      ghost var before := channels;
      if c !in channels {
        return false, map[], [];
      }
      ok, choices, next := SetAliases(c, inputs, true);
      if channels != before && ConflictFree(before) {
        assert channels == before[c := channels[c]];
        ReplaceOne(before, c, channels[c]);
      }
    }
  }

  /** The checked entries stand apart from the other channels once they are written. */
  lemma ApartIsDistinct(before: Config, c: string, next: seq<Alias>)
    requires c in before
    ensures AllApart(before, c, Settings(before[c]), next) ==>
              forall o | o in before && o != c :: Distinct(before[c].(aliases := next), before[o])
  {
    hide Apart;
    assert Settings(before[c].(aliases := next)) == Settings(before[c]);
  }

  lemma EnabledDistinct(before: Config, c: string, m: Name)
    requires c in before && Settings(Enabled(before[c], m)) == EnabledSettings(before[c], m)
    ensures AllApart(before, c, EnabledSettings(before[c], m), before[c].aliases) ==>
              forall o | o in before && o != c :: Distinct(Enabled(before[c], m), before[o])
    ensures OneOwner(EnabledSettings(before[c], m), before[c].aliases) ==> OwnNames(Enabled(before[c], m))
  {
    hide Apart, OneOwner, Settings, EnabledSettings;
  }

  lemma SettingsNamed(c: Channel)
    ensures NamedModels(Settings(c))
  {
    hide Off;
    assert forall m | m in Settings(c) :: exists i :: 0 <= i < |c.catalog| && Settings(c)[i] == m;
  }

  lemma EnabledNamed(c: Channel, m: Name)
    ensures NamedModels(EnabledSettings(c, m))
  {
    hide Off;
    var s := EnabledSettings(c, m);
    forall x | x in s
      ensures x.id != ""
    {
      var i :| 0 <= i < |s| && s[i] == x;
    }
  }

  lemma {:induction false} NoSuchRule(rules: seq<string>, m: Name)
    requires m != "" && !Off(rules, m)
    ensures WithoutRule(rules, m) == rules
    decreases |rules|
  {
    hide Accepts;
    if rules == [] {
    } else {
      assert Excludes(m, m);
      forall k | 0 <= k < |rules[1..]|
        ensures !Excludes(rules[1..][k], m)
      {
        assert rules[1..][k] == rules[k + 1];
      }
      NoSuchRule(rules[1..], m);
    }
  }

  /** What switching a model off may leave: the rule there or not, its entries there or
      not. */
  ghost predicate Disabling(c: Channel, m: Name, d: Channel) {
    && d.catalog == c.catalog
    && (d.rules == c.rules || (d.rules == c.rules + [m] && !Off(c.rules, m)))
    && (d.aliases == c.aliases || d.aliases == WithoutAliases(c.aliases, m))
  }

  /** The model as it is, without its entries: its own name comes out from behind them. */
  function WithoutEntries(c: Channel, m: Name): Channel {
    c.(aliases := WithoutAliases(c.aliases, m))
  }

  /** No other model of the channel shows the model's own name, and no other channel shows
      it as an alias. */
  ghost predicate NameIsFree(config: Config, c: string, m: Name)
    requires c in config
  {
    && (forall o, a | o != "" && o != m :: !ShowsOn(config[c], m, o, a))
    && (forall x, o | x in config && x != c :: !ShowsOn(config[x], m, o, true))
  }

  /** Switching the model off may go wrong. */
  ghost predicate Risky(config: Config, c: string, m: Name)
    requires c in config
  {
    m in config[c].catalog && !Off(config[c].rules, m) && !NameIsFree(config, c, m)
  }

  lemma {:induction false} NothingRemovedAt(aliases: seq<Alias>, m: Name)
    ensures |WithoutAliases(aliases, m)| <= |aliases|
    ensures |WithoutAliases(aliases, m)| == |aliases| ==> WithoutAliases(aliases, m) == aliases
    decreases |aliases|
  {
    if aliases == [] {
    } else {
      NothingRemovedAt(aliases[1..], m);
    }
  }

  lemma NothingRemoved(aliases: seq<Alias>, m: Name)
    requires multiset(WithoutAliases(aliases, m)) == multiset(aliases)
    ensures WithoutAliases(aliases, m) == aliases
  {
    NothingRemovedAt(aliases, m);
    assert |multiset(aliases)| == |aliases| && |multiset(WithoutAliases(aliases, m))| == |WithoutAliases(aliases, m)|;
  }

  lemma DisablingIsFine(config: Config, c: string, m: Name, d: Channel)
    requires ConflictFree(config) && c in config && m in config[c].catalog
    requires Disabling(config[c], m, d) && (Off(d.rules, m) || !Risky(config, c, m))
    ensures ConflictFree(config[c := d])
  {
    GoodName(config[c].catalog, m);
    hide Off, WithoutAliases, ShowsOn, OwnNames, Distinct, GoodCatalog, NameIsFree;
    if d == config[c] {
      assert config[c := d] == config;
    } else if d.rules == config[c].rules && !Off(d.rules, m) {
      ExposingIsSafeExactly(config, c, m);
    } else {
      DisabledShowsLess(config[c], m, d.rules, d.aliases);
      ReplaceByFewer(config, c, d);
    }
  }

  /** A model that is on and loses its entries shows its own name and nothing else. */
  lemma ExposedShows(c: Channel, m: Name, n: Name, o: Name, a: bool)
    requires m in c.catalog && m != "" && !Off(c.rules, m)
    ensures ShowsOn(WithoutEntries(c, m), n, o, a) <==> if o == m then n == m && !a else ShowsOn(c, n, o, a)
  {
    var d := WithoutEntries(c, m);
    assert Settings(d) == Settings(c);
    SettingsMean(c, m);
    if o == m {
      NoEntriesLeft(c.aliases, m);
    } else {
      SameEntriesOf(c.aliases, d.aliases, m, o, n);
    }
    hide Settings, Off, On, Known, WithoutAliases;
  }

  lemma NoEntriesLeft(aliases: seq<Alias>, m: Name)
    ensures var left := WithoutAliases(aliases, m);
            (forall n :: !HasAlias(left, m, n)) && !Renamed(left, m) && !Forked(left, m)
  {
    var left := WithoutAliases(aliases, m);
    forall e: Alias
      ensures e in left ==> e.name != m
    {
      WithoutAliasesHas(aliases, m, e);
    }
    hide WithoutAliases;
    assert forall k | 0 <= k < |left| :: left[k] in left;
  }

  /** The half-done switch: with the entries gone and the model on, nothing is in conflict
      if and only if the model's own name is free. */
  lemma ExposingIsSafeExactly(config: Config, c: string, m: Name)
    requires ConflictFree(config) && c in config && m in config[c].catalog
    requires !Off(config[c].rules, m)
    ensures ConflictFree(config[c := WithoutEntries(config[c], m)]) <==> NameIsFree(config, c, m)
  {
    GoodName(config[c].catalog, m);
    var d := WithoutEntries(config[c], m);
    forall n, o, a
      ensures ShowsOn(d, n, o, a) <==> if o == m then n == m && !a else ShowsOn(config[c], n, o, a)
    {
      ExposedShows(config[c], m, n, o, a);
    }
    if NameIsFree(config, c, m) {
      FreeIsSafe(config, c, m, d);
    } else {
      TakenCollides(config, c, m, d);
    }
  }

  lemma FreeIsSafe(config: Config, c: string, m: Name, d: Channel)
    requires ConflictFree(config) && c in config && NameIsFree(config, c, m)
    requires forall n, o, a :: ShowsOn(d, n, o, a) <==> if o == m then n == m && !a else ShowsOn(config[c], n, o, a)
    ensures ConflictFree(config[c := d])
  {
    hide Shows, Settings;
    forall n, m1, m2, a1, a2 | Shows(Settings(d), d.aliases, n, m1, a1) && Shows(Settings(d), d.aliases, n, m2, a2)
      && m1 != "" && m2 != ""
      ensures m1 == m2
    {
      assert ShowsOn(d, n, m1, a1) && ShowsOn(d, n, m2, a2);
      assert OwnNames(config[c]);
    }
    forall x | x in config && x != c
      ensures Distinct(d, config[x])
    {
      assert Distinct(config[c], config[x]);
      forall n, o, o', a, a' | Shows(Settings(d), d.aliases, n, o, a)
        && Shows(Settings(config[x]), config[x].aliases, n, o', a')
        ensures !a && !a'
      {
        assert ShowsOn(d, n, o, a) && ShowsOn(config[x], n, o', a');
      }
    }
    ReplaceOne(config, c, d);
  }

  lemma TakenCollides(config: Config, c: string, m: Name, d: Channel)
    requires c in config && m != "" && !NameIsFree(config, c, m)
    requires forall n, o, a :: ShowsOn(d, n, o, a) <==> if o == m then n == m && !a else ShowsOn(config[c], n, o, a)
    ensures !ConflictFree(config[c := d])
  {
    hide Shows, Settings;
    var after := config[c := d];
    assert ShowsOn(d, m, m, false);
    if o, a :| o != "" && o != m && ShowsOn(config[c], m, o, a) {
      assert ShowsOn(d, m, o, a);
      assert !OwnNames(after[c]);
    } else {
      var x, o :| x in config && x != c && ShowsOn(config[x], m, o, true);
      assert !Distinct(after[c], after[x]);
    }
  }

  /** When a switch-off is safe whatever upstream does: exactly when the model is off
      already or its own name is free. */
  lemma SwitchOffIsSafeExactly(config: Config, c: string, m: Name)
    requires ConflictFree(config) && c in config && m in config[c].catalog
    ensures (forall outcomes: nat -> Outcome, answers: nat -> bool, w: nat, r: nat ::
               ConflictFree(SwitchedOff(config, c, m, outcomes, answers, w, r).0))
            <==> !Risky(config, c, m)
  {
    hide ConflictFree, SwitchedOff, NameIsFree, Off, Disabling, WithoutAliases, GoodCatalog;
    GoodName(config[c].catalog, m);
    if Risky(config, c, m) {
      HalfDone(config, c, m);
      ExposingIsSafeExactly(config, c, m);
      assert !ConflictFree(SwitchedOff(config, c, m, LateOnce(), Always(), 0, 0).0);
    } else {
      forall outcomes: nat -> Outcome, answers: nat -> bool, w: nat, r: nat
        ensures ConflictFree(SwitchedOff(config, c, m, outcomes, answers, w, r).0)
      {
        SwitchedOffLeaves(config, c, m, outcomes, answers, w, r);
        var after := SwitchedOff(config, c, m, outcomes, answers, w, r).0;
        assert after == config[c := after[c]];
        DisablingIsFine(config, c, m, after[c]);
      }
    }
  }

  /** The second write takes effect and reports an error; every other one is fine. */
  function LateOnce(): nat -> Outcome {
    i => if i == 1 then Late else Done
  }

  function Always(): nat -> bool {
    _ => true
  }

  /** The rule was added, the entries went with an error, and the rule was taken back. */
  lemma HalfDone(config: Config, c: string, m: Name)
    requires ConflictFree(config) && c in config && Risky(config, c, m)
    ensures SwitchedOff(config, c, m, LateOnce(), Always(), 0, 0) == (config[c := WithoutEntries(config[c], m)], false)
  {
    var d := config[c];
    hide NameIsFree, Off, ConflictFree, GoodCatalog, SwitchedOff, Removed;
    RiskyHasEntries(config, c, m);
    var ruled := config[c := d.(rules := d.rules + [m])];
    RuledFirst(config, c, m);
    TakenBack(ruled, c, m, d);
    assert ruled[c := WithoutEntries(d, m)] == config[c := WithoutEntries(d, m)];
  }

  lemma RiskyHasEntries(config: Config, c: string, m: Name)
    requires ConflictFree(config) && c in config && Risky(config, c, m)
    ensures multiset(WithoutAliases(config[c].aliases, m)) != multiset(config[c].aliases)
  {
    hide ConflictFree, Off, NameIsFree, GoodCatalog, WithoutAliases;
    if multiset(WithoutAliases(config[c].aliases, m)) == multiset(config[c].aliases) {
      NoEntriesIsFree(config, c, m);
    }
  }

  /** A model without entries already shows its own name. */
  lemma NoEntriesIsFree(config: Config, c: string, m: Name)
    requires ConflictFree(config) && c in config && m in config[c].catalog && !Off(config[c].rules, m)
    requires multiset(WithoutAliases(config[c].aliases, m)) == multiset(config[c].aliases)
    ensures NameIsFree(config, c, m)
  {
    hide ConflictFree, Off, NameIsFree, GoodCatalog, WithoutAliases;
    var d := config[c];
    NothingRemoved(d.aliases, m);
    assert WithoutEntries(d, m) == d && config[c := d] == config;
    ExposingIsSafeExactly(config, c, m);
  }

  lemma RuledFirst(config: Config, c: string, m: Name)
    requires c in config && m in config[c].catalog && !Off(config[c].rules, m)
    ensures var d := config[c]; var ruled := config[c := d.(rules := d.rules + [m])];
            SwitchedOff(config, c, m, LateOnce(), Always(), 0, 0) == Removed(ruled, c, m, d, LateOnce(), Always(), 1, 2)
  {
    hide Removed, Off, GoodCatalog;
  }

  lemma TakenBack(ruled: Config, c: string, m: Name, d: Channel)
    requires c in ruled && ruled[c] == d.(rules := d.rules + [m])
    requires multiset(WithoutAliases(d.aliases, m)) != multiset(d.aliases)
    ensures Removed(ruled, c, m, d, LateOnce(), Always(), 1, 2) == (ruled[c := WithoutEntries(d, m)], false)
  {
    hide WithoutAliases;
    var taken := ruled[c].(aliases := WithoutAliases(d.aliases, m));
    assert taken.(rules := d.rules) == WithoutEntries(d, m);
    assert ruled[c := taken][c := WithoutEntries(d, m)] == ruled[c := WithoutEntries(d, m)];
  }

  lemma SameFrameAlways(config: Config, c: string)
    ensures OnlyManaged(config, config, c)
  {
  }

  lemma ChosenInCatalog(c: Channel, inputs: seq<Input>, choices: map<Name, Choice>)
    requires Choices(c, inputs, choices)
    ensures forall m :: m in choices ==> m in c.catalog
  {
  }

  lemma SavedKeepsFrame(c: Channel, choices: map<Name, Choice>, next: seq<Alias>)
    requires Saved(c, choices, next) && forall m :: m in choices ==> m in c.catalog
    ensures SameFrame(c, c.(aliases := next))
  {
  }

  lemma SameElements(s: seq<Alias>, t: seq<Alias>)
    requires multiset(s) == multiset(t)
    ensures forall e :: e in s <==> e in t
  {
    assert forall e :: e in s <==> e in multiset(s);
    assert forall e :: e in t <==> e in multiset(t);
  }

  lemma SavedIsWhatItHolds(c: Channel, choices: map<Name, Choice>, s: seq<Alias>, t: seq<Alias>)
    requires Saved(c, choices, s) && forall e :: e in s <==> e in t
    ensures Saved(c, choices, t)
  {
  }

  /** The order of the entries does not matter. */
  lemma SameShows(c: Channel, aliases: seq<Alias>)
    requires forall e :: e in aliases <==> e in c.aliases
    ensures forall n, m, a :: ShowsOn(c, n, m, a) == ShowsOn(c.(aliases := aliases), n, m, a)
  {
    forall n, m, a
      ensures ShowsOn(c, n, m, a) == ShowsOn(c.(aliases := aliases), n, m, a)
    {
      EntriesDecide(c.aliases, aliases, m);
    }
  }

  lemma SameEntriesOwn(c: Channel, aliases: seq<Alias>)
    requires (forall e :: e in aliases <==> e in c.aliases) && OneOwner(Settings(c), aliases)
    ensures OwnNames(c)
  {
    hide Shows, ShowsOn;
    var d := c.(aliases := aliases);
    SameShows(c, aliases);
    assert Settings(d) == Settings(c);
    FewerNames(d, c);
  }

  lemma WrittenAliases(before: Config, after: Config, c: string, next: seq<Alias>)
    requires c in before && SameFrame(before[c], before[c].(aliases := next))
    requires after == before || after == before[c := before[c].(aliases := next)]
    ensures OnlyManaged(before, after, c)
    ensures after != before ==> Settings(after[c]) == Settings(before[c]) && after[c].aliases == next
  {
  }
}

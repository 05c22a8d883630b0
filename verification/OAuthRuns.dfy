/** A whole life of the portal: saves, switches and presets, one after another, on an
    upstream that may fail at any point. */
module OAuthRuns {
  import opened OAuthNames
  import opened OAuthRouting
  import opened OAuthPortal
  import opened OAuthPresets

  datatype Request =
    | Save(channel: string, inputs: seq<Input>)
    | Switch(channel: string, model: Name, on: bool)
    | Apply(preset: Preset)

  /** A request that reported a failure and may have left a conflict: a switch-off of a
      model whose own name was taken, or a preset that could be neither applied nor
      undone. */
  ghost predicate Trouble(r: Request, before: Config, failed: bool) {
    failed &&
    match r
    case Save(_, _) => false
    case Switch(c, m, on) => c in before && !on && Risky(before, c, m)
    case Apply(_) => true
  }

  /** A request that may bring back a model unchecked, because the name of another one is a
      pattern for it. */
  ghost predicate Unchecked(r: Request, before: Config) {
    match r
    case Save(_, _) => false
    case Switch(c, m, on) => c in before && on && !Alone(before[c], m)
    case Apply(preset) => !AllPlain(before, preset)
  }

  ghost predicate NoTrouble(requests: seq<Request>, trace: seq<Config>, failed: seq<bool>, n: nat)
    requires n <= |trace| && n <= |failed| && n <= |requests|
  {
    forall k | 0 <= k < n :: !Trouble(requests[k], trace[k], failed[k]) && !Unchecked(requests[k], trace[k])
  }

  /** Started without a conflict, the portal never has one, whatever is asked and
      whichever writes fail, until a request is in trouble. */
  method Serve(p: Portal, order: seq<string>, requests: seq<Request>, capsFit: string -> bool)
    returns (ghost trace: seq<Config>, ghost failed: seq<bool>)
    requires ConflictFree(p.channels)
    requires (forall c :: c in order <==> c in p.channels) && forall i, j | 0 <= i < j < |order| :: order[i] != order[j]
    modifies p
    ensures |trace| == |requests| + 1 && |failed| == |requests|
    ensures trace[0] == old(p.channels) && trace[|requests|] == p.channels
    ensures forall n | 0 <= n <= |requests| && NoTrouble(requests, trace, failed, n) :: ConflictFree(trace[n])
  {
    hide ConflictFree, Trouble, Unchecked;
    trace, failed := [p.channels], [];
    var i := 0;
    while i < |requests|
      invariant 0 <= i <= |requests| && |trace| == i + 1 && |failed| == i
      invariant trace[0] == old(p.channels) && trace[i] == p.channels
      invariant forall c :: c in order <==> c in p.channels
      invariant forall n | 0 <= n <= i && NoTrouble(requests, trace, failed, n) :: ConflictFree(trace[n])
    {
      ghost var bad := HandleOne(p, order, requests[i], capsFit);
      ghost var next, told := trace + [p.channels], failed + [bad];
      forall n | 0 <= n <= i + 1 && NoTrouble(requests, next, told, n)
        ensures ConflictFree(next[n])
      {
        StepBack(requests, trace, p.channels, failed, bad, i, n);
      }
      trace, failed := next, told;
      i := i + 1;
    }
  }

  lemma StepBack(requests: seq<Request>, trace: seq<Config>, last: Config, failed: seq<bool>, bad: bool, i: nat, n: nat)
    requires i < |requests| && |trace| == i + 1 && |failed| == i && n <= i + 1
    requires NoTrouble(requests, trace + [last], failed + [bad], n)
    ensures n <= i ==> NoTrouble(requests, trace, failed, n)
    ensures n == i + 1 ==>
              NoTrouble(requests, trace, failed, i) && !Trouble(requests[i], trace[i], bad)
              && !Unchecked(requests[i], trace[i])
  {
    hide Trouble, Unchecked;
    var t, f := trace + [last], failed + [bad];
    forall k | 0 <= k < n && k < i
      ensures !Trouble(requests[k], trace[k], failed[k]) && !Unchecked(requests[k], trace[k])
    {
      assert !Trouble(requests[k], t[k], f[k]) && !Unchecked(requests[k], t[k]);
    }
    if n == i + 1 {
      assert !Trouble(requests[i], t[i], f[i]) && !Unchecked(requests[i], t[i]);
    }
  }

  /** One request; the result says whether it reported a failure, for a preset one that
      could not be undone. */
  method HandleOne(p: Portal, order: seq<string>, r: Request, capsFit: string -> bool) returns (ghost failed: bool)
    requires (forall c :: c in order <==> c in p.channels) && forall i, j | 0 <= i < j < |order| :: order[i] != order[j]
    modifies p
    ensures forall c :: c in order <==> c in p.channels
    ensures old(ConflictFree(p.channels)) && !Trouble(r, old(p.channels), failed) && !Unchecked(r, old(p.channels)) ==>
              ConflictFree(p.channels)
  {
    hide ConflictFree, SameFrame, Prepared, SameRouting, Routes, CanSave, CanEnable, Choices, Saved,
         Off, Disabling, Risky, SwitchedOff, Alone, AllPlain, Arrived, BlankListed, BlankShared;
    match r
    case Save(c, inputs) =>
      ghost var choices, next;
      var ok;
      ok, choices, next := p.SaveAliases(c, inputs);
      failed := !ok;
    case Switch(c, m, on) =>
      var ok := p.SetModelEnabled(c, m, on);
      failed := !ok;
    case Apply(preset) =>
      var verdict := ApplyPreset(p, order, preset, capsFit);
      failed := verdict.Broken?;
  }
}

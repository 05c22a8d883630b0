/** The durable plan that installs host services after a restore
    (internal/backup/restore_host_tasks.go), as restore_queue.go, portal_restore.go and
    runner.go drive it: one runner process at a time, which may die between any two steps,
    and a queue that the web process fills. */
module HostInstall {
  import opened Runs
  import opened Wrappers

  datatype Request = Request(job: nat, auto: bool)
  datatype Transaction = Transaction(job: nat, committed: bool)
  datatype Plan = Plan(job: nat, ready: bool)

  /** A persist renames and then syncs; `Late` is an error between the two. */
  datatype Outcome = Done | Failed | Late

  datatype Runner =
    | Absent
    | Fresh(job: nat, auto: bool)
    | Planned(job: nat)
    | Open(job: nat, auto: bool)
    | Committed(job: nat, auto: bool)
    | Marked(job: nat, auto: bool)
    | Undoing(job: nat, auto: bool)
    | Undone(job: nat, auto: bool)
    | Failing(auto: bool)
    | Recovering
    | Recovered
    | Installing

  /** `committed` and `installed` are history: which jobs' data is committed and was not
      taken back, and for which jobs' plans host services were installed. */
  datatype State = State(
    request: Option<Request>,
    transaction: Option<Transaction>,
    plan: Option<Plan>,
    runner: Runner,
    next: nat,
    committed: set<nat>,
    installed: set<nat>)

  datatype Step =
    | Enqueue(auto: bool)
    | Tick
    | PreparePlan
    | OpenTransaction(ok: bool)
    | TurnBack
    | Commit(outcome: Outcome)
    | MarkReady(ok: bool)
    | UndoData
    | RecordUndone(outcome: Outcome)
    | RemoveTransaction(ok: bool)
    | Discard
    | Recover(ok: bool)
    | EndRecovery(ok: bool)
    | Install(ok: bool)
    | Die

  function Init(): State {
    State(None, None, None, Absent, 0, {}, {})
  }

  function Ready(p: Option<Plan>): Option<Plan> {
    if p.Some? then Some(p.value.(ready := true)) else None
  }

  function Next(s: State, step: Step): State {
    match step
    case Enqueue(auto) =>
      if s.request.None? then s.(request := Some(Request(s.next, auto)), next := s.next + 1) else s
    case Tick =>
      if !s.runner.Absent? then s
      else if s.transaction.Some? then s.(runner := Recovering)
      else if s.request.Some? then s.(request := None, runner := Fresh(s.request.value.job, s.request.value.auto))
      else if s.plan.Some? then s.(runner := Installing)
      else s
    case PreparePlan =>
      if !s.runner.Fresh? || !s.runner.auto then s
      else if s.plan.None? then s.(plan := Some(Plan(s.runner.job, false)), runner := Planned(s.runner.job))
      else s.(runner := Failing(true))
    case OpenTransaction(ok) =>
      if s.runner.Planned? then
        if ok then s.(transaction := Some(Transaction(s.runner.job, false)), runner := Open(s.runner.job, true))
        else s.(runner := Failing(true))
      else if s.runner.Fresh? && !s.runner.auto then
        if ok then s.(transaction := Some(Transaction(s.runner.job, false)), runner := Open(s.runner.job, false))
        else s.(runner := Failing(false))
      else s
    case TurnBack =>
      if s.runner.Open? then s.(runner := Undoing(s.runner.job, s.runner.auto)) else s
    case Commit(outcome) =>
      if !s.runner.Open? then s
      else if outcome == Failed then s.(runner := Undoing(s.runner.job, s.runner.auto))
      else s.(transaction := Some(Transaction(s.runner.job, true)), committed := s.committed + {s.runner.job},
              runner := if outcome == Done then Committed(s.runner.job, s.runner.auto)
                        else Undoing(s.runner.job, s.runner.auto))
    case MarkReady(ok) =>
      if !s.runner.Committed? then s
      else if ok then s.(plan := Ready(s.plan), runner := Marked(s.runner.job, s.runner.auto))
      else s.(runner := Failing(s.runner.auto))
    case UndoData =>
      if s.runner.Undoing? then s.(committed := s.committed - {s.runner.job}) else s
    case RecordUndone(outcome) =>
      if !s.runner.Undoing? then s
      else s.(committed := s.committed - {s.runner.job},
              transaction := if outcome == Failed then s.transaction else Some(Transaction(s.runner.job, false)),
              runner := if outcome == Done then Undone(s.runner.job, s.runner.auto) else Failing(s.runner.auto))
    case RemoveTransaction(ok) =>
      if s.runner.Undone? then s.(transaction := if ok then None else s.transaction, runner := Failing(s.runner.auto))
      else if s.runner.Marked? then
        s.(transaction := if ok then None else s.transaction, runner := if s.runner.auto then Installing else Absent)
      else s
    case Discard =>
      if !s.runner.Failing? then s
      else s.(plan := if s.runner.auto && s.transaction.None? then None else s.plan, runner := Absent)
    case Recover(ok) =>
      if !s.runner.Recovering? || s.transaction.None? then s
      else if !ok then s.(runner := Absent)
      else s.(plan := if s.transaction.value.committed then Ready(s.plan) else s.plan, runner := Recovered)
    case EndRecovery(ok) =>
      if !s.runner.Recovered? then s
      else s.(transaction := if ok then None else s.transaction, runner := Absent)
    case Install(ok) =>
      if !s.runner.Installing? then s
      else if s.plan.None? then s.(runner := Absent)
      else if !s.plan.value.ready then s.(plan := None, runner := Absent)
      else s.(installed := s.installed + {s.plan.value.job}, plan := if ok then None else s.plan, runner := Absent)
    case Die => s.(runner := Absent)
  }

  function Run(s: State, steps: seq<Step>): State {
    Fold(Next, s, steps)
  }

  /** Host services are installed only for jobs whose data is committed. */
  predicate Safe(s: State) {
    s.installed <= s.committed
  }

  /** What the web process checks before it queues a job. */
  predicate IsIdle(s: State) {
    s.request.None? && s.transaction.None? && s.plan.None? && s.runner.Absent?
  }

  predicate Waiting(p: Option<Plan>) {
    p.Some? && !p.value.ready
  }

  /** A plan that no commit stands behind. */
  predicate Stale(s: State) {
    Waiting(s.plan) && !(s.transaction.Some? && s.transaction.value.committed)
  }

  /** There is such a plan, or the runner is about to make one. */
  predicate AtRisk(s: State) {
    Stale(s) || (s.runner.Fresh? && s.runner.auto && s.plan.None?)
  }

  /** What must not happen: a job without a host part is queued behind such a plan, or a
      commit that a plan waits for reports an error after it was written. */
  predicate Fatal(s: State, step: Step) {
    || (step == Enqueue(false) && s.request.None? && AtRisk(s))
    || (step == Commit(Late) && s.runner.Open? && Waiting(s.plan))
  }

  predicate NothingFatal(s: State, steps: seq<Step>)
    decreases |steps|
  {
    steps == [] || (!Fatal(s, steps[0]) && NothingFatal(Next(s, steps[0]), steps[1..]))
  }

  // ----------------------------------------------------------------- invariant

  /** The runner works on a job. */
  predicate Works(r: Runner) {
    r.Planned? || r.Open? || r.Committed? || r.Marked? || r.Undoing? || r.Undone?
  }

  /** A plan is ready only for a committed job, and an unready plan belongs to whatever
      job is being worked on. */
  ghost predicate Inv(s: State) {
    Safe(s) && JobsAreDistinct(s) && RunnerFits(s) && PlanFits(s)
  }

  ghost predicate PlanFits(s: State) {
    && (s.plan.Some? && s.plan.value.ready ==> s.plan.value.job in s.committed)
    && (Waiting(s.plan) ==>
          && (s.transaction.Some? ==>
                && s.transaction.value.job == s.plan.value.job
                && (s.transaction.value.committed ==> s.transaction.value.job in s.committed && !s.runner.Undoing?))
          && (Works(s.runner) ==> s.runner.job == s.plan.value.job)
          && !s.runner.Marked? && (s.runner.Fresh? ==> s.runner.auto)
          && (s.runner.Recovered? && s.transaction.Some? ==> !s.transaction.value.committed))
    && (s.request.Some? && !s.request.value.auto ==> !AtRisk(s))
  }

  /** What the runner holds in memory agrees with the disk. */
  ghost predicate RunnerFits(s: State) {
    && (s.runner.Open? || s.runner.Undone? ==> s.transaction == Some(Transaction(s.runner.job, false)))
    && (s.runner.Committed? || s.runner.Marked? ==>
          s.transaction == Some(Transaction(s.runner.job, true)) && s.runner.job in s.committed)
    && (s.runner.Undoing? ==> s.transaction.Some? && s.transaction.value.job == s.runner.job)
    && (s.runner.Fresh? || s.runner.Planned? ==> s.transaction.None?)
  }

  /** A job commits at most once, and nothing that has not committed counts as if it had. */
  ghost predicate JobsAreDistinct(s: State) {
    && (forall j | j in s.committed :: j < s.next)
    && (s.request.Some? ==>
          && s.request.value.job < s.next && s.request.value.job !in s.committed
          && (s.runner.Fresh? || s.runner.Planned? || s.runner.Open? || s.runner.Undoing? ==>
                s.runner.job != s.request.value.job))
    && (s.runner.Fresh? || s.runner.Planned? || s.runner.Open?
       ==> s.runner.job < s.next && s.runner.job !in s.committed)
    && (s.runner.Undoing? ==>
          && s.runner.job < s.next && s.runner.job !in s.installed
          && (s.plan.Some? && s.plan.value.ready ==> s.plan.value.job != s.runner.job))
    && (s.transaction.Some? && !s.transaction.value.committed ==> s.transaction.value.job !in s.committed)
    && (s.plan.Some? ==> s.plan.value.job < s.next)
    && (Stale(s) ==> s.plan.value.job !in s.committed)
  }

  lemma NextKeepsJobs(s: State, step: Step)
    requires Inv(s) && !Fatal(s, step)
    ensures Safe(Next(s, step)) && JobsAreDistinct(Next(s, step))
  {
  }

  lemma NextKeepsRunner(s: State, step: Step)
    requires Inv(s) && !Fatal(s, step)
    ensures RunnerFits(Next(s, step))
  {
    hide JobsAreDistinct, Safe;
  }

  lemma NextKeeps(s: State, step: Step)
    requires Inv(s) && !Fatal(s, step)
    ensures Inv(Next(s, step))
  {
    hide Next, RunnerFits, JobsAreDistinct, Safe, PlanFits, Fatal;
    NextKeepsJobs(s, step);
    NextKeepsRunner(s, step);
    NextKeepsPlan(s, step);
  }

  lemma NextKeepsPlan(s: State, step: Step)
    requires Inv(s) && !Fatal(s, step)
    ensures PlanFits(Next(s, step))
  {
  }

  lemma {:induction false} RunKeeps(s: State, steps: seq<Step>)
    requires Inv(s) && NothingFatal(s, steps)
    ensures Inv(Run(s, steps))
    decreases |steps|
  {
    hide Inv, Next, Fatal;
    if steps == [] {
    } else {
      NextKeeps(s, steps[0]);
      RunKeeps(Next(s, steps[0]), steps[1..]);
    }
  }

  // ----------------------------------------------------------------- main statements

  /** In every run, wherever the runner dies, no host service is installed for a job
      whose data is not committed. */
  lemma InstallsOnlyCommitted(steps: seq<Step>)
    requires NothingFatal(Init(), steps)
    ensures Safe(Run(Init(), steps))
  {
    RunKeeps(Init(), steps);
  }

  /** Nothing is fatal about a job that the web process queues. */
  lemma QueueingWhenIdleIsFine(s: State, auto: bool)
    requires Inv(s) && IsIdle(s)
    ensures !Fatal(s, Enqueue(auto))
  {
  }

  /** However things go on without a fatal step, services are installed for committed jobs
      only. */
  ghost predicate SafeOnward(s: State) {
    forall steps | NothingFatal(s, steps) :: Safe(Run(s, steps))
  }

  ghost predicate AlwaysSafe(s: State, steps: seq<Step>)
    decreases |steps|
  {
    SafeOnward(s) && (steps == [] || AlwaysSafe(Next(s, steps[0]), steps[1..]))
  }

  /** A step leaves things safe exactly if it is not fatal. */
  lemma StepIsSafeExactly(s: State, step: Step)
    requires Inv(s)
    ensures SafeOnward(Next(s, step)) <==> !Fatal(s, step)
  {
    hide Inv, Next, SafeOnward, AtRisk;
    if !Fatal(s, step) {
      NextKeeps(s, step);
      InvIsSafeOnward(Next(s, step));
    } else if step.Enqueue? {
      QueueingBehindAPlan(s, step);
    } else {
      LateWithAPlan(s, step);
    }
  }

  lemma InvIsSafeOnward(s: State)
    requires Inv(s)
    ensures SafeOnward(s)
  {
    hide Next, Fatal, NothingFatal;
    forall steps | NothingFatal(s, steps)
      ensures Safe(Run(s, steps))
    {
      RunKeeps(s, steps);
    }
  }

  /** Over every run: things are safe at every point and however they go on from there,
      exactly if no step of the run is fatal. */
  lemma {:induction false} RunIsSafeExactly(s: State, steps: seq<Step>)
    requires Inv(s)
    ensures AlwaysSafe(s, steps) <==> NothingFatal(s, steps)
    decreases |steps|
  {
    hide Inv, Next, Fatal, SafeOnward;
    InvIsSafeOnward(s);
    if steps == [] {
    } else {
      StepIsSafeExactly(s, steps[0]);
      if !Fatal(s, steps[0]) {
        NextKeeps(s, steps[0]);
        RunIsSafeExactly(Next(s, steps[0]), steps[1..]);
      }
    }
  }

  // -------------------------------------------------------------- what a fatal step leads to

  lemma Onward(s: State, steps: seq<Step>)
    requires (forall k | 0 <= k < |steps| :: !steps[k].Enqueue? && steps[k] != Commit(Late)) && !Safe(Run(s, steps))
    ensures !SafeOnward(s)
  {
    hide Next, Run;
    NothingUnusual(s, steps);
  }

  /** The new job's commit marks the other job's plan ready. */
  lemma QueueingBehindAPlan(s: State, step: Step)
    requires Inv(s) && Fatal(s, step) && step.Enqueue?
    ensures !SafeOnward(Next(s, step))
  {
    QueueingMeans(s, step);
    hide Inv, Fatal, SafeOnward;
    var t := Next(s, step);
    var first := if s.plan.None? then [PreparePlan, Die] else [Die];
    var u := Orphan(t, first);
    var recovery := if s.transaction.Some? then [Tick, Recover(true), EndRecovery(true)] else [];
    var r := Run(u, recovery);
    assert r == u.(transaction := None) by {
      if s.transaction.Some? {
        StepsOf3(u, Tick, Recover(true), EndRecovery(true));
      }
    }
    StalePlanInstalls(r, s.next);
    FoldJoin(Next, u, recovery, STALE);
    FoldJoin(Next, t, first, recovery + STALE);
    Onward(t, first + (recovery + STALE));
  }

  lemma QueueingMeans(s: State, step: Step)
    requires Inv(s) && Fatal(s, step) && step.Enqueue?
    ensures step == Enqueue(false) && s.request.None?
    ensures s.plan.None? ==> s.runner.Fresh? && s.runner.auto && s.runner.job < s.next && s.transaction.None?
    ensures s.plan.None? ==> s.runner.job !in s.committed
    ensures s.plan.Some? ==> Waiting(s.plan) && s.plan.value.job < s.next && s.plan.value.job !in s.committed
    ensures s.transaction.Some? ==> !s.transaction.value.committed
  {
  }

  /** The runner dies and leaves the plan. */
  lemma Orphan(t: State, first: seq<Step>) returns (u: State)
    requires first == if t.plan.None? then [PreparePlan, Die] else [Die]
    requires t.plan.None? ==> t.runner.Fresh? && t.runner.auto
    ensures u == Run(t, first)
            && u == t.(runner := Absent, plan := if t.plan.None? then Some(Plan(t.runner.job, false)) else t.plan)
  {
    u := Run(t, first);
    if t.plan.None? {
      FoldOne(Next, t, PreparePlan, [Die]);
      FoldOne(Next, Next(t, PreparePlan), Die, []);
      assert [PreparePlan] + [Die] == first && [Die] + [] == [Die];
    } else {
      FoldOne(Next, t, Die, []);
      assert [Die] + [] == [Die];
    }
  }

  /** The process turns to its rollback while the disk says committed; it dies, and the
      recovery trusts the record and lets the plan be installed. */
  lemma LateWithAPlan(s: State, step: Step)
    requires Inv(s) && Fatal(s, step) && step.Commit?
    ensures !SafeOnward(Next(s, step))
  {
    var t := Next(s, step);
    StepsOf3(t, UndoData, Die, Tick);
    var u := Run(t, UNDONE);
    assert u.plan == s.plan && u.committed == s.committed && u.installed == s.installed && u.runner == Recovering
           && u.request == s.request;
    var v := Next(Next(u, Recover(true)), EndRecovery(true));
    assert v.plan == Ready(s.plan) && v.transaction.None? && v.runner.Absent? && v.request == s.request;
    assert s.plan.value.job == s.runner.job;
    StepsOf4(u, Recover(true), EndRecovery(true), Tick, Die);
    var w := Run(u, RECOVERED);
    assert w.plan == v.plan && w.transaction.None? && w.runner.Absent? && w.request.None?
           && w.committed == s.committed;
    StepsOf3(w, Tick, Install(true), Die);
    FoldJoin(Next, u, RECOVERED, INSTALLED);
    FoldJoin(Next, t, UNDONE, RECOVERED + INSTALLED);
    assert s.plan.value.job in Run(w, INSTALLED).installed && s.plan.value.job !in s.committed;
    Onward(t, UNDONE + (RECOVERED + INSTALLED));
  }

  const UNDONE := [UndoData, Die, Tick]
  const RECOVERED := [Recover(true), EndRecovery(true), Tick, Die]
  const INSTALLED := [Tick, Install(true), Die]

  const STALE :=
    [Tick, OpenTransaction(true), Commit(Done), MarkReady(true), RemoveTransaction(true), Tick, Install(true)]

  lemma StalePlanInstalls(r: State, job: nat)
    requires Waiting(r.plan) && r.plan.value.job != job && r.plan.value.job !in r.committed
    requires r.transaction.None? && r.request == Some(Request(job, false)) && r.runner.Absent?
    ensures !Safe(Run(r, STALE))
  {
    var r1 := Next(r, Tick);
    var r2 := Next(r1, OpenTransaction(true));
    var r3 := Next(r2, Commit(Done));
    var r4 := Next(r3, MarkReady(true));
    var r5 := Next(r4, RemoveTransaction(true));
    StepsOf3(r, Tick, OpenTransaction(true), Commit(Done));
    assert r3.plan == r.plan && r3.committed == r.committed + {job} && r3.installed == r.installed
           && r3.runner == Committed(job, false);
    assert r3.transaction.Some? && r3.request.None?;
    StepsOf4(r3, MarkReady(true), RemoveTransaction(true), Tick, Install(true));
    var rest := [MarkReady(true), RemoveTransaction(true), Tick, Install(true)];
    FoldJoin(Next, r, [Tick, OpenTransaction(true), Commit(Done)], rest);
    assert [Tick, OpenTransaction(true), Commit(Done)] + rest == STALE;
    assert r.plan.value.job in Run(r3, rest).installed;
  }

  /** Both exceptions are reached: a runner that dies after it made the plan leaves a stale
      one, and every job that installs host services commits with its plan waiting. */
  lemma BothHappen()
    ensures var dead := Run(Init(), [Enqueue(true), Tick, PreparePlan, Die]);
            Inv(dead) && Fatal(dead, Enqueue(false))
    ensures var open := Run(Init(), [Enqueue(true), Tick, PreparePlan, OpenTransaction(true)]);
            Inv(open) && Fatal(open, Commit(Late))
  {
    StepsOf4(Init(), Enqueue(true), Tick, PreparePlan, Die);
    StepsOf4(Init(), Enqueue(true), Tick, PreparePlan, OpenTransaction(true));
    var planned := Next(Next(Next(Init(), Enqueue(true)), Tick), PreparePlan);
    assert planned == State(None, None, Some(Plan(0, false)), Planned(0), 1, {}, {});
  }

  lemma StepsOf3(s: State, a: Step, b: Step, c: Step)
    ensures Run(s, [a, b, c]) == Next(Next(Next(s, a), b), c)
  {
    hide Next;
    assert [a, b, c][1..] == [b, c] && [b, c][1..] == [c];
    FoldOne(Next, s, a, [b, c]);
    FoldOne(Next, Next(s, a), b, [c]);
    FoldOne(Next, Next(Next(s, a), b), c, []);
    assert [a] + [b, c] == [a, b, c] && [b] + [c] == [b, c] && [c] + [] == [c];
  }

  lemma StepsOf4(s: State, a: Step, b: Step, c: Step, d: Step)
    ensures Run(s, [a, b, c, d]) == Next(Next(Next(Next(s, a), b), c), d)
  {
    hide Next;
    FoldOne(Next, s, a, [b, c, d]);
    StepsOf3(Next(s, a), b, c, d);
    assert [a] + [b, c, d] == [a, b, c, d];
  }

  lemma {:induction false} NothingUnusual(s: State, steps: seq<Step>)
    requires forall k | 0 <= k < |steps| :: !steps[k].Enqueue? && steps[k] != Commit(Late)
    ensures NothingFatal(s, steps)
    decreases |steps|
  {
    hide Next;
    if steps == [] {
    } else {
      NothingUnusual(Next(s, steps[0]), steps[1..]);
    }
  }

  // -------------------------------------------------------------- what is undisturbed ends

  /** A plan whose job is committed is not lost: after whatever crash, one recovery marks it
      ready if it has to, and one more tick installs it. */
  lemma CommittedPlanIsInstalled(s: State)
    requires Inv(s) && s.plan.Some? && s.request.None? && s.runner.Absent?
    requires s.plan.value.ready || (s.transaction.Some? && s.transaction.value.committed)
    ensures var recovery := if s.transaction.Some? then [Tick, Recover(true), EndRecovery(true)] else [];
            var t := Run(s, recovery + [Tick, Install(true), Die]);
            && s.plan.value.job in t.installed && s.plan.value.job in t.committed
            && t.plan.None? && t.transaction.None? && t.runner.Absent? && IsIdle(t)
  {
    var recovery := if s.transaction.Some? then [Tick, Recover(true), EndRecovery(true)] else [];
    var u := Run(s, recovery);
    if s.transaction.Some? {
      StepsOf3(s, Tick, Recover(true), EndRecovery(true));
    }
    assert u.plan == Some(Plan(s.plan.value.job, true)) && u.transaction.None? && u.runner.Absent?
           && u.request.None? && u.committed == s.committed;
    StepsOf3(u, Tick, Install(true), Die);
    FoldJoin(Next, s, recovery, [Tick, Install(true), Die]);
  }

  /** An attempt that fails, or dies, leaves a ready plan for the next one. */
  lemma ReadyPlanStays(s: State, step: Step)
    requires Inv(s) && s.plan.Some? && s.plan.value.ready && step != Install(true) && !s.runner.Failing?
    ensures Next(s, step).plan == s.plan
  {
  }

  /** A job with a host part, from an idle host on and with nothing in its way, ends
      committed and installed, and the host idle again. */
  lemma UndisturbedJobInstalls(s: State)
    requires Inv(s) && IsIdle(s)
    ensures var t := Run(s, WHOLE); s.next in t.committed && s.next in t.installed && IsIdle(t)
  {
    StepsOf4(s, Enqueue(true), Tick, PreparePlan, OpenTransaction(true));
    var u := Run(s, PREPARED);
    assert u.runner == Open(s.next, true) && u.plan == Some(Plan(s.next, false)) && u.request.None?
           && u.transaction == Some(Transaction(s.next, false)) && u.committed == s.committed;
    StepsOf4(u, Commit(Done), MarkReady(true), RemoveTransaction(true), Install(true));
    FoldJoin(Next, s, PREPARED, FINISHED);
  }

  const PREPARED := [Enqueue(true), Tick, PreparePlan, OpenTransaction(true)]
  const FINISHED := [Commit(Done), MarkReady(true), RemoveTransaction(true), Install(true)]
  const WHOLE := PREPARED + FINISHED
}

/** The admission controller as the interleaving of its callers
    (internal/resourcecontrol/controller.go:154-319).  One mutex guards its fields, but
    recording an event lets go of it: a caller then waits for room in the channel, wakes
    the auditor, and takes the mutex again.  Every stretch under the mutex, and every
    channel operation, is one step. */
module AdmissionControl {
  import opened Wrappers

  type User = string

  const MIB := 1_048_576
  const CHANNEL := 256
  const BATCH := 64

  /** A limit of 0 is no limit.  `enforce` is the mode; the other mode only observes. */
  datatype Policy = Policy(enforce: bool, global: nat, perUser: nat, bodyMiB: nat)

  datatype Event = Event(user: User, reason: string, observed: bool, status: int)

  /** What a caller does when it has the mutex again. */
  datatype Then = Return | Decide(policy: Policy, user: User) | Admit(policy: Policy, user: User)

  /** A caller that let go of the mutex to record an event. */
  datatype Caller = Sending(event: Event, then': Then) | Signalling(then': Then) | Relocking(then': Then)

  datatype Finish = Open | Finishing | Finished

  /** An admitted request: what its two once-only calls have done. */
  datatype Lease = Lease(user: User, policy: Policy, modelDone: bool, finish: Finish)

  datatype Auditor = Parked | Awake | Flushing | Checking | Sleeping | Stopped

  /** Who holds the flush mutex, and where in its loop. */
  datatype Flush = Idle | Draining(auditor: bool) | Writing(auditor: bool)

  datatype State = State(
    policy: Policy,
    active: int,
    processing: int,
    users: map<User, int>,
    leases: seq<Lease>,
    rejected: nat,
    observed: nat,
    callers: map<nat, Caller>,
    channel: seq<Event>,
    wake: bool,
    pending: seq<Event>,
    auditor: Auditor,
    flush: Flush,
    // what has happened, for the statements below
    enqueued: seq<Event>,
    accepted: seq<Event>)

  function Initial(p: Policy): State {
    State(p, 0, 0, map[], [], 0, 0, map[], [], false, [], Parked, Idle, [], [])
  }

  function Count(users: map<User, int>, user: User): int {
    if user in users then users[user] else 0
  }

  /** The first reason to refuse; `pressure` is what the monitor adds. */
  function Reason(s: State, p: Policy, user: User, pressure: Option<string>): Option<string> {
    if p.global > 0 && s.active >= p.global then Some("global_concurrency")
    else if p.perUser > 0 && Count(s.users, user) >= p.perUser then Some("user_concurrency")
    else if p.global > 0 && s.processing >= p.global + 4 then Some("capture_backlog")
    else pressure
  }

  /** The events and who looks at them are the same. */
  predicate SameEvents(s: State, t: State) {
    && t.channel == s.channel && t.wake == s.wake && t.pending == s.pending && t.auditor == s.auditor
    && t.flush == s.flush && t.enqueued == s.enqueued && t.accepted == s.accepted
  }

  /** No other caller is touched. */
  predicate OthersStay(s: State, r: State, t: nat) {
    forall u | u in s.callers && u != t :: u in r.callers && r.callers[u] == s.callers[u]
  }

  function Recorded(s: State, t: nat, e: Event, next: Then): (r: State)
    ensures SameEvents(s, r) && OthersStay(s, r, t)
  {
    s.(callers := s.callers[t := Sending(e, next)],
       observed := if e.observed then s.observed + 1 else s.observed,
       rejected := if e.observed then s.rejected else s.rejected + 1)
  }

  function Gone(s: State, t: nat): (r: State)
    ensures SameEvents(s, r) && OthersStay(s, r, t)
  {
    s.(callers := s.callers - {t})
  }

  function Admitted(s: State, p: Policy, user: User): (r: State)
    ensures SameEvents(s, r) && r.callers == s.callers
  {
    s.(active := s.active + 1, processing := s.processing + 1, users := s.users[user := Count(s.users, user) + 1],
       leases := s.leases + [Lease(user, p, false, Open)])
  }

  /** The second half of an admission. */
  function Decided(s: State, t: nat, p: Policy, user: User, pressure: Option<string>): (r: State)
    ensures SameEvents(s, r) && OthersStay(s, r, t)
  {
    var reason := Reason(s, p, user, pressure);
    if reason.None? then Admitted(Gone(s, t), p, user)
    else Recorded(s, t, Event(user, reason.value, !p.enforce, 0), if p.enforce then Return else Admit(p, user))
  }

  function Released(s: State, id: nat): (r: State)
    requires id < |s.leases|
    ensures SameEvents(s, r) && r.callers == s.callers && |r.leases| == |s.leases|
  {
    var l := s.leases[id];
    if l.modelDone then s
    else
      var left := Count(s.users, l.user) - 1;
      s.(active := s.active - 1, users := if left == 0 then s.users - {l.user} else s.users[l.user := left],
         leases := s.leases[id := l.(modelDone := true)])
  }

  datatype Action =
    | Acquire(caller: nat, user: User, contentLength: int, pressure: Option<string>)
    | Send(caller: nat)
    | Signal(caller: nat)
    | Relock(caller: nat, pressure: Option<string>)
    | Record(caller: nat, user: User, reason: string)
    | RecordStatus(caller: nat, lease: nat, reason: string, status: int)
    | ModelDone(lease: nat)
    | BeginFinish(lease: nat)
    | EndFinish(lease: nat)
    | SetPolicy(policy: Policy)
    | TakeWake
    | LockFlush(auditor: bool)
    | Receive
    | Drained
    | SinkAccepts
    | SinkFails
    | FlushExpires
    | Check
    | WakeUp
    | StopAuditor

  predicate CanReceive(s: State) {
    s.channel != [] && |s.pending| < BATCH
  }

  predicate Enabled(s: State, a: Action) {
    match a
    case Acquire(t, _, _, _) => t !in s.callers
    case Send(t) => t in s.callers && s.callers[t].Sending? && |s.channel| < CHANNEL
    case Signal(t) => t in s.callers && s.callers[t].Signalling?
    case Relock(t, _) => t in s.callers && s.callers[t].Relocking?
    case Record(t, _, _) => t !in s.callers
    case RecordStatus(t, id, _, _) => t !in s.callers && id < |s.leases|
    case ModelDone(id) => id < |s.leases|
    case BeginFinish(id) => id < |s.leases| && s.leases[id].finish == Open
    case EndFinish(id) => id < |s.leases| && s.leases[id].finish == Finishing
    case SetPolicy(_) => true
    case TakeWake => s.auditor == Parked && s.wake
    case LockFlush(auditor) => s.flush == Idle && (auditor ==> s.auditor == Awake)
    case Receive => s.flush.Draining? && CanReceive(s)
    case Drained => s.flush.Draining? && !CanReceive(s)
    case SinkAccepts => s.flush.Writing?
    case SinkFails => s.flush.Writing?
    case FlushExpires => s.flush.Draining? && s.pending == []
    case Check => s.auditor == Checking && s.flush == Idle
    case WakeUp => s.auditor == Sleeping
    case StopAuditor => s.auditor == Parked || s.auditor == Sleeping
  }

  /** A flush lets go of its mutex. */
  function Unlock(s: State): State
    requires !s.flush.Idle?
  {
    s.(flush := Idle, auditor := if s.flush.auditor then Checking else s.auditor)
  }

  function Next(s: State, a: Action): State
    requires Enabled(s, a)
  {
    match a
    case Acquire(t, user, contentLength, pressure) =>
      var p := s.policy;
      if p.bodyMiB > 0 && contentLength > p.bodyMiB * MIB
      then Recorded(s, t, Event(user, "request_too_large", !p.enforce, 0),
        if p.enforce then Return else Decide(p, user))
      else Decided(s, t, p, user, pressure)
    case Send(t) =>
      var c := s.callers[t];
      s.(channel := s.channel + [c.event], enqueued := s.enqueued + [c.event],
         callers := s.callers[t := Signalling(c.then')])
    case Signal(t) => s.(wake := true, callers := s.callers[t := Relocking(s.callers[t].then')])
    case Relock(t, pressure) =>
      (match s.callers[t].then'
       case Return => Gone(s, t)
       case Decide(p, user) => Decided(s, t, p, user, pressure)
       case Admit(p, user) => Admitted(Gone(s, t), p, user))
    case Record(t, user, reason) => Recorded(s, t, Event(user, reason, !s.policy.enforce, 0), Return)
    case RecordStatus(t, id, reason, status) =>
      Recorded(s, t, Event(s.leases[id].user, reason, !s.leases[id].policy.enforce, status), Return)
    case ModelDone(id) => Released(s, id)
    case BeginFinish(id) =>
      var r := Released(s, id);
      r.(leases := r.leases[id := r.leases[id].(finish := Finishing)])
    case EndFinish(id) =>
      s.(processing := s.processing - 1, leases := s.leases[id := s.leases[id].(finish := Finished)])
    case SetPolicy(p) => s.(policy := p)
    case TakeWake => s.(wake := false, auditor := Awake)
    case LockFlush(auditor) =>
      s.(auditor := if auditor then Flushing else s.auditor,
         flush := if s.pending == [] then Draining(auditor) else Writing(auditor))
    case Receive => s.(pending := s.pending + [s.channel[0]], channel := s.channel[1..])
    case Drained => if s.pending == [] then Unlock(s) else s.(flush := Writing(s.flush.auditor))
    case SinkAccepts => s.(accepted := s.accepted + s.pending, pending := [], flush := Draining(s.flush.auditor))
    case SinkFails => Unlock(s)
    case FlushExpires => if s.flush.auditor then s.(flush := Idle, auditor := Stopped) else Unlock(s)
    case Check => s.(auditor := if s.pending != [] then Sleeping else Parked)
    case WakeUp => s.(auditor := Awake)
    case StopAuditor => s.(auditor := Stopped)
  }

  /** A run of the controller from a state: every action was possible when it happened. */
  ghost predicate Possible(s: State, run: seq<Action>)
    decreases |run|
  {
    run == [] || (Enabled(s, run[0]) && Possible(Next(s, run[0]), run[1..]))
  }

  function After(s: State, run: seq<Action>): State
    requires Possible(s, run)
    decreases |run|
  {
    if run == [] then s else After(Next(s, run[0]), run[1..])
  }

  // ------------------------------------------------------------- counts are the leases

  function Held(leases: seq<Lease>, user: Option<User>): nat {
    if leases == [] then 0
    else
      (if !leases[0].modelDone && (user.None? || user.value == leases[0].user) then 1 else 0)
      + Held(leases[1..], user)
  }

  function InProgress(leases: seq<Lease>): nat {
    if leases == [] then 0 else (if leases[0].finish != Finished then 1 else 0) + InProgress(leases[1..])
  }

  /** The counters are the numbers of leases that have not let go yet, and the map has an
      entry for exactly the users that hold one. */
  ghost predicate Counted(s: State) {
    && s.active == Held(s.leases, None) && s.processing == InProgress(s.leases)
    && (forall u: User ::
       Count(s.users, u) == Held(s.leases, Some(u)) && (u in s.users <==> Held(s.leases, Some(u)) > 0))
    && (forall i | 0 <= i < |s.leases| :: s.leases[i].finish != Open ==> s.leases[i].modelDone)
  }

  lemma {:induction false} HeldAppend(leases: seq<Lease>, l: Lease, user: Option<User>)
    ensures Held(leases + [l], user)
         == Held(leases, user) + if !l.modelDone && (user.None? || user.value == l.user) then 1 else 0
    ensures InProgress(leases + [l]) == InProgress(leases) + if l.finish != Finished then 1 else 0
    decreases |leases|
  {
    if leases == [] {
      assert [l][1..] == [];
    } else {
      assert (leases + [l])[1..] == leases[1..] + [l];
      HeldAppend(leases[1..], l, user);
    }
  }

  function One(b: bool): nat {
    if b then 1 else 0
  }

  lemma {:induction false} HeldUpdate(leases: seq<Lease>, id: nat, l: Lease, user: Option<User>)
    requires id < |leases| && l.user == leases[id].user
    ensures var mine := user.None? || user.value == l.user;
            Held(leases[id := l], user) + One(mine && !leases[id].modelDone)
              == Held(leases, user) + One(mine && !l.modelDone)
    ensures InProgress(leases[id := l]) + One(leases[id].finish != Finished)
            == InProgress(leases) + One(l.finish != Finished)
    decreases |leases|
  {
    if id == 0 {
      assert leases[id := l][1..] == leases[1..];
    } else {
      assert leases[id := l][1..] == leases[1..][id - 1 := l];
      HeldUpdate(leases[1..], id - 1, l, user);
    }
  }

  lemma AdmittedKeepsCounts(s: State, p: Policy, user: User)
    requires Counted(s)
    ensures Counted(Admitted(s, p, user))
  {
    var l := Lease(user, p, false, Open);
    var s' := Admitted(s, p, user);
    HeldAppend(s.leases, l, None);
    forall u: User
      ensures Count(s'.users, u) == Held(s'.leases, Some(u)) && (u in s'.users <==> Held(s'.leases, Some(u)) > 0)
    {
      HeldAppend(s.leases, l, Some(u));
    }
  }

  lemma ReleasedKeepsCounts(s: State, id: nat)
    requires Counted(s) && id < |s.leases|
    ensures Counted(Released(s, id)) && Released(s, id).leases == s.leases[id := s.leases[id].(modelDone := true)]
  {
    var l := s.leases[id];
    var s' := Released(s, id);
    if l.modelDone {
      assert s.leases[id := l] == s.leases;
    } else {
      HeldUpdate(s.leases, id, l.(modelDone := true), None);
      forall u: User
        ensures Count(s'.users, u) == Held(s'.leases, Some(u)) && (u in s'.users <==> Held(s'.leases, Some(u)) > 0)
      {
        HeldUpdate(s.leases, id, l.(modelDone := true), Some(u));
      }
    }
  }

  lemma FinishKeepsCounts(s: State, id: nat, f: Finish)
    requires Counted(s) && id < |s.leases| && s.leases[id].modelDone && s.leases[id].finish != Finished && f != Open
    ensures Counted(s.(leases := s.leases[id := s.leases[id].(finish := f)],
                       processing := s.processing - One(f == Finished)))
  {
    var l := s.leases[id].(finish := f);
    HeldUpdate(s.leases, id, l, None);
    forall u: User
      ensures Held(s.leases[id := l], Some(u)) == Held(s.leases, Some(u))
    {
      HeldUpdate(s.leases, id, l, Some(u));
    }
  }

  /** Counters and leases are the same. */
  predicate SameCounts(s: State, t: State) {
    t.active == s.active && t.processing == s.processing && t.users == s.users && t.leases == s.leases
  }

  lemma SameCountsKeep(s: State, t: State)
    requires Counted(s) && SameCounts(s, t)
    ensures Counted(t)
  {
    hide Held, InProgress;
  }

  lemma DecidedKeepsCounts(s: State, t: nat, p: Policy, user: User, pressure: Option<string>)
    requires Counted(s)
    ensures Counted(Decided(s, t, p, user, pressure))
  {
    hide Counted, Reason;
    SameCountsKeep(s, Gone(s, t));
    AdmittedKeepsCounts(Gone(s, t), p, user);
    var d := Decided(s, t, p, user, pressure);
    if SameCounts(s, d) {
      SameCountsKeep(s, d);
    }
  }

  /** Only requests and leases move the counters. */
  lemma OthersKeepCounts(s: State, a: Action)
    requires Enabled(s, a) && !a.Acquire? && !a.Relock? && !a.ModelDone? && !a.BeginFinish? && !a.EndFinish?
    ensures SameCounts(s, Next(s, a))
  {
  }

  lemma RelockKeepsCounts(s: State, t: nat, pressure: Option<string>)
    requires Counted(s) && Enabled(s, Relock(t, pressure))
    ensures Counted(Next(s, Relock(t, pressure)))
  {
    hide Counted, Decided, Admitted;
    SameCountsKeep(s, Gone(s, t));
    var next := s.callers[t].then';
    if next.Decide? {
      DecidedKeepsCounts(s, t, next.policy, next.user, pressure);
    } else if next.Admit? {
      AdmittedKeepsCounts(Gone(s, t), next.policy, next.user);
    }
  }

  lemma NextKeepsCounts(s: State, a: Action)
    requires Counted(s) && Enabled(s, a)
    ensures Counted(Next(s, a))
  {
    hide Held, InProgress;
    match a
    case Acquire(t, user, contentLength, pressure) =>
      DecidedKeepsCounts(s, t, s.policy, user, pressure);
      if SameCounts(s, Next(s, a)) {
        SameCountsKeep(s, Next(s, a));
      }
    case Relock(t, pressure) => RelockKeepsCounts(s, t, pressure);
    case ModelDone(id) => ReleasedKeepsCounts(s, id);
    case BeginFinish(id) =>
      ReleasedKeepsCounts(s, id);
      FinishKeepsCounts(Released(s, id), id, Finishing);
    case EndFinish(id) => FinishKeepsCounts(s, id, Finished);
    case _ =>
      OthersKeepCounts(s, a);
      SameCountsKeep(s, Next(s, a));
  }

  // ---------------------------------------------------------------- limits are kept

  /** Under an enforcing policy a caller that let go of the mutex never admits anyone. */
  ghost predicate Enforced(s: State, p: Policy) {
    s.policy == p && forall t | t in s.callers :: s.callers[t].then' == Return
  }

  ghost predicate WithinLimits(s: State, p: Policy) {
    && s.active <= p.global && s.processing <= p.global + 4
    && forall u: User :: Count(s.users, u) <= p.perUser
  }

  predicate SamePolicy(run: seq<Action>) {
    forall i | 0 <= i < |run| :: !run[i].SetPolicy?
  }

  lemma DecidedKeepsLimits(s: State, t: nat, p: Policy, user: User, pressure: Option<string>)
    requires Enforced(s, p) && WithinLimits(s, p) && p.enforce && p.global > 0 && p.perUser > 0
    ensures var s' := Decided(s, t, p, user, pressure); Enforced(s', p) && WithinLimits(s', p)
  {
    var s' := Decided(s, t, p, user, pressure);
    forall u: User
      ensures Count(s'.users, u) <= p.perUser
    {
      assert Count(s.users, u) <= p.perUser && Count(s.users, user) <= p.perUser;
    }
  }

  lemma ReleasedKeepsLimits(s: State, id: nat, p: Policy)
    requires Counted(s) && Enforced(s, p) && WithinLimits(s, p) && id < |s.leases|
    ensures var s' := Released(s, id); Enforced(s', p) && WithinLimits(s', p)
  {
    hide Held, InProgress;
  }

  lemma NextKeepsLimits(s: State, a: Action, p: Policy)
    requires Counted(s) && Enforced(s, p) && WithinLimits(s, p) && Enabled(s, a) && !a.SetPolicy?
    requires p.enforce && p.global > 0 && p.perUser > 0
    ensures Enforced(Next(s, a), p) && WithinLimits(Next(s, a), p)
  {
    hide Counted, Decided, Released;
    match a
    case Acquire(t, user, _, pressure) => DecidedKeepsLimits(s, t, p, user, pressure);
    case ModelDone(id) => ReleasedKeepsLimits(s, id, p);
    case BeginFinish(id) => ReleasedKeepsLimits(s, id, p);
    case _ =>
  }

  lemma {:induction false} InProgressIsMore(leases: seq<Lease>)
    requires forall i | 0 <= i < |leases| :: leases[i].finish != Open ==> leases[i].modelDone
    ensures Held(leases, None) <= InProgress(leases)
    decreases |leases|
  {
    if leases == [] {
    } else {
      InProgressIsMore(leases[1..]);
    }
  }

  /** In every interleaving under one enforcing policy: at most `global` requests hold a
      model, at most `perUser` of them for one user, at most `global` + 4 are in progress,
      and the counters are exactly the leases. */
  lemma {:induction false} LimitsHold(s: State, run: seq<Action>, p: Policy)
    requires Counted(s) && Enforced(s, p) && WithinLimits(s, p) && Possible(s, run) && SamePolicy(run)
    requires p.enforce && p.global > 0 && p.perUser > 0
    ensures var t := After(s, run);
            Counted(t) && Enforced(t, p) && WithinLimits(t, p) && t.active <= t.processing
    decreases |run|
  {
    if run == [] {
      InProgressIsMore(s.leases);
    } else {
      hide Counted, Enforced, WithinLimits, Next, Enabled;
      NextKeepsCounts(s, run[0]);
      NextKeepsLimits(s, run[0], p);
      assert forall i | 0 <= i < |run[1..]| :: run[1..][i] == run[i + 1];
      LimitsHold(Next(s, run[0]), run[1..], p);
    }
  }

  lemma FreshIsFine(p: Policy)
    ensures Counted(Initial(p)) && Enforced(Initial(p), p) && WithinLimits(Initial(p), p)
  {
  }

  /** Started under an enforcing policy that stays, the controller never admits too many. */
  lemma LimitsHoldFromStart(p: Policy, run: seq<Action>)
    requires p.enforce && p.global > 0 && p.perUser > 0 && Possible(Initial(p), run) && SamePolicy(run)
    ensures var t := After(Initial(p), run);
            && t.active <= p.global && t.processing <= p.global + 4 && t.active <= t.processing
            && (forall u: User :: Count(t.users, u) <= p.perUser && Count(t.users, u) == Held(t.leases, Some(u)))
  {
    hide Possible, After, Initial;
    FreshIsFine(p);
    LimitsHold(Initial(p), run, p);
  }

  lemma OneStep(s: State, a: Action, run: seq<Action>)
    requires Enabled(s, a) && Possible(Next(s, a), run)
    ensures Possible(s, [a] + run) && After(s, [a] + run) == After(Next(s, a), run)
  {
    hide Enabled, Next;
    assert ([a] + run)[1..] == run;
  }

  /** Without enforcement the limits are only recorded: the mutex is let go between the
      look at the counters and the admission, and the request is admitted anyway. */
  lemma ObservingAdmits(user: User)
    ensures var p := Policy(false, 1, 0, 0);
            var run := [Acquire(0, user, 0, None)]
              + ([Acquire(1, user, 0, None)] + ([Send(1)] + ([Signal(1)] + ([Relock(1, None)] + []))));
            Possible(Initial(p), run) && After(Initial(p), run).active == 2
  {
    var s0 := Initial(Policy(false, 1, 0, 0));
    var s1 := Next(s0, Acquire(0, user, 0, None));
    var s2 := Next(s1, Acquire(1, user, 0, None));
    assert s2.callers[1].Sending? && s2.callers[1].then'.Admit?;
    var s3 := Next(s2, Send(1));
    var s4 := Next(s3, Signal(1));
    var s5 := Next(s4, Relock(1, None));
    assert s5.active == 2;
    OneStep(s4, Relock(1, None), []);
    OneStep(s3, Signal(1), [Relock(1, None)] + []);
    hide Next, Enabled, Possible, After;
    OneStep(s2, Send(1), [Signal(1)] + ([Relock(1, None)] + []));
    OneStep(s1, Acquire(1, user, 0, None), [Send(1)] + ([Signal(1)] + ([Relock(1, None)] + [])));
    OneStep(s0, Acquire(0, user, 0, None),
      [Acquire(1, user, 0, None)] + ([Send(1)] + ([Signal(1)] + ([Relock(1, None)] + []))));
  }

  // ---------------------------------------------------------------------- the events

  /** Nothing is lost, repeated or reordered between the channel and the sink. */
  ghost predicate InOrder(s: State) {
    s.enqueued == s.accepted + s.pending + s.channel && |s.channel| <= CHANNEL && |s.pending| <= BATCH
  }

  ghost predicate SomeoneSignals(s: State) {
    exists t :: t in s.callers && s.callers[t].Signalling?
  }

  /** The auditor has been told of events, or is about to be. */
  ghost predicate Told(s: State) {
    s.wake || SomeoneSignals(s)
  }

  /** Who flushes, and that a batch on its way to the sink is not empty. */
  ghost predicate Locked(s: State) {
    && (!s.flush.Idle? ==> (s.flush.auditor <==> s.auditor == Flushing))
    && (s.flush.Idle? ==> s.auditor != Flushing)
    && (s.flush.Writing? ==> s.pending != [])
  }

  /** The auditor sleeps while events wait, and nobody will wake it. */
  ghost predicate Lost(s: State) {
    s.auditor == Parked && (s.channel != [] || s.pending != []) && !Told(s)
  }

  /** The auditor has flushed and will go to sleep as soon as it has looked, although
      events wait and nobody will wake it. */
  ghost predicate Doomed(s: State) {
    s.auditor == Checking && s.flush == Idle && s.pending == [] && s.channel != [] && !Told(s)
  }

  ghost predicate Attentive(s: State) {
    !Lost(s) && !Doomed(s)
  }

  /** A flush from outside ends by its context, just before the auditor looks, and leaves
      events that nobody has announced. */
  ghost predicate Fatal(s: State, a: Action) {
    a == FlushExpires && s.flush == Draining(false) && s.auditor == Checking && s.channel != [] && !Told(s)
  }

  /** Only sending, receiving and the sink move the events. */
  lemma OthersKeepEvents(s: State, a: Action)
    requires Enabled(s, a) && !a.Send? && !a.Receive? && !a.SinkAccepts?
    ensures var t := Next(s, a);
            t.enqueued == s.enqueued && t.accepted == s.accepted && t.pending == s.pending && t.channel == s.channel
  {
    hide Recorded, Gone, Admitted, Decided, Released;
  }

  lemma NextKeepsOrder(s: State, a: Action)
    requires InOrder(s) && Enabled(s, a)
    ensures InOrder(Next(s, a))
  {
    match a
    case Send(t) =>
      assert s.accepted + s.pending + s.channel + [s.callers[t].event]
          == s.accepted + s.pending + (s.channel + [s.callers[t].event]);
    case Receive =>
      assert s.channel == [s.channel[0]] + s.channel[1..];
      assert s.accepted + s.pending + s.channel == s.accepted + (s.pending + [s.channel[0]]) + s.channel[1..];
    case SinkAccepts =>
      assert s.accepted + s.pending + s.channel == (s.accepted + s.pending) + [] + s.channel;
    case _ =>
      OthersKeepEvents(s, a);
      hide Next;
  }

  lemma StillTold(s: State, a: Action)
    requires Told(s) && Enabled(s, a) && !a.TakeWake?
    ensures Told(Next(s, a))
  {
    hide Recorded, Gone, Admitted, Decided, Released;
    var s' := Next(s, a);
    if a.Send? {
      assert s'.callers[a.caller].Signalling?;
    } else if SomeoneSignals(s) && !a.Signal? {
      var t :| t in s.callers && s.callers[t].Signalling?;
      assert t in s'.callers && s'.callers[t].Signalling?;
    }
  }

  lemma NextKeepsLocked(s: State, a: Action)
    requires Locked(s) && Enabled(s, a)
    ensures Locked(Next(s, a))
  {
    hide Recorded, Gone, Admitted, Decided, Released;
  }

  /** From an attentive state, exactly a fatal step dooms the auditor, and no step loses a
      wakeup at once. */
  lemma ExactlyFatalStepsDoom(s: State, a: Action)
    requires Locked(s) && Attentive(s) && InOrder(s) && Enabled(s, a)
    ensures Doomed(Next(s, a)) <==> Fatal(s, a)
    ensures !Lost(Next(s, a))
  {
    hide Recorded, Gone, Admitted, Decided, Released, SomeoneSignals, InOrder;
    if Told(s) && !a.TakeWake? {
      StillTold(s, a);
    }
    if a.Send? {
      SendTells(s, a.caller);
    }
    if a == FlushExpires {
      assert Told(Next(s, a)) <==> Told(s) by { SameCallersTell(s, Next(s, a)); }
    }
  }

  lemma SameCallersTell(s: State, t: State)
    requires t.callers == s.callers && t.wake == s.wake
    ensures Told(t) <==> Told(s)
  {
  }

  /** And then the next look at the batch loses it. */
  lemma DoomedIsLost(s: State)
    requires Doomed(s)
    ensures Enabled(s, Check) && Lost(Next(s, Check))
  {
    SameCallersTell(s, Next(s, Check));
  }

  lemma SendTells(s: State, t: nat)
    requires Enabled(s, Send(t))
    ensures Told(Next(s, Send(t)))
  {
    assert Next(s, Send(t)).callers[t].Signalling?;
  }

  ghost predicate AlwaysAttentive(s: State, run: seq<Action>)
    requires Possible(s, run)
    decreases |run|
  {
    Attentive(s) && (run == [] || AlwaysAttentive(Next(s, run[0]), run[1..]))
  }

  ghost predicate NothingFatal(s: State, run: seq<Action>)
    requires Possible(s, run)
    decreases |run|
  {
    run == [] || (!Fatal(s, run[0]) && NothingFatal(Next(s, run[0]), run[1..]))
  }

  /** In every interleaving the events the sink took, the batch it has not taken yet and
      the channel are the recorded events in order. */
  lemma {:induction false} EventsKeepOrder(s: State, run: seq<Action>)
    requires InOrder(s) && Locked(s) && Possible(s, run)
    ensures InOrder(After(s, run)) && Locked(After(s, run))
    decreases |run|
  {
    hide InOrder, Locked, Next, Enabled;
    if run == [] {
    } else {
      NextKeepsOrder(s, run[0]);
      NextKeepsLocked(s, run[0]);
      EventsKeepOrder(Next(s, run[0]), run[1..]);
    }
  }

  /** In every interleaving: the auditor never sleeps, and is never about to sleep, on
      events that nobody will wake it for, if and only if no step is fatal. */
  lemma {:induction false} NoWakeupIsLostExactly(s: State, run: seq<Action>)
    requires InOrder(s) && Locked(s) && Attentive(s) && Possible(s, run)
    ensures AlwaysAttentive(s, run) <==> NothingFatal(s, run)
    decreases |run|
  {
    hide InOrder, Locked, Next, Enabled, Lost, Doomed, Fatal;
    if run == [] {
    } else {
      NextKeepsOrder(s, run[0]);
      NextKeepsLocked(s, run[0]);
      ExactlyFatalStepsDoom(s, run[0]);
      if !Fatal(s, run[0]) {
        NoWakeupIsLostExactly(Next(s, run[0]), run[1..]);
      }
    }
  }

  /** What every step keeps: the counters, the limits of an enforcing policy, the order of
      the events. */
  ghost predicate Keeps(s: State, t: State) {
    && (Counted(s) ==> Counted(t))
    && (InOrder(s) && Locked(s) ==> InOrder(t) && Locked(t))
    && (forall p: Policy | p.enforce && p.global > 0 && p.perUser > 0 && Counted(s) && Enforced(s, p)
       && WithinLimits(s, p) ::
          Enforced(t, p) && WithinLimits(t, p))
  }

  lemma StepKeeps(s: State, a: Action)
    requires Enabled(s, a) && !a.SetPolicy?
    ensures Keeps(s, Next(s, a))
  {
    hide Counted, InOrder, Locked, Enforced, WithinLimits, Next, Enabled;
    if Counted(s) {
      NextKeepsCounts(s, a);
    }
    if InOrder(s) && Locked(s) {
      NextKeepsOrder(s, a);
      NextKeepsLocked(s, a);
    }
    forall p: Policy | p.enforce && p.global > 0 && p.perUser > 0 && Counted(s) && Enforced(s, p) && WithinLimits(s, p)
      ensures Enforced(Next(s, a), p) && WithinLimits(Next(s, a), p)
    {
      NextKeepsLimits(s, a, p);
    }
  }

  lemma FreshIsAttentive(p: Policy)
    ensures InOrder(Initial(p)) && Locked(Initial(p)) && Attentive(Initial(p))
  {
  }

  /** From the start of the controller: the events stay in order, and wakeups are lost exactly
      in runs with a fatal step. */
  lemma EventsFromStart(p: Policy, run: seq<Action>)
    requires Possible(Initial(p), run)
    ensures InOrder(After(Initial(p), run))
    ensures |After(Initial(p), run).channel| <= 256 && |After(Initial(p), run).pending| <= 64
    ensures AlwaysAttentive(Initial(p), run) <==> NothingFatal(Initial(p), run)
  {
    hide Possible, After, Initial, Locked, Attentive;
    FreshIsAttentive(p);
    EventsKeepOrder(Initial(p), run);
    NoWakeupIsLostExactly(Initial(p), run);
  }

  lemma {:induction false} RunsJoin(s: State, first: seq<Action>, then': seq<Action>)
    requires Possible(s, first) && Possible(After(s, first), then')
    ensures Possible(s, first + then') && After(s, first + then') == After(After(s, first), then')
    decreases |first|
  {
    hide Enabled, Next;
    if first == [] {
      assert first + then' == then';
    } else {
      assert (first + then')[1..] == first[1..] + then';
      RunsJoin(Next(s, first[0]), first[1..], then');
    }
  }

  function Events(n: nat): seq<Event> {
    seq(n, i => Event("", "reason", true, 0))
  }

  /** After `n` events were recorded one by one, before the auditor wakes. */
  function Filled(p: Policy, n: nat): State {
    Initial(p).(observed := n, channel := Events(n), enqueued := Events(n), wake := n > 0)
  }

  lemma RecordOne(p: Policy, n: nat) returns (run: seq<Action>)
    requires !p.enforce && n < CHANNEL
    ensures Possible(Filled(p, n), run) && After(Filled(p, n), run) == Filled(p, n + 1)
  {
    var s0 := Filled(p, n);
    var s1 := Next(s0, Record(0, "", "reason"));
    var s2 := Next(s1, Send(0));
    var s3 := Next(s2, Signal(0));
    var s4 := Next(s3, Relock(0, None));
    assert s4.callers == map[] && Events(n) + [Event("", "reason", true, 0)] == Events(n + 1);
    assert s4 == Filled(p, n + 1);
    run := [Relock(0, None)] + [];
    OneStep(s3, Relock(0, None), []);
    hide Next, Enabled, Possible, After;
    OneStep(s2, Signal(0), run);
    run := [Signal(0)] + run;
    OneStep(s1, Send(0), run);
    run := [Send(0)] + run;
    OneStep(s0, Record(0, "", "reason"), run);
    run := [Record(0, "", "reason")] + run;
  }

  lemma {:induction false} RecordMany(p: Policy, n: nat) returns (run: seq<Action>)
    requires !p.enforce && n <= CHANNEL
    ensures Possible(Initial(p), run) && After(Initial(p), run) == Filled(p, n)
    decreases n
  {
    hide Enabled, Next;
    run := [];
    if n == 0 {
      assert Events(0) == [];
    } else {
      run := RecordMany(p, n - 1);
      var more := RecordOne(p, n - 1);
      RunsJoin(Initial(p), run, more);
      run := run + more;
    }
  }

  lemma {:induction false} ReceiveMany(s: State, n: nat) returns (run: seq<Action>)
    requires s.flush.Draining? && n <= |s.channel| && |s.pending| + n <= BATCH
    ensures Possible(s, run) && After(s, run) == s.(pending := s.pending + s.channel[..n], channel := s.channel[n..])
    decreases n
  {
    run := [];
    if n == 0 {
      assert s.pending + s.channel[..0] == s.pending;
    } else {
      var s' := s.(pending := s.pending + [s.channel[0]], channel := s.channel[1..]);
      assert Enabled(s, Receive) && Next(s, Receive) == s';
      hide Enabled, Next, Possible, After;
      var rest := ReceiveMany(s', n - 1);
      run := [Receive] + rest;
      OneStep(s, Receive, rest);
      assert s.pending + [s.channel[0]] + s.channel[1..][..n - 1] == s.pending + s.channel[..n];
      assert s.channel[1..][n - 1..] == s.channel[n..];
    }
  }

  lemma BatchFails(s: State) returns (run: seq<Action>)
    requires s.flush == Draining(true) && |s.pending| == BATCH
    ensures Possible(s, run) && After(s, run) == s.(flush := Idle, auditor := Checking)
  {
    var t := Next(s, Drained);
    assert Next(t, SinkFails) == s.(flush := Idle, auditor := Checking);
    OneStep(t, SinkFails, []);
    hide Possible, After, Next;
    run := [SinkFails] + [];
    OneStep(s, Drained, run);
    run := [Drained] + run;
  }

  lemma OutsideDelivers(s: State) returns (run: seq<Action>)
    requires s.flush == Idle && s.auditor == Checking && s.pending != [] && s.channel != []
    ensures Possible(s, run)
    ensures After(s, run) == s.(accepted := s.accepted + s.pending, pending := [], auditor := Parked)
  {
    var t1 := s.(flush := Writing(false));
    var t2 := s.(accepted := s.accepted + s.pending, pending := [], flush := Draining(false));
    var t3 := t2.(flush := Idle);
    assert Next(s, LockFlush(false)) == t1 && Next(t1, SinkAccepts) == t2 && Next(t2, FlushExpires) == t3;
    assert Next(t3, Check) == t3.(auditor := Parked);
    OneStep(t3, Check, []);
    hide Possible, After, Next;
    run := [Check] + [];
    OneStep(t2, FlushExpires, run);
    run := [FlushExpires] + run;
    OneStep(t1, SinkAccepts, run);
    run := [SinkAccepts] + run;
    OneStep(s, LockFlush(false), run);
    run := [LockFlush(false)] + run;
  }

  /** The exception is real: sixty-five events, the auditor's batch of sixty-four fails,
      a flush from outside delivers that batch and expires, and the auditor parks with an
      event in the channel and nobody left to wake it. */
  lemma ExpiredFlushLosesWakeup() returns (run: seq<Action>)
    ensures var s := Initial(Policy(false, 0, 0, 0));
            Possible(s, run) && var t := After(s, run);
            Lost(t) && t.channel != [] && t.callers == map[] && t.flush == Idle
  {
    var p := Policy(false, 0, 0, 0);
    run := RecordMany(p, 65);
    var s0 := Filled(p, 65);
    var s1 := Next(s0, TakeWake);
    var s2 := Next(s1, LockFlush(true));
    var receive := ReceiveMany(s2, 64);
    var s3 := After(s2, receive);
    assert |s3.pending| == 64 && |s3.channel| == 1;
    hide Possible, After, Filled;
    var tail := BatchFails(s3);
    var delivered := OutsideDelivers(s3.(flush := Idle, auditor := Checking));
    RunsJoin(s3, tail, delivered);
    tail := tail + delivered;
    RunsJoin(s2, receive, tail);
    tail := receive + tail;
    OneStep(s1, LockFlush(true), tail);
    tail := [LockFlush(true)] + tail;
    OneStep(s0, TakeWake, tail);
    tail := [TakeWake] + tail;
    RunsJoin(Initial(p), run, tail);
    run := run + tail;
  }
}

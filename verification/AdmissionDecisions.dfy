/** What the admission controller decides, told by the leases that are out: who is let in,
    who is refused and with which reason, what a lease gives back, and what becomes of the
    events (internal/resourcecontrol/controller.go:154-319). */
module AdmissionDecisions {
  import opened AdmissionControl
  import opened Wrappers
  import Monitor = ResourceMonitor
  
  /** A reason to refuse, and whether it applies. */
  datatype Cause = Cause(applies: bool, reason: string)

  /** The reasons in the order of the source, on the leases themselves: how many hold a
      model, how many of them are this user's, how many are in progress. */
  function Causes(s: State, p: Policy, user: User, pressure: Option<string>): seq<Cause> {
    [ Cause(p.global > 0 && Held(s.leases, None) >= p.global, "global_concurrency"),
      Cause(p.perUser > 0 && Held(s.leases, Some(user)) >= p.perUser, "user_concurrency"),
      Cause(p.global > 0 && InProgress(s.leases) >= p.global + 4, "capture_backlog"),
      Cause(pressure.Some?, if pressure.Some? then pressure.value else "") ]
  }

  function BodyCause(p: Policy, contentLength: int): Cause {
    Cause(p.bodyMiB > 0 && contentLength > p.bodyMiB * 1_048_576, "request_too_large")
  }

  predicate NoneApplies(causes: seq<Cause>) {
    forall k | 0 <= k < |causes| :: !causes[k].applies
  }

  /** The reason of the first cause that applies. */
  ghost predicate FirstReason(causes: seq<Cause>, reason: string) {
    exists k | 0 <= k < |causes| ::
      causes[k].applies && causes[k].reason == reason && forall j | 0 <= j < k :: !causes[j].applies
  }

  /** One lease more, for this user under this policy; the caller is gone. */
  ghost predicate LetIn(s: State, r: State, t: nat, p: Policy, user: User) {
    && r.leases == s.leases + [Lease(user, p, false, Open)]
    && r.active == s.active + 1 && r.processing == s.processing + 1
    && (forall u: User :: Count(r.users, u) == Count(s.users, u) + if u == user then 1 else 0)
    && r.callers == s.callers - {t} && r.rejected == s.rejected && r.observed == s.observed
    && r.policy == s.policy && SameEvents(s, r)
  }

  /** No lease and no counter of leases changes; the caller is about to send this event. */
  ghost predicate Reports(s: State, r: State, t: nat, e: Event, next: Then) {
    && SameCounts(s, r) && r.callers == s.callers[t := Sending(e, next)]
    && r.rejected + r.observed == s.rejected + s.observed + 1
    && (if e.observed then r.rejected == s.rejected else r.observed == s.observed)
    && r.policy == s.policy && SameEvents(s, r)
  }

  lemma CountsAreHeld(s: State, user: User)
    requires Counted(s)
    ensures s.active == Held(s.leases, None) && s.processing == InProgress(s.leases)
    ensures Count(s.users, user) == Held(s.leases, Some(user))
  {
  }

  lemma DecidedExactly(s: State, t: nat, p: Policy, user: User, pressure: Option<string>)
    requires Counted(s)
    ensures var r, causes := Decided(s, t, p, user, pressure), Causes(s, p, user, pressure);
            if NoneApplies(causes) then LetIn(s, r, t, p, user)
            else exists reason :: FirstReason(causes, reason)
                   && Reports(s, r, t, Event(user, reason, !p.enforce, 0), if p.enforce then Return else Admit(p, user))
  {
    CountsAreHeld(s, user);
    hide Held, InProgress, Counted;
    if Reason(s, p, user, pressure).Some? {
      RefusedExactly(s, t, p, user, pressure);
    }
  }

  lemma RefusedExactly(s: State, t: nat, p: Policy, user: User, pressure: Option<string>)
    requires s.active == Held(s.leases, None) && s.processing == InProgress(s.leases)
    requires Count(s.users, user) == Held(s.leases, Some(user)) && Reason(s, p, user, pressure).Some?
    ensures var reason := Reason(s, p, user, pressure).value;
            && FirstReason(Causes(s, p, user, pressure), reason)
            && Reports(s, Decided(s, t, p, user, pressure), t, Event(user, reason, !p.enforce, 0),
                       if p.enforce then Return else Admit(p, user))
  {
    hide Held, InProgress;
    var causes := Causes(s, p, user, pressure);
    var reason := Reason(s, p, user, pressure).value;
    var k := if causes[0].applies then 0 else if causes[1].applies then 1 else if causes[2].applies then 2 else 3;
    assert causes[k].applies && causes[k].reason == reason;
  }

  /** Let in, or else refused with the first reason. */
  ghost predicate Decides(s: State, r: State, t: nat, user: User, contentLength: int, pressure: Option<string>) {
    var causes := [BodyCause(s.policy, contentLength)] + Causes(s, s.policy, user, pressure);
    if NoneApplies(causes) then LetIn(s, r, t, s.policy, user)
    else exists reason :: FirstReason(causes, reason) && Reports(s, r, t, Event(user, reason, false, 0), Return)
  }

  /** Under an enforcing policy a request is let in if and only if its body fits, there is
      room for one more model, for one more of this user and for one more in progress, and
      the monitor has nothing against it.  Otherwise no lease and no counter of leases
      changes, and the caller sends one event with the first reason that applies, counted
      as a refusal. */
  lemma EnforcedAcquireExactly(s: State, t: nat, user: User, contentLength: int, pressure: Option<string>)
    requires Counted(s) && t !in s.callers && s.policy.enforce
    ensures Decides(s, Next(s, Acquire(t, user, contentLength, pressure)), t, user, contentLength, pressure)
  {
    var body, rest := BodyCause(s.policy, contentLength), Causes(s, s.policy, user, pressure);
    var causes := [body] + rest;
    if body.applies {
      assert causes[0].applies && FirstReason(causes, "request_too_large");
    } else {
      DecidedExactly(s, t, s.policy, user, pressure);
      hide Held, InProgress, Counted, Decided, Causes;
      assert forall k | 0 <= k < |rest| :: causes[k + 1] == rest[k];
      if NoneApplies(rest) {
        assert NoneApplies(causes);
      } else {
        LaterReasons(body, rest);
      }
    }
  }

  lemma LaterReasons(first: Cause, rest: seq<Cause>)
    requires !first.applies
    ensures forall reason :: FirstReason(rest, reason) ==> FirstReason([first] + rest, reason)
    ensures NoneApplies([first] + rest) <==> NoneApplies(rest)
  {
    var causes := [first] + rest;
    forall reason | FirstReason(rest, reason)
      ensures FirstReason(causes, reason)
    {
      var k :| && 0 <= k < |rest| && rest[k].applies && rest[k].reason == reason
               && forall j | 0 <= j < k :: !rest[j].applies;
      assert causes[k + 1] == rest[k];
      assert forall j | 0 <= j < k + 1 :: !causes[j].applies;
    }
    assert forall k | 0 <= k < |rest| :: causes[k + 1] == rest[k];
  }

  /** Under an observing policy nobody is refused: a body that is too large is reported
      first, and the request goes on to the other reasons. */
  lemma ObservedAcquireExactly(s: State, t: nat, user: User, contentLength: int, pressure: Option<string>)
    requires Counted(s) && t !in s.callers && !s.policy.enforce
    ensures var r := Next(s, Acquire(t, user, contentLength, pressure));
            var causes := Causes(s, s.policy, user, pressure);
            if BodyCause(s.policy, contentLength).applies then
              Reports(s, r, t, Event(user, "request_too_large", true, 0), Decide(s.policy, user))
            else if NoneApplies(causes) then LetIn(s, r, t, s.policy, user)
            else exists reason :: FirstReason(causes, reason)
                   && Reports(s, r, t, Event(user, reason, true, 0), Admit(s.policy, user))
  {
    DecidedExactly(s, t, s.policy, user, pressure);
    hide Held, InProgress, Counted, Decided, Causes, FirstReason, LetIn;
  }

  /** A caller that comes back goes on where it stopped: nothing more, the other reasons, or
      the admission itself, under the policy it began with. */
  lemma ResumesExactly(s: State, t: nat, pressure: Option<string>)
    requires Counted(s) && Enabled(s, Relock(t, pressure))
    ensures var r := Next(s, Relock(t, pressure));
            match s.callers[t].then'
            case Return => r == s.(callers := s.callers - {t})
            case Admit(p, user) => LetIn(s, r, t, p, user)
            case Decide(p, user) =>
              var causes := Causes(s, p, user, pressure);
              if NoneApplies(causes) then LetIn(s, r, t, p, user)
              else exists reason :: FirstReason(causes, reason)
                     && Reports(s, r, t, Event(user, reason, !p.enforce, 0),
                                if p.enforce then Return else Admit(p, user))
  {
    var next := s.callers[t].then';
    if next.Decide? {
      DecidedExactly(s, t, next.policy, next.user, pressure);
    }
    hide Held, InProgress, Counted, Decided, Causes, FirstReason;
  }

  // ------------------------------------------------------------------------ leases

  /** A lease gives its model back once, and its place in progress once. */
  lemma LeaseEnds(s: State, id: nat)
    requires Counted(s) && id < |s.leases|
    ensures var l, r := s.leases[id], Next(s, ModelDone(id));
            && r.leases == s.leases[id := l.(modelDone := true)]
            && r.active == s.active - (if l.modelDone then 0 else 1) && r.processing == s.processing
            && (forall u: User ::
                  Count(r.users, u) == Count(s.users, u) - if u == l.user && !l.modelDone then 1 else 0)
    ensures Enabled(s, BeginFinish(id)) ==>
              var l, r := s.leases[id], Next(s, BeginFinish(id));
              && r.leases == s.leases[id := l.(modelDone := true, finish := Finishing)]
              && r.active == Next(s, ModelDone(id)).active && r.users == Next(s, ModelDone(id)).users
              && r.processing == s.processing && !Enabled(r, BeginFinish(id)) && Enabled(r, EndFinish(id))
    ensures Enabled(s, EndFinish(id)) ==>
              var l, r := s.leases[id], Next(s, EndFinish(id));
              && r.leases == s.leases[id := l.(finish := Finished)] && r.processing == s.processing - 1
              && r.active == s.active && r.users == s.users && !Enabled(r, EndFinish(id))
  {
    ReleasedKeepsCounts(s, id);
    hide Held, InProgress;
  }

  lemma {:induction false} FinishedHoldNothing(leases: seq<Lease>, user: Option<User>)
    requires forall i | 0 <= i < |leases| :: leases[i].finish == Finished && leases[i].modelDone
    ensures Held(leases, user) == 0 && InProgress(leases) == 0
    decreases |leases|
  {
    if leases == [] {
    } else {
      FinishedHoldNothing(leases[1..], user);
    }
  }

  /** Once every lease has finished nothing is left of them, in whatever order they did. */
  lemma AllFinishedIsEmpty(p: Policy, run: seq<Action>)
    requires Possible(Initial(p), run)
    requires var leases := After(Initial(p), run).leases;
             forall i | 0 <= i < |leases| :: leases[i].finish == Finished
    ensures var t := After(Initial(p), run); t.active == 0 && t.processing == 0 && t.users == map[]
  {
    FreshIsFine(p);
    RunKeepsCounts(Initial(p), run);
    var t := After(Initial(p), run);
    FinishedHoldNothing(t.leases, None);
    hide Possible, After, Held;
    if u: User :| u in t.users {
      FinishedHoldNothing(t.leases, Some(u));
    }
  }

  lemma {:induction false} RunKeepsCounts(s: State, run: seq<Action>)
    requires Counted(s) && Possible(s, run)
    ensures Counted(After(s, run))
    decreases |run|
  {
    hide Counted, Next, Enabled;
    if run == [] {
    } else {
      NextKeepsCounts(s, run[0]);
      RunKeepsCounts(Next(s, run[0]), run[1..]);
    }
  }

  /** The leases of one state as they go on: none disappears, none changes hands or policy,
      and what one has given back it does not take again. */
  ghost predicate GoOn(before: seq<Lease>, after: seq<Lease>) {
    && |before| <= |after|
    && forall i | 0 <= i < |before| ::
      && after[i].user == before[i].user && after[i].policy == before[i].policy
      && (before[i].modelDone ==> after[i].modelDone)
      && (before[i].finish == Finished ==> after[i].finish == Finished)
  }

  lemma NextGoesOn(s: State, a: Action)
    requires Enabled(s, a)
    ensures GoOn(s.leases, Next(s, a).leases)
  {
    hide Reason, Count;
    if !a.Acquire? && !a.Relock? && !a.ModelDone? && !a.BeginFinish? && !a.EndFinish? {
      OthersKeepCounts(s, a);
      hide Next;
    }
  }

  lemma {:induction false} LeasesGoOn(s: State, run: seq<Action>)
    requires Possible(s, run)
    ensures GoOn(s.leases, After(s, run).leases)
    decreases |run|
  {
    if run == [] {
    } else {
      hide Next, Enabled;
      NextGoesOn(s, run[0]);
      LeasesGoOn(Next(s, run[0]), run[1..]);
    }
  }

  /** However the policy changed since, what a lease records carries its own user and is a
      refusal exactly if the policy it was let in under enforces. */
  lemma LeaseRecordsItsOwn(s: State, run: seq<Action>, id: nat, t: nat, reason: string, status: int)
    requires id < |s.leases| && Possible(s, run) && t !in After(s, run).callers
    ensures var r := After(s, run);
            && Enabled(r, RecordStatus(t, id, reason, status))
            && Reports(r, Next(r, RecordStatus(t, id, reason, status)), t,
                       Event(s.leases[id].user, reason, !s.leases[id].policy.enforce, status), Return)
  {
    LeasesGoOn(s, run);
    hide Possible, After;
  }

  // ------------------------------------------------------------------------ events

  /** The callers that have counted an event of this kind and not sent it yet. */
  function Unsent(callers: map<nat, Caller>, observed: bool): set<nat> {
    set t | t in callers && callers[t].Sending? && callers[t].event.observed == observed
  }

  function Tally(events: seq<Event>, observed: bool): nat {
    if events == [] then 0
    else Tally(events[..|events| - 1], observed) + if events[|events| - 1].observed == observed then 1 else 0
  }

  lemma TallyMore(events: seq<Event>, e: Event, observed: bool)
    ensures Tally(events + [e], observed) == Tally(events, observed) + if e.observed == observed then 1 else 0
  {
    assert (events + [e])[..|events|] == events;
  }

  lemma UnsentStarts(callers: map<nat, Caller>, t: nat, e: Event, next: Then, observed: bool)
    requires t in callers ==> !callers[t].Sending?
    ensures |Unsent(callers[t := Sending(e, next)], observed)|
         == |Unsent(callers, observed)| + if e.observed == observed then 1 else 0
  {
    UnsentSet(callers, t, e, next, observed);
    hide Unsent;
  }

  lemma UnsentSet(callers: map<nat, Caller>, t: nat, e: Event, next: Then, observed: bool)
    requires t in callers ==> !callers[t].Sending?
    ensures t !in Unsent(callers, observed)
    ensures Unsent(callers[t := Sending(e, next)], observed)
         == Unsent(callers, observed) + if e.observed == observed then {t} else {}
  {
  }

  lemma UnsentEnds(callers: map<nat, Caller>, t: nat, next: Then, observed: bool)
    requires t in callers && callers[t].Sending?
    ensures |Unsent(callers[t := Signalling(next)], observed)|
         == |Unsent(callers, observed)| - if callers[t].event.observed == observed then 1 else 0
  {
    var after := Unsent(callers[t := Signalling(next)], observed);
    if callers[t].event.observed == observed {
      assert Unsent(callers, observed) == after + {t};
    } else {
      assert after == Unsent(callers, observed);
    }
  }

  lemma UnsentStays(callers: map<nat, Caller>, after: map<nat, Caller>, t: nat, observed: bool)
    requires t in callers ==> !callers[t].Sending?
    requires t in after ==> !after[t].Sending?
    requires forall u | u != t :: (u in after <==> u in callers) && (u in callers ==> after[u] == callers[u])
    ensures Unsent(after, observed) == Unsent(callers, observed)
  {
  }

  /** Each counter is the number of events of its kind: those that were sent and those that
      wait for room. */
  ghost predicate Tallied(s: State) {
    && s.rejected == Tally(s.enqueued, false) + |Unsent(s.callers, false)|
    && s.observed == Tally(s.enqueued, true) + |Unsent(s.callers, true)|
  }

  lemma RecordedTallies(s: State, t: nat, e: Event, next: Then)
    requires Tallied(s) && (t in s.callers ==> !s.callers[t].Sending?)
    ensures Tallied(Recorded(s, t, e, next))
  {
    UnsentStarts(s.callers, t, e, next, false);
    UnsentStarts(s.callers, t, e, next, true);
    hide Unsent, Tally;
  }

  lemma SentTallies(s: State, t: nat)
    requires Tallied(s) && Enabled(s, Send(t))
    ensures Tallied(Next(s, Send(t)))
  {
    var c := s.callers[t];
    UnsentEnds(s.callers, t, c.then', false);
    UnsentEnds(s.callers, t, c.then', true);
    TallyMore(s.enqueued, c.event, false);
    TallyMore(s.enqueued, c.event, true);
    hide Unsent, Tally;
  }

  lemma StaysTallied(s: State, r: State, t: nat)
    requires Tallied(s) && r.enqueued == s.enqueued && r.rejected == s.rejected && r.observed == s.observed
    requires (t in s.callers ==> !s.callers[t].Sending?) && (t in r.callers ==> !r.callers[t].Sending?)
    requires forall u | u != t ::
               (u in r.callers <==> u in s.callers) && (u in s.callers ==> r.callers[u] == s.callers[u])
    ensures Tallied(r)
  {
    UnsentStays(s.callers, r.callers, t, false);
    UnsentStays(s.callers, r.callers, t, true);
    hide Unsent, Tally;
  }

  lemma DecidedTallies(s: State, t: nat, p: Policy, user: User, pressure: Option<string>)
    requires Tallied(s) && (t in s.callers ==> !s.callers[t].Sending?)
    ensures Tallied(Decided(s, t, p, user, pressure))
  {
    var reason := Reason(s, p, user, pressure);
    if reason.None? {
      StaysTallied(s, Decided(s, t, p, user, pressure), t);
    } else {
      RecordedTallies(s, t, Event(user, reason.value, !p.enforce, 0), if p.enforce then Return else Admit(p, user));
    }
    hide Tallied, Reason, Unsent, Tally;
  }

  lemma NextTallies(s: State, a: Action)
    requires Tallied(s) && Enabled(s, a)
    ensures Tallied(Next(s, a))
  {
    hide Unsent, Tally, Decided, Admitted;
    match a
    case Acquire(t, user, contentLength, pressure) =>
      DecidedTallies(s, t, s.policy, user, pressure);
      RecordedTallies(s, t, Event(user, "request_too_large", !s.policy.enforce, 0),
        if s.policy.enforce then Return else Decide(s.policy, user));
      hide Tallied;
    case Send(t) => SentTallies(s, t);
    case Relock(t, pressure) => RelockTallies(s, t, pressure);
    case Record(t, user, reason) =>
      RecordedTallies(s, t, Event(user, reason, !s.policy.enforce, 0), Return);
      hide Tallied;
    case RecordStatus(t, id, reason, status) =>
      RecordedTallies(s, t, Event(s.leases[id].user, reason, !s.leases[id].policy.enforce, status), Return);
      hide Tallied;
    case Signal(t) => StaysTallied(s, Next(s, a), t);
    case _ =>
  }

  lemma RelockTallies(s: State, t: nat, pressure: Option<string>)
    requires Tallied(s) && Enabled(s, Relock(t, pressure))
    ensures Tallied(Next(s, Relock(t, pressure)))
  {
    hide Unsent, Tally, Decided;
    var next := s.callers[t].then';
    if next.Decide? {
      DecidedTallies(s, t, next.policy, next.user, pressure);
      hide Tallied;
    } else {
      StaysTallied(s, Next(s, Relock(t, pressure)), t);
    }
  }

  /** In every interleaving: the number of refusals shown is the number of refusals sent to
      the auditor and about to be, and the same for what is only observed. */
  lemma {:induction false} EveryRecordIsCounted(s: State, run: seq<Action>)
    requires Tallied(s) && Possible(s, run)
    ensures Tallied(After(s, run))
    decreases |run|
  {
    hide Tallied, Next, Enabled;
    if run == [] {
    } else {
      NextTallies(s, run[0]);
      EveryRecordIsCounted(Next(s, run[0]), run[1..]);
    }
  }

  /** From the start of the controller, and once everything is delivered: the counters are
      the numbers of refusals and observations that the sink took. */
  lemma DeliveredAreCounted(p: Policy, run: seq<Action>)
    requires Possible(Initial(p), run)
    ensures Tallied(After(Initial(p), run))
    ensures var t := After(Initial(p), run);
            t.callers == map[] && t.channel == [] && t.pending == [] ==>
              t.rejected == Tally(t.accepted, false) && t.observed == Tally(t.accepted, true)
  {
    NothingUnsent(false);
    NothingUnsent(true);
    FreshIsAttentive(p);
    EveryRecordIsCounted(Initial(p), run);
    EventsKeepOrder(Initial(p), run);
    hide Possible, After, Unsent, Tally;
    var t := After(Initial(p), run);
    if t.channel == [] && t.pending == [] {
      assert t.accepted + t.pending + t.channel == t.accepted;
    }
  }

  lemma NothingUnsent(observed: bool)
    ensures Unsent(map[], observed) == {}
  {
  }

  // ----------------------------------------------------------- decisions under load

  /** Under an enforcing policy, and with room for one more, a request is let in exactly while
      the last reading can be relied on and is under the memory limit, and no pause is on.
      A reading that is ten seconds old or comes from a host without a name never lets one in. */
  lemma LoadDecides(
    s: State, t: nat, user: User, contentLength: int, l: Monitor.Limits, m: Monitor.Monitor, now: int)
    requires Counted(s) && t !in s.callers && s.policy.enforce
    ensures var r := Next(s, Acquire(t, user, contentLength, Monitor.Pressure(l, m, now)));
            |r.leases| > |s.leases| <==>
              && !BodyCause(s.policy, contentLength).applies && NoneApplies(Causes(s, s.policy, user, None))
              && (l.cpu > 0.0 || l.memory > 0 ==> Monitor.Fresh(m.metrics, now))
              && (l.memory > 0 ==> Monitor.Used(m.metrics) < l.memory as real)
              && m.paused == Monitor.Running
    ensures Monitor.Fresh(m.metrics, now) ==>
              && m.metrics.healthy && m.metrics.hostID != "" && 0.0 <= m.metrics.available <= m.metrics.total
              && -5 * Monitor.SECOND < now - m.metrics.at < 10 * Monitor.SECOND
  {
    var pressure := Monitor.Pressure(l, m, now);
    EnforcedAcquireExactly(s, t, user, contentLength, pressure);
    OnlyThePressure(s, s.policy, user, pressure);
    PressureMeans(l, m, now);
    hide Next, Counted, Causes, BodyCause, FirstReason, NoneApplies, Monitor.Pressure;
    var body := BodyCause(s.policy, contentLength);
    if body.applies {
      FirstApplies([body] + Causes(s, s.policy, user, pressure));
    } else {
      LaterReasons(body, Causes(s, s.policy, user, pressure));
    }
  }

  lemma FirstApplies(causes: seq<Cause>)
    requires causes != [] && causes[0].applies
    ensures !NoneApplies(causes)
  {
  }

  lemma OnlyThePressure(s: State, p: Policy, user: User, pressure: Option<string>)
    ensures NoneApplies(Causes(s, p, user, pressure)) <==>
            NoneApplies(Causes(s, p, user, None)) && pressure.None?
  {
    var with, without := Causes(s, p, user, pressure), Causes(s, p, user, None);
    assert with[3].applies == pressure.Some? && !without[3].applies;
    assert forall k | 0 <= k < 3 :: with[k] == without[k];
    hide Causes;
  }

  lemma PressureMeans(l: Monitor.Limits, m: Monitor.Monitor, now: int)
    ensures Monitor.Pressure(l, m, now).None? <==>
              && (l.cpu > 0.0 || l.memory > 0 ==> Monitor.Fresh(m.metrics, now))
              && (l.memory > 0 ==> Monitor.Used(m.metrics) < l.memory as real)
              && m.paused == Monitor.Running
  {
  }
}

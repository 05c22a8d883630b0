/** The controller's methods on its own fields.  Each is proved to take exactly the steps
    of `AdmissionControl`; where the source lets go of the mutex, the method ends and its
    caller comes back through another one. */
module AdmissionController {
  import opened AdmissionControl
  import opened AdmissionDecisions
  import opened Wrappers

  class Controller {
    var policy: Policy
    var active: int
    var processing: int
    var users: map<User, int>
    var leases: seq<Lease>
    var rejected: nat
    var observed: nat
    var callers: map<nat, Caller>
    var events: seq<Event>
    var auditWake: bool
    var pendingEvents: seq<Event>
    ghost var auditor: Auditor
    ghost var flush: Flush
    ghost var enqueued: seq<Event>
    ghost var accepted: seq<Event>

    constructor (p: Policy)
      ensures Now() == Initial(p)
    {
      policy, active, processing, users, leases, rejected, observed := p, 0, 0, map[], [], 0, 0;
      callers, events, auditWake, pendingEvents := map[], [], false, [];
      auditor, flush, enqueued, accepted := Parked, Idle, [], [];
    }

    ghost function Now(): State
      reads this
    {
      State(policy, active, processing, users, leases, rejected, observed, callers, events, auditWake, pendingEvents,
            auditor, flush, enqueued, accepted)
    }

    /** Counts an event and lets go of the mutex to send it. */
    method RecordEvent(t: nat, e: Event, next: Then)
      modifies `observed, `rejected, `callers
      ensures Now() == Recorded(old(Now()), t, e, next)
    {
      if e.observed {
        observed := observed + 1;
      } else {
        rejected := rejected + 1;
      }
      callers := callers[t := Sending(e, next)];
    }

    method AdmitRequest(p: Policy, user: User)
      modifies `active, `processing, `users, `leases
      ensures Now() == Admitted(old(Now()), p, user)
    {
      active, processing := active + 1, processing + 1;
      users := users[user := (if user in users then users[user] else 0) + 1];
      leases := leases + [Lease(user, p, false, Open)];
    }

    /** The second half of `AcquireRequest`, from the look at the counters. */
    method DecideRequest(t: nat, p: Policy, user: User, pressure: Option<string>)
      modifies this
      ensures Now() == Decided(old(Now()), t, p, user, pressure)
    {
      var reason: Option<string> := None;
      if p.global > 0 && active >= p.global {
        reason := Some("global_concurrency");
      } else if p.perUser > 0 && (if user in users then users[user] else 0) >= p.perUser {
        reason := Some("user_concurrency");
      } else if p.global > 0 && processing >= p.global + 4 {
        reason := Some("capture_backlog");
      } else if pressure.Some? {
        reason := pressure;
      }
      if reason.Some? {
        RecordEvent(t, Event(user, reason.value, !p.enforce, 0), if p.enforce then Return else Admit(p, user));
        return;
      }
      callers := callers - {t};
      AdmitRequest(p, user);
    }

    method AcquireRequest(t: nat, user: User, contentLength: int, pressure: Option<string>)
      requires t !in callers
      modifies this
      ensures Now() == Next(old(Now()), Acquire(t, user, contentLength, pressure))
      ensures Keeps(old(Now()), Now())
      ensures old(policy.enforce && Counted(Now())) ==>
                Decides(old(Now()), Now(), t, user, contentLength, pressure)
    {
      if policy.enforce && Counted(Now()) {
        EnforcedAcquireExactly(Now(), t, user, contentLength, pressure);
      }
      hide Decides, Counted;
      StepKeeps(Now(), Acquire(t, user, contentLength, pressure));
      var p := policy;
      if p.bodyMiB > 0 && contentLength > p.bodyMiB * MIB {
        RecordEvent(t, Event(user, "request_too_large", !p.enforce, 0), if p.enforce then Return else Decide(p, user));
        return;
      }
      DecideRequest(t, p, user, pressure);
    }

    /** The event goes into the channel once there is room, then the auditor is woken. */
    method SendEvent(t: nat)
      requires Enabled(Now(), Send(t))
      modifies `events, `callers, `enqueued
      ensures Now() == Next(old(Now()), Send(t))
      ensures Keeps(old(Now()), Now())
    {
      StepKeeps(Now(), Send(t));
      var c := callers[t];
      events, callers := events + [c.event], callers[t := Signalling(c.then')];
      enqueued := enqueued + [c.event];
    }

    method SignalAuditor(t: nat)
      requires Enabled(Now(), Signal(t))
      modifies `auditWake, `callers
      ensures Now() == Next(old(Now()), Signal(t))
      ensures Keeps(old(Now()), Now())
    {
      StepKeeps(Now(), Signal(t));
      if !auditWake {
        auditWake := true;
      }
      callers := callers[t := Relocking(callers[t].then')];
    }

    method Resume(t: nat, pressure: Option<string>)
      requires Enabled(Now(), Relock(t, pressure))
      modifies this
      ensures Now() == Next(old(Now()), Relock(t, pressure))
      ensures Keeps(old(Now()), Now())
    {
      StepKeeps(Now(), Relock(t, pressure));
      match callers[t].then' {
        case Return => callers := callers - {t};
        case Decide(p, user) => DecideRequest(t, p, user, pressure);
        case Admit(p, user) =>
          callers := callers - {t};
          AdmitRequest(p, user);
      }
    }

    /** Once only, however often it is called. */
    method ReleaseModel(id: nat)
      requires id < |leases|
      modifies `active, `users, `leases
      ensures Now() == Next(old(Now()), ModelDone(id))
      ensures Keeps(old(Now()), Now())
    {
      StepKeeps(Now(), ModelDone(id));
      var l := leases[id];
      if !l.modelDone {
        active := active - 1;
        users := users[l.user := (if l.user in users then users[l.user] else 0) - 1];
        if users[l.user] == 0 {
          users := users - {l.user};
        }
        leases := leases[id := l.(modelDone := true)];
      }
      assert Now().users == Next(old(Now()), ModelDone(id)).users;
    }

    /** `Finish` releases the model under the mutex, lets go, and takes it again. */
    method StartFinish(id: nat)
      requires Enabled(Now(), BeginFinish(id))
      modifies this
      ensures Now() == Next(old(Now()), BeginFinish(id))
      ensures Keeps(old(Now()), Now())
    {
      StepKeeps(Now(), BeginFinish(id));
      ReleaseModel(id);
      leases := leases[id := leases[id].(finish := Finishing)];
    }

    method CompleteFinish(id: nat)
      requires Enabled(Now(), EndFinish(id))
      modifies `processing, `leases
      ensures Now() == Next(old(Now()), EndFinish(id))
      ensures Keeps(old(Now()), Now())
    {
      StepKeeps(Now(), EndFinish(id));
      processing := processing - 1;
      leases := leases[id := leases[id].(finish := Finished)];
    }

    /** The flush mutex is taken; a batch that the sink refused before comes first. */
    method BeginFlush(outside: bool)
      requires Enabled(Now(), LockFlush(!outside))
      modifies `auditor, `flush
      ensures Now() == Next(old(Now()), LockFlush(!outside))
    {
      auditor := if outside then auditor else Flushing;
      flush := if |pendingEvents| == 0 then Draining(!outside) else Writing(!outside);
    }

    method EndFlush()
      requires flush != Idle
      modifies `auditor, `flush
      ensures Now() == Unlock(old(Now()))
    {
      auditor := if flush.auditor then Checking else auditor;
      flush := Idle;
    }

    method ReceiveEvent()
      requires Enabled(Now(), Receive)
      modifies `events, `pendingEvents
      ensures Now() == Next(old(Now()), Receive)
      ensures pendingEvents + events == old(pendingEvents + events) && |events| == |old(events)| - 1
    {
      assert pendingEvents + events == pendingEvents + [events[0]] + events[1..];
      pendingEvents, events := pendingEvents + [events[0]], events[1..];
    }

    /** Fills a batch from the channel: at most 64 events, or until nothing is there. */
    method DrainBatch(ghost s: State, ghost run: seq<Action>) returns (ghost run': seq<Action>)
      requires Possible(s, run) && Now() == After(s, run) && flush.Draining?
      modifies `events, `pendingEvents
      ensures Possible(s, run') && Now() == After(s, run') && flush == old(flush) && !CanReceive(Now())
      ensures pendingEvents + events == old(pendingEvents + events)
    {
      run' := run;
      hide Next, Possible, After;
      while |pendingEvents| < BATCH && |events| > 0
        invariant Possible(s, run') && Now() == After(s, run')
        invariant pendingEvents + events == old(pendingEvents + events)
        decreases |events|
      {
        Took(s, Receive, run');
        run' := run' + [Receive];
        ReceiveEvent();
      }
    }

    method StartWriting(ghost s: State, ghost run: seq<Action>) returns (ghost run': seq<Action>)
      requires Possible(s, run) && Now() == After(s, run) && flush.Draining? && !CanReceive(Now())
               && |pendingEvents| > 0
      modifies `flush
      ensures Possible(s, run') && Now() == After(s, run') && flush == Writing(old(flush).auditor)
    {
      Took(s, Drained, run);
      run' := run + [Drained];
      hide Possible, After;
      flush := Writing(flush.auditor);
    }

    /** One batch offered to the sink. */
    method WriteBatch(ghost s: State, ghost run: seq<Action>, accepts: bool) returns (ghost run': seq<Action>)
      requires Possible(s, run) && Now() == After(s, run) && flush.Writing?
      modifies `auditor, `flush, `accepted, `pendingEvents
      ensures Possible(s, run') && Now() == After(s, run')
      ensures if accepts then flush == Draining(old(flush).auditor) && pendingEvents == [] else flush == Idle
      ensures if accepts then accepted == old(accepted + pendingEvents)
              else accepted == old(accepted) && pendingEvents == old(pendingEvents)
    {
      ghost var step := if accepts then SinkAccepts else SinkFails;
      Took(s, step, run);
      run' := run + [step];
      hide Possible, After;
      if accepts {
        accepted, pendingEvents, flush := accepted + pendingEvents, [], Draining(flush.auditor);
      } else {
        EndFlush();
      }
    }

    method StopEmpty(ghost s: State, ghost run: seq<Action>) returns (ghost run': seq<Action>)
      requires Possible(s, run) && Now() == After(s, run) && flush.Draining? && !CanReceive(Now())
               && pendingEvents == []
      modifies `auditor, `flush
      ensures Possible(s, run') && Now() == After(s, run') && flush == Idle
    {
      Took(s, Drained, run);
      run' := run + [Drained];
      hide Possible, After;
      EndFlush();
    }

    /** Whatever the sink does, a flush is a run of the steps of the model, from taking the
        mutex to letting go of it, and keeps the events in order.  A sink that takes every
        batch gets all of them, if the context leaves the time. */
    method FlushEvents(outside: bool, sinkAccepts: nat -> bool, rounds: nat) returns (ghost run: seq<Action>)
      requires Enabled(Now(), LockFlush(!outside))
      modifies `auditor, `flush, `events, `pendingEvents, `accepted
      ensures Possible(old(Now()), run) && Now() == After(old(Now()), run) && flush == Idle
      ensures old(accepted) <= accepted
      ensures Line() == old(Line())
      ensures (forall i: nat | i < rounds :: sinkAccepts(i)) && rounds > |old(pendingEvents)| + |old(events)| ==>
                pendingEvents == [] && events == []
      ensures old(InOrder(Now()) && Locked(Now())) ==> InOrder(Now()) && Locked(Now())
    {
      hide Next, InOrder, Locked, Possible, After;
      ghost var s := Now();
      run := FlushBatches(outside, sinkAccepts, rounds);
      if InOrder(s) && Locked(s) {
        EventsKeepOrder(s, run);
      }
    }

    /** What the sink took, the batch it has not taken yet, and the channel. */
    ghost function Line(): seq<Event>
      reads this
    {
      accepted + pendingEvents + events
    }

    /** One time around the loop: a batch, if there is anything, and what the sink says. */
    method FlushRound(ghost s: State, ghost run: seq<Action>, ghost outside: bool, accepts: bool)
      returns (ghost run': seq<Action>, more: bool)
      requires Possible(s, run) && Now() == After(s, run)
      requires flush == if pendingEvents == [] then Draining(!outside) else Writing(!outside)
      modifies `auditor, `flush, `events, `pendingEvents, `accepted
      ensures Possible(s, run') && Now() == After(s, run')
      ensures old(accepted) <= accepted && Line() == old(Line())
      ensures if more then accepts && pendingEvents == [] && flush == Draining(!outside) else flush == Idle
      ensures more ==> |events| < |old(pendingEvents)| + |old(events)|
      ensures accepts && !more ==> pendingEvents == [] && events == []
    {
      run', more := run, accepts;
      hide Next, Possible, After;
      ghost var line := pendingEvents + events;
      assert Line() == accepted + line;
      if |pendingEvents| == 0 {
        run' := DrainBatch(s, run');
        if |pendingEvents| == 0 {
          run' := StopEmpty(s, run');
          return run', false;
        }
        run' := StartWriting(s, run');
      }
      assert pendingEvents + events == line;
      run' := WriteBatch(s, run', accepts);
      assert accepted + pendingEvents + events == old(accepted) + line;
    }

    /** The loop behind the mutex: batches until the channel is empty, the sink fails, or
        the context ends. */
    method FlushBatches(outside: bool, sinkAccepts: nat -> bool, rounds: nat) returns (ghost run: seq<Action>)
      requires Enabled(Now(), LockFlush(!outside))
      modifies `auditor, `flush, `events, `pendingEvents, `accepted
      ensures Possible(old(Now()), run) && Now() == After(old(Now()), run) && flush == Idle
      ensures old(accepted) <= accepted
      ensures Line() == old(Line())
      ensures (forall i: nat | i < rounds :: sinkAccepts(i)) && rounds > |old(pendingEvents)| + |old(events)| ==>
                pendingEvents == [] && events == []
    {
      hide Next, CanReceive;
      ghost var s := Now();
      Took(s, LockFlush(!outside), []);
      run := [] + [LockFlush(!outside)];
      hide Possible, After;
      BeginFlush(outside);
      assert flush == if pendingEvents == [] then Draining(!outside) else Writing(!outside) by {
        Began(s, !outside);
      }
      var round := 0;
      while round < rounds
        invariant Possible(s, run) && Now() == After(s, run) && round <= rounds
        invariant flush == if pendingEvents == [] then Draining(!outside) else Writing(!outside)
        invariant old(accepted) <= accepted && Line() == old(Line())
        invariant forall i: nat | i < round :: sinkAccepts(i)
        invariant |pendingEvents| + |events| + round <= |old(pendingEvents)| + |old(events)|
      {
        hide Controller.Line;
        var more;
        run, more := FlushRound(s, run, outside, sinkAccepts(round));
        if !more {
          return;
        }
        round := round + 1;
      }
      run := Expire(s, run, outside);
    }

    /** The context ended before another batch. */
    method Expire(ghost s: State, ghost run: seq<Action>, ghost outside: bool) returns (ghost run': seq<Action>)
      requires Possible(s, run) && Now() == After(s, run)
      requires flush == if pendingEvents == [] then Draining(!outside) else Writing(!outside)
      modifies `auditor, `flush
      ensures Possible(s, run') && Now() == After(s, run') && flush == Idle
    {
      var step := if |pendingEvents| == 0 then FlushExpires else SinkFails;
      Took(s, step, run);
      run' := run + [step];
      hide Possible, After;
      auditor := if !flush.auditor then auditor else if step.FlushExpires? then Stopped else Checking;
      flush := Idle;
    }
  }

  lemma Began(s: State, auditor: bool)
    requires Enabled(s, LockFlush(auditor))
    ensures var t := Next(s, LockFlush(auditor));
            t.pending == s.pending && t.flush == if s.pending == [] then Draining(auditor) else Writing(auditor)
  {
  }

  lemma Took(s: State, a: Action, run: seq<Action>)
    requires Possible(s, run) && Enabled(After(s, run), a)
    ensures Possible(s, run + [a]) && After(s, run + [a]) == Next(After(s, run), a)
  {
    OneStep(After(s, run), a, []);
    assert [a] + [] == [a];
    RunsJoin(s, run, [a]);
  }
}

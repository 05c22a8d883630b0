/** Where the restore transaction does not keep its promise, and that it is the only
    place: a rollback that starts moving files while the journal on disk does not say
    so.  It happens when recording `switching` fails, or when recording `committed`
    fails after its rename.  If that rollback is interrupted, the next recovery takes
    the files as they are and starts the services on them. */
module RestoreExactness {
  import opened RestoreTransaction
  import opened RestoreSafety
  import opened Wrappers

  function Quietly(): Work {
    Work(_ => 0, (_, _) => false)
  }

  /** `n` steps that succeed, and then the process dies. */
  function Steps(n: nat): (r: seq<Choice>)
    ensures |r| == n
  {
    if n == 0 then [] else [Choice(Done, Quietly())] + Steps(n - 1)
  }

  function Present(sidecars: seq<Option<Gen>>, k: nat): nat
    requires |sidecars| == SUFFIXES
    decreases SUFFIXES - k
  {
    if k >= SUFFIXES then 0 else (if sidecars[k].Some? then 1 else 0) + Present(sidecars, k + 1)
  }

  lemma {:induction false} ChecksRun(w: World, n: nat, m: nat)
    requires w.status == Going && w.script == Steps(n + m)
    ensures Checks(w, n) == w.(script := Steps(m))
    decreases n
  {
    if n == 0 {
    } else {
      assert Steps(n + m)[1..] == Steps(n - 1 + m);
      ChecksRun(Check(w), n - 1, m);
    }
  }

  lemma {:induction false} RemovalsRun(w: World, i: nat, k: nat, m: nat)
    requires i < |w.disk.targets| && |w.disk.targets[i].sidecars| == SUFFIXES && w.disk.targets[i].live.Some?
    requires w.status == Going && w.script == Steps(Present(w.disk.targets[i].sidecars, k) + m)
    ensures var r := RemoveSidecarsFrom(w, i, k);
            r.status == Going && r.script == Steps(m) && r.disk.targets[i].live.Some?
    decreases SUFFIXES - k
  {
    if k >= SUFFIXES {
    } else {
      assert RemoveSidecarsFrom(w, i, k) == RemoveSidecarsFrom(RemoveSidecar(w, i, k), i, k + 1);
      RemovalRuns(w, i, k, m);
      hide Present, Steps, RemoveSidecar, RemoveSidecarsFrom;
      RemovalsRun(RemoveSidecar(w, i, k), i, k + 1, m);
    }
  }

  lemma RemovalRuns(w: World, i: nat, k: nat, m: nat)
    requires i < |w.disk.targets| && |w.disk.targets[i].sidecars| == SUFFIXES && w.disk.targets[i].live.Some?
             && k < SUFFIXES
    requires w.status == Going && w.script == Steps(Present(w.disk.targets[i].sidecars, k) + m)
    ensures var n := RemoveSidecar(w, i, k);
            && |n.disk.targets| == |w.disk.targets| && |n.disk.targets[i].sidecars| == SUFFIXES
            && n.disk.targets[i].live.Some?
            && n.status == Going && n.script == Steps(Present(n.disk.targets[i].sidecars, k + 1) + m)
  {
    var t := w.disk.targets[i];
    assert Present(t.sidecars, k) == (if t.sidecars[k].Some? then 1 else 0) + Present(t.sidecars, k + 1);
    PresentAfter(t.sidecars, k, k + 1);
    if t.sidecars[k].Some? {
      assert Steps(Present(t.sidecars, k) + m)[1..] == Steps(Present(t.sidecars, k + 1) + m);
    }
  }

  lemma {:induction false} PresentAfter(sidecars: seq<Option<Gen>>, k: nat, from: nat)
    requires |sidecars| == SUFFIXES && k < from && k < SUFFIXES
    ensures Present(sidecars[k := None], from) == Present(sidecars, from)
    decreases SUFFIXES - from
  {
    if from < SUFFIXES {
      assert sidecars[k := None][from] == sidecars[from];
      PresentAfter(sidecars, k, from + 1);
    }
  }

  /** The rollback of the first target, up to the rename that takes its live file away. */
  lemma DiesWithoutFirstTarget(w: World)
    requires WellFormed(w.disk.targets) && HoldsSnapshots(w.disk)
    requires var t := w.disk.targets[0]; t.kind.Database? && t.existed && t.live.Some?
    requires w.status == Going && w.script == Steps(7 + Present(w.disk.targets[0].sidecars, 0))
    ensures var r := RollbackTarget(w, 0); r.status == Dead && r.disk.targets[0].live.None?
  {
    var t := w.disk.targets[0];
    var c := Present(t.sidecars, 0);
    ChecksRun(w, 4, 3 + c);
    var copied := CopyBack(w, t);
    assert copied == w.(script := Steps(3 + c));
    var at := Check(copied);
    assert at == w.(script := Steps(c + 2)) by { assert Steps(3 + c)[1..] == Steps(2 + c); }
    RemovalsRun(at, 0, 0, 2);
    var removed := RemoveSidecarsFrom(at, 0, 0);
    RemoveSidecarsEffect(at, 0, 0);
    assert Steps(2)[1..] == Steps(1) && Steps(1)[1..] == Steps(0);
    var moved := Check(removed);
    assert MoveSidecars(copied, 0) == moved && moved.script == Steps(1);
    var gone := Displace(moved, 0);
    assert gone.script == [] && gone.disk.targets[0].live.None?;
  }

  /** The steps of a rollback before it reaches the first target. */
  function Lead(d: Disk): nat {
    if d.rebuild then 3 else 2
  }

  /** After the rollback's Stop, sidecars are those of a database that was not running. */
  function LeftBehind(d: Disk): nat
    requires 0 < |d.targets| && |d.targets[0].sidecars| == SUFFIXES
  {
    if d.running.Some? then 0 else Present(d.targets[0].sidecars, 0)
  }

  lemma {:induction false} NonePresent(sidecars: seq<Option<Gen>>, k: nat)
    requires |sidecars| == SUFFIXES && forall j | 0 <= j < SUFFIXES :: sidecars[j].None?
    ensures Present(sidecars, k) == 0
    decreases SUFFIXES - k
  {
    if k < SUFFIXES {
      NonePresent(sidecars, k + 1);
    }
  }

  lemma StopRuns(w: World, m: nat)
    requires WellFormed(w.disk.targets) && HoldsSnapshots(w.disk)
    requires var t := w.disk.targets[0]; t.kind.Database? && t.existed && t.live.Some?
    requires w.status == Going && w.script == Steps(1 + m)
    ensures var r := Stop(w);
            && r.status == Going && r.script == Steps(m) && WellFormed(r.disk.targets) && HoldsSnapshots(r.disk)
            && r.disk.running.None? && r.disk.journal == w.disk.journal && r.disk.rebuild == w.disk.rebuild
            && r.disk.history == w.disk.history
            && r.disk.targets[0].kind.Database? && r.disk.targets[0].existed && r.disk.targets[0].live.Some?
            && Present(r.disk.targets[0].sidecars, 0) == LeftBehind(w.disk)
  {
    var r := Stop(w);
    StopEffect(w);
    assert Steps(1 + m)[1..] == Steps(m);
    assert forall i | 0 <= i < |w.disk.targets| :: SameRest(w.disk.targets[i], r.disk.targets[i]);
    HoldsPreserved(w.disk, r.disk);
    if w.disk.running.Some? {
      assert r.disk.targets[0] == Rewrite(w.disk.targets[0], w.disk.running.value, Quietly(), 0);
      NonePresent(r.disk.targets[0].sidecars, 0);
    }
  }

  /** The interrupted rollback: the first target's live file is gone, the journal is not
      in a phase that would bring it back, and every stage is still there. */
  lemma InterruptedRollback(end: World, phase: Phase) returns (d: Disk)
    requires end.status == Error && Switched(phase) && Unprotected(end.disk) && WellFormed(end.disk.targets)
    requires end.disk.targets[0].kind.Database? && end.disk.targets[0].existed
    ensures d == Undo(end.(script := Steps(Lead(end.disk) + 7 + LeftBehind(end.disk))), phase).disk
    ensures WellFormed(d.targets) && HoldsSnapshots(d) && d.targets[0].live.None? && d.targets[0].existed
    ensures d.running.None? && d.journal == end.disk.journal
  {
    var n := 7 + LeftBehind(end.disk);
    var w := Resume(end.(script := Steps(Lead(end.disk) + n)));
    assert w.disk.targets[0].live.Some? by {
      assert OfGen(w.disk.targets[0], Old) || OfGen(w.disk.targets[0], New);
    }
    LeadRuns(w, Old, 1 + n);
    var w1 := Deploy(Check(w), Old);
    StopRuns(w1, n);
    var s := Stop(w1);
    DiesWithoutFirstTarget(s);
    RollbackTargetEffect(s, 0);
    RollbackIdle(RollbackTarget(s, 0), 1);
    UndoDead(end.(script := w.script), phase, w1, RollbackTarget(s, 0));
    d := RollbackTarget(s, 0).disk;
    HoldsPreserved(s.disk, d);
  }

  lemma LeadRuns(w: World, g: Gen, m: nat)
    requires w.status == Going && w.script == Steps(Lead(w.disk) - 1 + m)
    ensures var r := Deploy(Check(w), g); r.disk == w.disk && r.status == Going && r.script == Steps(m)
  {
    assert Steps(1 + m)[1..] == Steps(m);
    if w.disk.rebuild {
      assert Steps(2 + m)[1..] == Steps(1 + m);
    }
  }

  lemma UndoDead(end: World, phase: Phase, w1: World, r: World)
    requires Switched(phase) && w1 == Deploy(Check(Resume(end)), Old) && 0 < |w1.disk.targets|
    requires r == RollbackTarget(Stop(w1), 0) && r.status == Dead && RollbackFrom(r, 1) == r
    ensures Undo(end, phase) == r
  {
  }

  /** The next recovery starts the services without the portal database. */
  lemma RecoveryStartsIt(d: Disk)
    requires WellFormed(d.targets) && HoldsSnapshots(d) && d.targets[0].live.None? && d.targets[0].existed
    requires d.running.None? && (d.journal == Written(Stopping) || d.journal == Written(Committed))
    ensures !EveryStartCoherent(Tick(d, Steps(Lead(d) + 1)))
  {
    var w := World(d, Steps(Lead(d) + 1), Going, Mixed);
    var g := if d.journal.phase == Committed then New else Old;
    assert Steps(Lead(d) + 1)[1..] == Steps(Lead(d));
    LeadRuns(Check(w), g, 1);
    var ready := Deploy(Check(Check(w)), g);
    assert Steps(1)[1..] == Steps(0);
    var up := Start(ready);
    var after := Check(up);
    assert after.status == Dead && after.disk == up.disk;
    assert Settled(Check(w), d.journal.phase) == after;
    assert Recover(w).disk == up.disk;
    var e := Started(d.targets, ready.images);
    assert up.disk.history[|d.history|] == e;
    assert !Coherent(e, d.rebuild) by {
      assert !OfGen(d.targets[0], Old) && !OfGen(d.targets[0], New);
    }
  }

  /** An interruption and a recovery after which some start sees two generations. */
  lemma BehindIsUnsafe(end: World, phase: Phase)
    requires end.status == Error && Switched(phase) && Unprotected(end.disk) && WellFormed(end.disk.targets)
    requires end.disk.targets[0].kind.Database? && end.disk.targets[0].existed
    requires end.disk.journal == Written(Stopping) || end.disk.journal == Written(Committed)
    ensures exists rest: seq<Choice>, recoveries: seq<seq<Choice>> ::
              !EveryStartCoherent(Ticks(Undo(end.(script := rest), phase).disk, recoveries))
  {
    var gone := InterruptedRollback(end, phase);
    var rest := Steps(Lead(end.disk) + 7 + LeftBehind(end.disk));
    var recovery := Steps(Lead(gone) + 1);
    RecoveryStartsIt(gone);
    hide EveryStartCoherent, Undo, Tick;
    assert [recovery][1..] == [];
    assert Ticks(gone, [recovery]) == Ticks(Tick(gone, recovery), []) == Tick(gone, recovery);
    assert !EveryStartCoherent(Ticks(Undo(end.(script := rest), phase).disk, [recovery]));
  }

  /** Exactly when it is safe: for a job that turned to its rollback, all ways the
      rollback and the recoveries after it can go are free of a mixed Start if and
      only if the journal was not behind. */
  lemma SafeExactlyWhenJournalIsNotBehind(d: Disk, archive: nat -> int, script: seq<Choice>)
    requires Initial(d)
    requires d.targets[0].kind.Database? && d.targets[0].live.Some?
    requires RollbackEntry(World(d, script, Going, New), archive).Some?
    ensures var (end, phase) := RollbackEntry(World(d, script, Going, New), archive).value;
            (forall rest: seq<Choice>, recoveries: seq<seq<Choice>> ::
               EveryStartCoherent(Ticks(Undo(end.(script := rest), phase).disk, recoveries)))
            <==> !JournalBehind(end.disk, phase)
  {
    JobEffect(d, archive, script);
    var (end, phase) := RollbackEntry(World(d, script, Going, New), archive).value;
    if JournalBehind(end.disk, phase) {
      BehindIsUnsafe(end, phase);
    } else {
      forall rest: seq<Choice>, recoveries: seq<seq<Choice>>
        ensures EveryStartCoherent(Ticks(Undo(end.(script := rest), phase).disk, recoveries))
      {
        UndoEffect(end.(script := rest), phase);
        TicksKeep(Undo(end.(script := rest), phase).disk, recoveries);
      }
    }
  }

  // ------------------------------------------------------------ it does happen

  /** `n` steps that succeed, and then one that does not. */
  function AtLast(d: Disk, n: nat, last: Outcome): World {
    World(d, Steps(n) + [Choice(last, Quietly())], Going, New)
  }

  lemma OneDone(d: Disk, n: nat, last: Outcome, done: Disk, failed: Disk, late: Disk)
    ensures Act(AtLast(d, n + 1, last), done, failed, late) == AtLast(done, n, last)
    ensures Check(AtLast(d, n + 1, last)) == AtLast(d, n, last)
  {
    assert (Steps(n + 1) + [Choice(last, Quietly())])[1..] == Steps(n) + [Choice(last, Quietly())];
  }

  lemma LastEnds(d: Disk, last: Outcome, done: Disk, failed: Disk, late: Disk)
    requires last != Done
    ensures Act(AtLast(d, 0, last), done, failed, late)
            == World(if last == Failed then failed else late, [], Error, New)
  {
    assert Steps(0) + [Choice(last, Quietly())] == [Choice(last, Quietly())];
  }

  /** One database without sidecars, and services that are stopped. */
  function OneDatabase(journal: Journal, live: Blob, candidate: Option<Blob>, snapshot: Option<Blob>,
      history: seq<Event>): Disk {
    Disk([Target(Database, true, Some(live), [None, None, None], candidate, snapshot,
      candidate.Some? || snapshot.Some?)],
         journal, None, false, history)
  }

  const OLD := Blob(Old, 1)
  const NEW := Blob(New, 2)
  const BEFORE := OneDatabase(NoTransaction, OLD, None, None, [])

  function Archive(): nat -> int {
    _ => 2
  }

  /** What the job's Stop holds in this run. */
  function HeldHere(): seq<Event> {
    [Held(OneDatabase(NoTransaction, OLD, Some(NEW), None, []).targets)]
  }

  /** From the queue to the snapshot in nine steps. */
  lemma NineSteps(n: nat, last: Outcome)
    ensures var open := Open(AtLast(BEFORE, n + 9, last));
            open.status == Going && Stage(open, Archive()).status == Going
            && Snapshot(Stage(open, Archive()))
               == AtLast(OneDatabase(Written(Stopping), OLD, Some(NEW), Some(OLD), HeldHere()), n, last)
  {
    var unwritten := OneDatabase(Unwritten, OLD, None, None, []);
    var staged := OneDatabase(Unwritten, OLD, Some(NEW), None, []);
    var preparing := OneDatabase(Written(Preparing), OLD, Some(NEW), None, []);
    var stopping := OneDatabase(Written(Stopping), OLD, Some(NEW), None, []);
    var held := OneDatabase(Written(Stopping), OLD, Some(NEW), None, HeldHere());
    var snapped := OneDatabase(Written(Stopping), OLD, Some(NEW), Some(OLD), HeldHere());
    hide Act, Steps;
    OneDone(BEFORE, n + 8, last, BEFORE, BEFORE, BEFORE);
    OneDone(BEFORE, n + 7, last, unwritten, BEFORE, BEFORE);
    assert Open(AtLast(BEFORE, n + 9, last)) == AtLast(unwritten, n + 7, last);
    StageHere(n, last, unwritten, staged);
    OneDone(staged, n + 4, last, preparing, staged, preparing);
    OneDone(preparing, n + 3, last, stopping, preparing, stopping);
    assert Stage(AtLast(unwritten, n + 7, last), Archive()) == AtLast(stopping, n + 3, last);
    SnapshotHere(n, last, stopping, held, snapped);
  }

  lemma StageHere(n: nat, last: Outcome, unwritten: Disk, staged: Disk)
    requires unwritten == OneDatabase(Unwritten, OLD, None, None, [])
             && staged == OneDatabase(Unwritten, OLD, Some(NEW), None, [])
    ensures StageFrom(Check(AtLast(unwritten, n + 7, last)), Archive(), 0) == AtLast(staged, n + 5, last)
  {
    var t := unwritten.targets[0].(staged := true);
    hide Act, Steps;
    OneDone(unwritten, n + 6, last, unwritten, unwritten, unwritten);
    assert Set(unwritten, 0, t.(candidate := Some(NEW))) == staged;
    OneDone(unwritten, n + 5, last, staged, unwritten, Set(unwritten, 0, t));
    var w := AtLast(unwritten, n + 6, last);
    assert StageTarget(w, 0, Archive()(0)) == AtLast(staged, n + 5, last);
    assert StageFrom(w, Archive(), 0) == StageFrom(StageTarget(w, 0, Archive()(0)), Archive(), 1);
  }

  lemma SnapshotHere(n: nat, last: Outcome, stopping: Disk, held: Disk, snapped: Disk)
    requires stopping == OneDatabase(Written(Stopping), OLD, Some(NEW), None, [])
    requires held == stopping.(history := HeldHere())
             && snapped == OneDatabase(Written(Stopping), OLD, Some(NEW), Some(OLD), HeldHere())
    ensures Snapshot(AtLast(stopping, n + 3, last)) == AtLast(snapped, n, last)
  {
    var w := AtLast(stopping, n + 3, last);
    assert Settle(w) == stopping && [] + HeldHere() == HeldHere();
    hide Act, Steps;
    OneDone(stopping, n + 2, last, held, stopping, stopping);
    assert StopAndHold(w) == AtLast(held, n + 2, last);
    var partial := Set(held, 0, held.targets[0].(snapshot := Some(Blob(Mixed, 1))));
    assert Set(held, 0, held.targets[0].(snapshot := Some(OLD))) == snapped;
    OneDone(held, n + 1, last, snapped, partial, partial);
    assert SnapshotTarget(AtLast(held, n + 2, last), 0) == AtLast(snapped, n + 1, last);
    assert SnapshotFrom(AtLast(held, n + 2, last), 0) == SnapshotFrom(AtLast(snapped, n + 1, last), 1);
    OneDone(snapped, n, last, snapped, snapped, snapped);
  }

  /** The persist of `switching` fails: the journal stays behind. */
  lemma SwitchingIsNotRecorded() returns (script: seq<Choice>)
    ensures Initial(BEFORE)
    ensures var entry := RollbackEntry(World(BEFORE, script, Going, New), Archive());
            entry.Some? && JournalBehind(entry.value.0.disk, entry.value.1)
  {
    var n: nat := 0;
    script := AtLast(BEFORE, n + 9, Failed).script;
    StartsBefore();
    SwitchingFails(n);
  }

  lemma SwitchingFails(n: nat)
    requires n == 0
    ensures var entry := RollbackEntry(AtLast(BEFORE, n + 9, Failed), Archive());
            entry.Some? && JournalBehind(entry.value.0.disk, entry.value.1)
  {
    var snapped := OneDatabase(Written(Stopping), OLD, Some(NEW), Some(OLD), HeldHere());
    FallsBehind(snapped, Switching);
    hide *;
    IsGoing(snapped, n, Failed);
    NineSteps(n, Failed);
    RecordFails(snapped, n);
    var staged := Stage(Open(AtLast(BEFORE, n + 9, Failed)), Archive());
    SwitchStops(staged, AtLast(snapped, n, Failed), World(snapped, [], Error, New));
    EntryIs(AtLast(BEFORE, n + 9, Failed), Archive(), World(snapped, [], Error, New), Switching);
  }

  lemma FallsBehind(d: Disk, phase: Phase)
    requires Switched(phase) && !(d.journal.Written? && Switched(d.journal.phase))
    ensures JournalBehind(d, phase)
  {
  }

  lemma SwitchStops(staged: World, s: World, end: World)
    requires Snapshot(staged) == s && s.status == Going && Switch(s) == end && end.status == Error && Commit(end) == end
    ensures Forward(staged) == end && MemoryPhase(staged) == Switching
  {
    hide Snapshot, Switch, Commit;
  }

  lemma IsGoing(d: Disk, n: nat, last: Outcome)
    ensures AtLast(d, n, last).status == Going
  {
    hide Steps;
  }

  lemma EntryIs(w: World, archive: nat -> int, end: World, phase: Phase)
    requires Open(w).status == Going && Stage(Open(w), archive).status == Going
    requires Forward(Stage(Open(w), archive)) == end && end.status == Error
             && MemoryPhase(Stage(Open(w), archive)) == phase
    ensures RollbackEntry(w, archive) == Some((end, phase))
  {
    hide Open, Stage, Forward, MemoryPhase;
  }

  lemma RecordFails(snapped: Disk, n: nat)
    requires n == 0
    ensures Switch(AtLast(snapped, n, Failed)) == World(snapped, [], Error, New)
    ensures Commit(World(snapped, [], Error, New)) == World(snapped, [], Error, New)
  {
    var switching := snapped.(journal := Written(Switching));
    var end := World(snapped, [], Error, New);
    LastEnds(snapped, Failed, switching, snapped, switching);
    SwitchIdle(end, 0);
    CommitIdle(end);
    hide Act, Steps, SwitchFrom, Commit;
  }

  lemma StartsBefore()
    ensures Initial(BEFORE)
  {
  }

  /** The persist of `committed` reports an error after its rename: the journal says
      committed and the process turns back. */
  lemma CommittedIsNotConfirmed()
    ensures var entry := RollbackEntry(AtLast(BEFORE, 17, FailedLate), Archive());
            entry.Some? && JournalBehind(entry.value.0.disk, entry.value.1)
              && entry.value.0.disk.journal == Written(Committed)
  {
    var snapped := OneDatabase(Written(Stopping), OLD, Some(NEW), Some(OLD), HeldHere());
    NineSteps(8, FailedLate);
    SwitchHere(snapped);
    var switched := Switch(AtLast(snapped, 8, FailedLate));
    CommitHere(switched.disk);
  }

  /** The switch of the one database in five steps. */
  lemma SwitchHere(snapped: Disk)
    requires snapped == OneDatabase(Written(Stopping), OLD, Some(NEW), Some(OLD), HeldHere())
    ensures var switched := OneDatabase(Written(Switching), NEW, None, Some(OLD), HeldHere());
            Switch(AtLast(snapped, 8, FailedLate)) == AtLast(switched, 3, FailedLate)
  {
    var marked := snapped.(journal := Written(Switching));
    var switched := OneDatabase(Written(Switching), NEW, None, Some(OLD), HeldHere());
    hide Act, Steps;
    OneDone(snapped, 7, FailedLate, marked, snapped, marked);
    var w := AtLast(marked, 7, FailedLate);
    OneDone(marked, 6, FailedLate, marked, marked, marked);
    OneDone(marked, 5, FailedLate, marked, marked, marked);
    var u := AtLast(marked, 6, FailedLate);
    assert RemoveSidecarsFrom(u, 0, 3) == u && RemoveSidecarsFrom(u, 0, 2) == u && RemoveSidecarsFrom(u, 0, 1) == u;
    assert MoveSidecars(w, 0) == AtLast(marked, 5, FailedLate);
    var t := marked.targets[0];
    assert Set(marked, 0, t.(live := t.candidate, candidate := None)) == switched;
    OneDone(marked, 4, FailedLate, switched, marked, marked);
    OneDone(switched, 3, FailedLate, switched, switched, switched);
    assert Exchange(AtLast(marked, 5, FailedLate), 0) == AtLast(switched, 3, FailedLate);
    assert SwitchTarget(w, 0) == AtLast(switched, 3, FailedLate);
    assert SwitchFrom(w, 0) == SwitchFrom(SwitchTarget(w, 0), 1);
  }

  lemma CommitHere(switched: Disk)
    requires switched == OneDatabase(Written(Switching), NEW, None, Some(OLD), HeldHere())
    ensures var end := Commit(AtLast(switched, 3, FailedLate));
            end.status == Error && end.disk.journal == Written(Committed)
  {
    var starting := switched.(journal := Written(Starting));
    var w := AtLast(starting, 2, FailedLate);
    hide Act, Steps;
    OneDone(switched, 2, FailedLate, starting, switched, starting);
    var d := Settle(w);
    var up := d.(running := Some(Generation(d.targets)), history := d.history + [Started(d.targets, New)]);
    assert d == starting;
    OneDone(starting, 1, FailedLate, up, up, up);
    OneDone(up, 0, FailedLate, up, up, up);
    assert Check(Start(w)) == AtLast(up, 0, FailedLate);
    var committed := up.(journal := Written(Committed));
    LastEnds(up, FailedLate, committed, up, committed);
  }
}

/** What a restore puts in place: every target gets the data of its own entry of the
    archive, and the services start on exactly that
    (internal/backup/portal_restore.go:268-407). */
module RestoreData {
  import opened RestoreTransaction
  import opened RestoreSafety
  import opened Wrappers

  /** The candidates of the first `upto` targets are their own entries. */
  ghost predicate Archived(ts: seq<Target>, archive: nat -> int, from: nat, upto: nat) {
    forall j: nat | from <= j < upto && j < |ts| :: ts[j].candidate == Some(Blob(New, archive(j)))
  }

  /** The live files of the first `upto` targets are their own entries. */
  ghost predicate Unpacked(ts: seq<Target>, archive: nat -> int, upto: nat) {
    forall j: nat | j < upto && j < |ts| :: ts[j].live == Some(Blob(New, archive(j)))
  }

  /** A Start found the old data or exactly the archive. */
  ghost predicate FoundOldOrArchive(e: Event, archive: nat -> int) {
    e.Started? ==> AllGen(e.targets, Old) || Unpacked(e.targets, archive, |e.targets|)
  }

  ghost predicate NewIsArchive(d: Disk, archive: nat -> int) {
    forall k | 0 <= k < |d.history| :: FoundOldOrArchive(d.history[k], archive)
  }

  // ------------------------------------------------------------------- going forward

  lemma {:induction false} StageUnpacks(w: World, archive: nat -> int, i: nat)
    requires i <= |w.disk.targets| && (w.status == Going ==> Archived(w.disk.targets, archive, 0, i))
    ensures var r := StageFrom(w, archive, i);
            && (r.status == Going ==> w.status == Going && Archived(r.disk.targets, archive, 0, |r.disk.targets|))
            && r.disk.history == w.disk.history && r.disk.journal == w.disk.journal
    decreases |w.disk.targets| - i
  {
    if i == |w.disk.targets| {
    } else {
      var n := StageTarget(w, i, archive(i));
      assert n.status == Going ==> n.disk.targets[i].candidate == Some(Blob(New, archive(i)));
      StageUnpacks(n, archive, i + 1);
    }
  }

  lemma StagedIsArchived(w: World, archive: nat -> int)
    ensures var r := Stage(w, archive);
            && (r.status == Going ==> Archived(r.disk.targets, archive, 0, |r.disk.targets|))
            && r.disk.history == w.disk.history
  {
    StageUnpacks(Check(w), archive, 0);
    hide StageFrom;
  }

  lemma {:induction false} SnapshotKeepsCandidates(w: World, i: nat)
    ensures var r := SnapshotFrom(w, i);
            && |r.disk.targets| == |w.disk.targets| && r.disk.history == w.disk.history
            && forall j | 0 <= j < |w.disk.targets| :: r.disk.targets[j].candidate == w.disk.targets[j].candidate
    decreases |w.disk.targets| - i
  {
    if i >= |w.disk.targets| {
    } else {
      SnapshotKeepsCandidates(SnapshotTarget(w, i), i + 1);
    }
  }

  lemma HoldKeepsCandidates(w: World)
    ensures var r := StopAndHold(w);
            && |r.disk.targets| == |w.disk.targets|
            && (forall j | 0 <= j < |w.disk.targets| :: r.disk.targets[j].candidate == w.disk.targets[j].candidate)
            && (r.disk.history == w.disk.history
                || (|r.disk.history| == |w.disk.history| + 1 && w.disk.history < r.disk.history
                    && r.disk.history[|w.disk.history|].Held?))
  {
  }

  lemma SnappedIsArchived(w: World, archive: nat -> int)
    requires Archived(w.disk.targets, archive, 0, |w.disk.targets|) && w.disk.history == []
    ensures var r := Snapshot(w);
            Archived(r.disk.targets, archive, 0, |r.disk.targets|) && NewIsArchive(r.disk, archive)
  {
    hide SnapshotFrom, StopAndHold;
    HoldKeepsCandidates(w);
    SnapshotKeepsCandidates(StopAndHold(w), 0);
  }

  lemma SwitchTargetUnpacks(w: World, i: nat)
    requires i < |w.disk.targets| && WellFormed(w.disk.targets)
    requires w.disk.targets[i].candidate.Some? && w.disk.targets[i].candidate.value.gen == New
    ensures var r := SwitchTarget(w, i);
            r.status == Going ==> w.status == Going && r.disk.targets[i].live == w.disk.targets[i].candidate
  {
    hide MoveSidecars, Exchange;
    if w.disk.targets[i].kind.Database? {
      MoveSidecarsEffect(w, i);
      ExchangeEffect(MoveSidecars(w, i), i);
    } else {
      ExchangeEffect(w, i);
    }
  }

  lemma {:induction false} SwitchUnpacks(w: World, archive: nat -> int, i: nat)
    requires i <= |w.disk.targets| && WellFormed(w.disk.targets)
    requires Archived(w.disk.targets, archive, i, |w.disk.targets|)
    requires w.status == Going ==> Unpacked(w.disk.targets, archive, i)
    ensures var r := SwitchFrom(w, i);
            && r.disk.history == w.disk.history
            && (r.status == Going ==> w.status == Going && Unpacked(r.disk.targets, archive, |r.disk.targets|))
    decreases |w.disk.targets| - i
  {
    hide SwitchTarget, WellFormed;
    if i == |w.disk.targets| {
    } else {
      assert w.disk.targets[i].candidate == Some(Blob(New, archive(i)));
      var n := SwitchTarget(w, i);
      SwitchTargetEffect(w, i);
      SwitchTargetUnpacks(w, i);
      SwitchUnpacks(n, archive, i + 1);
    }
  }

  /** The services are started on the archive, and nothing touches it before. */
  lemma CommitStartsArchive(w: World, archive: nat -> int)
    requires NewIsArchive(w.disk, archive) && w.disk.running.None?
    requires w.status == Going ==> Unpacked(w.disk.targets, archive, |w.disk.targets|)
    requires w.status == Going ==> WellFormed(w.disk.targets) && AllGen(w.disk.targets, New)
    ensures var r := Commit(w);
            && NewIsArchive(r.disk, archive)
            && (r.status == Going ==>
                  && r.disk.targets == w.disk.targets && Unpacked(r.disk.targets, archive, |r.disk.targets|)
                  && r.disk.running == Some(New))
  {
    var p := Persist(w, Starting);
    var s := Start(p);
    if p.status == Going {
      NewGeneration(p.disk.targets);
      assert Settle(p).targets == p.disk.targets;
    }
    hide Start, Unpacked, AllGen, WellFormed;
  }

  lemma NewGeneration(ts: seq<Target>)
    requires WellFormed(ts) && AllGen(ts, New)
    ensures Generation(ts) == New
  {
    assert OfGen(ts[0], New);
  }

  lemma ForwardStartsArchive(staged: World, archive: nat -> int)
    requires Staged(staged) && Archived(staged.disk.targets, archive, 0, |staged.disk.targets|)
    ensures var r := Forward(staged);
            && NewIsArchive(r.disk, archive)
            && (r.status == Going ==>
                  Unpacked(r.disk.targets, archive, |r.disk.targets|) && r.disk.running == Some(New))
  {
    hide Snapshot, Switch, Commit, SwitchFrom, Archived, NewIsArchive, Unpacked, HoldsSnapshots, Candidates;
    var s := Snapshot(staged);
    SnapshotEffect(staged);
    SnappedIsArchived(staged, archive);
    if s.status == Going {
      SwitchEffect(s);
      SwitchedIsUnpacked(s, archive);
      var c := Switch(s);
      if c.status == Going {
        CommitStartsArchive(c, archive);
      } else {
        CommitIdle(c);
      }
    } else {
      NotGoingAgain(s);
      CommitIdle(s);
    }
  }

  lemma SwitchedIsUnpacked(s: World, archive: nat -> int)
    requires Snapped(s, |s.disk.targets|) && s.status == Going
    requires Archived(s.disk.targets, archive, 0, |s.disk.targets|) && NewIsArchive(s.disk, archive)
    ensures var r := Switch(s);
            && NewIsArchive(r.disk, archive) && r.disk.running.None?
            && (r.status == Going ==> Unpacked(r.disk.targets, archive, |r.disk.targets|))
  {
    hide SwitchFrom, Archived;
    var p := Persist(s, Switching);
    assert Unpacked(p.disk.targets, archive, 0);
    SwitchUnpacks(p, archive, 0);
    SwitchFromEffect(p, 0);
  }

  // ----------------------------------------------------------------------- going back

  /** A rollback starts the services on old data, whatever the journal says. */
  lemma RollbackStartsOld(w: World, phase: Phase, archive: nat -> int)
    requires NewIsArchive(w.disk, archive) && WellFormed(w.disk.targets)
    requires if Switched(phase) then HoldsSnapshots(w.disk) else Runs(w.disk, Old)
    ensures NewIsArchive(Rollback(w, phase).disk, archive)
  {
    hide NewIsArchive, Deploy, RollbackFrom, Stop, Start, HoldsSnapshots, WellFormed;
    var w1 := Deploy(Check(w), Old);
    DeployEffect(w, Old);
    if Switched(phase) {
      var b := RollbackFrom(Stop(w1), 0);
      RestoreDataEffect(w1);
      SameHistory(w1.disk, b.disk, archive);
      var w2 := Persist(b, RolledBack);
      SameHistory(b.disk, w2.disk, archive);
      if w2.status == Going {
        RestoredIsOld(b.disk);
        assert Runs(w2.disk, Old);
      }
      StartsOld(w2, archive);
      SameHistory(Start(w2).disk, Check(Start(w2)).disk, archive);
    } else {
      StartsOld(w1, archive);
      SameHistory(Start(w1).disk, Check(Start(w1)).disk, archive);
    }
  }

  lemma SameHistory(d: Disk, e: Disk, archive: nat -> int)
    requires NewIsArchive(d, archive) && e.history == d.history
    ensures NewIsArchive(e, archive)
  {
  }

  lemma StartsOld(w: World, archive: nat -> int)
    requires NewIsArchive(w.disk, archive) && (w.status == Going ==> WellFormed(w.disk.targets) && Runs(w.disk, Old))
    ensures NewIsArchive(Start(w).disk, archive)
  {
    if w.status == Going && w.script != [] {
      DriftKeeps(w.disk.targets, w.disk.running, w.script[0].work);
      assert FoundOldOrArchive(Started(Settle(w).targets, w.images), archive);
    }
  }

  lemma {:induction false} CleaningIsSilent(w: World, i: nat)
    ensures var r := CleanFrom(w, i);
            && r.disk.history == w.disk.history && r.disk.running == w.disk.running
            && |r.disk.targets| == |w.disk.targets|
            && forall j | 0 <= j < |w.disk.targets| :: r.disk.targets[j].live == w.disk.targets[j].live
    decreases |w.disk.targets| - i
  {
    if i >= |w.disk.targets| || w.status != Going {
    } else {
      CleaningIsSilent(Ignore(Atomic(w, Set(w.disk, i, w.disk.targets[i].(staged := false)))), i + 1);
    }
  }

  lemma CleanupIsSilent(w: World)
    ensures var r := Cleanup(w);
            && r.disk.history == w.disk.history && r.disk.running == w.disk.running
            && |r.disk.targets| == |w.disk.targets|
            && forall j | 0 <= j < |w.disk.targets| :: r.disk.targets[j].live == w.disk.targets[j].live
  {
    CleaningIsSilent(w, 0);
    RemovingIsSilent(CleanFrom(w, 0));
    hide CleanFrom, RemoveTransaction;
  }

  lemma RemovingIsSilent(w: World)
    ensures var r := RemoveTransaction(w);
            && r.disk == w.disk.(journal := r.disk.journal) && (r.status == Going ==> w.status == Going)
  {
  }

  // -------------------------------------------------------------------- main statements

  lemma StagedJob(d: Disk, archive: nat -> int, script: seq<Choice>)
    requires Initial(d)
    ensures var open := Open(World(d, script, Going, New));
            open.status == Going ==>
              var staged := Stage(open, archive);
              && Untouched(staged.disk)
              && (staged.status == Going ==>
                    Staged(staged) && Archived(staged.disk.targets, archive, 0, |staged.disk.targets|))
  {
    hide Stage, Archived;
    var open := Open(World(d, script, Going, New));
    if open.status == Going {
      StageEffect(open, archive);
      StagedIsArchived(open, archive);
    }
  }

  lemma SuccessUnpacks(d: Disk, archive: nat -> int, script: seq<Choice>)
    requires Initial(d)
    requires Job(d, archive, script).status == Going
    ensures var job := Job(d, archive, script);
            && |job.disk.targets| == |d.targets|
            && (forall i: nat | i < |d.targets| :: job.disk.targets[i].live == Some(Blob(New, archive(i))))
            && job.disk.running == Some(New)
  {
    hide Forward, Stage, Archived, Staged, Cleanup, Undo;
    var open := Open(World(d, script, Going, New));
    StagedJob(d, archive, script);
    var staged := Stage(open, archive);
    ForwardStartsArchive(staged, archive);
    ForwardEffect(staged);
    NoUndoSucceeds(Forward(staged), MemoryPhase(staged));
    CleanupIsSilent(Check(Forward(staged)));
  }

  /** A job that reports success leaves every target with the data of its own entry of the
      archive, no sidecar of another generation, and the services running on that. */
  lemma SuccessUnpacksTheArchive(d: Disk, archive: nat -> int, script: seq<Choice>)
    requires Initial(d)
    requires Job(d, archive, script).status == Going
    ensures var job := Job(d, archive, script);
            && |job.disk.targets| == |d.targets|
            && (forall i: nat | i < |d.targets| :: job.disk.targets[i].live == Some(Blob(New, archive(i))))
            && job.disk.running == Some(New) && AllGen(job.disk.targets, New)
  {
    SuccessUnpacks(d, archive, script);
    SuccessEndsAllNew(d, archive, script);
    hide Job, Initial, AllGen;
  }

  lemma NoUndoSucceeds(end: World, phase: Phase)
    ensures Undo(end, phase).status != Going
  {
  }

  /** Every Start of a job, in going forward or in the rollback, finds the old data or the
      archive exactly, before any service has written to it. */
  lemma NewStartsFindTheArchive(d: Disk, archive: nat -> int, script: seq<Choice>)
    requires Initial(d)
    ensures NewIsArchive(Job(d, archive, script).disk, archive)
  {
    hide Forward, Stage, Archived, Staged, Cleanup, Rollback, MemoryPhase;
    var open := Open(World(d, script, Going, New));
    StagedJob(d, archive, script);
    if open.status == Going {
      var staged := Stage(open, archive);
      if staged.status == Going {
        ForwardStartsArchive(staged, archive);
        ForwardEffect(staged);
        var end, phase := Forward(staged), MemoryPhase(staged);
        if end.status == Error {
          UndoStartsOld(end, phase, archive);
        } else {
          CleanupIsSilent(Check(end));
        }
      } else {
        CleanupIsSilent(Resume(staged));
      }
    }
  }

  lemma UndoStartsOld(end: World, phase: Phase, archive: nat -> int)
    requires end.status == Error && ForwardOutcome(end, phase) && NewIsArchive(end.disk, archive)
    ensures NewIsArchive(Undo(end, phase).disk, archive)
  {
    hide Rollback, Cleanup, NewIsArchive, HoldsSnapshots;
    RollbackStartsOld(Resume(end), phase, archive);
    var back := Rollback(Resume(end), phase);
    CleanupIsSilent(back);
    SameHistory(back.disk, Cleanup(back).disk, archive);
  }

  // -------------------------------------------------------------------- services run again

  lemma StartsUp(w: World)
    ensures var r := Check(Start(w));
            r.status == Going ==> w.status == Going && r.disk.running.Some? && r.disk.targets == Start(w).disk.targets
  {
  }

  lemma RollbackStartsUp(w: World, phase: Phase)
    ensures Rollback(w, phase).status == Going ==> Rollback(w, phase).disk.running.Some?
  {
    var w1 := Deploy(Check(w), Old);
    StartsUp(if Switched(phase) then Persist(RollbackFrom(Stop(w1), 0), RolledBack) else w1);
    hide Start, RollbackFrom, Stop, Deploy;
  }

  lemma DischargeIsSilent(w: World)
    ensures var r := RemoveTransaction(CleanFrom(Check(w), 0));
            r.status == Going ==> w.status == Going && r.disk.running == w.disk.running
  {
    CleaningIsSilent(Check(w), 0);
    assert Check(w).status != Going ==> CleanFrom(Check(w), 0) == Check(w);
    RemovingIsSilent(CleanFrom(Check(w), 0));
    hide CleanFrom, RemoveTransaction;
  }

  /** A recovery that completes has the services running: on the new data if the job had
      committed, on the old data otherwise. */
  lemma CompletedRecoveryRuns(w: World)
    requires Inv(w.disk) && w.status == Going && w.disk.journal.Written?
    ensures var r := Recover(w);
            r.status == Going ==> r.disk.running == Some(if w.disk.journal.phase == Committed then New else Old)
  {
    RecoverEffect(w);
    var phase := w.disk.journal.phase;
    var c := Check(w);
    if phase == Committed {
      StartsUp(Deploy(Check(c), New));
    } else {
      RollbackStartsUp(c, phase);
    }
    DischargeIsSilent(Settled(c, phase));
    hide Inv, RemoveTransaction, CleanFrom, Start, Rollback, Deploy, AllGen, StartedOnHeldData;
  }

  /** A job that gave up and took everything back has the services running on the old data,
      exactly as its Stop held it if files may have been moved. */
  lemma UndoneJobRuns(end: World, phase: Phase)
    requires end.status == Error && CanRollBack(end.disk, phase) && Rollback(Resume(end), phase).status == Going
    ensures var r := Undo(end, phase);
            r.disk.running == Some(Old) && (Switched(phase) ==> StartedOnHeldData(r.disk))
  {
    UndoEffect(end, phase);
    RollbackStartsUp(Resume(end), phase);
    CleanupIsSilent(Rollback(Resume(end), phase));
    hide Rollback, Cleanup, CanRollBack, AllGen, Inv, StartedOnHeldData;
  }
}
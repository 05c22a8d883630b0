/** What can keep a restore job from committing, and a recovery from finishing: a step
    that fails, a crash, and nothing else; and how many steps they take. */
module RestoreProgress {
  import opened RestoreTransaction
  import opened RestoreSafety
  import opened Wrappers

  /** No step that is still to come fails; where the script ends, the process dies. */
  ghost predicate Works(script: seq<Choice>) {
    forall k | 0 <= k < |script| :: script[k].outcome.Done?
  }

  /** Nothing has failed, and the process has at least `n` more steps to live; of a
      negative `n` nothing is said about that. */
  ghost predicate Fine(w: World, n: int) {
    w.status != Error && (w.status == Going ==> Works(w.script)) && (n >= 0 ==> w.status == Going && |w.script| >= n)
  }

  lemma ActFine(w: World, n: int, done: Disk, failed: Disk, late: Disk)
    requires Fine(w, n)
    ensures var r := Act(w, done, failed, late); Fine(r, n - 1) && (r.status == Going ==> r.disk == done)
  {
    if w.status == Going && w.script != [] {
      assert w.script[0].outcome.Done?;
    }
  }

  lemma CheckFine(w: World, n: int)
    requires Fine(w, n)
    ensures Fine(Check(w), n - 1)
  {
    ActFine(w, n, w.disk, w.disk, w.disk);
  }

  lemma {:induction false} ChecksFine(w: World, n: int, k: nat)
    requires Fine(w, n)
    ensures Fine(Checks(w, k), n - k)
    decreases k
  {
    if k == 0 {
    } else {
      CheckFine(w, n);
      ChecksFine(Check(w), n - 1, k - 1);
    }
  }

  lemma DeployFine(w: World, n: int, g: Gen)
    requires Fine(w, n)
    ensures Fine(Deploy(w, g), n - 1)
  {
    CheckFine(w, n);
  }

  lemma StartFine(w: World, n: int)
    requires Fine(w, n)
    ensures Fine(Check(Start(w)), n - 2)
  {
    var d := Settle(w);
    var up := d.(running := Some(Generation(d.targets)), history := d.history + [Started(d.targets, w.images)]);
    ActFine(w, n, up, up, up);
    CheckFine(Start(w), n - 1);
  }

  lemma PersistFine(w: World, n: int, phase: Phase)
    requires Fine(w, n)
    ensures Fine(Persist(w, phase), n - 1)
  {
    var written := w.disk.(journal := Written(phase));
    ActFine(w, n, written, w.disk, written);
  }

  // ------------------------------------------------------------------- forward

  lemma {:induction false} StageFine(w: World, n: int, archive: nat -> int, i: nat)
    requires Fine(w, n) && i <= |w.disk.targets|
    ensures Fine(StageFrom(w, archive, i), n - (|w.disk.targets| - i))
    decreases |w.disk.targets| - i
  {
    if i < |w.disk.targets| {
      var t := w.disk.targets[i];
      ActFine(w, n, Set(w.disk, i, t.(staged := true, candidate := Some(Blob(New, archive(i))))),
              w.disk, Set(w.disk, i, t.(staged := true)));
      StageFine(StageTarget(w, i, archive(i)), n - 1, archive, i + 1);
    }
  }

  /** A target that existed is there to be copied. */
  ghost predicate Copyable(ts: seq<Target>, from: nat) {
    forall j | from <= j < |ts| :: ts[j].existed ==> ts[j].live.Some?
  }

  lemma {:induction false} SnapshotFine(w: World, n: int, i: nat)
    requires Fine(w, n) && Copyable(w.disk.targets, i) && i <= |w.disk.targets|
    ensures Fine(SnapshotFrom(w, i), n - (|w.disk.targets| - i))
    decreases |w.disk.targets| - i
  {
    if i < |w.disk.targets| {
      var t := w.disk.targets[i];
      if t.existed {
        var partial := Set(w.disk, i, t.(snapshot := Some(Blob(Mixed, t.live.value.data))));
        ActFine(w, n, Set(w.disk, i, t.(snapshot := t.live)), partial, partial);
      }
      SnapshotFine(SnapshotTarget(w, i), n - 1, i + 1);
    }
  }

  /** A target has a candidate, and no directory stands in its way that did not exist. */
  ghost predicate Installable(ts: seq<Target>, from: nat) {
    forall j | from <= j < |ts| ::
      ts[j].candidate.Some? && (ts[j].kind.Directory? && !ts[j].existed ==> ts[j].live.None?)
  }

  lemma SidecarFine(w: World, n: int, i: nat, k: nat)
    requires Fine(w, n) && i < |w.disk.targets|
    ensures Fine(RemoveSidecar(w, i, k), n - 1)
  {
    var t := w.disk.targets[i];
    if k < |t.sidecars| && t.sidecars[k].Some? {
      ActFine(w, n, Set(w.disk, i, Torn(t, k)), w.disk, w.disk);
    }
  }

  lemma {:induction false} SidecarsFine(w: World, n: int, i: nat, k: nat)
    requires Fine(w, n) && i < |w.disk.targets| && k <= SUFFIXES
    ensures Fine(RemoveSidecarsFrom(w, i, k), n - (SUFFIXES - k))
    decreases SUFFIXES - k
  {
    if k < SUFFIXES {
      SidecarFine(w, n, i, k);
      SidecarsFine(RemoveSidecar(w, i, k), n - 1, i, k + 1);
    }
  }

  lemma MoveFine(w: World, n: int, i: nat)
    requires Fine(w, n) && i < |w.disk.targets|
    ensures Fine(MoveSidecars(w, i), n - 5)
  {
    CheckFine(w, n);
    SidecarsFine(Check(w), n - 1, i, 0);
    CheckFine(RemoveSidecarsFrom(Check(w), i, 0), n - 4);
  }

  lemma ExchangeFine(w: World, n: int, i: nat)
    requires Fine(w, n) && i < |w.disk.targets| && Installable(w.disk.targets, i)
    ensures Fine(Exchange(w, i), n - 3)
  {
    var t := w.disk.targets[i];
    var x := if t.kind.Directory? && t.existed then SetAside(w, i) else w;
    ActFine(w, n, Set(w.disk, i, t.(live := None)), w.disk, w.disk);
    assert Fine(x, n - 1) && x.disk.targets[i].candidate == t.candidate;
    var u := x.disk.targets[i];
    ActFine(x, n - 1, Set(x.disk, i, u.(live := u.candidate, candidate := None)), x.disk, x.disk);
    assert Fine(Install(x, i), n - 2);
    CheckFine(Install(x, i), n - 2);
  }

  lemma SwitchTargetFine(w: World, n: int, i: nat)
    requires Fine(w, n) && i < |w.disk.targets| && WellFormed(w.disk.targets) && Installable(w.disk.targets, i)
    ensures Fine(SwitchTarget(w, i), n - 8)
  {
    if w.disk.targets[i].kind.Database? {
      MoveFine(w, n, i);
      MoveSidecarsEffect(w, i);
      var m := MoveSidecars(w, i);
      assert forall j | i < j < |w.disk.targets| :: m.disk.targets[j] == w.disk.targets[j];
      ExchangeFine(m, n - 5, i);
    } else {
      ExchangeFine(w, n, i);
    }
  }

  lemma {:induction false} SwitchFine(w: World, n: int, i: nat)
    requires Fine(w, n) && WellFormed(w.disk.targets) && Candidates(w.disk.targets, i) && Installable(w.disk.targets, i)
    requires i <= |w.disk.targets|
    ensures Fine(SwitchFrom(w, i), n - 8 * (|w.disk.targets| - i))
    decreases |w.disk.targets| - i
  {
    hide SwitchTarget, Fine, WellFormed;
    if i < |w.disk.targets| {
      SwitchTargetFine(w, n, i);
      SwitchTargetEffect(w, i);
      SwitchFine(SwitchTarget(w, i), n - 8, i + 1);
    }
  }

  lemma CommitFine(w: World, n: int)
    requires Fine(w, n)
    ensures Fine(Commit(w), n - 4)
  {
    PersistFine(w, n, Starting);
    StartFine(Persist(w, Starting), n - 1);
    PersistFine(Check(Start(Persist(w, Starting))), n - 3, Committed);
  }

  lemma SnapshotsFine(w: World, n: int)
    requires Staged(w) && Fine(w, n)
    ensures Fine(Snapshot(w), n - |w.disk.targets| - 2)
  {
    var held := StopAndHold(w);
    var d := Settle(w);
    ActFine(w, n, d.(running := None, history := d.history + [Held(d.targets)]), d, d);
    if w.script != [] {
      DriftKeeps(w.disk.targets, w.disk.running, w.script[0].work);
    }
    assert Runs(held.disk, Old) && WellFormed(held.disk.targets);
    SnapshotFine(held, n - 1, 0);
    CheckFine(SnapshotFrom(held, 0), n - 1 - |w.disk.targets|);
  }

  lemma ForwardFine(w: World, n: int)
    requires Staged(w) && Fine(w, n)
    ensures Fine(Forward(w), n - 9 * |w.disk.targets| - 7)
  {
    var t := |w.disk.targets|;
    SnapshotsFine(w, n);
    var s := Snapshot(w);
    SnapshotEffect(w);
    hide Snapshot;
    if s.status == Going {
      PersistFine(s, n - t - 2, Switching);
      assert Runs(s.disk, Old);
      SwitchFine(Persist(s, Switching), n - t - 3, 0);
      CommitFine(Switch(s), n - 9 * t - 3);
    } else {
      NotGoingAgain(s);
      CommitIdle(s);
    }
  }

  // -------------------------------------------------------------------- cleanup

  lemma {:induction false} CleanFine(w: World, n: int, i: nat)
    requires Fine(w, n) && i <= |w.disk.targets|
    ensures Fine(CleanFrom(w, i), n - (|w.disk.targets| - i))
    decreases |w.disk.targets| - i
  {
    if i < |w.disk.targets| && w.status == Going {
      ActFine(w, n, Set(w.disk, i, w.disk.targets[i].(staged := false)), w.disk, w.disk);
      CleanFine(Ignore(Atomic(w, Set(w.disk, i, w.disk.targets[i].(staged := false)))), n - 1, i + 1);
    }
  }

  lemma RemoveFine(w: World, n: int)
    requires Fine(w, n)
    ensures Fine(RemoveTransaction(w), n - 2)
  {
    ActFine(w, n, w.disk.(journal := Unwritten), w.disk, w.disk);
    var w1 := Atomic(w, w.disk.(journal := Unwritten));
    ActFine(w1, n - 1, w1.disk.(journal := NoTransaction), w1.disk, w1.disk);
  }

  // ------------------------------------------------------------------- rollback

  /** Everything that a rollback needs of the targets is there. */
  ghost predicate Returnable(ts: seq<Target>) {
    forall j | 0 <= j < |ts| :: ts[j].staged && (ts[j].existed ==> ts[j].snapshot.Some?)
  }

  lemma ReturnFine(w: World, n: int, i: nat)
    requires Fine(w, n) && i < |w.disk.targets| && Returnable(w.disk.targets)
    ensures Fine(RollbackTarget(w, i), n - 12)
  {
    var t := w.disk.targets[i];
    ChecksFine(w, n, if t.existed then 4 else 1);
    var copied := CopyBack(w, t);
    assert Fine(copied, n - 4);
    if t.kind.Database? {
      MoveFine(copied, n - 4, i);
    }
    var moved := if t.kind.Database? then MoveSidecars(copied, i) else copied;
    var u := moved.disk.targets[i];
    ActFine(moved, n - 9, Set(moved.disk, i, u.(live := None)), moved.disk, moved.disk);
    var away := Displace(moved, i);
    var v := away.disk.targets[i];
    ActFine(away, n - 10, Set(away.disk, i, v.(live := v.snapshot)), away.disk, away.disk);
    CheckFine(if v.existed then Atomic(away, Set(away.disk, i, v.(live := v.snapshot))) else away, n - 11);
  }

  lemma {:induction false} RollbackFine(w: World, n: int, i: nat)
    requires Fine(w, n) && WellFormed(w.disk.targets) && Returnable(w.disk.targets) && i <= |w.disk.targets|
    ensures Fine(RollbackFrom(w, i), n - 12 * (|w.disk.targets| - i))
    decreases |w.disk.targets| - i
  {
    if i < |w.disk.targets| {
      ReturnFine(w, n, i);
      RollbackTargetEffect(w, i);
      assert Returnable(RollbackTarget(w, i).disk.targets);
      RollbackFine(RollbackTarget(w, i), n - 12, i + 1);
    }
  }

  lemma WholeRollbackFine(w: World, n: int, phase: Phase)
    requires Fine(w, n) && WellFormed(w.disk.targets) && (Switched(phase) ==> Returnable(w.disk.targets))
    ensures Fine(Rollback(w, phase), n - 12 * |w.disk.targets| - 6)
  {
    var t := |w.disk.targets|;
    CheckFine(w, n);
    DeployFine(Check(w), n - 1, Old);
    DeployEffect(w, Old);
    var w1 := Deploy(Check(w), Old);
    if Switched(phase) {
      StopEffect(w1);
      var d := Settle(w1);
      ActFine(w1, n - 2, d.(running := None), d, d);
      assert Returnable(Stop(w1).disk.targets);
      RollbackFine(Stop(w1), n - 3, 0);
      PersistFine(RollbackFrom(Stop(w1), 0), n - 3 - 12 * t, RolledBack);
    }
    StartFine(if Switched(phase) then Persist(RollbackFrom(Stop(w1), 0), RolledBack) else w1, n - 4 - 12 * t);
  }

  // -------------------------------------------------------------- main statements

  /** A job in which no step fails does not report an error.  If the process lives for
      eleven steps a target and fifteen more, it commits, every target is new, and nothing is
      left of the transaction. */
  lemma OnlyFailuresStopAJob(d: Disk, archive: nat -> int, script: seq<Choice>)
    requires Initial(d) && Works(script)
    ensures var job := Job(d, archive, script);
            && (job.status == Dead || (job.status == Going && Runs(job.disk, New)))
            && (|script| >= 11 * |d.targets| + 15 ==> job.status == Going && job.disk.journal.NoTransaction?)
  {
    var w, n, t := World(d, script, Going, New), |script|, |d.targets|;
    CheckFine(w, n);
    ActFine(Check(w), n - 1, d.(journal := Unwritten), d, d);
    var open := Open(w);
    if open.status == Going {
      CheckFine(open, n - 2);
      StageFine(Check(open), n - 3, archive, 0);
      var c := StageFrom(Check(open), archive, 0);
      PersistFine(c, n - 3 - t, Preparing);
      PersistFine(Persist(c, Preparing), n - 4 - t, Stopping);
      StageEffect(open, archive);
      StagedFine(Stage(open, archive), n - 5 - t);
    }
    if Job(d, archive, script).status == Going {
      SuccessEndsAllNew(d, archive, script);
    }
  }

  lemma StagedFine(staged: World, n: int)
    requires Fine(staged, n) && (staged.status == Going ==> Staged(staged))
    ensures Fine(Execute(staged), n - 10 * |staged.disk.targets| - 10)
    ensures staged.status == Going && n >= 10 * |staged.disk.targets| + 10 ==>
              Execute(staged).disk.journal.NoTransaction?
  {
    hide Forward, CleanFrom, RemoveTransaction, Staged;
    if staged.status == Going {
      var t := |staged.disk.targets|;
      ForwardFine(staged, n);
      ForwardEffect(staged);
      var end := Forward(staged);
      if end.status == Going {
        CheckFine(end, n - 9 * t - 7);
        CleanFine(Check(end), n - 9 * t - 8, 0);
        RemoveFine(CleanFrom(Check(end), 0), n - 10 * t - 8);
        GoneWhenGoing(CleanFrom(Check(end), 0));
      }
    }
  }

  lemma GoneWhenGoing(w: World)
    ensures RemoveTransaction(w).status == Going ==> RemoveTransaction(w).disk.journal.NoTransaction?
  {
  }

  /** A recovery in which no step fails reports an error exactly when the work directory
      of some target is gone, which a crash during a cleanup leaves behind.  After a
      switch that cannot be: the snapshots are still there, and thirteen steps a target
      and ten more bring the old data back. */
  lemma OnlyFailuresStopARecovery(d: Disk, script: seq<Choice>)
    requires Inv(d) && d.journal.Written? && Works(script)
    ensures var r := Recover(World(d, script, Going, Mixed));
            var gone := exists i :: 0 <= i < |d.targets| && !d.targets[i].staged;
            && (r.status == Error <==> gone)
            && (Switched(d.journal.phase) ==> !gone)
            && (!gone && |script| >= 13 * |d.targets| + 10 ==> r.status == Going)
  {
    var w, n, t := World(d, script, Going, Mixed), |script|, |d.targets|;
    if forall i | 0 <= i < |d.targets| :: d.targets[i].staged {
      var phase := d.journal.phase;
      CheckFine(w, n);
      SettledFine(Check(w), n - 1, phase);
      SettledEffect(Check(w));
      var s := Settled(Check(w), phase);
      SettledSize(Check(w), phase);
      CheckFine(s, n - 7 - 12 * t);
      CleanFine(Check(s), n - 8 - 12 * t, 0);
      RemoveFine(CleanFrom(Check(s), 0), n - 8 - 13 * t);
    }
  }

  lemma SettledSize(w: World, phase: Phase)
    ensures |Settled(w, phase).disk.targets| == |w.disk.targets|
  {
    hide RollbackFrom;
    SameSize(w, Old);
    SameSize(w, New);
    var w1 := Deploy(Check(w), Old);
    SizeOfStop(w1);
    var b := RollbackFrom(Stop(w1), 0);
    SizeOfStart(Persist(b, RolledBack));
    SizeOfStart(w1);
    SizeOfStart(Deploy(Check(w), New));
    hide Start, Stop, Deploy, Check;
  }

  lemma SameSize(w: World, g: Gen)
    ensures Deploy(Check(w), g).disk == w.disk
  {
  }

  lemma SizeOfStop(w: World)
    ensures |Stop(w).disk.targets| == |w.disk.targets|
  {
  }

  lemma SizeOfStart(w: World)
    ensures |Check(Start(w)).disk.targets| == |w.disk.targets|
  {
    hide Generation;
  }

  lemma SettledFine(w: World, n: int, phase: Phase)
    requires Fine(w, n) && Inv(w.disk) && w.disk.journal == Written(phase)
    ensures Fine(Settled(w, phase), n - 12 * |w.disk.targets| - 6)
  {
    if phase == Committed {
      CheckFine(w, n);
      DeployFine(Check(w), n - 1, New);
      StartFine(Deploy(Check(w), New), n - 2);
    } else {
      WholeRollbackFine(w, n, phase);
    }
  }
}

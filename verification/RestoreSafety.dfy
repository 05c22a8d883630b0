/** What every run of the restore transaction keeps, and exactly when. */
module RestoreSafety {
  import opened RestoreTransaction
  import opened Wrappers

  // ----------------------------------------------------------------- invariant

  ghost predicate WellFormed(ts: seq<Target>) {
    0 < |ts| && forall i | 0 <= i < |ts| ::
      |ts[i].sidecars| == SUFFIXES
        && (!ts[i].kind.Database? ==> forall k | 0 <= k < SUFFIXES :: ts[i].sidecars[k].None?)
  }

  /** Every target that existed has a finished snapshot of what the job's Stop held. */
  ghost predicate Snapshots(ts: seq<Target>, held: seq<Target>) {
    && |ts| == |held|
    && forall i | 0 <= i < |ts| ::
         ts[i].staged && (ts[i].existed <==> held[i].live.Some?) &&
         (ts[i].existed ==> ts[i].snapshot == held[i].live && ts[i].snapshot.value.gen == Old)
  }

  ghost predicate HoldsSnapshots(d: Disk) {
    |d.history| > 0 && d.history[0].Held? && Snapshots(d.targets, d.history[0].targets)
  }

  ghost predicate Runs(d: Disk, g: Gen) {
    AllGen(d.targets, g) && (d.running.None? || d.running == Some(g))
  }

  ghost predicate Inv(d: Disk) {
    && WellFormed(d.targets)
    && EveryStartCoherent(d)
    && match d.journal
       case NoTransaction => Runs(d, Old) || Runs(d, New)
       case Unwritten => Runs(d, Old) || Runs(d, New)
       case Written(Committed) => Runs(d, New)
       case Written(phase) => if Switched(phase) then HoldsSnapshots(d) else Runs(d, Old)
  }

  ghost predicate Initial(d: Disk) {
    && d.journal.NoTransaction? && d.history == []
    && WellFormed(d.targets) && Runs(d, Old)
    && forall i | 0 <= i < |d.targets| ::
       d.targets[i].candidate.None? && d.targets[i].snapshot.None? && !d.targets[i].staged
  }

  /** Everything but the live file and its sidecars. */
  ghost predicate SameRest(a: Target, b: Target) {
    a.(live := None, sidecars := []) == b.(live := None, sidecars := [])
  }

  ghost predicate OnlyTarget(d: Disk, e: Disk, i: nat)
    requires i < |d.targets|
  {
    |e.targets| == |d.targets| && e == Set(d, i, e.targets[i])
  }

  // ------------------------------------------------------------ rollback, one target

  lemma RemoveSidecarsEffect(w: World, i: nat, k: nat)
    requires i < |w.disk.targets| && |w.disk.targets[i].sidecars| == SUFFIXES
    ensures var r := RemoveSidecarsFrom(w, i, k);
            && OnlyTarget(w.disk, r.disk, i) && r.images == w.images
            && SameRest(w.disk.targets[i], r.disk.targets[i])
            && |r.disk.targets[i].sidecars| == SUFFIXES
            && (r.status == Going ==> w.status == Going) && (w.status != Going ==> r == w)
            && (forall j | 0 <= j < SUFFIXES ::
               w.disk.targets[i].sidecars[j].None? ==> r.disk.targets[i].sidecars[j].None?)
            && (r.status == Going ==> forall j | k <= j < SUFFIXES :: r.disk.targets[i].sidecars[j].None?)
    decreases SUFFIXES - k
  {
    if k < SUFFIXES {
      RemoveSidecarsEffect(RemoveSidecar(w, i, k), i, k + 1);
    }
  }

  /** What a step on the live file of one target may do. */
  ghost predicate Step(w: World, r: World, i: nat)
    requires i < |w.disk.targets|
  {
    && OnlyTarget(w.disk, r.disk, i) && r.images == w.images
    && SameRest(w.disk.targets[i], r.disk.targets[i])
    && |r.disk.targets[i].sidecars| == |w.disk.targets[i].sidecars|
    && (r.status == Going ==> w.status == Going)
  }

  ghost predicate NoSidecars(t: Target) {
    forall k | 0 <= k < |t.sidecars| :: t.sidecars[k].None?
  }

  lemma MoveSidecarsEffect(w: World, i: nat)
    requires i < |w.disk.targets| && |w.disk.targets[i].sidecars| == SUFFIXES
    ensures var r := MoveSidecars(w, i);
            && Step(w, r, i) && (w.status != Going ==> r == w)
            && (NoSidecars(w.disk.targets[i]) ==> NoSidecars(r.disk.targets[i]))
            && (r.status == Going ==> NoSidecars(r.disk.targets[i]))
  {
    RemoveSidecarsEffect(Check(w), i, 0);
  }

  lemma PutBackEffect(w: World, i: nat)
    requires i < |w.disk.targets|
    ensures var r := PutBack(Displace(w, i), i);
            var t := w.disk.targets[i];
            && Step(w, r, i)
            && r.disk.targets[i].sidecars == t.sidecars
            && (r.status == Going ==> r.disk.targets[i].live == if t.existed then t.snapshot else None)
  {
    hide Check, Atomic;
    AtomicEffect(w, Set(w.disk, i, w.disk.targets[i].(live := None)));
    var d := Displace(w, i);
    assert d.disk == Set(w.disk, i, w.disk.targets[i].(live := d.disk.targets[i].live));
    var t := d.disk.targets[i];
    var copied := Set(d.disk, i, t.(live := t.snapshot));
    AtomicEffect(d, copied);
    CheckEffect(if t.existed then Atomic(d, copied) else d);
  }

  lemma AtomicEffect(w: World, done: Disk)
    ensures var r := Atomic(w, done);
            && (r.status == Going ==> w.status == Going && r.disk == done) && r.images == w.images
            && (r.disk == w.disk || r.disk == done)
  {
  }

  lemma RollbackTargetEffect(w: World, i: nat)
    requires i < |w.disk.targets| && WellFormed(w.disk.targets)
    ensures var r := RollbackTarget(w, i);
            && Step(w, r, i)
            && WellFormed(r.disk.targets)
            && (r.status == Going ==> Restored(r.disk.targets[i]))
  {
    var copied := CopyBack(w, w.disk.targets[i]);
    if w.disk.targets[i].kind.Database? {
      MoveSidecarsEffect(copied, i);
      PutBackEffect(MoveSidecars(copied, i), i);
    } else {
      PutBackEffect(copied, i);
    }
  }

  /** The live file is the snapshot again, alone, or absent as it was. */
  ghost predicate Restored(t: Target) {
    && t.live == (if t.existed then t.snapshot else None)
    && (t.existed ==> t.snapshot.Some?)
    && NoSidecars(t)
  }

  lemma RollbackFromEffect(w: World, i: nat)
    requires i <= |w.disk.targets| && WellFormed(w.disk.targets)
    requires w.status == Going ==> forall j | 0 <= j < i :: Restored(w.disk.targets[j])
    ensures var r := RollbackFrom(w, i);
            && r.disk == w.disk.(targets := r.disk.targets) && r.images == w.images
            && |r.disk.targets| == |w.disk.targets| && WellFormed(r.disk.targets)
            && (forall j | 0 <= j < |w.disk.targets| :: SameRest(w.disk.targets[j], r.disk.targets[j]))
            && (r.status == Going ==> w.status == Going)
            && (r.status == Going ==> forall j | 0 <= j < |r.disk.targets| :: Restored(r.disk.targets[j]))
    decreases |w.disk.targets| - i
  {
    if i < |w.disk.targets| {
      RollbackTargetEffect(w, i);
      RollbackFromEffect(RollbackTarget(w, i), i + 1);
    }
  }

  // --------------------------------------------------------------- stop and start

  lemma DriftKeeps(ts: seq<Target>, running: Option<Gen>, work: Work)
    requires WellFormed(ts)
    ensures var r := Drift(ts, running, work);
            && |r| == |ts| && WellFormed(r)
            && (forall i | 0 <= i < |ts| :: SameRest(ts[i], r[i]))
            && (forall g | AllGen(ts, g) && (running.None? || running == Some(g)) :: AllGen(r, g))
  {
  }

  ghost predicate Serves(w: World, g: Gen) {
    && g != Mixed && WellFormed(w.disk.targets) && EveryStartCoherent(w.disk) && Runs(w.disk, g)
    && (w.status == Going && w.disk.rebuild ==> w.images == g)
  }

  lemma StartEffect(w: World, g: Gen)
    requires Serves(w, g)
    ensures var r := Start(w);
            && Serves(r, g) && r.disk.journal == w.disk.journal && r.disk.rebuild == w.disk.rebuild
            && |r.disk.targets| == |w.disk.targets|
            && (forall i | 0 <= i < |w.disk.targets| :: SameRest(w.disk.targets[i], r.disk.targets[i]))
            && (r.status == Going ==> w.status == Going)
            && (r.status == Going ==> r.disk.history == w.disk.history + [Started(r.disk.targets, w.images)])
            && (w.disk.running.None? ==> r.disk.targets == w.disk.targets)
            && w.disk.history <= r.disk.history
  {
    if w.status == Going && w.script != [] {
      DriftKeeps(w.disk.targets, w.disk.running, w.script[0].work);
      var d := Settle(w);
      assert AllGen(d.targets, g);
      assert OfGen(d.targets[0], g);
      assert Generation(d.targets) == g;
      var e := Started(d.targets, w.images);
      assert Coherent(e, w.disk.rebuild);
    }
  }

  lemma StopEffect(w: World)
    requires WellFormed(w.disk.targets)
    ensures var r := Stop(w);
            && r.disk == w.disk.(targets := r.disk.targets, running := r.disk.running) && r.images == w.images
            && |r.disk.targets| == |w.disk.targets| && WellFormed(r.disk.targets)
            && (forall i | 0 <= i < |w.disk.targets| :: SameRest(w.disk.targets[i], r.disk.targets[i]))
            && (r.status == Going ==> w.status == Going && r.disk.running.None?)
            && (forall g | Runs(w.disk, g) :: Runs(r.disk, g))
  {
    if w.status == Going && w.script != [] {
      DriftKeeps(w.disk.targets, w.disk.running, w.script[0].work);
    }
  }

  // ------------------------------------------------------------------- rollback

  /** What a rollback entered with `phase` in memory may rely on. */
  ghost predicate CanRollBack(d: Disk, phase: Phase) {
    && WellFormed(d.targets) && EveryStartCoherent(d) && d.journal.Written?
    && if Switched(phase) then Switched(d.journal.phase) && HoldsSnapshots(d)
       else !Switched(d.journal.phase) && d.journal.phase != Committed && Runs(d, Old)
  }

  lemma DeployEffect(w: World, g: Gen)
    ensures var r := Deploy(Check(w), g);
            && r.disk == w.disk && (r.status == Going ==> w.status == Going)
            && (r.status == Going && w.disk.rebuild ==> r.images == g)
  {
  }

  lemma RestoredIsOld(d: Disk)
    requires WellFormed(d.targets) && HoldsSnapshots(d)
    requires forall j | 0 <= j < |d.targets| :: Restored(d.targets[j])
    ensures AllGen(d.targets, Old)
    ensures forall j | 0 <= j < |d.targets| :: d.targets[j].live == d.history[0].targets[j].live
  {
  }

  ghost predicate SameSnapshot(a: Target, b: Target) {
    a.kind == b.kind && a.existed == b.existed && a.snapshot == b.snapshot && a.staged == b.staged
  }

  /** The targets of a job do not change while it runs. */
  ghost predicate SameShapes(d: Disk, e: Disk) {
    && |e.targets| == |d.targets|
    && forall j | 0 <= j < |d.targets| ::
       e.targets[j].kind == d.targets[j].kind && e.targets[j].existed == d.targets[j].existed
  }

  lemma HoldsPreserved(d: Disk, e: Disk)
    requires HoldsSnapshots(d) && e.history == d.history && |e.targets| == |d.targets|
    requires forall i | 0 <= i < |d.targets| :: SameSnapshot(d.targets[i], e.targets[i])
    ensures HoldsSnapshots(e)
  {
  }

  /** The data part of a rollback: it needs only the journal and the snapshots, so it
      can be interrupted and started again any number of times. */
  lemma RestoreDataEffect(w: World)
    requires WellFormed(w.disk.targets) && HoldsSnapshots(w.disk)
    ensures var r := RollbackFrom(Stop(w), 0);
            && HoldsSnapshots(r.disk) && WellFormed(r.disk.targets) && r.images == w.images
            && r.disk.rebuild == w.disk.rebuild && r.disk.history == w.disk.history && r.disk.journal == w.disk.journal
            && (r.status == Going ==>
                  w.status == Going && r.disk.running.None?
                  && forall j | 0 <= j < |r.disk.targets| :: Restored(r.disk.targets[j]))
  {
    var s := Stop(w);
    StopEffect(w);
    assert forall i | 0 <= i < |w.disk.targets| :: SameRest(w.disk.targets[i], s.disk.targets[i]);
    HoldsPreserved(w.disk, s.disk);
    RollbackFromEffect(s, 0);
    var r := RollbackFrom(s, 0);
    assert forall i | 0 <= i < |s.disk.targets| :: SameRest(s.disk.targets[i], r.disk.targets[i]);
    HoldsPreserved(s.disk, r.disk);
  }

  lemma MarkRolledBack(b: World)
    requires WellFormed(b.disk.targets) && HoldsSnapshots(b.disk) && EveryStartCoherent(b.disk)
    requires b.disk.journal.Written? && Switched(b.disk.journal.phase)
    requires b.status == Going ==>
               b.disk.running.None? && forall j | 0 <= j < |b.disk.targets| :: Restored(b.disk.targets[j])
    ensures var r := Persist(b, RolledBack);
            && Inv(r.disk) && r.images == b.images
            && r.disk == b.disk.(journal := r.disk.journal)
            && (r.status == Going ==> b.status == Going && r.disk.journal == Written(RolledBack) && Runs(r.disk, Old))
  {
    if b.status == Going {
      RestoredIsOld(b.disk);
    }
  }

  lemma StartAfterRollback(w: World)
    requires Inv(w.disk)
    requires w.status == Going ==>
               && w.disk.journal.Written? && Runs(w.disk, Old)
               && !Switched(w.disk.journal.phase) && w.disk.journal.phase != Committed
               && (w.disk.rebuild ==> w.images == Old)
    ensures var r := Check(Start(w));
            && Inv(r.disk) && (r.status == Going ==> w.status == Going && Runs(r.disk, Old))
            && w.disk.history <= r.disk.history
            && (r.status == Going ==> r.disk.history == w.disk.history + [Started(r.disk.targets, w.images)])
            && (r.status == Going && w.disk.running.None? ==> r.disk.targets == w.disk.targets)
  {
    if w.status == Going {
      StartEffect(w, Old);
    }
  }

  lemma SwitchedRollback(w: World, phase: Phase)
    requires CanRollBack(w.disk, phase) && Switched(phase)
    ensures var r := Rollback(w, phase);
            && Inv(r.disk) && (r.status == Going ==> Runs(r.disk, Old) && StartedOnHeldData(r.disk))
            && w.disk.history <= r.disk.history
  {
    var w1 := Deploy(Check(w), Old);
    DeployEffect(w, Old);
    var b := RollbackFrom(Stop(w1), 0);
    RestoreDataEffect(w1);
    MarkRolledBack(b);
    var w2 := Persist(b, RolledBack);
    StartAfterRollback(w2);
    var r := Check(Start(w2));
    assert r == Rollback(w, phase);
    if r.status == Going {
      RestoredIsOld(w2.disk);
      assert r.disk.history[0] == w2.disk.history[0];
    }
  }

  /** A rollback that may rely on the journal and the snapshots keeps the invariant
      whatever happens to it, and one that finishes started the services on exactly
      the data the job's own Stop had held. */
  lemma RollbackEffect(w: World, phase: Phase)
    requires CanRollBack(w.disk, phase)
    ensures var r := Rollback(w, phase);
            && Inv(r.disk) && (r.status == Going ==> Runs(r.disk, Old))
            && (r.status == Going && Switched(phase) ==> StartedOnHeldData(r.disk))
            && w.disk.history <= r.disk.history
  {
    if Switched(phase) {
      SwitchedRollback(w, phase);
    } else {
      DeployEffect(w, Old);
      StartAfterRollback(Deploy(Check(w), Old));
    }
  }

  /** The last Start found every target as the job's Stop left it, without sidecars. */
  ghost predicate StartedOnHeldData(d: Disk) {
    && |d.history| > 1 && d.history[0].Held? && d.history[|d.history| - 1].Started?
    && var seen, held := d.history[|d.history| - 1].targets, d.history[0].targets;
       && |seen| == |held|
       && forall i | 0 <= i < |seen| :: seen[i].live == held[i].live && NoSidecars(seen[i])
  }

  // -------------------------------------------------------------------- forward

  ghost predicate Candidates(ts: seq<Target>, from: nat) {
    forall j | from <= j < |ts| :: ts[j].staged && ts[j].candidate.Some? && ts[j].candidate.value.gen == New
  }

  /** A transaction that has not touched a live file. */
  ghost predicate Untouched(d: Disk) {
    && WellFormed(d.targets) && d.history == [] && Runs(d, Old)
    && d.journal != Written(Committed) && !(d.journal.Written? && Switched(d.journal.phase))
  }

  /** The targets before `upto` have their candidates. */
  ghost predicate Staging(w: World, upto: nat) {
    && Untouched(w.disk) && upto <= |w.disk.targets|
    && (w.status == Going ==> forall j | 0 <= j < upto ::
       w.disk.targets[j].staged && w.disk.targets[j].candidate.Some? && w.disk.targets[j].candidate.value.gen == New)
  }

  lemma StageTargetEffect(w: World, i: nat, data: int)
    requires Staging(w, i) && i < |w.disk.targets|
    ensures var r := StageTarget(w, i, data);
            && Staging(r, i + 1) && OnlyTarget(w.disk, r.disk, i) && SameShapes(w.disk, r.disk)
            && r.images == w.images && (r.status == Going ==> w.status == Going)
  {
    var r := StageTarget(w, i, data);
    assert forall j | 0 <= j < |w.disk.targets| :: OfGen(w.disk.targets[j], Old) ==> OfGen(r.disk.targets[j], Old);
  }

  lemma StageFromEffect(w: World, archive: nat -> int, i: nat)
    requires Staging(w, i)
    ensures var r := StageFrom(w, archive, i);
            && Staging(r, |r.disk.targets|) && SameShapes(w.disk, r.disk)
            && r.images == w.images && (r.status == Going ==> w.status == Going)
    decreases |w.disk.targets| - i
  {
    if i < |w.disk.targets| {
      StageTargetEffect(w, i, archive(i));
      StageFromEffect(StageTarget(w, i, archive(i)), archive, i + 1);
    }
  }

  /** Ready to be switched: only the journal says that anything is going on. */
  ghost predicate Staged(w: World) {
    && Untouched(w.disk) && w.disk.journal == Written(Stopping)
    && Candidates(w.disk.targets, 0) && w.images == New && w.status == Going
  }

  lemma PersistUntouched(w: World, phase: Phase)
    requires Untouched(w.disk) && (phase == Preparing || phase == Stopping)
    ensures var r := Persist(w, phase);
            && Untouched(r.disk) && r.images == w.images && r.disk.targets == w.disk.targets
            && (r.status == Going ==> w.status == Going && r.disk.journal == Written(phase))
  {
  }

  lemma StageEffect(w: World, archive: nat -> int)
    requires Untouched(w.disk) && w.images == New && w.status == Going
    ensures var r := Stage(w, archive);
            && Untouched(r.disk) && SameShapes(w.disk, r.disk)
            && (r.status == Going ==> Staged(r))
  {
    StageFromEffect(Check(w), archive, 0);
    var c := StageFrom(Check(w), archive, 0);
    PersistUntouched(c, Preparing);
    PersistUntouched(Persist(c, Preparing), Stopping);
  }

  /** Stopped, with the snapshots of the first `upto` targets taken. */
  ghost predicate Snapped(w: World, upto: nat) {
    var d := w.disk;
    && WellFormed(d.targets) && Runs(d, Old) && d.journal == Written(Stopping) && EveryStartCoherent(d)
    && Candidates(d.targets, 0) && w.images == New
    && (w.status == Going ==>
          && |d.history| > 0 && d.history[0].Held? && |d.history[0].targets| == |d.targets|
          && d.running.None?
          && (forall j | 0 <= j < |d.targets| :: d.targets[j].live == d.history[0].targets[j].live)
          && (forall j | 0 <= j < upto && j < |d.targets| ::
             d.targets[j].existed ==> d.targets[j].snapshot == d.targets[j].live))
  }

  lemma SnapshotFromEffect(w: World, i: nat)
    requires Snapped(w, i)
    ensures var r := SnapshotFrom(w, i);
            Snapped(r, |r.disk.targets|) && SameShapes(w.disk, r.disk) && (r.status == Going ==> w.status == Going)
    decreases |w.disk.targets| - i
  {
    if i < |w.disk.targets| {
      SnapshotTargetEffect(w, i);
      SnapshotFromEffect(SnapshotTarget(w, i), i + 1);
    }
  }

  lemma SnapshotTargetEffect(w: World, i: nat)
    requires Snapped(w, i) && i < |w.disk.targets|
    ensures var r := SnapshotTarget(w, i);
            Snapped(r, i + 1) && SameShapes(w.disk, r.disk) && (r.status == Going ==> w.status == Going)
  {
  }

  lemma SnapshotEffect(w: World)
    requires Staged(w)
    ensures var r := Snapshot(w);
            Snapped(r, |r.disk.targets|) && SameShapes(w.disk, r.disk) && (r.status == Going ==> HoldsSnapshots(r.disk))
  {
    hide SnapshotFrom, StopAndHold, Staged, WellFormed, EveryStartCoherent, Candidates, Runs, HoldsSnapshots;
    var s := StopAndHold(w);
    HeldEffect(w);
    SnapshotFromEffect(s, 0);
    if Snapshot(w).status == Going {
      SnappedHolds(Snapshot(w));
    }
  }

  lemma HeldEffect(w: World)
    requires Staged(w)
    ensures Snapped(StopAndHold(w), 0) && SameShapes(w.disk, StopAndHold(w).disk)
  {
    if w.script != [] {
      DriftKeeps(w.disk.targets, w.disk.running, w.script[0].work);
    }
  }

  lemma SnappedHolds(w: World)
    requires w.status == Going && Snapped(w, |w.disk.targets|)
    ensures HoldsSnapshots(w.disk)
  {
  }

  ghost predicate SwitchedTarget(t: Target) {
    t.live.Some? && t.live.value.gen == New && NoSidecars(t)
  }

  lemma AsideEffect(w: World, i: nat)
    requires i < |w.disk.targets|
    ensures var r := SetAside(w, i);
            && (w.status != Going ==> r == w) && (r.status == Going ==> w.status == Going) && r.images == w.images
            && (r.disk == w.disk || r.disk == Set(w.disk, i, w.disk.targets[i].(live := None)))
  {
  }

  lemma InstallEffect(w: World, i: nat)
    requires i < |w.disk.targets| && w.disk.targets[i].candidate.Some?
    ensures var r := Install(w, i); var t := w.disk.targets[i];
            && (w.status != Going ==> r == w) && (r.status == Going ==> w.status == Going) && r.images == w.images
            && (r.disk == w.disk || r.disk == Set(w.disk, i, t.(live := t.candidate, candidate := None)))
            && (r.status == Going ==> r.disk.targets[i].live == t.candidate)
  {
  }

  lemma CheckEffect(w: World)
    ensures var r := Check(w);
            r.disk == w.disk && r.images == w.images && (w.status != Going ==> r == w)
              && (r.status == Going ==> w.status == Going)
  {
  }

  lemma ExchangeEffect(w: World, i: nat)
    requires i < |w.disk.targets|
    requires w.disk.targets[i].candidate.Some? && w.disk.targets[i].candidate.value.gen == New
    ensures var r := Exchange(w, i);
            && (w.status != Going ==> r == w)
            && OnlyTarget(w.disk, r.disk, i) && r.images == w.images
            && SameSnapshot(w.disk.targets[i], r.disk.targets[i])
            && r.disk.targets[i].kind == w.disk.targets[i].kind
            && r.disk.targets[i].sidecars == w.disk.targets[i].sidecars
            && (r.status == Going ==>
                  w.status == Going && r.disk.targets[i].live == w.disk.targets[i].candidate)
  {
    hide SetAside, Install, Check;
    var t := w.disk.targets[i];
    var x := if t.kind.Directory? && t.existed then SetAside(w, i) else w;
    AsideEffect(w, i);
    assert x.disk.targets[i].candidate == t.candidate;
    InstallEffect(x, i);
    CheckEffect(Install(x, i));
  }

  lemma SwitchTargetEffect(w: World, i: nat)
    requires i < |w.disk.targets| && WellFormed(w.disk.targets)
    requires w.disk.targets[i].candidate.Some? && w.disk.targets[i].candidate.value.gen == New
    ensures var r := SwitchTarget(w, i);
            && (w.status != Going ==> r == w)
            && OnlyTarget(w.disk, r.disk, i) && r.images == w.images && WellFormed(r.disk.targets)
            && SameSnapshot(w.disk.targets[i], r.disk.targets[i])
            && (r.status == Going ==> w.status == Going && SwitchedTarget(r.disk.targets[i]))
  {
    if w.disk.targets[i].kind.Database? {
      MoveSidecarsEffect(w, i);
      ExchangeEffect(MoveSidecars(w, i), i);
    } else {
      ExchangeEffect(w, i);
    }
  }

  lemma SwitchFromEffect(w: World, i: nat)
    requires i <= |w.disk.targets| && WellFormed(w.disk.targets) && Candidates(w.disk.targets, i)
    requires w.status == Going ==> forall j | 0 <= j < i :: SwitchedTarget(w.disk.targets[j])
    ensures var r := SwitchFrom(w, i);
            && (w.status != Going ==> r == w)
            && r.disk == w.disk.(targets := r.disk.targets) && r.images == w.images
            && |r.disk.targets| == |w.disk.targets| && WellFormed(r.disk.targets)
            && (forall j | 0 <= j < |w.disk.targets| :: SameSnapshot(w.disk.targets[j], r.disk.targets[j]))
            && (r.status == Going ==> w.status == Going)
            && (r.status == Going ==> forall j | 0 <= j < |r.disk.targets| :: SwitchedTarget(r.disk.targets[j]))
    decreases |w.disk.targets| - i
  {
    if i < |w.disk.targets| {
      SwitchTargetEffect(w, i);
      SwitchFromEffect(SwitchTarget(w, i), i + 1);
    }
  }

  /** The memory of the process is ahead of the journal: the files are about to be
      moved although the journal does not say so. */
  ghost predicate JournalBehind(d: Disk, phase: Phase) {
    Switched(phase) && !(d.journal.Written? && Switched(d.journal.phase))
  }

  lemma SwitchedIsNew(ts: seq<Target>)
    requires forall j | 0 <= j < |ts| :: SwitchedTarget(ts[j])
    ensures AllGen(ts, New)
  {
  }

  lemma SwitchEffect(w: World)
    requires Snapped(w, |w.disk.targets|) && w.status == Going && HoldsSnapshots(w.disk)
    ensures var r := Switch(w);
            && r.images == New && WellFormed(r.disk.targets) && EveryStartCoherent(r.disk) && SameShapes(w.disk, r.disk)
            && HoldsSnapshots(r.disk)
            && (r.disk.journal == Written(Switching) || (r.status != Going && r.disk == w.disk))
            && (r.status == Going ==> r.disk.journal == Written(Switching) && Runs(r.disk, New))
  {
    hide SwitchFrom, HoldsSnapshots, Candidates, SwitchedTarget;
    var p := Persist(w, Switching);
    var r := SwitchFrom(p, 0);
    SwitchFromEffect(p, 0);
    HoldsPreserved(w.disk, r.disk);
    if r.status == Going {
      SwitchedIsNew(r.disk.targets);
    }
  }

  /** Everything is switched and still covered by the snapshots. */
  ghost predicate Replaced(w: World) {
    && WellFormed(w.disk.targets) && EveryStartCoherent(w.disk) && HoldsSnapshots(w.disk)
    && Runs(w.disk, New) && w.images == New
    && w.disk.journal.Written? && Switched(w.disk.journal.phase)
  }

  lemma StartReplaced(w: World)
    requires Replaced(w)
    ensures var r := Start(w);
            Replaced(r) && SameShapes(w.disk, r.disk)
  {
    StartEffect(w, New);
    var s := Start(w);
    assert forall i | 0 <= i < |w.disk.targets| :: SameRest(w.disk.targets[i], s.disk.targets[i]);
    assert s.disk.history[0] == w.disk.history[0];
  }

  // ------------------------------------------------------------------ whole runs

  /** How going forward can end: committed, dead, or in front of a rollback that may
      rely on the journal unless the journal is behind. */
  ghost predicate ForwardOutcome(end: World, phase: Phase) {
    && Inv(end.disk)
    && (end.status == Going ==> end.disk.journal == Written(Committed))
    && (end.status == Error ==>
          if JournalBehind(end.disk, phase) then Unprotected(end.disk) else CanRollBack(end.disk, phase))
  }

  /** The next recovery will not touch the files, whatever state they are in. */
  ghost predicate Unprotected(d: Disk) {
    && HoldsSnapshots(d) && (Runs(d, Old) || Runs(d, New))
    && (d.journal == Written(Stopping) || d.journal == Written(Committed))
  }

  lemma SwitchFailed(s: World)
    requires Snapped(s, |s.disk.targets|) && s.status == Going && HoldsSnapshots(s.disk)
    ensures var c := Switch(s); c.status != Going ==> ForwardOutcome(c, Switching) && SameShapes(s.disk, c.disk)
  {
    SwitchEffect(s);
  }

  lemma CommitOutcome(c: World)
    requires Replaced(c) && c.status == Going
    ensures ForwardOutcome(Commit(c), Starting) && SameShapes(c.disk, Commit(c).disk)
  {
    hide Persist, Start, Check, Replaced, ForwardOutcome;
    var p := Persist(c, Starting);
    RecordStart(c);
    StartReplaced(p);
    CheckReplaced(Start(p));
    RecordCommit(Check(Start(p)));
  }

  lemma RecordStart(c: World)
    requires Replaced(c)
    ensures Replaced(Persist(c, Starting)) && SameShapes(c.disk, Persist(c, Starting).disk)
  {
  }

  lemma CheckReplaced(w: World)
    requires Replaced(w)
    ensures Replaced(Check(w)) && SameShapes(w.disk, Check(w).disk)
  {
  }

  lemma RecordCommit(h: World)
    requires Replaced(h)
    ensures var r := Persist(h, Committed); ForwardOutcome(r, Starting) && SameShapes(h.disk, r.disk)
  {
    var r := Persist(h, Committed);
    assert r.disk == h.disk.(journal := r.disk.journal);
    assert HoldsSnapshots(r.disk) && Runs(r.disk, New);
  }

  lemma CommitIdle(c: World)
    requires c.status != Going
    ensures Commit(c) == c
  {
  }

  lemma ForwardEffect(w: World)
    requires Staged(w)
    ensures ForwardOutcome(Forward(w), MemoryPhase(w)) && SameShapes(w.disk, Forward(w).disk)
  {
    var s := Snapshot(w);
    SnapshotEffect(w);
    if s.status == Going {
      SwitchEffect(s);
      if Switch(s).status == Going {
        CommitOutcome(Switch(s));
      } else {
        SwitchFailed(s);
        CommitIdle(Switch(s));
      }
    } else {
      NotGoingAgain(s);
      CommitIdle(s);
    }
  }

  /** The files belong to one side, and no recovery would restore anything. */
  ghost predicate Quiet(d: Disk) {
    Inv(d) && !(d.journal.Written? && Switched(d.journal.phase))
  }

  lemma CleanEffect(w: World, i: nat)
    requires Inv(w.disk) && (w.status == Going ==> Quiet(w.disk))
    ensures var r := CleanFrom(w, i);
            && Inv(r.disk) && (r.status == Going ==> w.status == Going && Quiet(r.disk))
            && r.disk == w.disk.(targets := r.disk.targets)
            && (forall j | 0 <= j < |w.disk.targets| :: r.disk.targets[j].live == w.disk.targets[j].live)
    decreases |w.disk.targets| - i
  {
    if i < |w.disk.targets| && w.status == Going {
      var n := Ignore(Atomic(w, Set(w.disk, i, w.disk.targets[i].(staged := false))));
      assert forall g | AllGen(w.disk.targets, g) :: AllGen(n.disk.targets, g);
      CleanEffect(n, i + 1);
    }
  }

  lemma RemoveEffect(w: World)
    requires Inv(w.disk) && (w.status == Going ==> Quiet(w.disk))
    ensures var r := RemoveTransaction(w);
            && Inv(r.disk) && r.disk == w.disk.(journal := r.disk.journal)
            && (r.status == Going ==> w.status == Going && r.disk.journal.NoTransaction?)
  {
  }

  lemma CleanupEffect(w: World)
    requires Inv(w.disk) && (w.status == Going ==> Quiet(w.disk))
    ensures var r := Cleanup(w);
            && Inv(r.disk) && r.disk.history == w.disk.history
            && (forall g | Runs(w.disk, g) :: Runs(r.disk, g))
  {
    CleanEffect(w, 0);
    RemoveEffect(CleanFrom(w, 0));
    forall g | Runs(w.disk, g) ensures Runs(Cleanup(w).disk, g) {
      CleanGen(w, 0, g);
    }
  }

  lemma CleanGen(w: World, i: nat, g: Gen)
    requires Runs(w.disk, g)
    ensures Runs(CleanFrom(w, i).disk, g)
    decreases |w.disk.targets| - i
  {
    if i < |w.disk.targets| && w.status == Going {
      CleanGen(Ignore(Atomic(w, Set(w.disk, i, w.disk.targets[i].(staged := false)))), i + 1, g);
    }
  }

  lemma UndoEffect(end: World, phase: Phase)
    requires end.status == Error && CanRollBack(end.disk, phase)
    ensures var r := Undo(end, phase);
            && Inv(r.disk) && r.status != Going
            && (Rollback(Resume(end), phase).status == Going ==>
                  Runs(r.disk, Old) && (Switched(phase) ==> StartedOnHeldData(r.disk)))
  {
    hide Inv, Rollback, Cleanup, CanRollBack, Runs, Quiet;
    var back := Rollback(Resume(end), phase);
    assert CanRollBack(Resume(end).disk, phase);
    RollbackEffect(Resume(end), phase);
    if back.status == Going {
      assert Quiet(back.disk) by { RollbackQuiet(Resume(end), phase); }
      CleanupEffect(back);
    }
  }

  lemma RollbackQuiet(w: World, phase: Phase)
    requires CanRollBack(w.disk, phase) && Rollback(w, phase).status == Going
    ensures Quiet(Rollback(w, phase).disk)
  {
    RollbackEffect(w, phase);
    RollbackJournal(w, phase);
  }

  lemma RollbackJournal(w: World, phase: Phase)
    requires Rollback(w, phase).status == Going
    ensures Rollback(w, phase).disk.journal == if Switched(phase) then Written(RolledBack) else w.disk.journal
  {
  }

  lemma ExecuteEffect(staged: World)
    requires if staged.status == Going then Staged(staged) else Untouched(staged.disk)
    ensures var r := Execute(staged);
            && (staged.status == Going && Forward(staged).status == Error ==>
                  ForwardOutcome(Forward(staged), MemoryPhase(staged)) && SameShapes(staged.disk, Forward(staged).disk))
            && (!(staged.status == Going && Forward(staged).status == Error) ==> Inv(r.disk))
            && (r.status == Going ==> Runs(r.disk, New))
  {
    match staged.status
    case Dead =>
    case Error => CleanupEffect(Resume(staged));
    case Going =>
      var end := Forward(staged);
      ForwardEffect(staged);
      if end.status == Going {
        FinishEffect(end);
      }
  }

  lemma FinishEffect(end: World)
    requires Inv(end.disk) && end.status == Going && end.disk.journal == Written(Committed)
    ensures Inv(Finish(end).disk) && Runs(Finish(end).disk, New)
  {
    CleanupEffect(Check(end));
  }

  /** A job, up to the point where the journal may be behind. */
  lemma JobEffect(d: Disk, archive: nat -> int, script: seq<Choice>)
    requires Initial(d)
    ensures var w := World(d, script, Going, New);
            var job := Job(d, archive, script);
            && (match RollbackEntry(w, archive)
                case None => Inv(job.disk)
                case Some((end, phase)) =>
                  && end.status == Error && ForwardOutcome(end, phase) && job == Undo(end, phase)
                  && SameShapes(d, end.disk))
            && (job.status == Going ==> Runs(job.disk, New))
  {
    var open := Open(World(d, script, Going, New));
    if open.status == Going {
      assert Untouched(open.disk) && open.images == New;
      StageEffect(open, archive);
      ExecuteEffect(Stage(open, archive));
    }
  }

  lemma DischargeEffect(w: World, g: Gen)
    requires Inv(w.disk) && (w.status == Going ==> Quiet(w.disk) && Runs(w.disk, g))
    ensures var r := RemoveTransaction(CleanFrom(Check(w), 0));
            && Inv(r.disk) && r.disk.history == w.disk.history
            && (r.status == Going ==> w.status == Going && r.disk.journal.NoTransaction? && Runs(r.disk, g))
  {
    var checked := Check(w);
    CleanEffect(checked, 0);
    RemoveEffect(CleanFrom(checked, 0));
    if checked.status == Going {
      CleanGen(checked, 0, g);
    }
  }

  /** A recovery keeps the invariant wherever it is interrupted.  One that completes
      leaves the new data if the job had committed and the old data otherwise, and if
      files may have been moved it started the services on exactly the held data. */
  lemma RecoverEffect(w: World)
    requires Inv(w.disk) && w.status == Going && w.disk.journal.Written?
    ensures var r := Recover(w);
            && Inv(r.disk) && w.disk.history <= r.disk.history
            && (r.status == Going ==>
                  && r.disk.journal.NoTransaction?
                  && Runs(r.disk, if w.disk.journal.phase == Committed then New else Old)
                  && (Switched(w.disk.journal.phase) ==> StartedOnHeldData(r.disk)))
  {
    hide Inv, Runs, Quiet, RemoveTransaction, CleanFrom, Settled, Switched;
    if forall i | 0 <= i < |w.disk.targets| :: w.disk.targets[i].staged {
      var phase := w.disk.journal.phase;
      SettledEffect(Check(w));
      DischargeEffect(Settled(Check(w), phase), if phase == Committed then New else Old);
    }
  }

  lemma SettledEffect(w: World)
    requires Inv(w.disk) && w.disk.journal.Written?
    ensures var phase := w.disk.journal.phase; var r := Settled(w, phase);
            && Inv(r.disk) && w.disk.history <= r.disk.history
            && (r.status == Going ==>
                  && Quiet(r.disk) && Runs(r.disk, if phase == Committed then New else Old)
                  && (Switched(phase) ==> StartedOnHeldData(r.disk)))
  {
    var phase := w.disk.journal.phase;
    hide Inv, Runs, Quiet, StartedOnHeldData, Deploy, Rollback, Start;
    if phase == Committed {
      DeployEffect(w, New);
      StartEffect(Deploy(Check(w), New), New);
    } else {
      RollbackEffect(w, phase);
      if Rollback(w, phase).status == Going {
        RollbackQuiet(w, phase);
      }
    }
  }

  lemma TicksKeep(d: Disk, scripts: seq<seq<Choice>>)
    requires Inv(d)
    ensures Inv(Ticks(d, scripts)) && d.history <= Ticks(d, scripts).history
    decreases |scripts|
  {
    if scripts == [] {
    } else {
      if d.journal.Written? {
        RecoverEffect(World(d, scripts[0], Going, Mixed));
      }
      TicksKeep(Tick(d, scripts[0]), scripts[1..]);
    }
  }

  // -------------------------------------------------------------- main statements

  /** In every run of a job and of any number of recoveries after it, with any
      failure or crash between any two steps, every Start finds all targets old or
      all targets new, unless the job turned to its rollback with a journal that
      was behind. */
  lemma EveryStartSeesOneGeneration(d: Disk, archive: nat -> int, script: seq<Choice>, recoveries: seq<seq<Choice>>)
    requires Initial(d)
    requires var entry := RollbackEntry(World(d, script, Going, New), archive);
             entry.None? || !JournalBehind(entry.value.0.disk, entry.value.1)
    ensures var end := Ticks(Job(d, archive, script).disk, recoveries);
            && EveryStartCoherent(end) && Inv(end)
            && (end.journal.NoTransaction? ==> Runs(end, Old) || Runs(end, New))
  {
    JobEffect(d, archive, script);
    var entry := RollbackEntry(World(d, script, Going, New), archive);
    if entry.Some? {
      UndoEffect(entry.value.0, entry.value.1);
    }
    TicksKeep(Job(d, archive, script).disk, recoveries);
  }

  /** A job that reports success left every target new. */
  lemma SuccessEndsAllNew(d: Disk, archive: nat -> int, script: seq<Choice>)
    requires Initial(d)
    requires Job(d, archive, script).status == Going
    ensures Runs(Job(d, archive, script).disk, New)
  {
    JobEffect(d, archive, script);
  }

  // ------------------------------------------------------------------ convergence

  /** Every target is as the job's Stop held it, without sidecars. */
  ghost predicate AsHeld(ts: seq<Target>, held: seq<Target>) {
    |ts| == |held| && forall i | 0 <= i < |ts| :: ts[i].live == held[i].live && NoSidecars(ts[i])
  }

  /** Nothing was started since `d`, and either the snapshots still stand for the data or
      the data is back and stopped. */
  ghost predicate Unstarted(d: Disk, e: Disk) {
    && e.history == d.history && Inv(e) && e.journal.Written? && HoldsSnapshots(e)
    && (Switched(e.journal.phase)
        || (e.journal.phase == RolledBack && e.running.None? && AsHeld(e.targets, e.history[0].targets)))
  }

  /** The first Start since `d` found the held data, and the old side has stayed. */
  ghost predicate StartedFirst(d: Disk, e: Disk) {
    && OldSide(e)
    && |d.history| > 0 && d.history[0].Held? && d.history < e.history && Inv(e)
    && e.history[|d.history|].Started? && AsHeld(e.history[|d.history|].targets, d.history[0].targets)
  }

  ghost predicate OldSide(e: Disk) {
    Runs(e, Old) && (e.journal.Written? ==> e.journal.phase == RolledBack)
  }

  ghost predicate Converging(d: Disk, e: Disk) {
    Unstarted(d, e) || StartedFirst(d, e)
  }

  /** A Start of stopped services on the held data, whatever becomes of it. */
  lemma StartConverges(d: Disk, w: World)
    requires Unstarted(d, w.disk)
    requires w.status == Going ==> w.disk.journal.phase == RolledBack && (w.disk.rebuild ==> w.images == Old)
    ensures var r := Check(Start(w)); Converging(d, r.disk) && (r.status == Going ==> StartedFirst(d, r.disk))
  {
    if w.status == Going {
      StartEffect(w, Old);
      StartAfterRollback(w);
      if w.script != [] {
        var e := Start(w).disk;
        assert e.history == d.history + [Started(w.disk.targets, w.images)];
        assert e.history[|d.history|] == Started(w.disk.targets, w.images);
      }
    }
  }

  lemma RestoredIsAsHeld(d: Disk)
    requires WellFormed(d.targets) && HoldsSnapshots(d)
    requires forall j | 0 <= j < |d.targets| :: Restored(d.targets[j])
    ensures AsHeld(d.targets, d.history[0].targets)
  {
    RestoredIsOld(d);
  }

  /** The data part of a rollback and its record. */
  lemma UndoConverges(d: Disk, w: World)
    requires Unstarted(d, w.disk) && Switched(w.disk.journal.phase)
    ensures var r := Persist(RollbackFrom(Stop(w), 0), RolledBack);
            Unstarted(d, r.disk) && r.images == w.images && r.disk.rebuild == w.disk.rebuild
            && (r.status == Going ==> w.status == Going && r.disk.journal.phase == RolledBack)
  {
    RestoreDataEffect(w);
    var b := RollbackFrom(Stop(w), 0);
    MarkRolledBack(b);
    if b.status == Going {
      RestoredIsAsHeld(b.disk);
    }
    var r := Persist(b, RolledBack);
    assert r.disk == b.disk.(journal := r.disk.journal);
    HoldsPreserved(b.disk, r.disk);
  }

  lemma RollbackConverges(d: Disk, w: World)
    requires Unstarted(d, w.disk)
    ensures var r := Rollback(w, w.disk.journal.phase);
            Converging(d, r.disk) && (r.status == Going ==> StartedFirst(d, r.disk))
  {
    var w1 := Deploy(Check(w), Old);
    DeployEffect(w, Old);
    if Switched(w.disk.journal.phase) {
      UndoConverges(d, w1);
      StartConverges(d, Persist(RollbackFrom(Stop(w1), 0), RolledBack));
    } else {
      StartConverges(d, w1);
    }
  }

  lemma TickConverges(d: Disk, e: Disk, script: seq<Choice>)
    requires Converging(d, e)
    ensures Converging(d, Tick(e, script))
    ensures Unstarted(d, e) && Recover(World(e, script, Going, Mixed)).status == Going
            ==> StartedFirst(d, Tick(e, script))
  {
    var w := World(e, script, Going, Mixed);
    if e.journal.Written? {
      RecoverEffect(w);
    }
    if Unstarted(d, e) {
      UnstartedTick(d, w);
    } else if e.journal.Written? {
      OldStays(w);
      assert e.history <= Tick(e, script).history;
    }
  }

  /** A recovery after the rollback was recorded. */
  lemma OldStays(w: World)
    requires Inv(w.disk) && OldSide(w.disk) && w.disk.journal.Written? && w.status == Going
    ensures OldSide(Recover(w).disk)
  {
    if forall i | 0 <= i < |w.disk.targets| :: w.disk.targets[i].staged {
      var checked := Check(w);
      var w1 := Deploy(Check(checked), Old);
      DeployEffect(checked, Old);
      StartEffect(w1, Old);
      var s := Check(Start(w1));
      assert s == Settled(checked, RolledBack) && Inv(s.disk);
      DischargeOld(s);
    }
  }

  lemma DischargeOld(s: World)
    requires Inv(s.disk) && OldSide(s.disk)
    ensures OldSide(RemoveTransaction(CleanFrom(Check(s), 0)).disk)
  {
    hide Inv, EveryStartCoherent, WellFormed;
    var c := CleanFrom(Check(s), 0);
    assert Quiet(s.disk);
    CleanEffect(Check(s), 0);
    CleanGen(Check(s), 0, Old);
    OldUnmarked(c);
  }

  lemma OldUnmarked(c: World)
    requires OldSide(c.disk)
    ensures OldSide(RemoveTransaction(c).disk)
  {
  }

  lemma UnstartedTick(d: Disk, w: World)
    requires Unstarted(d, w.disk) && w.status == Going
    ensures Converging(d, Recover(w).disk) && (Recover(w).status == Going ==> StartedFirst(d, Recover(w).disk))
  {
    hide Inv, Runs, AsHeld, HoldsSnapshots, Rollback, CleanFrom, RemoveTransaction, WellFormed, Quiet;
    if forall i | 0 <= i < |w.disk.targets| :: w.disk.targets[i].staged {
      RecoverEffect(w);
      var s := Rollback(Check(w), w.disk.journal.phase);
      RollbackConverges(d, Check(w));
      SettledEffect(Check(w));
      if s.status == Going {
        DischargeEffect(s, Old);
        DischargeOld(s);
      } else {
        StoppedStays(s);
      }
    }
  }

  lemma StoppedStays(s: World)
    requires s.status != Going
    ensures RemoveTransaction(CleanFrom(Check(s), 0)) == s
  {
  }

  lemma {:induction false} TicksConverge(d: Disk, e: Disk, scripts: seq<seq<Choice>>)
    requires Converging(d, e)
    ensures Converging(d, Ticks(e, scripts))
    decreases |scripts|
  {
    hide Converging, Tick;
    if scripts == [] {
    } else {
      TickConverges(d, e, scripts[0]);
      TicksConverge(d, Tick(e, scripts[0]), scripts[1..]);
    }
  }

  /** Recoveries of a switch can be interrupted anywhere and any number of times, also
      between the record of the rollback and the Start that follows it.  The first Start
      that any of them makes finds every target as it was held before all of them, without
      sidecars; and once the transaction is gone, such a Start was made and the old data
      is in place. */
  lemma RecoveryConverges(d: Disk, scripts: seq<seq<Choice>>)
    requires Inv(d) && d.journal.Written? && Switched(d.journal.phase)
    ensures var e := Ticks(d, scripts);
            && d.history <= e.history
            && (e.history != d.history ==>
                  var first := e.history[|d.history|]; first.Started? && AsHeld(first.targets, d.history[0].targets))
            && (e.journal.NoTransaction? ==> e.history != d.history && Runs(e, Old))
  {
    assert Unstarted(d, d);
    TicksConverge(d, d, scripts);
  }

  // ------------------------------------------------------------- one job after another

  datatype JobRun = JobRun(rebuild: bool, archive: nat -> int, script: seq<Choice>, recoveries: seq<seq<Choice>>)

  /** What the disk holds when the next job arrives is what that job calls old. */
  function AsOld(t: Target): Target {
    t.(existed := t.live.Some?,
       live := if t.live.Some? then Some(Blob(Old, t.live.value.data)) else None,
       sidecars := seq(|t.sidecars|, k requires 0 <= k < |t.sidecars| =>
         if t.sidecars[k].Some? then Some(Old) else None),
       candidate := None, snapshot := None, staged := false)
  }

  function NextJob(d: Disk): Disk {
    Disk(seq(|d.targets|, i requires 0 <= i < |d.targets| => AsOld(d.targets[i])),
         NoTransaction, if d.running.Some? then Some(Old) else None, d.rebuild, [])
  }

  lemma NextJobIsInitial(d: Disk)
    requires Inv(d) && d.journal.NoTransaction?
    ensures Initial(NextJob(d))
  {
    var n := NextJob(d);
    forall i | 0 <= i < |n.targets| ensures OfGen(n.targets[i], Old) {
      assert OfGen(d.targets[i], Old) || OfGen(d.targets[i], New);
    }
  }

  function AfterJob(d: Disk, job: JobRun): Disk {
    Ticks(Job(d.(rebuild := job.rebuild), job.archive, job.script).disk, job.recoveries)
  }

  /** Jobs run one after another; a pending transaction refuses the next one. */
  ghost predicate AllStartsCoherent(d: Disk, jobs: seq<JobRun>)
    decreases |jobs|
  {
    jobs == [] ||
    var end := AfterJob(d, jobs[0]);
    EveryStartCoherent(end) && (end.journal.NoTransaction? ==> AllStartsCoherent(NextJob(end), jobs[1..]))
  }

  ghost predicate NeverBehind(d: Disk, jobs: seq<JobRun>)
    decreases |jobs|
  {
    jobs == [] ||
    var entry := RollbackEntry(World(d.(rebuild := jobs[0].rebuild), jobs[0].script, Going, New), jobs[0].archive);
    var end := AfterJob(d, jobs[0]);
    && (entry.None? || !JournalBehind(entry.value.0.disk, entry.value.1))
    && (end.journal.NoTransaction? ==> NeverBehind(NextJob(end), jobs[1..]))
  }

  /** Every Start of every job of every run. */
  lemma {:induction false} EveryRunIsCoherent(d: Disk, jobs: seq<JobRun>)
    requires Initial(d) && NeverBehind(d, jobs)
    ensures AllStartsCoherent(d, jobs)
    decreases |jobs|
  {
    if jobs == [] {
    } else {
      var end := AfterJob(d, jobs[0]);
      EveryStartSeesOneGeneration(d.(rebuild := jobs[0].rebuild), jobs[0].archive, jobs[0].script, jobs[0].recoveries);
      if end.journal.NoTransaction? {
        NextJobIsInitial(end);
        EveryRunIsCoherent(NextJob(end), jobs[1..]);
      }
    }
  }
}

/** The restore job as the host runs it: fields that are updated step by step, loops
    over the targets that stop at the first error, and a phase kept in memory next to
    the one on disk.  Each method is proved to do what the matching function of
    `RestoreTransaction` says, whatever the script of failures and crashes. */
module RestoreHost {
  import opened RestoreTransaction
  import opened Wrappers

  class Host {
    var disk: Disk
    var script: seq<Choice>
    var status: Status
    var images: Gen

    constructor (disk: Disk, script: seq<Choice>, images: Gen)
      ensures Now() == World(disk, script, Going, images)
    {
      this.disk, this.script, this.status, this.images := disk, script, Going, images;
    }

    ghost function Now(): World
      reads this
    {
      World(disk, script, status, images)
    }

    /** One step on the host. */
    method Perform(done: Disk, failed: Disk, late: Disk)
      modifies this
      ensures Now() == Act(old(Now()), done, failed, late)
    {
      if status != Going {
        return;
      }
      if script == [] {
        status := Dead;
        return;
      }
      match script[0].outcome {
        case Done => disk := done;
        case Failed => disk, status := failed, Error;
        case FailedLate => disk, status := late, Error;
      }
      script := script[1..];
    }

    method Verify()
      modifies this
      ensures Now() == Check(old(Now()))
    {
      Perform(disk, disk, disk);
    }

    method Change(done: Disk)
      modifies this
      ensures Now() == Atomic(old(Now()), done)
    {
      Perform(done, disk, disk);
    }

    method PersistDatabaseTransaction(phase: Phase)
      modifies this
      ensures Now() == Persist(old(Now()), phase)
    {
      Perform(disk.(journal := Written(phase)), disk, disk.(journal := Written(phase)));
    }

    /** Whatever the services wrote until now is on disk. */
    method Observe() returns (d: Disk)
      ensures d == Settle(Now())
    {
      d := if script == [] then disk
           else disk.(targets := Drift(disk.targets, disk.running, script[0].work));
    }

    method StopServices(hold: bool)
      modifies this
      ensures Now() == if hold then StopAndHold(old(Now())) else Stop(old(Now()))
    {
      var d := Observe();
      Perform(d.(running := None, history := d.history + if hold then [Held(d.targets)] else []), d, d);
      assert d.history + [] == d.history;
    }

    method StartServices()
      modifies this
      ensures Now() == Start(old(Now()))
    {
      var d := Observe();
      var up := d.(running := Some(Generation(d.targets)), history := d.history + [Started(d.targets, images)]);
      Perform(up, up, up);
    }

    method RestoreDeployment(g: Gen)
      modifies this
      ensures Now() == Deploy(old(Now()), g)
    {
      if disk.rebuild {
        Verify();
        if status == Going {
          images := g;
        }
      }
    }

    method MoveDatabaseSidecars(i: nat)
      requires i < |disk.targets|
      modifies this
      ensures Now() == MoveSidecars(old(Now()), i)
    {
      Verify();
      var k := 0;
      ghost var start := Now();
      while k < SUFFIXES
        invariant 0 <= k <= SUFFIXES && i < |disk.targets|
        invariant RemoveSidecarsFrom(Now(), i, k) == RemoveSidecarsFrom(start, i, 0)
      {
        var t := disk.targets[i];
        if k < |t.sidecars| && t.sidecars[k].Some? {
          Change(Set(disk, i, Torn(t, k)));
        }
        k := k + 1;
      }
      Verify();
    }

    method SnapshotTargets()
      modifies this
      ensures Now() == SnapshotFrom(old(Now()), 0)
    {
      var i := 0;
      while i < |disk.targets| && status == Going
        invariant 0 <= i <= |disk.targets|
        invariant SnapshotFrom(Now(), i) == SnapshotFrom(old(Now()), 0)
        decreases |disk.targets| - i
      {
        var t := disk.targets[i];
        if t.existed {
          if t.live.None? {
            status := Error;
          } else {
            var partial := Set(disk, i, t.(snapshot := Some(Blob(Mixed, t.live.value.data))));
            Perform(Set(disk, i, t.(snapshot := t.live)), partial, partial);
          }
        }
        i := i + 1;
      }
      if i < |disk.targets| {
        SnapshotIdle(Now(), i);
      }
    }

    method SwitchTargets()
      modifies this
      ensures Now() == SwitchFrom(old(Now()), 0)
    {
      var i := 0;
      while i < |disk.targets| && status == Going
        invariant 0 <= i <= |disk.targets|
        invariant SwitchFrom(Now(), i) == SwitchFrom(old(Now()), 0)
        decreases |disk.targets| - i
      {
        if disk.targets[i].kind.Database? {
          MoveDatabaseSidecars(i);
        }
        ExchangeTarget(i);
        i := i + 1;
      }
      if i < |disk.targets| {
        SwitchIdle(Now(), i);
      }
    }

    method ExchangeTarget(i: nat)
      requires i < |disk.targets|
      modifies this
      ensures Now() == Exchange(old(Now()), i)
    {
      var t := disk.targets[i];
      if t.kind.Directory? && t.existed {
        Change(Set(disk, i, t.(live := None)));
      }
      t := disk.targets[i];
      if t.candidate.None? || (t.kind.Directory? && t.live.Some?) {
        status := if status == Going then Error else status;
      } else {
        Change(Set(disk, i, t.(live := t.candidate, candidate := None)));
      }
      Verify();
    }

    method RollbackTargets()
      modifies this
      ensures Now() == RollbackFrom(old(Now()), 0)
    {
      var i := 0;
      while i < |disk.targets| && status == Going
        invariant 0 <= i <= |disk.targets|
        invariant RollbackFrom(Now(), i) == RollbackFrom(old(Now()), 0)
        decreases |disk.targets| - i
      {
        CopySnapshot(i);
        if disk.targets[i].kind.Database? {
          MoveDatabaseSidecars(i);
        }
        if disk.targets[i].live.Some? {
          Change(Set(disk, i, disk.targets[i].(live := None)));
        }
        ReturnCopy(i);
        i := i + 1;
      }
      if i < |disk.targets| {
        RollbackIdle(Now(), i);
      }
    }

    method CopySnapshot(i: nat)
      requires i < |disk.targets|
      modifies this
      ensures Now() == CopyBack(old(Now()), old(disk.targets[i]))
    {
      var t := disk.targets[i];
      if !t.staged || (t.existed && t.snapshot.None?) {
        status := if status == Going then Error else status;
      } else {
        var n := if t.existed then 4 else 1;
        while n > 0
          invariant n >= 0
          invariant Checks(Now(), n) == CopyBack(old(Now()), t)
        {
          Verify();
          n := n - 1;
        }
      }
    }

    method ReturnCopy(i: nat)
      requires i < |disk.targets|
      modifies this
      ensures Now() == PutBack(old(Now()), i)
    {
      var t := disk.targets[i];
      if t.existed {
        Change(Set(disk, i, t.(live := t.snapshot)));
      }
      Verify();
    }

    method RollbackDatabaseTransaction(phase: Phase)
      modifies this
      ensures Now() == Rollback(old(Now()), phase)
    {
      Verify();
      RestoreDeployment(Old);
      if Switched(phase) {
        StopServices(false);
        RollbackTargets();
        PersistDatabaseTransaction(RolledBack);
      }
      StartServices();
      Verify();
    }

    method CleanupDatabaseStages()
      modifies this
      ensures Now() == CleanFrom(old(Now()), 0)
    {
      var i := 0;
      while i < |disk.targets| && status == Going
        invariant 0 <= i <= |disk.targets|
        invariant CleanFrom(Now(), i) == CleanFrom(old(Now()), 0)
        decreases |disk.targets| - i
      {
        Change(Set(disk, i, disk.targets[i].(staged := false)));
        status := if status == Error then Going else status;
        i := i + 1;
      }
    }

    method RemoveTransactionDirectory()
      modifies this
      ensures Now() == RemoveTransaction(old(Now()))
    {
      Change(disk.(journal := Unwritten));
      Change(disk.(journal := NoTransaction));
    }

    method DeferredCleanup()
      modifies this
      ensures Now() == Cleanup(old(Now()))
    {
      CleanupDatabaseStages();
      RemoveTransactionDirectory();
      status := if status == Error then Going else status;
    }

    method StageTargets(archive: nat -> int)
      modifies this
      ensures Now() == StageFrom(old(Now()), archive, 0)
    {
      var i := 0;
      while i < |disk.targets| && status == Going
        invariant 0 <= i <= |disk.targets|
        invariant StageFrom(Now(), archive, i) == StageFrom(old(Now()), archive, 0)
        decreases |disk.targets| - i
      {
        var t := disk.targets[i];
        Perform(Set(disk, i, t.(staged := true, candidate := Some(Blob(New, archive(i))))),
                disk, Set(disk, i, t.(staged := true)));
        i := i + 1;
      }
      if i < |disk.targets| {
        StageIdle(Now(), archive, i);
      }
    }

    /** The part of a job that may stop services, with the phase it holds in memory. */
    method SwitchOver() returns (phase: Phase)
      requires status == Going
      modifies this
      ensures Now() == Forward(old(Now())) && phase == MemoryPhase(old(Now()))
    {
      phase := Stopping;
      StopServices(true);
      SnapshotTargets();
      Verify();
      if status == Going {
        phase := Switching;
      }
      PersistDatabaseTransaction(Switching);
      SwitchTargets();
      if status == Going {
        phase := Starting;
      }
      assert phase == MemoryPhase(old(Now())) by {
        NotGoingAgain(Snapshot(old(Now())));
      }
      PersistDatabaseTransaction(Starting);
      StartServices();
      Verify();
      PersistDatabaseTransaction(Committed);
    }

    method ReplacePortalDatabase(archive: nat -> int)
      requires status == Going
      modifies this
      ensures Now() == Replace(old(Now()), archive)
    {
      Verify();
      Change(disk.(journal := Unwritten));
      if status != Going {
        return;
      }
      Verify();
      StageTargets(archive);
      PersistDatabaseTransaction(Preparing);
      PersistDatabaseTransaction(Stopping);
      if status == Dead {
        return;
      }
      if status == Error {
        status := Going;
        DeferredCleanup();
        status := if status == Going then Error else status;
        return;
      }
      var phase := SwitchOver();
      if status == Dead {
        return;
      }
      if status == Going {
        Verify();
        if status == Going {
          DeferredCleanup();
        }
        return;
      }
      status := Going;
      RollbackDatabaseTransaction(phase);
      if status == Going {
        DeferredCleanup();
        status := if status == Going then Error else status;
      }
    }

    method RecoverDatabaseTransaction()
      requires status == Going
      modifies this
      ensures Now() == Recover(old(Now()))
    {
      if !disk.journal.Written? || exists i | 0 <= i < |disk.targets| :: !disk.targets[i].staged {
        status := Error;
        return;
      }
      var phase := disk.journal.phase;
      Verify();
      if phase == Committed {
        Verify();
        RestoreDeployment(New);
        StartServices();
        Verify();
      } else {
        RollbackDatabaseTransaction(phase);
      }
      Verify();
      CleanupDatabaseStages();
      RemoveTransactionDirectory();
    }
  }
}

/** The journaled switch of a restore job and its recovery
    (internal/backup/portal_restore.go).

    Everything that survives the death of the process is in `Disk`; what the
    process holds in memory is in `World`.  Every rename, copy, persist, Stop and
    Start is one step, and each step takes one entry of a script that says how it
    went.  A script that runs out kills the process between two steps, so a
    statement about every script covers every failure and every crash. */
module RestoreTransaction {
  import opened Wrappers

  /** Which side of the switch a file belongs to.  `Mixed` is a database whose
      sidecars were taken away, or a copy that was not finished. */
  datatype Gen = Old | New | Mixed

  datatype Blob = Blob(gen: Gen, data: int)

  datatype Kind = Database | Directory | Regular

  /** One restore target.  For a database `live.data` is what SQLite reads through
      the file and its sidecars together. */
  datatype Target = Target(
    kind: Kind,
    existed: bool,
    live: Option<Blob>,
    sidecars: seq<Option<Gen>>,
    candidate: Option<Blob>,
    snapshot: Option<Blob>,
    staged: bool)

  datatype Phase = Preparing | Stopping | Switching | Starting | Committed | RolledBack

  /** `Unwritten` is a transaction directory without a readable journal. */
  datatype Journal = NoTransaction | Unwritten | Written(phase: Phase)

  /** History kept for the statements: what the files were when the job's own Stop
      returned, and what each Start found. */
  datatype Event = Held(targets: seq<Target>) | Started(targets: seq<Target>, images: Gen)

  datatype Disk = Disk(
    targets: seq<Target>,
    journal: Journal,
    running: Option<Gen>,
    rebuild: bool,
    history: seq<Event>)

  /** `FailedLate` matters only to a persist: the rename happened, the fsync failed. */
  datatype Outcome = Done | Failed | FailedLate

  /** What running services wrote since they were started, for a step that stops
      or starts them. */
  datatype Work = Work(data: nat -> int, sidecar: (nat, nat) -> bool)

  datatype Choice = Choice(outcome: Outcome, work: Work)

  datatype Status = Going | Error | Dead

  datatype World = World(disk: Disk, script: seq<Choice>, status: Status, images: Gen)

  const SUFFIXES := 3

  // ---------------------------------------------------------------- one step

  /** One step whose three ways of ending are given by the caller. */
  function Act(w: World, done: Disk, failed: Disk, late: Disk): World {
    if w.status != Going then w
    else if w.script == [] then w.(status := Dead)
    else
      match w.script[0].outcome
      case Done => w.(disk := done, script := w.script[1..])
      case Failed => w.(disk := failed, script := w.script[1..], status := Error)
      case FailedLate => w.(disk := late, script := w.script[1..], status := Error)
  }

  /** A step that can fail but changes nothing this model records. */
  function Check(w: World): World {
    Act(w, w.disk, w.disk, w.disk)
  }

  function Checks(w: World, n: nat): (r: World)
    ensures r.disk == w.disk && r.images == w.images && (r.status == Going ==> w.status == Going)
    decreases n
  {
    if n == 0 then w else Checks(Check(w), n - 1)
  }

  /** A step that either happens or does not. */
  function Atomic(w: World, done: Disk): World {
    Act(w, done, w.disk, w.disk)
  }

  function Abort(w: World): World {
    if w.status == Going then w.(status := Error) else w
  }

  /** The source drops the error of this step. */
  function Ignore(w: World): World {
    if w.status == Error then w.(status := Going) else w
  }

  function Set(d: Disk, i: nat, t: Target): Disk
    requires i < |d.targets|
  {
    d.(targets := d.targets[i := t])
  }

  function Drift(ts: seq<Target>, running: Option<Gen>, work: Work): (r: seq<Target>)
    ensures |r| == |ts|
  {
    match running
    case None => ts
    case Some(g) => seq(|ts|, i requires 0 <= i < |ts| => Rewrite(ts[i], g, work, i))
  }

  /** Services rewrite what is there; they neither create nor remove a target. */
  function Rewrite(t: Target, g: Gen, work: Work, i: nat): Target {
    if t.live.None? then t
    else t.(live := Some(Blob(g, work.data(i))),
            sidecars := if t.kind.Database?
                        then seq(SUFFIXES, k requires 0 <= k < SUFFIXES => if work.sidecar(i, k) then Some(g) else None)
                        else t.sidecars)
  }

  function Settle(w: World): Disk {
    if w.script == [] then w.disk
    else w.disk.(targets := Drift(w.disk.targets, w.disk.running, w.script[0].work))
  }

  function Stop(w: World): World {
    var d := Settle(w);
    Act(w, d.(running := None), d, d)
  }

  /** The job's own Stop, whose result fixes what "the old data" means. */
  function StopAndHold(w: World): World {
    var d := Settle(w);
    Act(w, d.(running := None, history := d.history + [Held(d.targets)]), d, d)
  }

  /** A Start that fails may still have brought services up. */
  function Start(w: World): World {
    var d := Settle(w);
    var up := d.(running := Some(Generation(d.targets)), history := d.history + [Started(d.targets, w.images)]);
    Act(w, up, up, up)
  }

  function Persist(w: World, phase: Phase): World {
    var written := w.disk.(journal := Written(phase));
    Act(w, written, w.disk, written)
  }

  // ------------------------------------------------------------ what a Start sees

  predicate OfGen(t: Target, g: Gen) {
    && (t.live.Some? <==> (g == New || t.existed))
    && (t.live.Some? ==> t.live.value.gen == g)
    && forall k | 0 <= k < |t.sidecars| :: t.sidecars[k].Some? ==> t.sidecars[k].value == g
  }

  predicate AllGen(ts: seq<Target>, g: Gen) {
    forall i | 0 <= i < |ts| :: OfGen(ts[i], g)
  }

  function Generation(ts: seq<Target>): Gen {
    if AllGen(ts, Old) then Old else if AllGen(ts, New) then New else Mixed
  }

  /** All targets old or all new, no sidecar of another generation, and in a
      rebuild the containers of the same generation as the data. */
  predicate Coherent(e: Event, rebuild: bool) {
    e.Started? ==>
      exists g: Gen | g != Mixed :: AllGen(e.targets, g) && (rebuild ==> e.images == g)
  }

  predicate EveryStartCoherent(d: Disk) {
    forall k | 0 <= k < |d.history| :: Coherent(d.history[k], d.rebuild)
  }

  // ------------------------------------------------------------ the forward switch

  function RemoveSidecar(w: World, i: nat, k: nat): World
    requires i < |w.disk.targets|
  {
    var t := w.disk.targets[i];
    if k >= |t.sidecars| || t.sidecars[k].None? then w
    else Atomic(w, Set(w.disk, i, Torn(t, k)))
  }

  function Torn(t: Target, k: nat): Target
    requires k < |t.sidecars|
  {
    t.(sidecars := t.sidecars[k := None],
       live := if t.live.Some? then Some(Blob(Mixed, t.live.value.data)) else None)
  }

  function RemoveSidecarsFrom(w: World, i: nat, k: nat): (r: World)
    requires i < |w.disk.targets|
    ensures |r.disk.targets| == |w.disk.targets|
    decreases SUFFIXES - k
  {
    if k >= SUFFIXES then w else RemoveSidecarsFrom(RemoveSidecar(w, i, k), i, k + 1)
  }

  function MoveSidecars(w: World, i: nat): (r: World)
    requires i < |w.disk.targets|
    ensures |r.disk.targets| == |w.disk.targets|
  {
    Check(RemoveSidecarsFrom(Check(w), i, 0))
  }

  function SetAside(w: World, i: nat): World
    requires i < |w.disk.targets|
  {
    Atomic(w, Set(w.disk, i, w.disk.targets[i].(live := None)))
  }

  /** Renaming the candidate fails without one, and cannot replace a directory. */
  function Install(w: World, i: nat): World
    requires i < |w.disk.targets|
  {
    var t := w.disk.targets[i];
    if t.candidate.None? || (t.kind.Directory? && t.live.Some?) then Abort(w)
    else Atomic(w, Set(w.disk, i, t.(live := t.candidate, candidate := None)))
  }

  /** A directory in the way is moved aside first. */
  function Exchange(w: World, i: nat): (r: World)
    requires i < |w.disk.targets|
    ensures |r.disk.targets| == |w.disk.targets|
  {
    var t := w.disk.targets[i];
    Check(Install(if t.kind.Directory? && t.existed then SetAside(w, i) else w, i))
  }

  function SwitchTarget(w: World, i: nat): (r: World)
    requires i < |w.disk.targets|
    ensures |r.disk.targets| == |w.disk.targets|
  {
    Exchange(if w.disk.targets[i].kind.Database? then MoveSidecars(w, i) else w, i)
  }

  function SwitchFrom(w: World, i: nat): (r: World)
    ensures |r.disk.targets| == |w.disk.targets|
    decreases |w.disk.targets| - i
  {
    if i >= |w.disk.targets| then w else SwitchFrom(SwitchTarget(w, i), i + 1)
  }

  /** A snapshot that fails may leave part of a file behind. */
  function SnapshotTarget(w: World, i: nat): (r: World)
    requires i < |w.disk.targets|
    ensures |r.disk.targets| == |w.disk.targets|
  {
    var t := w.disk.targets[i];
    if !t.existed then w
    else if t.live.None? then Abort(w)
    else
      var partial := Set(w.disk, i, t.(snapshot := Some(Blob(Mixed, t.live.value.data))));
      Act(w, Set(w.disk, i, t.(snapshot := t.live)), partial, partial)
  }

  function SnapshotFrom(w: World, i: nat): (r: World)
    ensures |r.disk.targets| == |w.disk.targets|
    decreases |w.disk.targets| - i
  {
    if i >= |w.disk.targets| then w else SnapshotFrom(SnapshotTarget(w, i), i + 1)
  }

  function StageTarget(w: World, i: nat, data: int): (r: World)
    requires i < |w.disk.targets|
    ensures |r.disk.targets| == |w.disk.targets|
  {
    var t := w.disk.targets[i];
    Act(w, Set(w.disk, i, t.(staged := true, candidate := Some(Blob(New, data)))),
        w.disk, Set(w.disk, i, t.(staged := true)))
  }

  function StageFrom(w: World, archive: nat -> int, i: nat): (r: World)
    ensures |r.disk.targets| == |w.disk.targets|
    decreases |w.disk.targets| - i
  {
    if i >= |w.disk.targets| then w else StageFrom(StageTarget(w, i, archive(i)), archive, i + 1)
  }

  // ------------------------------------------------------------------ rollback

  /** Copying the snapshot back and checking the copy, in a directory of its own. */
  function CopyBack(w: World, t: Target): World {
    if !t.staged || (t.existed && t.snapshot.None?) then Abort(w)
    else Checks(w, if t.existed then 4 else 1)
  }

  function Displace(w: World, i: nat): (r: World)
    requires i < |w.disk.targets|
    ensures |r.disk.targets| == |w.disk.targets|
  {
    if w.disk.targets[i].live.Some? then SetAside(w, i) else w
  }

  function PutBack(w: World, i: nat): (r: World)
    requires i < |w.disk.targets|
    ensures |r.disk.targets| == |w.disk.targets|
  {
    var t := w.disk.targets[i];
    Check(if t.existed then Atomic(w, Set(w.disk, i, t.(live := t.snapshot))) else w)
  }

  function RollbackTarget(w: World, i: nat): (r: World)
    requires i < |w.disk.targets|
    ensures |r.disk.targets| == |w.disk.targets|
  {
    var copied := CopyBack(w, w.disk.targets[i]);
    var moved := if w.disk.targets[i].kind.Database? then MoveSidecars(copied, i) else copied;
    PutBack(Displace(moved, i), i)
  }

  function RollbackFrom(w: World, i: nat): (r: World)
    ensures |r.disk.targets| == |w.disk.targets|
    decreases |w.disk.targets| - i
  {
    if i >= |w.disk.targets| then w else RollbackFrom(RollbackTarget(w, i), i + 1)
  }

  /** `RestoreDeployment` sets which images the next Start brings up. */
  function Deploy(w: World, g: Gen): World {
    var c := Check(w);
    if w.disk.rebuild && c.status == Going then c.(images := g)
    else if w.disk.rebuild then c else w
  }

  predicate Switched(phase: Phase) {
    phase == Switching || phase == Starting
  }

  function Rollback(w: World, phase: Phase): World {
    var w1 := Deploy(Check(w), Old);
    var w2 := if Switched(phase) then Persist(RollbackFrom(Stop(w1), 0), RolledBack) else w1;
    Check(Start(w2))
  }

  // ------------------------------------------------------------------- cleanup

  function CleanFrom(w: World, i: nat): (r: World)
    ensures |r.disk.targets| == |w.disk.targets|
    decreases |w.disk.targets| - i
  {
    if i >= |w.disk.targets| || w.status != Going then w
    else CleanFrom(Ignore(Atomic(w, Set(w.disk, i, w.disk.targets[i].(staged := false)))), i + 1)
  }

  /** The journal goes first, then the directory that held it. */
  function RemoveTransaction(w: World): World {
    var w1 := Atomic(w, w.disk.(journal := Unwritten));
    Atomic(w1, w1.disk.(journal := NoTransaction))
  }

  /** The deferred cleanup of a job, which drops its errors. */
  function Cleanup(w: World): World {
    Ignore(RemoveTransaction(CleanFrom(w, 0)))
  }

  function Resume(w: World): World {
    w.(status := Going)
  }

  // ------------------------------------------------------------------- the job

  function Stage(w: World, archive: nat -> int): (r: World)
    ensures |r.disk.targets| == |w.disk.targets|
  {
    Persist(Persist(StageFrom(Check(w), archive, 0), Preparing), Stopping)
  }

  function Snapshot(w: World): World {
    Check(SnapshotFrom(StopAndHold(w), 0))
  }

  function Switch(w: World): World {
    SwitchFrom(Persist(w, Switching), 0)
  }

  function Commit(w: World): World {
    Persist(Check(Start(Persist(w, Starting))), Committed)
  }

  /** The phase the process holds in memory when `Commit(Switch(Snapshot(w)))`
      stops going: it is set before the persist that records it. */
  function MemoryPhase(w: World): Phase {
    if Snapshot(w).status != Going then Stopping
    else if Switch(Snapshot(w)).status != Going then Switching
    else Starting
  }

  /** From a staged transaction to commit, or to the start of the rollback. */
  function Forward(w: World): World {
    Commit(Switch(Snapshot(w)))
  }

  function Finish(w: World): World {
    var marked := Check(w);
    if marked.status == Going then Cleanup(marked) else marked
  }

  function Undo(w: World, phase: Phase): World {
    var back := Rollback(Resume(w), phase);
    if back.status == Going then
      var clean := Cleanup(back);
      Abort(clean)
    else back
  }

  /** The checks before anything is written, then the transaction directory. */
  function Open(w: World): (r: World)
    ensures |r.disk.targets| == |w.disk.targets|
  {
    var ready := Check(w);
    Atomic(ready, ready.disk.(journal := Unwritten))
  }

  function Execute(staged: World): World {
    match staged.status
    case Dead => staged
    case Error => Abort(Cleanup(Resume(staged)))
    case Going =>
      var end := Forward(staged);
      match end.status
      case Dead => end
      case Going => Finish(end)
      case Error => Undo(end, MemoryPhase(staged))
  }

  function Replace(w: World, archive: nat -> int): World
  {
    var open := Open(w);
    if open.status != Going then open else Execute(Stage(open, archive))
  }

  function Settled(w: World, phase: Phase): World {
    if phase == Committed then Check(Start(Deploy(Check(w), New))) else Rollback(w, phase)
  }

  function Recover(w: World): World {
    if !w.disk.journal.Written? || exists i | 0 <= i < |w.disk.targets| :: !w.disk.targets[i].staged then Abort(w)
    else RemoveTransaction(CleanFrom(Check(Settled(Check(w), w.disk.journal.phase)), 0))
  }

  /** The process at the moment it gives up going forward and turns to the rollback,
      with the phase it holds in memory. */
  function RollbackEntry(w: World, archive: nat -> int): Option<(World, Phase)>
  {
    var open := Open(w);
    if open.status != Going then None
    else
      var staged := Stage(open, archive);
      if staged.status == Going && Forward(staged).status == Error
      then Some((Forward(staged), MemoryPhase(staged)))
      else None
  }

  /** One run of the host timer while a transaction is pending. */
  function Tick(d: Disk, script: seq<Choice>): Disk {
    if d.journal.NoTransaction? then d
    else Recover(World(d, script, Going, Mixed)).disk
  }

  function Ticks(d: Disk, scripts: seq<seq<Choice>>): Disk
    decreases |scripts|
  {
    if scripts == [] then d else Ticks(Tick(d, scripts[0]), scripts[1..])
  }

  function Job(d: Disk, archive: nat -> int, script: seq<Choice>): World
  {
    Replace(World(d, script, Going, New), archive)
  }

  // ------------------------------------------- a process that stopped stays stopped

  lemma {:induction false} SnapshotIdle(w: World, i: nat)
    requires w.status != Going
    ensures SnapshotFrom(w, i) == w
    decreases |w.disk.targets| - i
  {
    if i < |w.disk.targets| {
      SnapshotIdle(w, i + 1);
    }
  }

  lemma {:induction false} StageIdle(w: World, archive: nat -> int, i: nat)
    requires w.status != Going
    ensures StageFrom(w, archive, i) == w
    decreases |w.disk.targets| - i
  {
    if i < |w.disk.targets| {
      StageIdle(w, archive, i + 1);
    }
  }

  lemma {:induction false} SidecarsIdle(w: World, i: nat, k: nat)
    requires w.status != Going && i < |w.disk.targets|
    ensures RemoveSidecarsFrom(w, i, k) == w
    decreases SUFFIXES - k
  {
    if k < SUFFIXES {
      SidecarsIdle(w, i, k + 1);
    }
  }

  lemma {:induction false} SwitchIdle(w: World, i: nat)
    requires w.status != Going
    ensures SwitchFrom(w, i) == w
    decreases |w.disk.targets| - i
  {
    if i < |w.disk.targets| {
      SidecarsIdle(w, i, 0);
      SwitchIdle(w, i + 1);
    }
  }

  lemma {:induction false} ChecksIdle(w: World, n: nat)
    requires w.status != Going
    ensures Checks(w, n) == w
    decreases n
  {
    if n == 0 {
    } else {
      ChecksIdle(w, n - 1);
    }
  }

  lemma {:induction false} RollbackIdle(w: World, i: nat)
    requires w.status != Going
    ensures RollbackFrom(w, i) == w
    decreases |w.disk.targets| - i
  {
    if i < |w.disk.targets| {
      ChecksIdle(w, 4);
      ChecksIdle(w, 1);
      SidecarsIdle(w, i, 0);
      RollbackIdle(w, i + 1);
    }
  }

  lemma NotGoingAgain(s: World)
    ensures s.status != Going ==> Switch(s) == s
  {
    if s.status != Going {
      SwitchIdle(s, 0);
    }
  }
}

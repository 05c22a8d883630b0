/** The pause record around a snapshot of the CPAMP manager
    (internal/backup/manager_snapshot.go): one backup process stops the manager,
    any number of recovery processes may start it again, all of them can die between
    any two steps, and only files and a kernel lock connect them. */
module ManagerPause {
  import opened Runs
  import opened Wrappers

  /** The backup process.  `n` is the pause directory it made. */
  datatype Backup =
    | Idle
    | Made(n: nat)
    | Leased(n: nat)
    | Recorded(n: nat)
    | Collecting(n: nat)
    | Resuming(n: nat)
    | Healthy(n: nat)
    | Released(n: nat)

  /** A recovery process past its lease on the directory `n`. */
  datatype Recovery = Holding(n: nat) | Checked(n: nat) | Healed(n: nat) | LetGo(n: nat)

  /** `marker` is the pause directory that exists, counted afresh each time one is
      made; `recorded` is its state file; `locked` are the lease files held, including
      files already unlinked.  `startedUnderLease` and `healthy` are history: whether a
      recovery started the manager under a live lease, and whether the manager was seen
      healthy since it was last stopped. */
  datatype State = State(
    marker: Option<nat>,
    recorded: bool,
    locked: set<nat>,
    next: nat,
    stopped: bool,
    startedUnderLease: bool,
    healthy: bool,
    backup: Backup,
    recoveries: map<nat, Recovery>)

  /** How `resumeManager` ends: before the container was started, started but not healthy
      in time, or healthy. */
  datatype Outcome = NotStarted | Unhealthy | Well

  datatype Step =
    | MakeMarker
    | TakeLease
    | Record(ok: bool)
    | StopManager(ok: bool)
    | Collect
    | ResumeManager(outcome: Outcome)
    | ReleaseLease
    | RemoveMarker
    | BackupDies
    | RecoveryLeases(id: nat)
    | RecoveryReads(id: nat)
    | RecoveryStarts(id: nat, outcome: Outcome)
    | RecoveryReleases(id: nat)
    | RecoveryRemoves(id: nat)
    | RecoveryDies(id: nat)

  function Init(): State {
    State(None, false, {}, 0, false, false, true, Idle, map[])
  }

  /** The backup holds its lease from `Leased` until it releases it. */
  predicate Live(b: Backup) {
    b.Leased? || b.Recorded? || b.Collecting? || b.Resuming? || b.Healthy?
  }

  function Unmark(s: State): State {
    s.(marker := None, recorded := false)
  }

  function Drop(s: State, id: nat): State
    requires id in s.recoveries
  {
    var r := s.recoveries[id];
    s.(recoveries := s.recoveries - {id}, locked := if r.LetGo? then s.locked else s.locked - {r.n})
  }

  /** One step of one process; a step that is not enabled changes nothing. */
  function Next(s: State, step: Step): State {
    match step
    case MakeMarker =>
      if s.backup.Idle? && s.marker.None? && !s.stopped
      then s.(marker := Some(s.next), recorded := false, backup := Made(s.next), next := s.next + 1)
      else s
    case TakeLease =>
      if !s.backup.Made? then s
      else if s.marker == Some(s.backup.n) && s.backup.n !in s.locked
      then s.(locked := s.locked + {s.backup.n}, backup := Leased(s.backup.n))
      else Unmark(s).(backup := Idle)
    case Record(ok) =>
      if !s.backup.Leased? then s
      else if ok then s.(recorded := true, backup := Recorded(s.backup.n))
      else Unmark(s).(locked := s.locked - {s.backup.n}, backup := Idle)
    case StopManager(ok) =>
      if !s.backup.Recorded? then s
      else s.(stopped := true, healthy := false, backup := if ok then Collecting(s.backup.n) else Resuming(s.backup.n))
    case Collect =>
      if s.backup.Collecting? then s.(backup := Resuming(s.backup.n)) else s
    case ResumeManager(outcome) =>
      if !s.backup.Resuming? then s
      else
        s.(stopped := s.stopped && outcome == NotStarted, healthy := s.healthy || outcome == Well,
           backup := if outcome == Well then Healthy(s.backup.n) else Idle,
           locked := if outcome == Well then s.locked else s.locked - {s.backup.n})
    case ReleaseLease =>
      if s.backup.Healthy? then s.(locked := s.locked - {s.backup.n}, backup := Released(s.backup.n)) else s
    case RemoveMarker =>
      if s.backup.Released? then Unmark(s).(backup := Idle) else s
    case BackupDies =>
      if Live(s.backup) then s.(locked := s.locked - {s.backup.n}, backup := Idle) else s.(backup := Idle)
    case RecoveryLeases(id) =>
      if s.marker.Some? && s.marker.value !in s.locked && id !in s.recoveries
      then s.(locked := s.locked + {s.marker.value}, recoveries := s.recoveries[id := Holding(s.marker.value)])
      else s
    case RecoveryReads(id) =>
      if id !in s.recoveries || !s.recoveries[id].Holding? then s
      else if s.marker.Some? && s.recorded then s.(recoveries := s.recoveries[id := Checked(s.recoveries[id].n)])
      else Drop(s, id)
    case RecoveryStarts(id, outcome) =>
      if id !in s.recoveries || !s.recoveries[id].Checked? then s
      else if outcome == NotStarted then Drop(s, id)
      else
        var r := s.(stopped := false, healthy := s.healthy || outcome == Well,
                    startedUnderLease := s.startedUnderLease || Live(s.backup));
        if outcome == Well then r.(recoveries := s.recoveries[id := Healed(s.recoveries[id].n)]) else Drop(r, id)
    case RecoveryReleases(id) =>
      if id in s.recoveries && s.recoveries[id].Healed?
      then s.(locked := s.locked - {s.recoveries[id].n}, recoveries := s.recoveries[id := LetGo(s.recoveries[id].n)])
      else s
    case RecoveryRemoves(id) =>
      if id in s.recoveries && s.recoveries[id].LetGo? then Unmark(Drop(s, id)) else s
    case RecoveryDies(id) =>
      if id in s.recoveries then Drop(s, id) else s
  }

  function Run(s: State, steps: seq<Step>): State {
    Fold(Next, s, steps)
  }

  /** A stopped manager has a durable record, and no recovery started the manager
      while a backup held its lease. */
  predicate Safe(s: State) {
    && (s.stopped ==> s.marker.Some? && s.recorded)
    && !s.startedUnderLease
  }

  /** A backup makes its record while a recovery is past its lease. */
  predicate Overtakes(s: State, step: Step) {
    step.MakeMarker? && s.backup.Idle? && s.marker.None? && !s.stopped && s.recoveries != map[]
  }

  predicate Apart(s: State, steps: seq<Step>)
    decreases |steps|
  {
    steps == [] || (!Overtakes(s, steps[0]) && Apart(Next(s, steps[0]), steps[1..]))
  }

  // ----------------------------------------------------------------- invariant

  ghost predicate BackupInv(s: State) {
    && (s.marker.Some? ==> s.marker.value < s.next) && (s.recorded ==> s.marker.Some?)
    && (!s.backup.Idle? ==> s.backup.n < s.next)
    && (Live(s.backup)
       ==> s.marker == Some(s.backup.n) && s.backup.n in s.locked && (s.recorded <==> !s.backup.Leased?))
    && (s.backup.Made? ==> s.marker == Some(s.backup.n) && !s.recorded)
    && (s.backup.Healthy? || s.backup.Released? ==>
          !s.stopped && s.healthy && (s.marker.Some? ==> s.marker.value == s.backup.n))
  }

  /** A recovery and a live backup exclude each other, and a recovery that has read the
      record excludes a backup that has not written it. */
  ghost predicate RecoveryInv(s: State, r: Recovery) {
    && r.n < s.next && !Live(s.backup)
    && (s.marker.Some? ==> s.marker.value == r.n)
    && (!r.LetGo? ==> r.n in s.locked)
    && (!r.Holding? ==> !s.backup.Made?)
    && (r.Healed? || r.LetGo? ==> !s.stopped && s.healthy)
  }

  ghost predicate Inv(s: State) {
    && Safe(s) && BackupInv(s)
    && (forall n | n in s.locked :: n < s.next)
    && (forall id | id in s.recoveries :: RecoveryInv(s, s.recoveries[id]))
    && OneEach(s)
  }

  /** Recoveries past their lease hold different ones. */
  ghost predicate OneEach(s: State) {
    forall i, j | i in s.recoveries && j in s.recoveries && i != j
      && !s.recoveries[i].LetGo? && !s.recoveries[j].LetGo? ::
      s.recoveries[i].n != s.recoveries[j].n
  }

  lemma NextKeepsBackup(s: State, step: Step)
    requires Inv(s) && !Overtakes(s, step)
    ensures var t := Next(s, step); Safe(t) && BackupInv(t) && forall n | n in t.locked :: n < t.next
  {
    hide OneEach;
    forall id | id in s.recoveries
      ensures RecoveryInv(s, s.recoveries[id])
    {
    }
  }

  lemma NextKeepsRecovery(s: State, step: Step, id: nat)
    requires Inv(s) && !Overtakes(s, step) && id in Next(s, step).recoveries
    ensures RecoveryInv(Next(s, step), Next(s, step).recoveries[id])
  {
    if id in s.recoveries {
      assert RecoveryInv(s, s.recoveries[id]);
    }
  }

  lemma NextKeepsOneEach(s: State, step: Step)
    requires Inv(s)
    ensures OneEach(Next(s, step))
  {
    hide Inv;
    LeasesHeld(s);
    if !step.RecoveryLeases? {
      SameLeases(s, step);
      hide Next;
    }
  }

  lemma SameLeases(s: State, step: Step)
    requires !step.RecoveryLeases?
    ensures var t := Next(s, step);
            forall id | id in t.recoveries && !t.recoveries[id].LetGo? ::
              id in s.recoveries && !s.recoveries[id].LetGo? && t.recoveries[id].n == s.recoveries[id].n
  {
  }

  lemma LeasesHeld(s: State)
    requires Inv(s)
    ensures OneEach(s)
    ensures forall id | id in s.recoveries && !s.recoveries[id].LetGo? :: s.recoveries[id].n in s.locked
  {
    hide BackupInv, Safe, OneEach;
    forall id | id in s.recoveries && !s.recoveries[id].LetGo?
      ensures s.recoveries[id].n in s.locked
    {
      assert RecoveryInv(s, s.recoveries[id]);
    }
  }

  lemma NextKeeps(s: State, step: Step)
    requires Inv(s) && !Overtakes(s, step)
    ensures Inv(Next(s, step))
  {
    hide Next, BackupInv, RecoveryInv, Safe, OneEach;
    var t := Next(s, step);
    NextKeepsBackup(s, step);
    NextKeepsOneEach(s, step);
    forall id | id in t.recoveries
      ensures RecoveryInv(t, t.recoveries[id])
    {
      NextKeepsRecovery(s, step, id);
    }
  }

  /** The record goes only when the manager runs and was seen healthy since its stop. */
  predicate KeptUntilHealthy(s: State, steps: seq<Step>)
    decreases |steps|
  {
    steps == [] ||
    var t := Next(s, steps[0]);
    && (s.recorded && !t.recorded ==> !t.stopped && t.healthy)
    && KeptUntilHealthy(t, steps[1..])
  }

  lemma RecordGoes(s: State, step: Step)
    requires Inv(s) && s.recorded && !Next(s, step).recorded && !Overtakes(s, step)
    ensures !Next(s, step).stopped && Next(s, step).healthy
  {
    hide OneEach;
    if step.RecoveryRemoves? && step.id in s.recoveries {
      assert RecoveryInv(s, s.recoveries[step.id]);
    }
  }

  lemma {:induction false} RunKeeps(s: State, steps: seq<Step>)
    requires Inv(s) && Apart(s, steps)
    ensures Inv(Run(s, steps)) && KeptUntilHealthy(s, steps)
    decreases |steps|
  {
    hide Inv, Next;
    if steps == [] {
    } else {
      if s.recorded && !Next(s, steps[0]).recorded {
        RecordGoes(s, steps[0]);
      }
      NextKeeps(s, steps[0]);
      RunKeeps(Next(s, steps[0]), steps[1..]);
    }
  }

  // ----------------------------------------------------------- main statements

  /** In every interleaving of a backup and any number of recoveries, all of which may
      die anywhere, a stopped manager has its record, the record goes only once the manager
      was seen healthy again, and no recovery starts it under a live lease, as long as no
      record is made while a recovery is past its lease. */
  lemma PauseIsRecorded(steps: seq<Step>)
    requires Apart(Init(), steps)
    ensures Safe(Run(Init(), steps)) && KeptUntilHealthy(Init(), steps)
  {
    RunKeeps(Init(), steps);
  }

  /** However things go on without such an overtaking, they are safe. */
  ghost predicate SafeOnward(s: State) {
    forall steps | Apart(s, steps) :: Safe(Run(s, steps))
  }

  ghost predicate AlwaysSafe(s: State, steps: seq<Step>)
    decreases |steps|
  {
    SafeOnward(s) && (steps == [] || AlwaysSafe(Next(s, steps[0]), steps[1..]))
  }

  /** That condition is exact: a step leaves things safe if and only if it is not a record
      made while a recovery is past its lease.  The late recovery either starts the manager
      under the new lease or removes the new record while the manager is stopped. */
  lemma SafeExactlyWhenNoRecoveryIsLate(s: State, step: Step)
    requires Inv(s)
    ensures SafeOnward(Next(s, step)) <==> !Overtakes(s, step)
  {
    hide Inv, Next, SafeOnward;
    if !Overtakes(s, step) {
      NextKeeps(s, step);
      InvIsSafeOnward(Next(s, step));
    } else {
      var id :| id in s.recoveries.Keys;
      LateRecovery(s, id);
      NotOnward(Next(s, step), Late(id, s.recoveries[id]));
    }
  }

  lemma InvIsSafeOnward(s: State)
    requires Inv(s)
    ensures SafeOnward(s)
  {
    hide Next, Apart;
    forall steps | Apart(s, steps)
      ensures Safe(Run(s, steps))
    {
      RunKeeps(s, steps);
    }
  }

  lemma NotOnward(s: State, steps: seq<Step>)
    requires Apart(s, steps) && !Safe(Run(s, steps))
    ensures !SafeOnward(s)
  {
  }

  /** Over every run: things are safe at every point and however they go on from there,
      exactly if no record was made while a recovery was past its lease. */
  lemma {:induction false} RunIsSafeExactly(s: State, steps: seq<Step>)
    requires Inv(s)
    ensures AlwaysSafe(s, steps) <==> Apart(s, steps)
    decreases |steps|
  {
    hide Inv, Next, SafeOnward, Overtakes;
    InvIsSafeOnward(s);
    if steps == [] {
    } else {
      SafeExactlyWhenNoRecoveryIsLate(s, steps[0]);
      if !Overtakes(s, steps[0]) {
        NextKeeps(s, steps[0]);
        RunIsSafeExactly(Next(s, steps[0]), steps[1..]);
      }
    }
  }

  function Late(id: nat, r: Recovery): seq<Step> {
    [TakeLease, Record(true), StopManager(true)] +
    match r
    case Holding(_) => [RecoveryReads(id), RecoveryStarts(id, Well)]
    case Checked(_) => [RecoveryStarts(id, Well)]
    case Healed(_) => [RecoveryReleases(id), RecoveryRemoves(id)]
    case LetGo(_) => [RecoveryRemoves(id)]
  }

  lemma LateRecovery(s: State, id: nat)
    requires Inv(s) && s.backup.Idle? && s.marker.None? && !s.stopped && id in s.recoveries
    ensures var t := Next(s, MakeMarker); var steps := Late(id, s.recoveries[id]);
            Apart(t, steps) && !Safe(Run(t, steps))
  {
    var t := Next(s, MakeMarker);
    var r := s.recoveries[id];
    assert RecoveryInv(s, r);
    var t1 := Next(t, TakeLease);
    assert t1.backup == Leased(s.next);
    var t3 := Next(Next(t1, Record(true)), StopManager(true));
    assert t3.stopped && t3.marker == Some(s.next) && t3.recorded && t3.recoveries == s.recoveries && Live(t3.backup);
    var tail := Late(id, r)[3..];
    FoldJoin(Next, t, [TakeLease, Record(true), StopManager(true)], tail);
    assert Late(id, r) == [TakeLease, Record(true), StopManager(true)] + tail;
    StepsOf3(t, TakeLease, Record(true), StopManager(true));
    FoldOne(Next, t3, tail[0], tail[1..]);
    assert [tail[0]] + tail[1..] == tail;
    if |tail| == 2 {
      FoldOne(Next, Next(t3, tail[0]), tail[1], []);
      assert [tail[1]] + [] == tail[1..];
    }
    NoneMade(t, Late(id, r));
  }

  lemma StepsOf3(s: State, a: Step, b: Step, c: Step)
    ensures Run(s, [a, b, c]) == Next(Next(Next(s, a), b), c)
  {
    hide Next;
    FoldOne(Next, s, a, [b, c]);
    FoldOne(Next, Next(s, a), b, [c]);
    FoldOne(Next, Next(Next(s, a), b), c, []);
    assert [a] + [b, c] == [a, b, c] && [b] + [c] == [b, c] && [c] + [] == [c];
  }

  lemma {:induction false} NoneMade(s: State, steps: seq<Step>)
    requires forall k | 0 <= k < |steps| :: !steps[k].MakeMarker?
    ensures Apart(s, steps)
    decreases |steps|
  {
    if steps == [] {
    } else {
      NoneMade(Next(s, steps[0]), steps[1..]);
    }
  }

  /** The record is enough: once every process is gone, one recovery that meets no
      failure finds it, starts the manager and leaves nothing behind. */
  lemma StoppedManagerIsRecoverable(s: State, id: nat)
    requires Inv(s) && s.stopped && s.backup.Idle? && s.recoveries == map[] && s.locked == {}
    ensures var t := Run(s, [RecoveryLeases(id), RecoveryReads(id), RecoveryStarts(id, Well)]
                            + [RecoveryReleases(id), RecoveryRemoves(id), RecoveryDies(id)]);
            !t.stopped && t.marker.None? && t.locked == {} && t.recoveries == map[]
  {
    var n := s.marker.value;
    var t1 := Next(s, RecoveryLeases(id));
    assert t1 == s.(locked := {n}, recoveries := map[id := Holding(n)]);
    var t2 := Next(t1, RecoveryReads(id));
    assert t2 == t1.(recoveries := map[id := Checked(n)]);
    var t3 := Next(t2, RecoveryStarts(id, Well));
    assert t3 == t2.(stopped := false, healthy := true, recoveries := map[id := Healed(n)]);
    var t4 := Next(t3, RecoveryReleases(id));
    assert t4 == t3.(locked := {}, recoveries := map[id := LetGo(n)]);
    var t5 := Next(t4, RecoveryRemoves(id));
    assert t5 == t4.(marker := None, recorded := false, recoveries := map[]);
    StepsOf3(s, RecoveryLeases(id), RecoveryReads(id), RecoveryStarts(id, Well));
    StepsOf3(t3, RecoveryReleases(id), RecoveryRemoves(id), RecoveryDies(id));
    FoldJoin(Next, s, [RecoveryLeases(id), RecoveryReads(id), RecoveryStarts(id, Well)],
             [RecoveryReleases(id), RecoveryRemoves(id), RecoveryDies(id)]);
  }

  const PAUSED := [MakeMarker, TakeLease, Record(true)]
  const ORPHANED := [StopManager(true), BackupDies, RecoveryLeases(0)]
  const STARTED := [RecoveryReads(0), RecoveryStarts(0, Well), RecoveryReleases(0)]
  const OVERTAKEN := [RecoveryLeases(1), RecoveryRemoves(0), RecoveryDies(0)]

  /** A recovery that is late for the next backup does occur: one recovery lets go of its
      lease before it removes the record, a second one takes that lease, and then the record
      is gone and the way is free for a backup. */
  lemma LateRecoveryHappens()
    ensures var steps := PAUSED + (ORPHANED + (STARTED + OVERTAKEN)); var s := Run(Init(), steps);
            && Apart(Init(), steps) && Inv(s) && Overtakes(s, MakeMarker) && s.recoveries == map[1 := Holding(0)]
  {
    StepsOf3(Init(), MakeMarker, TakeLease, Record(true));
    var s1 := Run(Init(), PAUSED);
    assert s1 == State(Some(0), true, {0}, 1, false, false, true, Recorded(0), map[]);
    StepsOf3(s1, StopManager(true), BackupDies, RecoveryLeases(0));
    var s2 := Run(s1, ORPHANED);
    assert s2 == State(Some(0), true, {0}, 1, true, false, false, Idle, map[0 := Holding(0)]);
    StepsOf3(s2, RecoveryReads(0), RecoveryStarts(0, Well), RecoveryReleases(0));
    var s3 := Run(s2, STARTED);
    assert s3 == State(Some(0), true, {}, 1, false, false, true, Idle, map[0 := LetGo(0)]);
    StepsOf3(s3, RecoveryLeases(1), RecoveryRemoves(0), RecoveryDies(0));
    var s4 := Run(s3, OVERTAKEN);
    assert s4 == State(None, false, {0}, 1, false, false, true, Idle, map[1 := Holding(0)]);
    FoldJoin(Next, s2, STARTED, OVERTAKEN);
    FoldJoin(Next, s1, ORPHANED, STARTED + OVERTAKEN);
    FoldJoin(Next, Init(), PAUSED, ORPHANED + (STARTED + OVERTAKEN));
    OneMade();
    RunKeeps(Init(), PAUSED + (ORPHANED + (STARTED + OVERTAKEN)));
  }

  lemma OneMade()
    ensures Apart(Init(), PAUSED + (ORPHANED + (STARTED + OVERTAKEN)))
  {
    var rest := [TakeLease, Record(true)] + (ORPHANED + (STARTED + OVERTAKEN));
    assert PAUSED + (ORPHANED + (STARTED + OVERTAKEN)) == [MakeMarker] + rest;
    NoneMade(Next(Init(), MakeMarker), rest);
    assert ([MakeMarker] + rest)[1..] == rest;
  }
}

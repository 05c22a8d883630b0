/** When the controller pauses admission for load and when it lifts the pause
    (internal/resourcecontrol/controller.go:67-153).  Times are nanoseconds since the
    zero time; floating-point numbers are reals. */
module ResourceMonitor {
  import opened Wrappers

  const SECOND := 1_000_000_000

  datatype Metrics = Metrics(
    at: int, healthy: bool, hostID: string, cpuCount: int, cpu: real, total: real, available: real, suite: Option<real>)


  datatype Limits = Limits(cpu: real, memory: int)

  datatype Pause = Running | MemoryPressure | CpuPressure

  datatype Monitor = Monitor(sample: int, metrics: Metrics, highSince: int, recoverSince: int, paused: Pause)

  function Max(a: real, b: real): real {
    if a < b then b else a
  }

  function Used(m: Metrics): real {
    if m.suite.Some? then m.suite.value else Max(0.0, m.total - m.available)
  }

  predicate Fresh(m: Metrics, now: int) {
    && m.healthy && m.cpuCount > 0 && m.total > 0.0 && 0.0 <= m.available <= m.total && 0.0 <= Used(m) <= m.total
    && 0.0 <= m.cpu <= 100.0 && m.hostID != "" && (m.hostID != "cpa-suite" || m.suite.Some?) && m.at != 0
    && now - m.at < 10 * SECOND && now - m.at > -5 * SECOND
  }

  function RecoveryThreshold(limit: int): real {
    var budget := limit as real;
    Max(budget - Max(32.0, budget * 0.05), budget / 2.0)
  }

  predicate CpuHigh(l: Limits, m: Metrics) {
    l.cpu > 0.0 && m.cpu >= l.cpu
  }

  predicate MemoryHigh(l: Limits, m: Metrics) {
    l.memory > 0 && Used(m) >= l.memory as real
  }

  /** At or below both recovery thresholds. */
  predicate Calm(l: Limits, m: Metrics) {
    && (l.cpu == 0.0 || m.cpu <= Max(l.cpu - 15.0, l.cpu / 2.0))
    && (l.memory == 0 || Used(m) <= RecoveryThreshold(l.memory))
  }

  predicate Accepted(s: Monitor, m: Metrics) {
    m.at > s.sample
  }

  predicate Gap(s: Monitor, m: Metrics) {
    m.at - s.sample > 10 * SECOND
  }

  /** One sample. */
  function Update(l: Limits, s: Monitor, m: Metrics, now: int): Monitor {
    if !Accepted(s, m) then s
    else
      var r := (if Gap(s, m) then s.(highSince := 0, recoverSince := 0) else s).(metrics := m, sample := m.at);
      if !Fresh(m, now) then r.(highSince := 0, recoverSince := 0)
      else if MemoryHigh(l, m) then r.(paused := MemoryPressure, recoverSince := 0)
      else if CpuHigh(l, m) then
        var since := if r.highSince == 0 then now else r.highSince;
        r.(highSince := since, recoverSince := 0,
          paused := if now - since >= 15 * SECOND then CpuPressure else r.paused)
      else
        var t := r.(highSince := 0);
        if t.paused == Running then t
        else if !Calm(l, m) then t.(recoverSince := 0)
        else
          var since := if t.recoverSince == 0 then now else t.recoverSince;
          if now - since >= 10 * SECOND then t.(recoverSince := 0, paused := Running) else t.(recoverSince := since)
  }

  function Name(p: Pause): string {
    match p
    case Running => ""
    case MemoryPressure => "memory_pressure"
    case CpuPressure => "cpu_pressure"
  }

  /** What the monitor has against admitting one more. */
  function Pressure(l: Limits, s: Monitor, now: int): Option<string> {
    if (l.cpu > 0.0 || l.memory > 0) && !Fresh(s.metrics, now) then Some("monitor_unavailable")
    else if MemoryHigh(l, s.metrics) then Some("memory_pressure")
    else if s.paused != Running then Some(Name(s.paused))
    else None
  }

  class Controller {
    var limits: Limits
    var timeSample: int
    var metrics: Metrics
    var highSince: int
    var recoverSince: int
    var paused: Pause

    constructor (limits: Limits, metrics: Metrics)
      ensures this.limits == limits && Now() == Monitor(0, metrics, 0, 0, Running)
    {
      this.limits, this.metrics := limits, metrics;
      timeSample, highSince, recoverSince, paused := 0, 0, 0, Running;
    }

    function Now(): Monitor
      reads this
    {
      Monitor(timeSample, metrics, highSince, recoverSince, paused)
    }

    /** A new policy starts over: no pause and no timers, but the last reading stays. */
    method SetPolicy(l: Limits)
      modifies this
      ensures limits == l && Now() == Monitor(old(timeSample), old(metrics), 0, 0, Running)
    {
      limits, highSince, recoverSince, paused := l, 0, 0, Running;
    }

    /** What speaks against another request, first the reading itself, then the pause. */
    method Against(now: int) returns (reason: Option<string>)
      ensures reason == Pressure(limits, Now(), now)
    {
      if (limits.cpu > 0.0 || limits.memory > 0) && !Fresh(metrics, now) {
        return Some("monitor_unavailable");
      }
      if limits.memory > 0 && Used(metrics) >= limits.memory as real {
        return Some("memory_pressure");
      }
      if paused != Running {
        return Some(Name(paused));
      }
      return None;
    }

    method UpdateMetrics(m: Metrics, now: int)
      modifies this
      ensures limits == old(limits) && Now() == Update(limits, old(Now()), m, now)
    {
      if m.at <= timeSample {
        return;
      }
      if m.at - timeSample > 10 * SECOND {
        highSince, recoverSince := 0, 0;
      }
      metrics, timeSample := m, m.at;
      if !Fresh(m, now) {
        highSince, recoverSince := 0, 0;
        return;
      }
      var high := limits.cpu > 0.0 && m.cpu >= limits.cpu;
      var low := limits.cpu == 0.0 || m.cpu <= Max(limits.cpu - 15.0, limits.cpu / 2.0);
      var memory := limits.memory > 0 && Used(m) >= limits.memory as real;
      if memory {
        paused, recoverSince := MemoryPressure, 0;
        return;
      }
      if high {
        if highSince == 0 {
          highSince := now;
        }
        if now - highSince >= 15 * SECOND {
          paused := CpuPressure;
        }
        recoverSince := 0;
        return;
      }
      highSince := 0;
      if paused != Running {
        if low && (limits.memory == 0 || Used(m) <= RecoveryThreshold(limits.memory)) {
          if recoverSince == 0 {
            recoverSince := now;
          }
          if now - recoverSince >= 10 * SECOND {
            paused, recoverSince := Running, 0;
          }
        } else {
          recoverSince := 0;
        }
      }
    }
  }

  // ---------------------------------------------------------------------- whole runs

  datatype Sample = Sample(m: Metrics, now: int)

  /** The monitor after the first samples of a run. */
  function After(l: Limits, start: Monitor, run: seq<Sample>): Monitor
    decreases |run|
  {
    if run == [] then start
    else
      var last := run[|run| - 1];
      Update(l, After(l, start, run[..|run| - 1]), last.m, last.now)
  }

  predicate AcceptedAt(l: Limits, start: Monitor, run: seq<Sample>, k: nat)
    requires k < |run|
  {
    Accepted(After(l, start, run[..k]), run[k].m)
  }

  predicate GapAt(l: Limits, start: Monitor, run: seq<Sample>, k: nat)
    requires k < |run|
  {
    Gap(After(l, start, run[..k]), run[k].m)
  }

  /** From sample `i` on, every accepted sample is fresh and calm and follows the one
      before it within ten seconds, and the pause is on all the while. */
  ghost predicate Recovering(l: Limits, start: Monitor, run: seq<Sample>, i: nat)
    requires i < |run|
  {
    && AcceptedAt(l, start, run, i) && After(l, start, run[..i]).paused != Running
    && (forall k | i <= k < |run| && AcceptedAt(l, start, run, k) ::
          Fresh(run[k].m, run[k].now) && Calm(l, run[k].m) && (k > i ==> !GapAt(l, start, run, k)))
  }

  /** The same for a load that has not been low: over the CPU limit at first, over one of
      the two limits from then on. */
  ghost predicate Loaded(l: Limits, start: Monitor, run: seq<Sample>, i: nat)
    requires i < |run|
  {
    && AcceptedAt(l, start, run, i) && CpuHigh(l, run[i].m) && !MemoryHigh(l, run[i].m)
    && (forall k | i <= k < |run| && AcceptedAt(l, start, run, k) ::
          && Fresh(run[k].m, run[k].now) && (CpuHigh(l, run[k].m) || MemoryHigh(l, run[k].m))
          && (k > i ==> !GapAt(l, start, run, k)))
  }

  ghost predicate Explains(l: Limits, start: Monitor, run: seq<Sample>) {
    var s := After(l, start, run);
    && (s.recoverSince != 0
       ==> exists i :: 0 <= i < |run| && run[i].now == s.recoverSince && Recovering(l, start, run, i))
    && (s.highSince != 0 ==> exists i :: 0 <= i < |run| && run[i].now == s.highSince && Loaded(l, start, run, i))
    && (s.recoverSince != 0 ==> s.paused != Running)
  }

  lemma SamePrefix(run: seq<Sample>, k: nat)
    requires k < |run|
    ensures run[..|run| - 1][..k] == run[..k]
  {
  }

  /** What held of a run goes on to hold with one more sample that fits. */
  lemma RecoveringMore(l: Limits, start: Monitor, run: seq<Sample>, i: nat)
    requires |run| > 0 && i < |run| - 1 && Recovering(l, start, run[..|run| - 1], i)
    requires var k := |run| - 1; AcceptedAt(l, start, run, k) ==>
               Fresh(run[k].m, run[k].now) && Calm(l, run[k].m) && !GapAt(l, start, run, k)
    ensures Recovering(l, start, run, i)
  {
    hide Fresh, Calm, Update, Accepted, Gap;
    var front := run[..|run| - 1];
    SamePrefix(run, i);
    forall k | i <= k < |run| && AcceptedAt(l, start, run, k)
      ensures Fresh(run[k].m, run[k].now) && Calm(l, run[k].m) && (k > i ==> !GapAt(l, start, run, k))
    {
      SamePrefix(run, k);
      if k < |front| {
        assert AcceptedAt(l, start, front, k) && front[k] == run[k];
      }
    }
  }

  lemma LoadedMore(l: Limits, start: Monitor, run: seq<Sample>, i: nat)
    requires |run| > 0 && i < |run| - 1 && Loaded(l, start, run[..|run| - 1], i)
    requires var k := |run| - 1; AcceptedAt(l, start, run, k) ==>
               && Fresh(run[k].m, run[k].now) && (CpuHigh(l, run[k].m) || MemoryHigh(l, run[k].m))
               && !GapAt(l, start, run, k)
    ensures Loaded(l, start, run, i)
  {
    hide Fresh, CpuHigh, MemoryHigh, Update, Accepted, Gap;
    var front := run[..|run| - 1];
    SamePrefix(run, i);
    forall k | i <= k < |run| && AcceptedAt(l, start, run, k)
      ensures && Fresh(run[k].m, run[k].now) && (CpuHigh(l, run[k].m) || MemoryHigh(l, run[k].m))
              && (k > i ==> !GapAt(l, start, run, k))
    {
      SamePrefix(run, k);
      if k < |front| {
        assert AcceptedAt(l, start, front, k) && front[k] == run[k];
      }
    }
  }

  /** Both timers always stand for a stretch of samples. */
  lemma {:induction false} TimersExplained(l: Limits, start: Monitor, run: seq<Sample>)
    requires start.recoverSince == 0 && start.highSince == 0
    ensures Explains(l, start, run)
    decreases |run|
  {
    if run == [] {
    } else {
      TimersExplained(l, start, run[..|run| - 1]);
      RecoveryExplained(l, start, run);
      LoadExplained(l, start, run);
    }
  }

  lemma RecoveryExplained(l: Limits, start: Monitor, run: seq<Sample>)
    requires run != [] && Explains(l, start, run[..|run| - 1])
    ensures var s := After(l, start, run);
            && (s.recoverSince != 0 ==> s.paused != Running)
            && (s.recoverSince != 0
               ==> exists i :: 0 <= i < |run| && run[i].now == s.recoverSince && Recovering(l, start, run, i))
  {
    hide Fresh, Calm, Recovering, Loaded, CpuHigh, MemoryHigh;
    var n := |run| - 1;
    var front := run[..n];
    var before, s := After(l, start, front), After(l, start, run);
    if s.recoverSince != 0 {
      if before.recoverSince == s.recoverSince && !(AcceptedAt(l, start, run, n) && GapAt(l, start, run, n)) {
        var i :| 0 <= i < |front| && front[i].now == before.recoverSince && Recovering(l, start, front, i);
        RecoveringMore(l, start, run, i);
        assert run[i].now == s.recoverSince;
      } else {
        StartsRecovering(l, start, run);
      }
    }
  }

  lemma StartsRecovering(l: Limits, start: Monitor, run: seq<Sample>)
    requires run != []
    requires var n := |run| - 1; AcceptedAt(l, start, run, n) && After(l, start, run[..n]).paused != Running
                                 && Fresh(run[n].m, run[n].now) && Calm(l, run[n].m)
    ensures Recovering(l, start, run, |run| - 1)
  {
  }

  lemma LoadExplained(l: Limits, start: Monitor, run: seq<Sample>)
    requires run != [] && Explains(l, start, run[..|run| - 1])
    ensures var s := After(l, start, run);
            s.highSince != 0 ==> exists i :: 0 <= i < |run| && run[i].now == s.highSince && Loaded(l, start, run, i)
  {
    hide Fresh, Calm, Recovering, Loaded, CpuHigh, MemoryHigh;
    var n := |run| - 1;
    var front := run[..n];
    var before, s := After(l, start, front), After(l, start, run);
    if s.highSince != 0 {
      if before.highSince == s.highSince && !(AcceptedAt(l, start, run, n) && GapAt(l, start, run, n)) {
        var i :| 0 <= i < |front| && front[i].now == before.highSince && Loaded(l, start, front, i);
        LoadedMore(l, start, run, i);
        assert run[i].now == s.highSince;
      } else {
        StartsLoaded(l, start, run);
      }
    }
  }

  lemma StartsLoaded(l: Limits, start: Monitor, run: seq<Sample>)
    requires run != []
    requires var n := |run| - 1; AcceptedAt(l, start, run, n) && Fresh(run[n].m, run[n].now) && CpuHigh(l, run[n].m)
                                 && !MemoryHigh(l, run[n].m)
    ensures Loaded(l, start, run, |run| - 1)
  {
  }

  /** A pause is lifted only after at least ten seconds in which every accepted sample
      was fresh and at or below both recovery thresholds, none more than ten seconds
      after the one before. */
  lemma LiftedOnlyWhenCalm(l: Limits, start: Monitor, run: seq<Sample>)
    requires start.recoverSince == 0 && start.highSince == 0 && run != []
    requires After(l, start, run[..|run| - 1]).paused != Running && After(l, start, run).paused == Running
    ensures exists i :: 0 <= i < |run| && Recovering(l, start, run, i) && run[|run| - 1].now - run[i].now >= 10 * SECOND
  {
    hide Fresh, Calm, Recovering, Loaded, CpuHigh, MemoryHigh;
    var n := |run| - 1;
    var front := run[..n];
    TimersExplained(l, start, front);
    var before := After(l, start, front);
    if GapAt(l, start, run, n) || before.recoverSince == 0 {
      assert false;
    }
    var i :| 0 <= i < |front| && front[i].now == before.recoverSince && Recovering(l, start, front, i);
    RecoveringMore(l, start, run, i);
    assert run[i].now == before.recoverSince;
  }

  /** The pause for CPU is set only after at least fifteen seconds of fresh samples, each
      over the CPU or the memory limit. */
  lemma CpuPauseOnlyUnderLoad(l: Limits, start: Monitor, run: seq<Sample>)
    requires start.recoverSince == 0 && start.highSince == 0 && run != []
    requires After(l, start, run[..|run| - 1]).paused != CpuPressure && After(l, start, run).paused == CpuPressure
    ensures exists i :: 0 <= i < |run| && Loaded(l, start, run, i) && run[|run| - 1].now - run[i].now >= 15 * SECOND
  {
    hide Fresh, Calm, Recovering, Loaded, CpuHigh, MemoryHigh;
    var n := |run| - 1;
    var front := run[..n];
    TimersExplained(l, start, front);
    var before := After(l, start, front);
    if GapAt(l, start, run, n) || before.highSince == 0 {
      assert false;
    }
    var i :| 0 <= i < |front| && front[i].now == before.highSince && Loaded(l, start, front, i);
    LoadedMore(l, start, run, i);
    assert run[i].now == before.highSince;
  }

  function Reading(at: int, cpu: real, used: real): Sample {
    Sample(Metrics(at, true, "host", 4, cpu, 1000.0, 1000.0, Some(used)), at)
  }

  /** Not every one of them needs to be over the CPU limit: a sample over the memory
      limit leaves the CPU timer running. */
  lemma MemoryKeepsCpuTimer()
    ensures var l := Limits(90.0, 800); var start := Monitor(0, Reading(0, 0.0, 0.0).m, 0, 0, Running);
            var run := [Reading(SECOND, 95.0, 100.0), Reading(9 * SECOND, 10.0, 900.0),
              Reading(17 * SECOND, 95.0, 100.0)];
            After(l, start, run).paused == CpuPressure && !CpuHigh(l, run[1].m)
  {
    var l, start := Limits(90.0, 800), Monitor(0, Reading(0, 0.0, 0.0).m, 0, 0, Running);
    var a, b, c := Reading(SECOND, 95.0, 100.0), Reading(9 * SECOND, 10.0, 900.0), Reading(17 * SECOND, 95.0, 100.0);
    var run := [a, b, c];
    assert run[..2] == [a, b] && run[..2][..1] == [a] && run[..2][..1][..0] == [];
    var s0 := After(l, start, []);
    var s1 := Update(l, start, a.m, a.now);
    assert After(l, start, [a]) == s1 by { assert [a][..0] == []; }
    assert s1.highSince == SECOND && s1.sample == SECOND;
    var s2 := Update(l, s1, b.m, b.now);
    assert After(l, start, [a, b]) == s2 by { assert [a, b][..1] == [a]; }
    assert s2.highSince == SECOND && s2.paused == MemoryPressure && s2.sample == 9 * SECOND;
    assert After(l, start, run) == Update(l, s2, c.m, c.now);
  }

  /** How far below the limits calm is: at most half of the CPU limit or 15 points under it,
      and at most half of the memory or both 32 MiB and a twentieth under it. */
  lemma CalmMeans(l: Limits, m: Metrics)
    requires l.cpu >= 0.0 && l.memory >= 0
    ensures Calm(l, m) <==>
              && (l.cpu == 0.0 || 2.0 * m.cpu <= l.cpu || m.cpu + 15.0 <= l.cpu)
              && (l.memory == 0 || 2.0 * Used(m) <= l.memory as real
                 || (Used(m) + 32.0 <= l.memory as real && 20.0 * Used(m) <= 19.0 * l.memory as real))
  {
    var budget := l.memory as real;
    assert RecoveryThreshold(l.memory) == Max(budget - Max(32.0, budget * 0.05), budget / 2.0);
  }

  /** What is calm is not high. */
  lemma CalmIsNotHigh(l: Limits, m: Metrics)
    requires Calm(l, m) && l.cpu >= 0.0 && l.memory >= 0
    ensures !CpuHigh(l, m) && !MemoryHigh(l, m)
  {
  }

  ghost predicate Clock(run: seq<Sample>) {
    (forall k | 0 <= k < |run| :: run[k].now > 0) && (forall j, k | 0 <= j <= k < |run| :: run[j].now <= run[k].now)
  }

  /** Running again, or waiting since `moment` at the latest. */
  predicate Waiting(s: Monitor, moment: int) {
    s.paused == Running || 0 != s.recoverSince <= moment
  }

  lemma CalmStep(l: Limits, s: Monitor, m: Metrics, now: int, moment: int, first: bool)
    requires l.cpu >= 0.0 && l.memory >= 0 && Fresh(m, now) && Calm(l, m) && Accepted(s, m)
    requires if first then 0 < now == moment && s.recoverSince <= now else Waiting(s, moment) && !Gap(s, m)
    ensures var t := Update(l, s, m, now);
            Waiting(t, moment) && (t.paused == Running || now - t.recoverSince < 10 * SECOND)
  {
    CalmIsNotHigh(l, m);
    hide Fresh, Calm, CpuHigh, MemoryHigh;
  }

  lemma RecoveringFront(l: Limits, start: Monitor, run: seq<Sample>, i: nat)
    requires i < |run| - 1 && Recovering(l, start, run, i)
    ensures Recovering(l, start, run[..|run| - 1], i)
  {
    hide Fresh, Calm, Update, Accepted, Gap;
    var front := run[..|run| - 1];
    SamePrefix(run, i);
    forall k | i <= k < |front| && AcceptedAt(l, start, front, k)
      ensures Fresh(front[k].m, front[k].now) && Calm(l, front[k].m) && (k > i ==> !GapAt(l, start, front, k))
    {
      SamePrefix(run, k);
      assert AcceptedAt(l, start, run, k);
    }
  }

  lemma {:induction false} RecoveryRuns(l: Limits, start: Monitor, run: seq<Sample>, i: nat)
    requires i < |run| && Recovering(l, start, run, i) && Clock(run) && l.cpu >= 0.0 && l.memory >= 0
    requires After(l, start, run[..i]).recoverSince <= run[i].now
    ensures var s := After(l, start, run);
            && Waiting(s, run[i].now)
            && (s.paused != Running && AcceptedAt(l, start, run, |run| - 1) ==>
                  run[|run| - 1].now - s.recoverSince < 10 * SECOND)
    decreases |run|
  {
    var n := |run| - 1;
    var before := After(l, start, run[..n]);
    if i == n {
    } else {
      SamePrefix(run, i);
      RecoveringFront(l, start, run, i);
      RecoveryRuns(l, start, run[..n], i);
    }
    if AcceptedAt(l, start, run, n) {
      CalmStep(l, before, run[n].m, run[n].now, run[i].now, i == n);
    }
    hide Fresh, Calm, CpuHigh, MemoryHigh, Recovering;
  }

  /** And ten seconds of calm do lift it. */
  lemma TenCalmSecondsLift(l: Limits, start: Monitor, run: seq<Sample>, i: nat)
    requires start.recoverSince == 0 && start.highSince == 0 && l.cpu >= 0.0 && l.memory >= 0 && Clock(run)
    requires i < |run| && Recovering(l, start, run, i) && AcceptedAt(l, start, run, |run| - 1)
    requires run[|run| - 1].now - run[i].now >= 10 * SECOND
    ensures After(l, start, run).paused == Running
  {
    hide Fresh, Calm, CpuHigh, MemoryHigh, Recovering, Loaded;
    TimersExplained(l, start, run[..i]);
    var since := After(l, start, run[..i]).recoverSince;
    if since != 0 {
      var k :| 0 <= k < i && run[..i][k].now == since;
      assert run[k].now <= run[i].now;
    } else {
      assert run[i].now > 0;
    }
    RecoveryRuns(l, start, run, i);
  }

  // ------------------------------------------------------------------ exactly when

  lemma LoadStep(l: Limits, s: Monitor, m: Metrics, now: int, moment: int, first: bool)
    requires Fresh(m, now) && Accepted(s, m)
    requires if first then CpuHigh(l, m) && !MemoryHigh(l, m) && 0 < now == moment && s.highSince <= now
             else (CpuHigh(l, m) || MemoryHigh(l, m)) && 0 != s.highSince <= moment && !Gap(s, m)
    ensures 0 != Update(l, s, m, now).highSince <= moment
  {
    hide Fresh, CpuHigh, MemoryHigh;
  }

  lemma LoadedFront(l: Limits, start: Monitor, run: seq<Sample>, i: nat)
    requires i < |run| - 1 && Loaded(l, start, run, i)
    ensures Loaded(l, start, run[..|run| - 1], i)
  {
    hide Fresh, CpuHigh, MemoryHigh, Update, Accepted, Gap;
    var front := run[..|run| - 1];
    SamePrefix(run, i);
    forall k | i <= k < |front| && AcceptedAt(l, start, front, k)
      ensures && Fresh(front[k].m, front[k].now) && (CpuHigh(l, front[k].m) || MemoryHigh(l, front[k].m))
              && (k > i ==> !GapAt(l, start, front, k))
    {
      SamePrefix(run, k);
      assert AcceptedAt(l, start, run, k);
    }
  }

  /** The timer of a load runs from its first sample at the latest. */
  lemma {:induction false} LoadRuns(l: Limits, start: Monitor, run: seq<Sample>, i: nat)
    requires i < |run| && Loaded(l, start, run, i) && Clock(run)
    requires After(l, start, run[..i]).highSince <= run[i].now
    ensures 0 != After(l, start, run).highSince <= run[i].now
    decreases |run|
  {
    var n := |run| - 1;
    var before := After(l, start, run[..n]);
    if i == n {
    } else {
      SamePrefix(run, i);
      LoadedFront(l, start, run, i);
      LoadRuns(l, start, run[..n], i);
    }
    if AcceptedAt(l, start, run, n) {
      LoadStep(l, before, run[n].m, run[n].now, run[i].now, i == n);
    }
    hide Fresh, CpuHigh, MemoryHigh, Loaded;
  }

  /** Fifteen seconds over the limits set the pause with the next sample over the CPU
      limit alone. */
  lemma FifteenLoadedSecondsPause(l: Limits, start: Monitor, run: seq<Sample>, i: nat)
    requires start.recoverSince == 0 && start.highSince == 0 && Clock(run)
    requires i < |run| && Loaded(l, start, run, i) && AcceptedAt(l, start, run, |run| - 1)
    requires CpuHigh(l, run[|run| - 1].m) && !MemoryHigh(l, run[|run| - 1].m)
    requires run[|run| - 1].now - run[i].now >= 15 * SECOND
    ensures After(l, start, run).paused == CpuPressure
  {
    TimersExplained(l, start, run[..i]);
    var since := After(l, start, run[..i]).highSince;
    if since != 0 {
      var k :| 0 <= k < i && run[..i][k].now == since;
      assert run[k].now <= run[i].now;
    } else {
      assert run[i].now > 0;
    }
    LoadRuns(l, start, run, i);
    assert Fresh(run[|run| - 1].m, run[|run| - 1].now);
    hide Fresh, CpuHigh, MemoryHigh, Loaded, Recovering, Calm;
  }

  /** The last sample ends fifteen seconds over the limits. */
  ghost predicate LongLoad(l: Limits, start: Monitor, run: seq<Sample>) {
    exists i :: 0 <= i < |run| && Loaded(l, start, run, i) && run[|run| - 1].now - run[i].now >= 15 * SECOND
  }

  /** The last sample ends ten seconds of calm in a pause. */
  ghost predicate LongCalm(l: Limits, start: Monitor, run: seq<Sample>) {
    exists i :: 0 <= i < |run| && Recovering(l, start, run, i) && run[|run| - 1].now - run[i].now >= 10 * SECOND
  }

  lemma StepPauses(l: Limits, s: Monitor, m: Metrics, now: int)
    requires l.cpu >= 0.0 && l.memory >= 0 && Accepted(s, m)
    ensures var t := Update(l, s, m, now);
            && (Fresh(m, now) && MemoryHigh(l, m) ==> t.paused == MemoryPressure)
            && (t.paused != s.paused ==>
                  && Fresh(m, now)
                  && (t.paused == MemoryPressure ==> MemoryHigh(l, m))
                  && (t.paused == CpuPressure ==> CpuHigh(l, m) && !MemoryHigh(l, m)))
  {
    hide Fresh, Calm, CpuHigh, MemoryHigh;
  }

  /** What one more sample does to the pause, from all samples so far.  A sample that is not
      newer than the last does nothing.  One that cannot be relied on changes no pause.  One
      with the used memory at or over its limit pauses for memory.  One with only the CPU
      over its limit pauses for it exactly if it ends fifteen seconds over the limits.  And
      one under both limits lifts a pause exactly if it ends ten calm seconds. */
  lemma PauseIsExact(l: Limits, start: Monitor, run: seq<Sample>)
    requires start.recoverSince == 0 && start.highSince == 0 && run != [] && Clock(run)
    requires l.cpu >= 0.0 && l.memory >= 0
    ensures var n := |run| - 1; var m, now := run[n].m, run[n].now;
            var before, after := After(l, start, run[..n]), After(l, start, run);
            if m.at <= before.sample then after == before
            else if !Fresh(m, now) then after.paused == before.paused && after.highSince == 0 == after.recoverSince
            else if l.memory > 0 && Used(m) >= l.memory as real then after.paused == MemoryPressure
            else if l.cpu > 0.0 && m.cpu >= l.cpu then
              after.paused == if LongLoad(l, start, run) then CpuPressure else before.paused
            else after.paused == if LongCalm(l, start, run) then Running else before.paused
  {
    var n := |run| - 1;
    var before, after := After(l, start, run[..n]), After(l, start, run);
    if AcceptedAt(l, start, run, n) {
      StepPauses(l, before, run[n].m, run[n].now);
      if LongLoad(l, start, run) && CpuHigh(l, run[n].m) && !MemoryHigh(l, run[n].m) {
        var i :| 0 <= i < |run| && Loaded(l, start, run, i) && run[n].now - run[i].now >= 15 * SECOND;
        FifteenLoadedSecondsPause(l, start, run, i);
      }
      if LongCalm(l, start, run) {
        var i :| 0 <= i < |run| && Recovering(l, start, run, i) && run[n].now - run[i].now >= 10 * SECOND;
        TenCalmSecondsLift(l, start, run, i);
      }
      if before.paused != CpuPressure && after.paused == CpuPressure {
        CpuPauseOnlyUnderLoad(l, start, run);
      }
      if before.paused != Running && after.paused == Running {
        LiftedOnlyWhenCalm(l, start, run);
      }
    }
    hide Fresh, Calm, Loaded, Recovering;
  }
}

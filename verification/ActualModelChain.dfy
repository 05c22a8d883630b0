/** Increment after increment, and still what a full read would show
    (internal/service/actual_model_incremental.go:206-256,
    internal/service/actual_model_usage.go:44-69). */
module ActualModelChain {
  import opened ActualModelReport
  import opened ActualModels
  import opened ActualModelRefresh
  import opened Wrappers

  /** One refresh: its range, upstream's answers, and the totals of its summary. */
  datatype Refresh = Refresh(fromMS: int, toMS: int, first: Page, fetch: nat -> Option<Page>, calls: int, tokens: int)

  function Read(r: Refresh, cutoff: Option<int>): Option<seq<Page>> {
    Pages(r.first, r.fetch, 0, 0, 0, cutoff)
  }

  /** Upstream answers from this log: the events of the range, newest first, in pages. */
  ghost predicate Honest(log: map<string, Event>, r: Refresh, cutoff: Option<int>) {
    exists all, recent: nat ::
      && Lists(all, Within(log, r.fromMS, r.toMS))
      && (if cutoff.Some? then RecentAre(all, recent, cutoff.value) else recent == |all|)
      && (Read(r, cutoff).Some? ==> PagedFrom(all, recent, |all|, 0, Read(r, cutoff).value))
  }

  /** What a full read that succeeds leaves. */
  ghost predicate Rebuilt(b: Snapshot, r: Refresh)
    reads b
  {
    && b.Valid() && Read(r, None).Some? && b.counted == multiset(CompactAll(Items(Read(r, None).value)))
    && b.rows == FullRows(Some(map[]), r.fromMS, r.toMS, Items(Read(r, None).value))
  }

  /** A checkpoint that holds the events of a range shows what a full read of the range
      shows, whatever led to it, holds the same rows if the full read kept any, and its
      figures are those of the rows that the full read lists. */
  lemma WholeMeetsRebuild(log: map<string, Event>, a: Snapshot, b: Snapshot, full: Refresh)
    requires Agrees(a) && a.rows.value == Within(log, full.fromMS, full.toMS)
    requires Rebuilt(b, full) && Honest(log, full, None)
    ensures a.byModel == b.byModel && a.calls == b.calls && a.tokens == b.tokens && (b.rows.Some? ==> a.rows == b.rows)
    ensures Reports(a, Items(Read(full, None).value))
  {
    hide PagedFrom, Pages, Within, Values, CompactAll, GroupBy, FullRows, Overlay;
    var all, recent: nat :| Lists(all, Within(log, full.fromMS, full.toMS)) && recent == |all|
                            && PagedFrom(all, recent, |all|, 0, Read(full, None).value);
    PagesStop(full.first, full.fetch, 0, 0, 0, None);
    ReadIsAll(all, 0, Read(full, None).value);
    assert all[0..] == all;
    OverlayKeeps(Within(log, full.fromMS, full.toMS), all);
    KeepsValues(Within(log, full.fromMS, full.toMS), all);
    hide Keeps;
    if b.rows.Some? {
      FullRowsKeep(map[], full.fromMS, full.toMS, all);
    }
    GroupByIsOne(a.byModel, b.byModel, a.counted);
    CountingReports(a, all);
  }

  /** What the next refresh assumes of the one before: ranges move forward and overlap,
      and no event changed that is older than the overlap. */
  ghost predicate Follows(log: map<string, Event>, log': map<string, Event>, from0: int, to0: int, r: Refresh) {
    && SameBefore(log, log', to0 - OVERLAP) && from0 <= r.fromMS < to0 <= r.toMS
    && Honest(log', r, Some(Cutoff(r.fromMS, to0)))
  }

  /** An increment that succeeds holds exactly the events of the new range. */
  lemma IncrementIsWhole(log: map<string, Event>, log': map<string, Event>, from0: int, to0: int, r: Refresh)
    requires Follows(log, log', from0, to0, r) && Read(r, Some(Cutoff(r.fromMS, to0))).Some?
    ensures var cutoff := Cutoff(r.fromMS, to0);
            Overlay(Kept(Within(log, from0, to0), r.fromMS, r.toMS, cutoff), Items(Read(r, Some(cutoff)).value))
              == Within(log', r.fromMS, r.toMS)
  {
    hide Lists, PagedFrom, Pages, Within, Overlay, Kept, SameBefore;
    var cutoff := Cutoff(r.fromMS, to0);
    var all, recent: nat :| Lists(all, Within(log', r.fromMS, r.toMS)) && RecentAre(all, recent, cutoff)
                            && PagedFrom(all, recent, |all|, 0, Read(r, Some(cutoff)).value);
    IncrementIsRebuild(log, log', from0, to0, r.fromMS, r.toMS, all, recent, r.first, r.fetch);
  }

  lemma ListedAreAcceptable(all: seq<EventRow>, m: map<string, Event>, n: nat, fromMS: int, toMS: int)
    requires Lists(all, m) && n <= |all| && forall h | h in m :: ValidEvent(fromMS, toMS, h, m[h])
    ensures Acceptable(all[..n], fromMS, toMS)
  {
    hide ValidEvent;
    assert forall i | 0 <= i < n :: all[..n][i] == all[i];
  }

  /** Nothing that upstream does right makes an increment fail: if it pages through the events
      of the range, all of them usable and not too many, and its summary is right. */
  lemma HonestIncrementSucceeds(log: map<string, Event>, log': map<string, Event>, from0: int, to0: int, r: Refresh)
    requires Follows(log, log', from0, to0, r) && Read(r, Some(Cutoff(r.fromMS, to0))).Some?
    requires var now := Within(log', r.fromMS, r.toMS);
             && (forall h | h in now :: ValidEvent(r.fromMS, r.toMS, h, now[h]))
             && |now| <= MAX_ROWS && r.calls == |now| && r.tokens == Wrap(Sum(Values(now), None).total)
    ensures var cutoff := Cutoff(r.fromMS, to0);
            Increments(Within(log, from0, to0), r.fromMS, r.toMS, cutoff, Items(Read(r, Some(cutoff)).value), r.calls,
              r.tokens)
  {
    hide PagedFrom, Pages, Overlay, Kept, SameBefore, ValidEvent, Values, Sum, Wrap, Within, Lists;
    IncrementIsWhole(log, log', from0, to0, r);
    var cutoff, now := Cutoff(r.fromMS, to0), Within(log', r.fromMS, r.toMS);
    var items := Items(Read(r, Some(cutoff)).value);
    var all, recent: nat :| Lists(all, now) && RecentAre(all, recent, cutoff)
                            && PagedFrom(all, recent, |all|, 0, Read(r, Some(cutoff)).value);
    ReadIsPrefix(all, recent, |all|, 0, Read(r, Some(cutoff)).value);
    assert all[0..|items|] == all[..|items|];
    ListedAreAcceptable(all, now, |items|, r.fromMS, r.toMS);
    hide Acceptable;
  }

  /** A successful increment shows what a successful full read of its range shows: the
      same models with the same numbers, the same totals, and the same rows if the full
      read kept any. */
  lemma IncrementMeetsRebuild(log: map<string, Event>, log': map<string, Event>, from0: int, to0: int, r: Refresh,
      full: Refresh, a: Snapshot, b: Snapshot)
    requires Follows(log, log', from0, to0, r) && Read(r, Some(Cutoff(r.fromMS, to0))).Some?
    requires Agrees(a)
    requires var cutoff := Cutoff(r.fromMS, to0);
             a.rows.value
               == Overlay(Kept(Within(log, from0, to0), r.fromMS, r.toMS, cutoff), Items(Read(r, Some(cutoff)).value))
    requires Rebuilt(b, full) && Honest(log', full, None) && full.fromMS == r.fromMS && full.toMS == r.toMS
    ensures a.byModel == b.byModel && a.calls == b.calls && a.tokens == b.tokens && (b.rows.Some? ==> a.rows == b.rows)
  {
    hide Follows, Honest, Rebuilt, Within, Overlay, Kept, Read;
    IncrementIsWhole(log, log', from0, to0, r);
    WholeMeetsRebuild(log', a, b, full);
  }

  function FromOf(previous: int, refreshes: seq<Refresh>, i: nat): int
    requires i <= |refreshes|
  {
    if i == 0 then previous else refreshes[i - 1].fromMS
  }

  function ToOf(previous: int, refreshes: seq<Refresh>, i: nat): int
    requires i <= |refreshes|
  {
    if i == 0 then previous else refreshes[i - 1].toMS
  }

  /** Any number of refreshes, each an increment of the one before.  As long as they
      succeed, the checkpoint holds exactly the events of the last range, so by
      `WholeMeetsRebuild` it shows what a full read would show. */
  method RefreshAll(previous: Snapshot, refreshes: seq<Refresh>, ghost logs: seq<map<string, Event>>)
    returns (ok: bool, last: Snapshot)
    requires Agrees(previous) && |previous.rows.value| <= MAX_ROWS && |logs| == |refreshes| + 1
    requires previous.rows.value == Within(logs[0], previous.fromMS, previous.toMS)
    requires forall i | 0 <= i < |refreshes| ::
               Follows(logs[i], logs[i + 1], FromOf(previous.fromMS, refreshes, i), ToOf(previous.toMS, refreshes, i),
                 refreshes[i])
    ensures ok ==>
              && Agrees(last) && last.rows.value == Within(logs[|refreshes|], last.fromMS, last.toMS)
              && last.fromMS == FromOf(previous.fromMS, refreshes, |refreshes|)
              && last.toMS == ToOf(previous.toMS, refreshes, |refreshes|)
  {
    hide Follows, Within, Overlay, Kept, Pages, Acceptable, Sum, Values, GroupBy;
    ok, last := true, previous;
    var i := 0;
    while i < |refreshes|
      invariant 0 <= i <= |refreshes| && Agrees(last) && |last.rows.value| <= MAX_ROWS
      invariant last.rows.value == Within(logs[i], last.fromMS, last.toMS)
      invariant last.fromMS == FromOf(previous.fromMS, refreshes, i) && last.toMS == ToOf(previous.toMS, refreshes, i)
    {
      var r := refreshes[i];
      ghost var cutoff := Cutoff(r.fromMS, last.toMS);
      ghost var before := last.rows.value;
      var next;
      ok, next := Increment(r.fromMS, r.toMS, last, r.first, r.fetch, r.calls, r.tokens);
      if !ok {
        return;
      }
      IncrementIsWhole(logs[i], logs[i + 1], last.fromMS, last.toMS, r);
      last := next;
      i := i + 1;
    }
  }
}

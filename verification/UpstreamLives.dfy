/** What the shared reads promise their readers, told by what happened in the run: how
    long a stored body is served, and why a read was served or failed
    (internal/cpamp/upstream_cache.go:131-191). */
module UpstreamLives {
  import opened UpstreamCache
  import opened UpstreamReads
  import opened Wrappers

  /** The entries go and a new generation begins. */
  predicate Invalidates(a: Action) {
    a.BeginWrite? || a.EndWrite? || a.Invalidate?
  }

  lemma {:induction false} RunsJoin(s: State, a: seq<Action>, b: seq<Action>)
    ensures Possible(s, a + b) <==> Possible(s, a) && Possible(After(s, a), b)
    ensures Possible(s, a + b) ==> After(s, a + b) == After(After(s, a), b)
    decreases |a|
  {
    hide Enabled, Next;
    if a == [] {
      assert a + b == b;
    } else {
      assert (a + b)[1..] == a[1..] + b;
      if Enabled(s, a[0]) {
        RunsJoin(Next(s, a[0]), a[1..], b);
      }
    }
  }

  /** The state before action `i` of a run. */
  ghost function At(run: seq<Action>, i: nat): State
    requires Possible(START, run) && i <= |run|
  {
    assert run[..i] + run[i..] == run;
    RunsJoin(START, run[..i], run[i..]);
    After(START, run[..i])
  }

  lemma BeginsAtStart(run: seq<Action>)
    requires Possible(START, run)
    ensures At(run, 0) == START
  {
    assert run[..0] == [];
  }

  lemma Step(run: seq<Action>, i: nat)
    requires Possible(START, run) && i < |run|
    ensures Enabled(At(run, i), run[i]) && At(run, i + 1) == Next(At(run, i), run[i])
  {
    hide Enabled, Next;
    assert run[..i] + run[i..] == run;
    RunsJoin(START, run[..i], run[i..]);
    assert run[..i + 1] == run[..i] + [run[i]];
    assert run[i..] == [run[i]] + run[i + 1..];
    RunsJoin(START, run[..i], [run[i]]);
    RunsJoin(At(run, i), [run[i]], run[i + 1..]);
  }

  lemma Front(run: seq<Action>, n: nat)
    requires Possible(START, run) && n <= |run|
    ensures Possible(START, run[..n])
    ensures forall i: nat | i <= n :: At(run[..n], i) == At(run, i)
  {
    hide Enabled, Next;
    assert run[..n] + run[n..] == run;
    RunsJoin(START, run[..n], run[n..]);
    forall i: nat | i <= n
      ensures At(run[..n], i) == At(run, i)
    {
      assert run[..n][..i] == run[..i];
    }
  }

  /** The flight fetched the path in this generation, with an answer that may be kept. */
  predicate MayKeep(s: State, flight: nat, path: Path, body: Body) {
    && flight < |s.flights| && s.flights[flight].path == path && s.flights[flight].answer == Some(body)
    && s.flights[flight].generation == s.generation && 0 < body.size <= 1_048_576 && body.cacheable
  }

  /** Action `i` put this body away until this moment: a fetch of the path ended, with an
      answer that may be kept, in the generation in which it began.  Nothing has thrown
      the entries away before action `k`. */
  ghost predicate StoredAt(run: seq<Action>, i: nat, k: nat, path: Path, body: Body, until: int)
    requires Possible(START, run) && k <= |run|
  {
    && i < k && run[i].EndFlight? && run[i].now + run[i].ttl == until
    && MayKeep(At(run, i), run[i].flight, path, body)
    && forall j | i < j < k :: !Invalidates(run[j])
  }

  ghost predicate Stored(run: seq<Action>, k: nat, path: Path, body: Body, until: int)
    requires Possible(START, run) && k <= |run|
  {
    exists i: nat :: StoredAt(run, i, k, path, body, until)
  }

  lemma StoredStays(run: seq<Action>, k: nat, path: Path, body: Body, until: int)
    requires Possible(START, run) && k < |run| && Stored(run, k, path, body, until) && !Invalidates(run[k])
    ensures Stored(run, k + 1, path, body, until)
  {
    hide Possible, Next, Enabled;
    var i: nat :| StoredAt(run, i, k, path, body, until);
    assert StoredAt(run, i, k + 1, path, body, until);
  }

  /** An entry after a step was there before it, or the step stored it. */
  lemma EntryComesFrom(s: State, a: Action, path: Path)
    requires Enabled(s, a) && path in Next(s, a).entries
    ensures !Invalidates(a)
    ensures || (path in s.entries && Next(s, a).entries[path] == s.entries[path])
            || (a.EndFlight? && Keeps(s, s.flights[a.flight]) && s.flights[a.flight].path == path
                && Next(s, a).entries[path] == Entry(s.flights[a.flight].answer.value, a.now, a.now + a.ttl))
  {
    hide Evicted, Joins, Bytes, WithinLimits;
    if a.EndFlight? && Keeps(s, s.flights[a.flight]) {
      KeptAreOld(s.entries, s.flights[a.flight].path, s.flights[a.flight].answer.value.size, a.now, a.kept);
    }
  }

  /** Every entry of the cache was stored in the run, after the last write began or ended. */
  lemma {:induction false} EntriesWereStored(run: seq<Action>, k: nat, path: Path)
    requires Possible(START, run) && k <= |run| && path in At(run, k).entries
    ensures var e := At(run, k).entries[path]; Stored(run, k, path, e.body, e.expiresAt)
    decreases k
  {
    hide Possible, Next, Enabled;
    BeginsAtStart(run);
    if k == 0 {
      assert false;
    } else {
      var n: nat := k - 1;
      Step(run, n);
      EntryComesFrom(At(run, n), run[n], path);
      var e := At(run, k).entries[path];
      if path in At(run, n).entries && At(run, n).entries[path] == e {
        EntriesWereStored(run, n, path);
        StoredStays(run, n, path, e.body, e.expiresAt);
      } else {
        FlightInRange(At(run, n), run[n]);
        assert StoredAt(run, n, k, path, e.body, e.expiresAt);
      }
    }
  }

  lemma FlightInRange(s: State, a: Action)
    requires Enabled(s, a) && a.EndFlight?
    ensures a.flight < |s.flights|
  {
  }

  /** Why a read is where it is after `k` actions. */
  ghost predicate Explained(run: seq<Action>, k: nat, r: nat)
    requires Possible(START, run) && k <= |run| && r in At(run, k).readers
  {
    match At(run, k).readers[r]
    case Served(path, _, body) => FromCache(run, k, r, path, body) || FromFlight(run, k, r, path, Some(body))
    case Failed => GaveUp(run, k, r) || exists path :: FromFlight(run, k, r, path, None)
    case _ => true
  }

  /** Some look found a body that had been stored less than its life before. */
  ghost predicate FromCache(run: seq<Action>, k: nat, r: nat, path: Path, body: Body)
    requires Possible(START, run) && k <= |run|
  {
    exists i: nat, until: int ::
      i < k && run[i].Look? && run[i].reader == r && Stored(run, i, path, body, until) && run[i].now < until
  }

  /** Some wake-up was to this answer, of a fetch of the generation that it woke in. */
  ghost predicate FromFlight(run: seq<Action>, k: nat, r: nat, path: Path, answer: Option<Body>)
    requires Possible(START, run) && k <= |run|
  {
    exists i: nat :: i < k && run[i] == Wake(r) && WokeTo(At(run, i), r, path, answer)
  }

  ghost predicate WokeTo(s: State, r: nat, path: Path, answer: Option<Body>) {
    && r in s.readers && s.readers[r].Waiting? && s.readers[r].path == path && s.readers[r].flight < |s.flights|
    && var f := s.flights[s.readers[r].flight];
      f.done && f.path == path && f.answer == answer && f.generation == s.generation
  }

  ghost predicate GaveUp(run: seq<Action>, k: nat, r: nat) {
    exists i: nat :: i < k <= |run| && run[i] == GiveUp(r)
  }

  /** A read that has ended stays as it is. */
  lemma EndsStay(s: State, a: Action, r: nat)
    requires Enabled(s, a) && r in s.readers && (s.readers[r].Served? || s.readers[r].Failed?)
    ensures r in Next(s, a).readers && Next(s, a).readers[r] == s.readers[r]
  {
    hide Evicted, Joins, Bytes;
  }

  /** How a read comes to an end. */
  lemma EndsBy(s: State, a: Action, r: nat)
    requires Honest(s) && Enabled(s, a) && r in Next(s, a).readers
    requires r in s.readers ==> Next(s, a).readers[r] != s.readers[r]
    requires Next(s, a).readers[r].Served? || Next(s, a).readers[r].Failed?
    ensures r in s.readers && var after := Next(s, a).readers[r];
            || (a.Look? && a.reader == r && after.Served? && after.path in s.entries
                && s.entries[after.path].body == after.body && a.now < s.entries[after.path].expiresAt)
            || (a == Wake(r) && after.Served? && WokeTo(s, r, after.path, Some(after.body)))
            || (a == Wake(r) && after.Failed? && exists path :: WokeTo(s, r, path, None))
            || (a == GiveUp(r) && after.Failed?)
  {
    hide Evicted, Joins, Bytes;
    if a == Wake(r) && Next(s, a).readers[r].Failed? {
      assert WokeTo(s, r, s.readers[r].path, None);
    }
  }

  lemma ExplainedStays(run: seq<Action>, k: nat, r: nat)
    requires Possible(START, run) && k < |run| && r in At(run, k).readers && Explained(run, k, r)
    requires r in At(run, k + 1).readers && At(run, k + 1).readers[r] == At(run, k).readers[r]
    ensures Explained(run, k + 1, r)
  {
    hide Possible, Next, Enabled, WokeTo, Stored;
    var reader := At(run, k).readers[r];
    if reader.Served? && FromCache(run, k, r, reader.path, reader.body) {
      assert FromCache(run, k + 1, r, reader.path, reader.body);
    } else if reader.Served? {
      assert FromFlight(run, k + 1, r, reader.path, Some(reader.body));
    } else if reader.Failed? && !GaveUp(run, k, r) {
      var path :| FromFlight(run, k, r, path, None);
      assert FromFlight(run, k + 1, r, path, None);
    }
  }

  lemma HonestAt(run: seq<Action>, k: nat)
    requires Possible(START, run) && k <= |run|
    ensures Honest(At(run, k))
  {
    hide Possible, Next, Enabled, Current, SingleFlight, WithinLimits, Honest;
    Front(run, k);
    StartIsGood();
    ReadsAreNotStale(START, run[..k]);
  }

  lemma ExplainedNow(run: seq<Action>, k: nat, r: nat)
    requires Possible(START, run) && k < |run| && r in At(run, k + 1).readers
    requires r in At(run, k).readers ==> At(run, k + 1).readers[r] != At(run, k).readers[r]
    ensures Explained(run, k + 1, r)
  {
    hide Possible, Next, Enabled, WokeTo, Honest;
    var after := At(run, k + 1).readers[r];
    if after.Served? || after.Failed? {
      HonestAt(run, k);
      Step(run, k);
      EndsBy(At(run, k), run[k], r);
      if run[k].Look? {
        EntriesWereStored(run, k, after.path);
        assert FromCache(run, k + 1, r, after.path, after.body);
      } else if after.Served? {
        assert FromFlight(run, k + 1, r, after.path, Some(after.body));
      } else if run[k] == Wake(r) {
        var path :| WokeTo(At(run, k), r, path, None);
        assert FromFlight(run, k + 1, r, path, None);
      } else {
        assert GaveUp(run, k + 1, r);
      }
    }
  }

  /** In every run, a read that was served got a body that a fetch had stored less than its
      life before, with no write begun or ended since, or it woke to that body as the answer
      of a fetch of the present generation; and a read failed only because its context ended
      or because it woke to a fetch of the present generation that had no answer. */
  lemma {:induction false} EveryEndIsExplained(run: seq<Action>, k: nat, r: nat)
    requires Possible(START, run) && k <= |run| && r in At(run, k).readers
    ensures Explained(run, k, r)
    decreases k
  {
    hide Possible, Next, Enabled, Explained;
    BeginsAtStart(run);
    if k == 0 {
      assert false;
    } else {
      var n: nat := k - 1;
      if r in At(run, n).readers && At(run, n).readers[r] == At(run, k).readers[r] {
        EveryEndIsExplained(run, n, r);
        ExplainedStays(run, n, r);
      } else {
        ExplainedNow(run, n, r);
      }
    }
  }

  /** Nothing is stored and nothing thrown away, and no look is later than `now`. */
  predicate Quiet(run: seq<Action>, now: int) {
    forall i | 0 <= i < |run| ::
      !Invalidates(run[i]) && !run[i].EndFlight? && (run[i].Look? ==> run[i].now <= now)
  }

  /** What is left of an entry: all of it while its life lasts, and never anything else. */
  ghost predicate Lasts(s: State, path: Path, body: Body, until: int, now: int) {
    && (path in s.entries ==> s.entries[path].body == body && s.entries[path].expiresAt == until)
    && (now < until ==> path in s.entries)
  }

  lemma QuietKeeps(s: State, a: Action, path: Path, body: Body, until: int, now: int)
    requires Enabled(s, a) && Lasts(s, path, body, until, now)
    requires !Invalidates(a) && !a.EndFlight? && (a.Look? ==> a.now <= now)
    ensures Lasts(Next(s, a), path, body, until, now)
  {
    hide Joins;
  }

  lemma {:induction false} QuietRunKeeps(s: State, run: seq<Action>, path: Path, body: Body, until: int, now: int)
    requires Possible(s, run) && Quiet(run, now) && Lasts(s, path, body, until, now)
    ensures Lasts(After(s, run), path, body, until, now)
    decreases |run|
  {
    hide Enabled, Next, Lasts;
    if run == [] {
    } else {
      QuietKeeps(s, run[0], path, body, until, now);
      QuietRunKeeps(Next(s, run[0]), run[1..], path, body, until, now);
    }
  }

  /** A reader that waits for a fetch of its path in the present generation. */
  ghost predicate WaitsWell(s: State, r: nat, path: Path) {
    && r in s.readers && s.readers[r].Waiting? && s.readers[r].path == path && s.readers[r].flight < |s.flights|
    && var f := s.flights[s.readers[r].flight]; f.path == path && f.generation == s.generation && !f.done
  }

  lemma StoreStarts(
    s: State, flight: nat, ttl: int, stored: int, kept: map<Path, Entry>, path: Path, body: Body, now: int)
    requires Enabled(s, EndFlight(flight, ttl, stored, kept)) && MayKeep(s, flight, path, body)
    ensures Lasts(Next(s, EndFlight(flight, ttl, stored, kept)), path, body, stored + ttl, now)
  {
    hide Evicted, Bytes;
  }

  lemma LookEnds(s: State, r: nat, path: Path, body: Body, until: int, now: int)
    requires Lasts(s, path, body, until, now) && r in s.readers && s.readers[r].Looking? && s.readers[r].path == path
    ensures var t := Next(s, Look(r, now));
            if now < until then r in t.readers && t.readers[r] == Served(path, s.readers[r].floor, body)
            else WaitsWell(t, r, path)
  {
  }

  /** A stored body is served to whoever looks for it within its life, and to nobody after
      that: with nothing stored or thrown away in between, a look at `now` serves it if and
      only if its life has not ended; otherwise the reader waits for a fetch. */
  lemma LifeIsExact(
    s: State, flight: nat, ttl: int, stored: int, kept: map<Path, Entry>, path: Path, body: Body, run: seq<Action>,
      r: nat, now: int)
    requires Enabled(s, EndFlight(flight, ttl, stored, kept)) && MayKeep(s, flight, path, body)
    requires var t := Next(s, EndFlight(flight, ttl, stored, kept));
             && Possible(t, run) && Quiet(run, now)
             && r in After(t, run).readers && After(t, run).readers[r].Looking? && After(t, run).readers[r].path == path
    ensures var before := After(Next(s, EndFlight(flight, ttl, stored, kept)), run);
            var after := Next(before, Look(r, now));
            if now < stored + ttl
            then r in after.readers && after.readers[r] == Served(path, before.readers[r].floor, body)
            else WaitsWell(after, r, path)
  {
    hide Next, Possible, After, WaitsWell, Lasts;
    var t := Next(s, EndFlight(flight, ttl, stored, kept));
    StoreStarts(s, flight, ttl, stored, kept, path, body, now);
    QuietRunKeeps(t, run, path, body, stored + ttl, now);
    LookEnds(After(t, run), r, path, body, stored + ttl, now);
  }

  /** The reader neither wakes nor gives up, and nothing is thrown away. */
  predicate LeavesAlone(run: seq<Action>, r: nat) {
    forall i | 0 <= i < |run| :: run[i] != Wake(r) && run[i] != GiveUp(r) && !Invalidates(run[i])
  }

  lemma WaitStep(s: State, a: Action, r: nat)
    requires Enabled(s, a) && r in s.readers && s.readers[r].Waiting? && s.readers[r].flight < |s.flights|
    requires a != Wake(r) && a != GiveUp(r) && !Invalidates(a)
    ensures var t, f := Next(s, a), s.readers[r].flight;
            && r in t.readers && t.readers[r] == s.readers[r] && f < |t.flights| && t.generation == s.generation
            && t.flights[f].path == s.flights[f].path && t.flights[f].generation == s.flights[f].generation
  {
    hide Evicted, Joins, Bytes, Found, AfterLookup, Keeps;
  }

  lemma {:induction false} WaitRun(s: State, run: seq<Action>, r: nat)
    requires Possible(s, run) && LeavesAlone(run, r)
    requires r in s.readers && s.readers[r].Waiting? && s.readers[r].flight < |s.flights|
    ensures var t, f := After(s, run), s.readers[r].flight;
            && r in t.readers && t.readers[r] == s.readers[r] && f < |t.flights| && t.generation == s.generation
            && t.flights[f].path == s.flights[f].path && t.flights[f].generation == s.flights[f].generation
    decreases |run|
  {
    hide Enabled, Next;
    if run == [] {
    } else {
      WaitStep(s, run[0], r);
      WaitRun(Next(s, run[0]), run[1..], r);
    }
  }

  /** A reader that waits for a fetch of the present generation is not left behind: while no
      write begins or ends, it can wake as soon as the fetch is done, and what it wakes to
      is the answer of that fetch, or its error. */
  lemma WaitersAreServed(s: State, r: nat, path: Path, run: seq<Action>)
    requires WaitsWell(s, r, path) && Possible(s, run) && LeavesAlone(run, r)
    ensures var t, flight := After(s, run), s.readers[r].flight;
            && flight < |t.flights|
            && (t.flights[flight].done ==>
              && Enabled(t, Wake(r)) && r in Next(t, Wake(r)).readers
              && Next(t, Wake(r)).readers[r] == match t.flights[flight].answer
                 case Some(body) => Served(path, s.readers[r].floor, body)
                 case None => Failed)
  {
    WaitRun(s, run, r);
    hide Possible, After;
  }

  /** Waking to a fetch that a write has overtaken is no end: the reader looks again. */
  lemma OvertakenLooksAgain(s: State, r: nat)
    requires Enabled(s, Wake(r)) && s.flights[s.readers[r].flight].generation != s.generation
    ensures var t := Next(s, Wake(r));
            r in t.readers && t.readers[r] == Looking(s.readers[r].path, s.readers[r].floor) && t.entries == s.entries
  {
  }
}

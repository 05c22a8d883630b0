/** Readers, fetches and writes of the management interface in every interleaving
    (internal/cpamp/upstream_cache.go:131-191, internal/cpamp/client.go:1350-1355).  Every
    stretch under the cache's lock is one step; so is the moment at which upstream
    answers a fetch, and the moment at which a write takes effect there. */
module UpstreamReads {
  import opened Totals
  import opened UpstreamCache
  import opened Wrappers

  /** One fetch: begun in a generation, answered by upstream at some moment, done. */
  datatype Flight = Flight(path: Path, generation: nat, answer: Option<Body>, done: bool)

  /** A reader; `floor` is the version that writes which had returned left behind when it
      began. */
  datatype Reader =
    | Looking(path: Path, floor: nat)
    | Waiting(path: Path, floor: nat, flight: nat)
    | Served(path: Path, floor: nat, body: Body)
    | Failed

  /** A write between its two invalidations; `version` is what its effect made. */
  datatype Write = Write(version: nat)

  datatype State = State(
    generation: nat,
    entries: map<Path, Entry>,
    flights: seq<Flight>,
    readers: map<nat, Reader>,
    writes: map<nat, Write>,
    version: nat,
    settled: nat)

  const START := State(0, map[], [], map[], map[], 0, 0)

  datatype Action =
    | BeginRead(reader: nat, path: Path)
    | Look(reader: nat, now: int)
    | Answer(flight: nat, size: nat, cacheable: bool)
    | EndFlight(flight: nat, ttl: int, now: int, kept: map<Path, Entry>)
    | Wake(reader: nat)
    | GiveUp(reader: nat)
    | BeginWrite(write: nat)
    | TakeEffect(write: nat)
    | EndWrite(write: nat)
    | Invalidate

  /** The flight that a reader of this generation joins, if there is one. */
  ghost predicate Joins(s: State, path: Path, f: nat) {
    f < |s.flights| && s.flights[f].path == path && s.flights[f].generation == s.generation && !s.flights[f].done
  }

  /** The body may be kept: it arrived, it parses, and no write came between. */
  predicate Keeps(s: State, f: Flight) {
    f.answer.Some? && Cacheable(f.answer.value) && f.generation == s.generation
  }

  ghost predicate Enabled(s: State, a: Action) {
    match a
    case BeginRead(r, _) => r !in s.readers
    case Look(r, _) => r in s.readers && s.readers[r].Looking?
    case Answer(f, _, _) => f < |s.flights| && !s.flights[f].done && s.flights[f].answer.None?
    case EndFlight(f, ttl, now, kept) =>
      && f < |s.flights| && !s.flights[f].done
      && (Keeps(s, s.flights[f]) ==>
            Evicted(s.entries, s.flights[f].path, s.flights[f].answer.value.size, now, kept))
    case Wake(r) => r in s.readers && s.readers[r].Waiting? && s.readers[r].flight < |s.flights|
      && s.flights[s.readers[r].flight].done
    case GiveUp(r) => r in s.readers && (s.readers[r].Looking? || s.readers[r].Waiting?)
    case BeginWrite(w) => w !in s.writes
    case TakeEffect(w) => w in s.writes
    case EndWrite(w) => w in s.writes
    case Invalidate => true
  }

  function Invalidated(s: State): State {
    s.(generation := s.generation + 1, entries := map[])
  }

  ghost function Next(s: State, a: Action): State
    requires Enabled(s, a)
  {
    match a
    case BeginRead(r, path) => s.(readers := s.readers[r := Looking(path, s.settled)])
    case Look(r, now) =>
      var reader := s.readers[r];
      var found := Found(s.entries, reader.path, now);
      if found.Some? then s.(readers := s.readers[r := Served(reader.path, reader.floor, found.value)])
      else
        var t := s.(entries := AfterLookup(s.entries, reader.path, now));
        if exists f: nat :: Joins(t, reader.path, f) then
          var f: nat :| Joins(t, reader.path, f);
          t.(readers := s.readers[r := Waiting(reader.path, reader.floor, f)])
        else
          t.(flights := s.flights + [Flight(reader.path, s.generation, None, false)],
             readers := s.readers[r := Waiting(reader.path, reader.floor, |s.flights|)])
    case Answer(f, size, cacheable) =>
      s.(flights := s.flights[f := s.flights[f].(answer := Some(Body(s.version, size, cacheable)))])
    case EndFlight(f, ttl, now, kept) =>
      var flight := s.flights[f];
      var t := s.(flights := s.flights[f := flight.(done := true)]);
      if Keeps(s, flight) then t.(entries := kept[flight.path := Entry(flight.answer.value, now, now + ttl)]) else t
    case Wake(r) =>
      var reader := s.readers[r];
      var f := s.flights[reader.flight];
      s.(readers := s.readers[r :=
           if f.generation != s.generation then Looking(reader.path, reader.floor)
           else if f.answer.None? then Failed
           else Served(reader.path, reader.floor, f.answer.value)])
    case GiveUp(r) => s.(readers := s.readers[r := Failed])
    case BeginWrite(w) => Invalidated(s).(writes := s.writes[w := Write(0)])
    case TakeEffect(w) => s.(version := s.version + 1, writes := s.writes[w := Write(s.version + 1)])
    case EndWrite(w) =>
      Invalidated(s).(writes := s.writes - {w},
                      settled := if s.writes[w].version > s.settled then s.writes[w].version else s.settled)
    case Invalidate => Invalidated(s)
  }

  ghost predicate Possible(s: State, run: seq<Action>)
    decreases |run|
  {
    run == [] || (Enabled(s, run[0]) && Possible(Next(s, run[0]), run[1..]))
  }

  ghost function After(s: State, run: seq<Action>): State
    requires Possible(s, run)
    decreases |run|
  {
    if run == [] then s else After(Next(s, run[0]), run[1..])
  }

  // --------------------------------------------------------------------- what is kept

  /** Entries and the answers of this generation's flights are no older than any write
      that returned. */
  ghost predicate Current(s: State) {
    && s.settled <= s.version
    && (forall w | w in s.writes :: s.writes[w].version <= s.version)
    && (forall p | p in s.entries :: s.entries[p].body.version >= s.settled)
    && (forall f | 0 <= f < |s.flights| :: s.flights[f].generation <= s.generation)
    && (forall f | 0 <= f < |s.flights| && s.flights[f].generation == s.generation && s.flights[f].answer.Some? ::
          s.flights[f].answer.value.version >= s.settled)
  }

  /** At most one open flight for a path and a generation. */
  ghost predicate SingleFlight(s: State) {
    forall f, g | 0 <= f < g < |s.flights| ::
      s.flights[f].path == s.flights[g].path && s.flights[f].generation == s.flights[g].generation ==>
        s.flights[f].done || s.flights[g].done
  }

  /** No reader is served something from before a write that had returned when it began. */
  ghost predicate Honest(s: State) {
    && (forall r | r in s.readers && s.readers[r] != Failed :: s.readers[r].floor <= s.settled)
    && (forall r | r in s.readers && s.readers[r].Served? :: s.readers[r].body.version >= s.readers[r].floor)
    && (forall r | r in s.readers && s.readers[r].Waiting? ::
          s.readers[r].flight < |s.flights| && s.flights[s.readers[r].flight].path == s.readers[r].path)
  }

  lemma KeptAreOld(entries: map<Path, Entry>, path: Path, size: int, now: int, kept: map<Path, Entry>)
    requires Evicted(entries, path, size, now, kept)
    ensures forall k | k in kept :: k in entries && kept[k] == entries[k] && k != path
  {
    hide Needed, Bytes;
  }

  lemma NextIsCurrent(s: State, a: Action)
    requires Current(s) && Enabled(s, a)
    ensures Current(Next(s, a))
  {
    hide Evicted, Joins, Cacheable, Bytes;
    if a.EndFlight? && Keeps(s, s.flights[a.flight]) {
      KeptAreOld(s.entries, s.flights[a.flight].path, s.flights[a.flight].answer.value.size, a.now, a.kept);
    }
  }

  lemma NextIsSingle(s: State, a: Action)
    requires Current(s) && SingleFlight(s) && Enabled(s, a)
    ensures SingleFlight(Next(s, a))
  {
    hide Evicted, Cacheable, Bytes, Found, AfterLookup;
    if a.Look? {
      LookIsSingle(s, a.reader, a.now);
    }
    hide Joins;
  }

  lemma LookIsSingle(s: State, r: nat, now: int)
    requires Current(s) && SingleFlight(s) && Enabled(s, Look(r, now))
    ensures SingleFlight(Next(s, Look(r, now)))
  {
    hide Found, AfterLookup;
    var path := s.readers[r].path;
    var t := s.(entries := AfterLookup(s.entries, path, now));
    var begun := Flight(path, s.generation, None, false);
    var more := s.flights + [begun];
    if !exists f: nat :: Joins(t, path, f) {
      forall f | 0 <= f < |s.flights| && s.flights[f].path == path && s.flights[f].generation == s.generation
        ensures more[f].done
      {
        assert !Joins(t, path, f);
      }
    }
  }

  lemma NextIsHonest(s: State, a: Action)
    requires Current(s) && Honest(s) && Enabled(s, a)
    ensures Honest(Next(s, a))
  {
    hide Evicted, Cacheable, Bytes;
  }

  lemma LookWithinLimits(entries: map<Path, Entry>, path: Path, now: int)
    requires WithinLimits(entries)
    ensures WithinLimits(AfterLookup(entries, path, now))
  {
    if path in entries {
      BytesSplit(entries, path);
      SizesAreNotNegative(entries);
    } else {
      assert entries - {path} == entries;
    }
    hide Bytes;
  }

  lemma SizesAreNotNegative(entries: map<Path, Entry>)
    ensures forall k | k in entries :: entries[k].body.size >= 0
  {
  }

  lemma StoreWithinLimits(entries: map<Path, Entry>, path: Path, body: Body, ttl: int, now: int, kept: map<Path, Entry>)
    requires WithinLimits(entries) && Cacheable(body) && Evicted(entries, path, body.size, now, kept)
    ensures WithinLimits(kept[path := Entry(body, now, now + ttl)])
  {
    KeptAreOld(entries, path, body.size, now, kept);
    hide Bytes, Kept, Needed, Live;
    BytesInsert(kept, path, Entry(body, now, now + ttl));
  }

  /** The limits of the cache. */
  lemma NextIsWithinLimits(s: State, a: Action)
    requires WithinLimits(s.entries) && Enabled(s, a)
    ensures WithinLimits(Next(s, a).entries)
  {
    hide WithinLimits, Evicted, Cacheable, AfterLookup, Found, Joins;
    NothingIsWithinLimits();
    if a.Look? {
      LookWithinLimits(s.entries, s.readers[a.reader].path, a.now);
      LookEntries(s, a.reader, a.now);
    } else if a.EndFlight? && Keeps(s, s.flights[a.flight]) {
      var flight := s.flights[a.flight];
      StoreWithinLimits(s.entries, flight.path, flight.answer.value, a.ttl, a.now, a.kept);
    }
  }

  lemma LookEntries(s: State, r: nat, now: int)
    requires Enabled(s, Look(r, now))
    ensures Next(s, Look(r, now)).entries == AfterLookup(s.entries, s.readers[r].path, now)
  {
    hide Joins;
  }

  lemma NothingIsWithinLimits()
    ensures WithinLimits(map[])
  {
  }

  ghost predicate Good(s: State) {
    Current(s) && SingleFlight(s) && Honest(s) && WithinLimits(s.entries)
  }

  /** In every interleaving: whoever is served began, if at all after a write returned,
      with something fetched after that write took effect; one flight at a time fetches a
      path in a generation; and the cache stays within 64 entries and 8 MiB. */
  lemma {:induction false} ReadsAreNotStale(s: State, run: seq<Action>)
    requires Good(s) && Possible(s, run)
    ensures Good(After(s, run))
    decreases |run|
  {
    hide Current, SingleFlight, Honest, WithinLimits, Next, Enabled;
    if run == [] {
    } else {
      NextIsCurrent(s, run[0]);
      NextIsSingle(s, run[0]);
      NextIsHonest(s, run[0]);
      NextIsWithinLimits(s, run[0]);
      ReadsAreNotStale(Next(s, run[0]), run[1..]);
    }
  }

  lemma StartIsGood()
    ensures Good(START)
  {
    NothingIsWithinLimits();
  }

  /** The same from the start, spelled out: what was served is no older than any write that
      had returned before, and the cache is small. */
  lemma EveryRunServesFresh(run: seq<Action>)
    requires Possible(START, run)
    ensures var s := After(START, run);
            && (forall r | r in s.readers && s.readers[r].Served? :: s.readers[r].body.version >= s.readers[r].floor)
            && |s.entries| <= 64 && Bytes(s.entries) <= 8_388_608
  {
    hide Next, Enabled;
    StartIsGood();
    ReadsAreNotStale(START, run);
  }
}

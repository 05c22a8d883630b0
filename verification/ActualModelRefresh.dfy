/** Refreshing the statistics by actual model: read the whole range, or correct the last
    checkpoint by what is new (internal/service/actual_model_usage.go:16-79,
    internal/service/actual_model_incremental.go:206-256). */
module ActualModelRefresh {
  import opened ActualModelReport
  import opened ActualModels
  import opened Wrappers

  /** One answer from upstream: events newest first, and where the next page starts. */
  datatype Page = Page(items: seq<EventRow>, hasMore: bool, nextMS: int, nextID: int)

  predicate NextModelPage(page: Page, beforeMS: int, beforeID: int) {
    && page.items != [] && page.nextMS > 0 && page.nextID > 0
    && (beforeMS == 0 || page.nextMS < beforeMS || (page.nextMS == beforeMS && page.nextID < beforeID))
  }

  /** Reading may stop: nothing more, or already older than the cutoff. */
  predicate Stops(page: Page, cutoff: Option<int>) {
    !page.hasMore || (cutoff.Some? && page.items != [] && page.items[|page.items| - 1].atMS < cutoff.value)
  }

  /** The pages one read goes through; `fetch(i)` is the answer to its i-th further
      request, None for an error or for a history that was cleaned up. */
  function Pages(page: Page, fetch: nat -> Option<Page>, i: nat, beforeMS: int, beforeID: int, cutoff: Option<int>)
    : Option<seq<Page>>
    decreases MAX_PAGES - i
  {
    if page.hasMore && page.items == [] then None
    else if Stops(page, cutoff) then Some([page])
    else if i >= MAX_PAGES - 1 || !NextModelPage(page, beforeMS, beforeID) || fetch(i).None? then None
    else
      var rest := Pages(fetch(i).value, fetch, i + 1, page.nextMS, page.nextID, cutoff);
      if rest.None? then None else Some([page] + rest.value)
  }

  /** The cursor of a page comes after that of another: further back in time. */
  predicate GoesBack(page: Page, beforeMS: int, beforeID: int) {
    page.nextMS < beforeMS || (page.nextMS == beforeMS && page.nextID < beforeID)
  }

  /** The last event of the page is older than the cutoff. */
  predicate ReachesBack(page: Page, cutoff: Option<int>) {
    cutoff.Some? && page.items != [] && page.items[|page.items| - 1].atMS < cutoff.value
  }

  /** There is more after this page, it says where, and that is further back than before. */
  predicate GoesOn(page: Page, beforeMS: int, beforeID: int, cutoff: Option<int>) {
    && page.hasMore && page.items != [] && !ReachesBack(page, cutoff) && page.nextMS > 0 && page.nextID > 0
    && (beforeMS == 0 || GoesBack(page, beforeMS, beforeID))
  }

  /** A complete reading, told on the pages: each is the answer to the request after the one
      before, all but the last go on, each further back than the one before, and only the
      last one is at the end or reaches back to the cutoff. */
  ghost predicate Reading(
    p: seq<Page>, page: Page, fetch: nat -> Option<Page>, i: nat, beforeMS: int, beforeID: int, cutoff: Option<int>)
  {
    && 1 <= |p| <= 200 - i && p[0] == page
    && (forall k: nat | i <= k < i + |p| - 1 :: fetch(k) == Some(p[k - i + 1]))
    && (|p| > 1 ==> GoesOn(page, beforeMS, beforeID, cutoff))
    && (forall j | 0 < j < |p| - 1 :: GoesOn(p[j], p[j - 1].nextMS, p[j - 1].nextID, cutoff))
    && (!p[|p| - 1].hasMore || ReachesBack(p[|p| - 1], cutoff))
  }

  lemma ReadingStops(
    p: seq<Page>, page: Page, fetch: nat -> Option<Page>, i: nat, beforeMS: int, beforeID: int, cutoff: Option<int>)
    requires !page.hasMore || ReachesBack(page, cutoff)
    ensures Reading(p, page, fetch, i, beforeMS, beforeID, cutoff) <==> p == [page] && i < 200
  {
  }

  lemma ReadingHasRest(
    p: seq<Page>, page: Page, fetch: nat -> Option<Page>, i: nat, beforeMS: int, beforeID: int, cutoff: Option<int>)
    requires Reading(p, page, fetch, i, beforeMS, beforeID, cutoff) && |p| > 1
    ensures fetch(i) == Some(p[1]) && Reading(p[1..], p[1], fetch, i + 1, page.nextMS, page.nextID, cutoff)
  {
    var rest := p[1..];
    assert forall j | 0 <= j < |rest| :: rest[j] == p[j + 1];
    hide GoesOn, ReachesBack;
    if |rest| > 1 {
      assert GoesOn(p[1], p[0].nextMS, p[0].nextID, cutoff);
    }
    forall j | 0 < j < |rest| - 1
      ensures GoesOn(rest[j], rest[j - 1].nextMS, rest[j - 1].nextID, cutoff)
    {
      assert GoesOn(p[j + 1], p[j].nextMS, p[j].nextID, cutoff);
    }
  }

  lemma ReadingFromRest(
    p: seq<Page>, page: Page, fetch: nat -> Option<Page>, i: nat, beforeMS: int, beforeID: int, cutoff: Option<int>)
    requires |p| > 1 && p[0] == page && GoesOn(page, beforeMS, beforeID, cutoff) && fetch(i) == Some(p[1])
    requires Reading(p[1..], p[1], fetch, i + 1, page.nextMS, page.nextID, cutoff)
    ensures Reading(p, page, fetch, i, beforeMS, beforeID, cutoff)
  {
    var rest := p[1..];
    hide GoesOn, ReachesBack;
    forall k: nat | i <= k < i + |p| - 1
      ensures fetch(k) == Some(p[k - i + 1])
    {
      if k > i {
        assert fetch(k) == Some(rest[k - (i + 1) + 1]);
      }
    }
    forall j | 0 < j < |p| - 1
      ensures GoesOn(p[j], p[j - 1].nextMS, p[j - 1].nextID, cutoff)
    {
      if j > 1 {
        assert GoesOn(rest[j - 1], rest[j - 2].nextMS, rest[j - 2].nextID, cutoff);
      }
    }
  }

  /** Reading page by page finds a complete reading, the only one, if and only if there is
      one; a page that promises more and holds nothing is never part of one. */
  lemma {:induction false} PagesAreReading(
    p: seq<Page>, page: Page, fetch: nat -> Option<Page>, i: nat, beforeMS: int, beforeID: int, cutoff: Option<int>)
    requires i < 200
    ensures Pages(page, fetch, i, beforeMS, beforeID, cutoff) == Some(p)
       <==> Reading(p, page, fetch, i, beforeMS, beforeID, cutoff)
    decreases MAX_PAGES - i
  {
    if !page.hasMore || ReachesBack(page, cutoff) {
      ReadingStops(p, page, fetch, i, beforeMS, beforeID, cutoff);
    } else {
      if Reading(p, page, fetch, i, beforeMS, beforeID, cutoff) {
        ReadingHasRest(p, page, fetch, i, beforeMS, beforeID, cutoff);
        PagesAreReading(p[1..], p[1], fetch, i + 1, page.nextMS, page.nextID, cutoff);
        assert p == [page] + p[1..];
      }
      if Pages(page, fetch, i, beforeMS, beforeID, cutoff) == Some(p) {
        var next := fetch(i).value;
        assert p[1..] == Pages(next, fetch, i + 1, page.nextMS, page.nextID, cutoff).value;
        PagesAreReading(p[1..], next, fetch, i + 1, page.nextMS, page.nextID, cutoff);
        assert p[1] == p[1..][0];
        ReadingFromRest(p, page, fetch, i, beforeMS, beforeID, cutoff);
      }
    }
  }

  function Items(pages: seq<Page>): seq<EventRow> {
    if pages == [] then [] else pages[0].items + Items(pages[1..])
  }

  /** The checkpoint after a full read. */
  function FullRows(rows: Option<map<string, Event>>, fromMS: int, toMS: int, items: seq<EventRow>)
    : Option<map<string, Event>>
    decreases |items|
  {
    if items == [] then rows else FullRows(FullRow(rows, fromMS, toMS, items[0]), fromMS, toMS, items[1..])
  }

  /** Rows with newer readings put over them. */
  function Overlay(rows: map<string, Event>, items: seq<EventRow>): map<string, Event>
    decreases |items|
  {
    if items == [] then rows else Overlay(rows[items[0].hash := Compact(items[0])], items[1..])
  }

  /** The rows of the last checkpoint that an increment does not read again. */
  function Kept(rows: map<string, Event>, fromMS: int, toMS: int, cutoff: int): map<string, Event> {
    map h | h in rows && fromMS <= rows[h].atMS < toMS && rows[h].atMS < cutoff :: rows[h]
  }

  /** What an increment asks of the rows it reads. */
  ghost predicate Acceptable(items: seq<EventRow>, fromMS: int, toMS: int) {
    && (forall i | 0 <= i < |items| :: ValidEvent(fromMS, toMS, items[i].hash, Compact(items[i])))
    && (forall i, j | 0 <= i < j < |items| :: items[i].hash != items[j].hash && items[j].atMS <= items[i].atMS)
  }

  ghost predicate Agrees(s: Snapshot)
    reads s
  {
    s.Valid() && s.rows.Some? && s.counted == Values(s.rows.value)
  }

  // ------------------------------------------------------------------- the full read

  lemma FullRowsMore(rows: Option<map<string, Event>>, fromMS: int, toMS: int, items: seq<EventRow>, i: nat)
    requires i < |items|
    ensures FullRows(rows, fromMS, toMS, items[i..])
            == FullRows(FullRow(rows, fromMS, toMS, items[i]), fromMS, toMS, items[i + 1..])
  {
    assert items[i..][0] == items[i] && items[i..][1..] == items[i + 1..];
  }

  lemma CompactMore(items: seq<EventRow>, i: nat)
    requires i < |items|
    ensures multiset(CompactAll(items[..i + 1])) == multiset(CompactAll(items[..i])) + multiset{Compact(items[i])}
  {
    assert CompactAll(items[..i + 1]) == CompactAll(items[..i]) + [Compact(items[i])];
  }

  method AddPage(s: Snapshot, items: seq<EventRow>)
    requires s.Valid()
    modifies s
    ensures s.Valid() && s.fromMS == old(s.fromMS) && s.toMS == old(s.toMS)
    ensures s.counted == old(s.counted) + multiset(CompactAll(items))
    ensures s.rows == FullRows(old(s.rows), s.fromMS, s.toMS, items)
  {
    hide GroupBy, Sum, FullRow;
    var i := 0;
    assert items[0..] == items;
    while i < |items|
      invariant 0 <= i <= |items| && s.Valid() && s.fromMS == old(s.fromMS) && s.toMS == old(s.toMS)
      invariant s.counted == old(s.counted) + multiset(CompactAll(items[..i]))
      invariant FullRows(s.rows, s.fromMS, s.toMS, items[i..]) == FullRows(old(s.rows), s.fromMS, s.toMS, items)
    {
      FullRowsMore(s.rows, s.fromMS, s.toMS, items, i);
      CompactMore(items, i);
      s.AddFull(items[i]);
      i := i + 1;
    }
    assert items[..i] == items && items[i..] == [];
  }

  lemma {:induction false} FullRowsJoin(rows: Option<map<string, Event>>, fromMS: int, toMS: int, s: seq<EventRow>,
      t: seq<EventRow>)
    ensures FullRows(rows, fromMS, toMS, s + t) == FullRows(FullRows(rows, fromMS, toMS, s), fromMS, toMS, t)
    decreases |s|
  {
    hide FullRow;
    if s == [] {
      assert s + t == t;
    } else {
      assert (s + t)[1..] == s[1..] + t;
      FullRowsJoin(FullRow(rows, fromMS, toMS, s[0]), fromMS, toMS, s[1..], t);
    }
  }

  lemma CompactJoin(s: seq<EventRow>, t: seq<EventRow>)
    ensures multiset(CompactAll(s + t)) == multiset(CompactAll(s)) + multiset(CompactAll(t))
  {
    assert CompactAll(s + t) == CompactAll(s) + CompactAll(t);
  }

  /** Pages read so far, then the rest. */
  function Joined(read: seq<Page>, rest: Option<seq<Page>>): Option<seq<Page>> {
    if rest.None? then None else Some(read + rest.value)
  }

  lemma JoinedMore(read: seq<Page>, page: Page, rest: Option<seq<Page>>)
    ensures Joined(read, Joined([page], rest)) == Joined(read + [page], rest)
  {
    if rest.Some? {
      assert read + ([page] + rest.value) == read + [page] + rest.value;
    }
  }

  lemma {:induction false} ItemsMore(read: seq<Page>, page: Page)
    ensures Items(read + [page]) == Items(read) + page.items
    decreases |read|
  {
    if read == [] {
      assert [page][1..] == [];
    } else {
      assert (read + [page])[1..] == read[1..] + [page];
      ItemsMore(read[1..], page);
    }
  }

  /** The whole range, read again.  It succeeds exactly when every page could be read and
      the totals are those of the summary. */
  method Rebuild(fromMS: int, toMS: int, first: Page, fetch: nat -> Option<Page>, calls: int, tokens: int)
    returns (ok: bool, next: Snapshot)
    ensures fresh(next) && next.Valid() && next.fromMS == fromMS && next.toMS == toMS
    ensures var pages := Pages(first, fetch, 0, 0, 0, None);
            && (ok <==> && pages.Some? && |multiset(CompactAll(Items(pages.value)))| == calls
                        && Wrap(Sum(multiset(CompactAll(Items(pages.value))), None).total) == tokens)
            && (ok ==> && next.counted == multiset(CompactAll(Items(pages.value)))
                       && next.rows == FullRows(Some(map[]), fromMS, toMS, Items(pages.value))
                       && Reports(next, Items(pages.value))
                       && (next.rows.Some? ==> Keeps(next.rows.value, Items(pages.value))))
  {
    hide Reports, Keeps, GroupBy, Sum, FullRows, CompactAll, NextModelPage, Items;
    next := new Snapshot(fromMS, toMS);
    ghost var goal := Pages(first, fetch, 0, 0, 0, None);
    ghost var read: seq<Page> := [];
    var page, beforeMS, beforeID, pages: nat := first, 0, 0, 0;
    NothingRead(fromMS, toMS);
    assert Joined([], goal) == goal by { if goal.Some? { assert [] + goal.value == goal.value; } }
    while true
      invariant fresh(next) && next.Valid() && next.fromMS == fromMS && next.toMS == toMS && pages < MAX_PAGES
      invariant Joined(read, Pages(page, fetch, pages, beforeMS, beforeID, None)) == goal
      invariant next.counted == multiset(CompactAll(Items(read)))
      invariant next.rows == FullRows(Some(map[]), fromMS, toMS, Items(read))
      decreases MAX_PAGES - pages
    {
      AddPage(next, page.items);
      FullRowsJoin(Some(map[]), fromMS, toMS, Items(read), page.items);
      CompactJoin(Items(read), page.items);
      ItemsMore(read, page);
      if !page.hasMore {
        assert goal == Some(read + [page]);
        break;
      }
      if pages >= MAX_PAGES - 1 || !NextModelPage(page, beforeMS, beforeID) {
        EmptyPageHasNoNext(page, beforeMS, beforeID);
        return false, next;
      }
      EmptyPageHasNoNext(page, beforeMS, beforeID);
      var response := fetch(pages);
      if response.None? {
        return false, next;
      }
      JoinedMore(read, page, Pages(response.value, fetch, pages + 1, page.nextMS, page.nextID, None));
      read := read + [page];
      beforeMS, beforeID, page, pages := page.nextMS, page.nextID, response.value, pages + 1;
    }
    ok := next.calls == calls && next.tokens == tokens;
    CountingReports(next, Items(goal.value));
    if next.rows.Some? {
      RebuildKeeps(fromMS, toMS, Items(goal.value));
    }
  }

  lemma NothingRead(fromMS: int, toMS: int)
    ensures multiset(CompactAll(Items([]))) == multiset{}
    ensures FullRows(Some(map[]), fromMS, toMS, Items([])) == Some(map[])
  {
    assert CompactAll([]) == [];
  }

  lemma EmptyPageHasNoNext(page: Page, beforeMS: int, beforeID: int)
    ensures page.items == [] ==> !NextModelPage(page, beforeMS, beforeID)
  {
  }

  // ----------------------------------------------------------------- the increment

  /** What is left of the rows when those of `keys` are still to be looked at. */
  function LeftRows(rows: map<string, Event>, keys: set<string>, fromMS: int, toMS: int, cutoff: int)
    : map<string, Event>
  {
    map h | h in rows && (h in keys || h in Kept(rows, fromMS, toMS, cutoff)) :: rows[h]
  }

  lemma LeftStep(rows: map<string, Event>, keys: set<string>, h: string, fromMS: int, toMS: int, cutoff: int)
    requires h in keys && h in rows
    ensures h in LeftRows(rows, keys, fromMS, toMS, cutoff) && LeftRows(rows, keys, fromMS, toMS, cutoff)[h] == rows[h]
    ensures LeftRows(rows, keys - {h}, fromMS, toMS, cutoff)
         == if h in Kept(rows, fromMS, toMS, cutoff) then LeftRows(rows, keys, fromMS, toMS, cutoff)
            else LeftRows(rows, keys, fromMS, toMS, cutoff) - {h}
  {
  }

  lemma LeftEnds(rows: map<string, Event>, fromMS: int, toMS: int, cutoff: int)
    ensures LeftRows(rows, rows.Keys, fromMS, toMS, cutoff) == rows
    ensures LeftRows(rows, {}, fromMS, toMS, cutoff) == Kept(rows, fromMS, toMS, cutoff)
  {
  }

  /** Takes one row out. */
  method RemoveRow(s: Snapshot, h: string)
    requires Agrees(s) && h in s.rows.value
    modifies s
    ensures Agrees(s) && s.fromMS == old(s.fromMS) && s.toMS == old(s.toMS)
    ensures s.rows == Some(old(s.rows.value) - {h})
  {
    hide GroupBy, Sum, Values;
    ValuesSplit(s.rows.value, h);
    s.Adjust(s.rows.value[h], -1);
    s.rows := Some(s.rows.value - {h});
  }

  /** Drops the rows that leave the range or are read again. */
  method DropRows(s: Snapshot, cutoff: int)
    requires Agrees(s)
    modifies s
    ensures Agrees(s) && s.fromMS == old(s.fromMS) && s.toMS == old(s.toMS)
    ensures s.rows == Some(Kept(old(s.rows.value), s.fromMS, s.toMS, cutoff))
  {
    hide LeftRows;
    ghost var rows := s.rows.value;
    var keys := s.rows.value.Keys;
    LeftEnds(rows, s.fromMS, s.toMS, cutoff);
    while keys != {}
      invariant Agrees(s) && s.fromMS == old(s.fromMS) && s.toMS == old(s.toMS) && keys <= rows.Keys
      invariant s.rows == Some(LeftRows(rows, keys, s.fromMS, s.toMS, cutoff))
      decreases keys
    {
      hide Agrees;
      var h :| h in keys;
      LeftStep(rows, keys, h, s.fromMS, s.toMS, cutoff);
      var row := s.rows.value[h];
      if row.atMS < s.fromMS || row.atMS >= s.toMS || row.atMS >= cutoff {
        RemoveRow(s, h);
      }
      keys := keys - {h};
    }
  }

  lemma ValuesPut(rows: map<string, Event>, h: string, row: Event)
    ensures Values(rows[h := row])
            == (if h in rows then Values(rows) - multiset{rows[h]} else Values(rows)) + multiset{row}
  {
    hide Values;
    if h in rows {
      ValuesSplit(rows, h);
      ValuesInsert(rows - {h}, h, row);
      assert (rows - {h})[h := row] == rows[h := row];
    } else {
      ValuesInsert(rows, h, row);
    }
  }

  /** One row read: in place of an older reading of the same event, if there is one. */
  method PutRow(s: Snapshot, hash: string, row: Event)
    requires Agrees(s)
    modifies s
    ensures Agrees(s) && s.fromMS == old(s.fromMS) && s.toMS == old(s.toMS)
    ensures s.rows == Some(old(s.rows.value)[hash := row])
  {
    hide GroupBy, Sum, Values, Wrap;
    ghost var rows := s.rows.value;
    ValuesPut(rows, hash, row);
    if hash in s.rows.value {
      ValuesSplit(rows, hash);
      s.Adjust(s.rows.value[hash], -1);
    }
    s.rows := Some(s.rows.value[hash := row]);
    s.Adjust(row, 1);
  }

  lemma {:induction false} OverlayJoin(rows: map<string, Event>, s: seq<EventRow>, t: seq<EventRow>)
    ensures Overlay(rows, s + t) == Overlay(Overlay(rows, s), t)
    decreases |s|
  {
    if s == [] {
      assert s + t == t;
    } else {
      assert (s + t)[1..] == s[1..] + t;
      OverlayJoin(rows[s[0].hash := Compact(s[0])], s[1..], t);
    }
  }

  lemma OverlayMore(rows: map<string, Event>, s: seq<EventRow>, r: EventRow)
    ensures Overlay(rows, s + [r]) == Overlay(rows, s)[r.hash := Compact(r)]
  {
    OverlayJoin(rows, s, [r]);
    assert [r][1..] == [];
  }

  /** Rows never go away while reading. */
  lemma {:induction false} OverlayGrows(rows: map<string, Event>, items: seq<EventRow>)
    ensures |rows| <= |Overlay(rows, items)|
    decreases |items|
  {
    if items == [] {
    } else {
      var h := items[0].hash;
      if h in rows {
        assert rows[h := Compact(items[0])].Keys == rows.Keys;
      } else {
        assert rows[h := Compact(items[0])].Keys == rows.Keys + {h};
      }
      OverlayGrows(rows[h := Compact(items[0])], items[1..]);
    }
  }

  lemma AcceptablePrefix(s: seq<EventRow>, t: seq<EventRow>, fromMS: int, toMS: int)
    requires Acceptable(s + t, fromMS, toMS)
    ensures Acceptable(s, fromMS, toMS)
  {
    assert forall i | 0 <= i < |s| :: s[i] == (s + t)[i];
  }

  /** Everything read so far is fine, and these are the hashes and the last time seen. */
  ghost predicate Seen(items: seq<EventRow>, fromMS: int, toMS: int, seen: set<string>, lastAt: int) {
    && Acceptable(items, fromMS, toMS)
    && (forall h: string :: h in seen <==> exists i :: 0 <= i < |items| && items[i].hash == h)
    && (if items == [] then lastAt == 0 else lastAt == items[|items| - 1].atMS && lastAt > 0)
  }

  predicate Refused(fromMS: int, toMS: int, r: EventRow, seen: set<string>, lastAt: int) {
    !ValidEvent(fromMS, toMS, r.hash, Compact(r)) || r.hash in seen || (lastAt != 0 && r.atMS > lastAt)
  }

  lemma SeenMore(items: seq<EventRow>, r: EventRow, fromMS: int, toMS: int, seen: set<string>, lastAt: int)
    requires Seen(items, fromMS, toMS, seen, lastAt)
    ensures Refused(fromMS, toMS, r, seen, lastAt) <==> !Acceptable(items + [r], fromMS, toMS)
    ensures !Refused(fromMS, toMS, r, seen, lastAt) ==> Seen(items + [r], fromMS, toMS, seen + {r.hash}, r.atMS)
  {
    var more := items + [r];
    assert more[|items|] == r;
    assert forall i | 0 <= i < |items| :: more[i] == items[i];
    if r.hash in seen {
      var i :| 0 <= i < |items| && items[i].hash == r.hash;
      assert more[i].hash == more[|items|].hash;
    }
    if lastAt != 0 && r.atMS > lastAt {
      assert more[|items| - 1].atMS < more[|items|].atMS;
    }
    if !Refused(fromMS, toMS, r, seen, lastAt) {
      forall h: string
        ensures h in seen + {r.hash} <==> exists i :: 0 <= i < |more| && more[i].hash == h
      {
        if h == r.hash {
          assert more[|items|].hash == h;
        }
        if h in seen {
          var i :| 0 <= i < |items| && items[i].hash == h;
          assert more[i].hash == h;
        }
      }
    }
  }

  /** One page of an increment. */
  method ReadPage(s: Snapshot, items: seq<EventRow>, ghost read: seq<EventRow>, ghost base: map<string, Event>,
                  seen: set<string>, lastAt: int)
    returns (ok: bool, seen': set<string>, lastAt': int)
    requires Agrees(s) && s.rows == Some(Overlay(base, read)) && Seen(read, s.fromMS, s.toMS, seen, lastAt)
    requires |s.rows.value| <= MAX_ROWS
    modifies s
    ensures s.fromMS == old(s.fromMS) && s.toMS == old(s.toMS)
    ensures ok <==> Acceptable(read + items, s.fromMS, s.toMS) && |Overlay(base, read + items)| <= MAX_ROWS
    ensures ok ==> Agrees(s) && s.rows == Some(Overlay(base, read + items))
    ensures ok ==> Seen(read + items, s.fromMS, s.toMS, seen', lastAt')
  {
    hide GroupBy, Sum, Values, ValidEvent, Acceptable, Overlay, Seen;
    seen', lastAt' := seen, lastAt;
    var i := 0;
    assert read + items[..0] == read;
    while i < |items|
      invariant 0 <= i <= |items| && s.fromMS == old(s.fromMS) && s.toMS == old(s.toMS)
      invariant Agrees(s) && s.rows == Some(Overlay(base, read + items[..i]))
      invariant Seen(read + items[..i], s.fromMS, s.toMS, seen', lastAt') && |s.rows.value| <= MAX_ROWS
    {
      var r := items[i];
      ghost var before := read + items[..i];
      assert read + items[..i + 1] == before + [r];
      assert read + items == (before + [r]) + items[i + 1..];
      SeenMore(before, r, s.fromMS, s.toMS, seen', lastAt');
      OverlayMore(base, before, r);
      OverlayJoin(base, before + [r], items[i + 1..]);
      OverlayGrows(Overlay(base, before + [r]), items[i + 1..]);
      if Refused(s.fromMS, s.toMS, r, seen', lastAt') {
        ghost var fromMS, toMS := s.fromMS, s.toMS;
        if Acceptable(read + items, fromMS, toMS) {
          AcceptablePrefix(before + [r], items[i + 1..], fromMS, toMS);
        }
        return false, seen', lastAt';
      }
      seen', lastAt' := seen' + {r.hash}, r.atMS;
      PutRow(s, r.hash, Compact(r));
      if |s.rows.value| > MAX_ROWS {
        return false, seen', lastAt';
      }
      i := i + 1;
    }
    assert items[..i] == items;
    SeenIsAcceptable(read + items, s.fromMS, s.toMS, seen', lastAt');
    return true, seen', lastAt';
  }

  lemma SeenIsAcceptable(items: seq<EventRow>, fromMS: int, toMS: int, seen: set<string>, lastAt: int)
    requires Seen(items, fromMS, toMS, seen, lastAt)
    ensures Acceptable(items, fromMS, toMS)
  {
  }

  function Cutoff(fromMS: int, previousTo: int): int {
    if fromMS < previousTo - OVERLAP then previousTo - OVERLAP else fromMS
  }

  /** What an increment makes of the pages it reads. */
  ghost predicate Increments(
    rows: map<string, Event>, fromMS: int, toMS: int, cutoff: int, items: seq<EventRow>, calls: int, tokens: int)
  {
    var next := Overlay(Kept(rows, fromMS, toMS, cutoff), items);
    && Acceptable(items, fromMS, toMS) && |next| <= MAX_ROWS
    && |next| == calls && Wrap(Sum(Values(next), None).total) == tokens
  }

  /** The checkpoint corrected by what upstream has to say since the cutoff.  It succeeds
      exactly when the pages can be read, their rows are in order and acceptable, and the
      corrected totals are those of the summary; the old checkpoint stays as it was. */
  method Increment(fromMS: int, toMS: int, previous: Snapshot, first: Page, fetch: nat -> Option<Page>, calls: int,
      tokens: int)
    returns (ok: bool, next: Snapshot)
    requires Agrees(previous) && |previous.rows.value| <= MAX_ROWS
    ensures fresh(next)
    ensures var cutoff := Cutoff(fromMS, previous.toMS); var pages := Pages(first, fetch, 0, 0, 0, Some(cutoff));
            && (ok <==> && pages.Some?
                        && Increments(previous.rows.value, fromMS, toMS, cutoff, Items(pages.value), calls, tokens))
            && (ok ==> && Agrees(next) && next.fromMS == fromMS && next.toMS == toMS
                       && next.rows.value
                          == Overlay(Kept(previous.rows.value, fromMS, toMS, cutoff), Items(pages.value))
                       && ReportsOver(next, previous.rows.value, fromMS, toMS, cutoff, Items(pages.value)))
  {
    hide ReportsOver, GroupBy, Sum, Values, Overlay, Acceptable, Seen, NextModelPage, Items, Kept;
    next := new Snapshot.Copy(previous, fromMS, toMS);
    var cutoff := Cutoff(fromMS, previous.toMS);
    DropRows(next, cutoff);
    ghost var base := Kept(previous.rows.value, fromMS, toMS, cutoff);
    KeptIsLess(previous.rows.value, fromMS, toMS, cutoff);
    ghost var goal := Pages(first, fetch, 0, 0, 0, Some(cutoff));
    ghost var read: seq<Page> := [];
    var page, beforeMS, beforeID, pages: nat := first, 0, 0, 0;
    var seen: set<string>, lastAt := {}, 0;
    NothingSeen(base, fromMS, toMS);
    assert Joined([], goal) == goal by { if goal.Some? { assert [] + goal.value == goal.value; } }
    while true
      invariant fresh(next) && next.fromMS == fromMS && next.toMS == toMS && pages < MAX_PAGES
      invariant Joined(read, Pages(page, fetch, pages, beforeMS, beforeID, Some(cutoff))) == goal
      invariant Agrees(next) && next.rows == Some(Overlay(base, Items(read))) && |next.rows.value| <= MAX_ROWS
      invariant Seen(Items(read), fromMS, toMS, seen, lastAt)
      decreases MAX_PAGES - pages
    {
      EmptyPageHasNoNext(page, beforeMS, beforeID);
      if page.hasMore && |page.items| == 0 {
        return false, next;
      }
      ItemsMore(read, page);
      PagesStart(read, page, fetch, pages, beforeMS, beforeID, cutoff);
      var good, seen', lastAt' := ReadPage(next, page.items, Items(read), base, seen, lastAt);
      if !good {
        if goal.Some? {
          NotIncrement(previous.rows.value, fromMS, toMS, cutoff, Items(read) + page.items, Items(goal.value),
            calls, tokens);
        }
        return false, next;
      }
      seen, lastAt := seen', lastAt';
      var oldest := if |page.items| == 0 then toMS else page.items[|page.items| - 1].atMS;
      if !page.hasMore || oldest < cutoff {
        assert goal == Some(read + [page]);
        break;
      }
      if pages >= MAX_PAGES - 1 || !NextModelPage(page, beforeMS, beforeID) {
        return false, next;
      }
      var response := fetch(pages);
      if response.None? {
        return false, next;
      }
      JoinedMore(read, page, Pages(response.value, fetch, pages + 1, page.nextMS, page.nextID, Some(cutoff)));
      read := read + [page];
      beforeMS, beforeID, page, pages := page.nextMS, page.nextID, response.value, pages + 1;
    }
    SeenIsAcceptable(Items(goal.value), fromMS, toMS, seen, lastAt);
    ValuesCount(next.rows.value);
    IncrementReports(next, previous.rows.value, fromMS, toMS, cutoff, Items(goal.value));
    ok := next.calls == calls && next.tokens == tokens;
  }

  lemma KeptIsLess(rows: map<string, Event>, fromMS: int, toMS: int, cutoff: int)
    ensures |Kept(rows, fromMS, toMS, cutoff)| <= |rows|
  {
    SubsetIsLess(Kept(rows, fromMS, toMS, cutoff).Keys, rows.Keys);
  }

  lemma {:induction false} SubsetIsLess(s: set<string>, t: set<string>)
    requires s <= t
    ensures |s| <= |t|
    decreases |s|
  {
    if s == {} {
    } else {
      var h :| h in s;
      SubsetIsLess(s - {h}, t - {h});
    }
  }

  lemma NothingSeen(base: map<string, Event>, fromMS: int, toMS: int)
    ensures Items([]) == [] && Overlay(base, []) == base && Seen([], fromMS, toMS, {}, 0)
  {
  }

  /** However the reading goes on, what was read stays in front. */
  lemma PagesStart(
    read: seq<Page>, page: Page, fetch: nat -> Option<Page>, i: nat, beforeMS: int, beforeID: int, cutoff: int)
    ensures var r := Joined(read, Pages(page, fetch, i, beforeMS, beforeID, Some(cutoff)));
            r.Some? ==> Items(read + [page]) <= Items(r.value)
  {
    var r := Pages(page, fetch, i, beforeMS, beforeID, Some(cutoff));
    if r.Some? {
      assert r.value[0] == page;
      assert read + r.value == (read + [page]) + r.value[1..];
      ItemsJoin(read + [page], r.value[1..]);
    }
  }

  lemma {:induction false} ItemsJoin(s: seq<Page>, t: seq<Page>)
    ensures Items(s + t) == Items(s) + Items(t)
    decreases |s|
  {
    if s == [] {
      assert s + t == t;
    } else {
      assert (s + t)[1..] == s[1..] + t;
      ItemsJoin(s[1..], t);
    }
  }

  /** A page that fails makes the whole increment fail. */
  lemma NotIncrement(rows: map<string, Event>, fromMS: int, toMS: int, cutoff: int, s: seq<EventRow>, t: seq<EventRow>,
                     calls: int, tokens: int)
    requires s <= t
    requires !(Acceptable(s, fromMS, toMS) && |Overlay(Kept(rows, fromMS, toMS, cutoff), s)| <= MAX_ROWS)
    ensures !Increments(rows, fromMS, toMS, cutoff, t, calls, tokens)
  {
    hide Acceptable, Overlay, Kept;
    var base := Kept(rows, fromMS, toMS, cutoff);
    assert t == s + t[|s|..];
    if Acceptable(t, fromMS, toMS) {
      AcceptablePrefix(s, t[|s|..], fromMS, toMS);
    }
    OverlayJoin(base, s, t[|s|..]);
    OverlayGrows(Overlay(base, s), t[|s|..]);
  }

  // -------------------------------------------------- the increment is a full rebuild

  /** The events of a time range. */
  function Within(log: map<string, Event>, fromMS: int, toMS: int): map<string, Event> {
    map h | h in log && fromMS <= log[h].atMS < toMS :: log[h]
  }

  /** A list of exactly these events, newest first. */
  ghost predicate Lists(all: seq<EventRow>, m: map<string, Event>) {
    Keeps(m, all) && forall i, j | 0 <= i < j < |all| :: all[j].atMS <= all[i].atMS
  }

  /** Upstream pages through a list: consecutive pieces of it, the first page over all of
      it, the further ones over what is newer than the cutoff, and `hasMore` says whether
      anything is left. */
  ghost predicate PagedFrom(all: seq<EventRow>, recent: nat, limit: nat, k: nat, pages: seq<Page>)
    decreases |pages|
  {
    pages == [] ||
    var next := k + |pages[0].items|;
    && next <= limit <= |all| && pages[0].items == all[k..next] && (pages[0].hasMore <==> next < limit)
    && PagedFrom(all, recent, if recent < next then next else recent, next, pages[1..])
  }

  /** The first `recent` events of the list are those not older than the cutoff. */
  ghost predicate RecentAre(all: seq<EventRow>, recent: nat, cutoff: int) {
    && recent <= |all|
    && (forall i | 0 <= i < recent :: all[i].atMS >= cutoff) && (forall i | recent <= i < |all| :: all[i].atMS < cutoff)
  }

  /** The last page read is one at which reading stops, and no page before it is. */
  lemma {:induction false} PagesStop(
    page: Page, fetch: nat -> Option<Page>, i: nat, beforeMS: int, beforeID: int, cutoff: Option<int>)
    requires Pages(page, fetch, i, beforeMS, beforeID, cutoff).Some?
    ensures var p := Pages(page, fetch, i, beforeMS, beforeID, cutoff).value;
            p != [] && p[0] == page && Stops(p[|p| - 1], cutoff)
    decreases MAX_PAGES - i
  {
    if !Stops(page, cutoff) {
      PagesStop(fetch(i).value, fetch, i + 1, page.nextMS, page.nextID, cutoff);
    }
  }

  /** What is read is a prefix of the list. */
  lemma {:induction false} ReadIsPrefix(all: seq<EventRow>, recent: nat, limit: nat, k: nat, pages: seq<Page>)
    requires PagedFrom(all, recent, limit, k, pages) && k <= |all| && recent <= |all|
    ensures k + |Items(pages)| <= |all| && Items(pages) == all[k..k + |Items(pages)|]
    decreases |pages|
  {
    if pages == [] {
    } else {
      var next := k + |pages[0].items|;
      ReadIsPrefix(all, recent, if recent < next then next else recent, next, pages[1..]);
      hide PagedFrom;
      assert all[k..next + |Items(pages[1..])|] == all[k..next] + all[next..next + |Items(pages[1..])|];
    }
  }

  /** And when reading stops, the prefix holds everything that is recent. */
  lemma {:induction false} ReadIsRecent(all: seq<EventRow>, recent: nat, cutoff: int, limit: nat, k: nat,
      pages: seq<Page>)
    requires PagedFrom(all, recent, limit, k, pages) && k <= |all| && RecentAre(all, recent, cutoff) && recent <= limit
    requires pages != [] && Stops(pages[|pages| - 1], Some(cutoff))
    ensures recent <= k + |Items(pages)|
    decreases |pages|
  {
    var next := k + |pages[0].items|;
    if |pages| == 1 {
      assert Items(pages) == pages[0].items + Items([]);
      if next < limit {
        assert all[next - 1] == pages[0].items[|pages[0].items| - 1];
      }
    } else {
      ReadIsRecent(all, recent, cutoff, if recent < next then next else recent, next, pages[1..]);
    }
  }

  lemma {:induction false} OverlayHas(rows: map<string, Event>, items: seq<EventRow>, h: string)
    requires forall i, j | 0 <= i < j < |items| :: items[i].hash != items[j].hash
    ensures h in Overlay(rows, items) <==> h in rows || exists i :: 0 <= i < |items| && items[i].hash == h
    ensures (forall i | 0 <= i < |items| :: items[i].hash != h) && h in rows ==> Overlay(rows, items)[h] == rows[h]
    ensures forall i | 0 <= i < |items| && items[i].hash == h :: Overlay(rows, items)[h] == Compact(items[i])
    decreases |items|
  {
    if items == [] {
    } else {
      var rest := items[1..];
      assert forall i | 0 <= i < |rest| :: rest[i] == items[i + 1];
      OverlayHas(rows[items[0].hash := Compact(items[0])], rest, h);
      if i: nat :| i < |items| && items[i].hash == h {
        if i > 0 {
          assert rest[i - 1].hash == h;
        }
      }
    }
  }

  /** Reading what is recent over rows that are right below the cutoff gives the rows of
      the whole range. */
  lemma OverlayIsWhole(all: seq<EventRow>, m: map<string, Event>, base: map<string, Event>, n: nat, recent: nat,
      cutoff: int)
    requires Lists(all, m) && RecentAre(all, recent, cutoff) && recent <= n <= |all|
    requires base == map h | h in m && m[h].atMS < cutoff :: m[h]
    ensures Overlay(base, all[..n]) == m
  {
    var read := all[..n];
    forall h: string
      ensures h in Overlay(base, read) <==> h in m
      ensures h in m ==> Overlay(base, read)[h] == m[h]
    {
      OverlayHas(base, read, h);
      if h in m {
        var i :| 0 <= i < |all| && all[i].hash == h;
        if i < n {
          assert read[i].hash == h;
        }
      }
    }
  }

  /** Two logs with the same events before a moment. */
  ghost predicate SameBefore(log: map<string, Event>, log': map<string, Event>, moment: int) {
    forall h: string ::
      && (h in log && log[h].atMS < moment ==> h in log' && log'[h] == log[h])
      && (h in log' && log'[h].atMS < moment ==> h in log && log[h] == log'[h])
  }

  lemma {:induction false} KeptIsOlder(log: map<string, Event>, log': map<string, Event>, from0: int, to0: int,
      fromMS: int, toMS: int)
    requires SameBefore(log, log', to0 - OVERLAP) && from0 <= fromMS && to0 <= toMS
    ensures var m := Within(log', fromMS, toMS); var cutoff := Cutoff(fromMS, to0);
            Kept(Within(log, from0, to0), fromMS, toMS, cutoff) == map h | h in m && m[h].atMS < cutoff :: m[h]
  {
  }

  /** If the events older than the overlap are as they were and upstream pages through
      the new range newest first, the rows of an increment are those of the whole new
      range: what a full read would have found. */
  lemma {:induction false} IncrementIsRebuild(
    log: map<string, Event>, log': map<string, Event>, from0: int, to0: int, fromMS: int, toMS: int,
    all: seq<EventRow>, recent: nat, first: Page, fetch: nat -> Option<Page>)
    requires SameBefore(log, log', to0 - OVERLAP) && from0 <= fromMS < to0 <= toMS
    requires Lists(all, Within(log', fromMS, toMS)) && RecentAre(all, recent, Cutoff(fromMS, to0))
    requires Pages(first, fetch, 0, 0, 0, Some(Cutoff(fromMS, to0))).Some?
    requires PagedFrom(all, recent, |all|, 0, Pages(first, fetch, 0, 0, 0, Some(Cutoff(fromMS, to0))).value)
    ensures var cutoff := Cutoff(fromMS, to0); var pages := Pages(first, fetch, 0, 0, 0, Some(cutoff)).value;
            Overlay(Kept(Within(log, from0, to0), fromMS, toMS, cutoff), Items(pages)) == Within(log', fromMS, toMS)
  {
    hide Lists, Within, Overlay, Kept, PagedFrom, SameBefore, Pages;
    var cutoff := Cutoff(fromMS, to0);
    var pages := Pages(first, fetch, 0, 0, 0, Some(cutoff)).value;
    PagesStop(first, fetch, 0, 0, 0, Some(cutoff));
    ReadIsPrefix(all, recent, |all|, 0, pages);
    ReadIsRecent(all, recent, cutoff, |all|, 0, pages);
    KeptIsOlder(log, log', from0, to0, fromMS, toMS);
    assert all[0..|Items(pages)|] == all[..|Items(pages)|];
    OverlayIsWhole(all, Within(log', fromMS, toMS), Kept(Within(log, from0, to0), fromMS, toMS, cutoff),
                   |Items(pages)|, recent, cutoff);
  }

  /** A full read of a paged list reads all of it. */
  lemma {:induction false} ReadIsAll(all: seq<EventRow>, k: nat, pages: seq<Page>)
    requires PagedFrom(all, |all|, |all|, k, pages) && k <= |all|
    requires pages != [] && Stops(pages[|pages| - 1], None)
    ensures Items(pages) == all[k..]
    decreases |pages|
  {
    var next := k + |pages[0].items|;
    if |pages| == 1 {
      assert Items(pages) == pages[0].items + Items([]);
    } else {
      ReadIsAll(all, next, pages[1..]);
    }
  }

  /** The checkpoint of a full read holds what its totals count. */
  lemma {:induction false} FullRowsAgree(rows: map<string, Event>, fromMS: int, toMS: int, items: seq<EventRow>)
    requires FullRows(Some(rows), fromMS, toMS, items).Some? && |rows| <= MAX_ROWS
    ensures var r := FullRows(Some(rows), fromMS, toMS, items).value;
            Values(r) == Values(rows) + multiset(CompactAll(items)) && |r| <= MAX_ROWS
    decreases |items|
  {
    hide Values, ValidEvent, CompactAll;
    if items == [] {
      NothingCompact();
    } else {
      var next := FullRow(Some(rows), fromMS, toMS, items[0]);
      if next.None? {
        NoRowsStay(fromMS, toMS, items[1..]);
      }
      ValuesInsert(rows, items[0].hash, Compact(items[0]));
      assert next.value.Keys == rows.Keys + {items[0].hash};
      FullRowsAgree(next.value, fromMS, toMS, items[1..]);
      FirstCompact(items);
    }
  }

  lemma NothingCompact()
    ensures CompactAll([]) == []
  {
  }

  lemma FirstCompact(items: seq<EventRow>)
    requires items != []
    ensures multiset(CompactAll(items)) == multiset{Compact(items[0])} + multiset(CompactAll(items[1..]))
  {
    assert CompactAll(items) == [Compact(items[0])] + CompactAll(items[1..]);
  }

  lemma {:induction false} NoRowsStay(fromMS: int, toMS: int, items: seq<EventRow>)
    ensures FullRows(None, fromMS, toMS, items) == None
    decreases |items|
  {
    if items == [] {
    } else {
      NoRowsStay(fromMS, toMS, items[1..]);
    }
  }

  lemma {:induction false} FullRowsAre(rows: map<string, Event>, fromMS: int, toMS: int, items: seq<EventRow>)
    requires forall i | 0 <= i < |items| ::
             ValidEvent(fromMS, toMS, items[i].hash, Compact(items[i])) && items[i].hash !in rows
    requires forall i, j | 0 <= i < j < |items| :: items[i].hash != items[j].hash
    requires |rows| + |items| <= MAX_ROWS
    ensures FullRows(Some(rows), fromMS, toMS, items) == Some(Overlay(rows, items))
    decreases |items|
  {
    hide ValidEvent;
    if items == [] {
    } else {
      var next := rows[items[0].hash := Compact(items[0])];
      assert next.Keys == rows.Keys + {items[0].hash};
      assert forall i | 0 <= i < |items| - 1 :: items[1..][i] == items[i + 1];
      FullRowsAre(next, fromMS, toMS, items[1..]);
    }
  }

  /** A full read of at most 50000 usable events leaves a checkpoint of exactly the
      events of the range. */
  lemma {:induction false} RebuildIsWhole(log: map<string, Event>, fromMS: int, toMS: int, all: seq<EventRow>,
      first: Page, fetch: nat -> Option<Page>)
    requires Lists(all, Within(log, fromMS, toMS)) && |all| <= MAX_ROWS
    requires forall i | 0 <= i < |all| :: ValidEvent(fromMS, toMS, all[i].hash, Compact(all[i]))
    requires Pages(first, fetch, 0, 0, 0, None).Some?
    requires PagedFrom(all, |all|, |all|, 0, Pages(first, fetch, 0, 0, 0, None).value)
    ensures var pages := Pages(first, fetch, 0, 0, 0, None).value;
            && FullRows(Some(map[]), fromMS, toMS, Items(pages)) == Some(Within(log, fromMS, toMS))
            && multiset(CompactAll(Items(pages))) == Values(Within(log, fromMS, toMS))
  {
    hide PagedFrom, Pages, ValidEvent, Within, Overlay, Values, FullRows, CompactAll;
    var pages := Pages(first, fetch, 0, 0, 0, None).value;
    PagesStop(first, fetch, 0, 0, 0, None);
    ReadIsAll(all, 0, pages);
    assert all[0..] == all && all[..|all|] == all;
    FullRowsAre(map[], fromMS, toMS, all);
    var m := Within(log, fromMS, toMS);
    forall h: string
      ensures h in Overlay(map[], all) <==> h in m
      ensures h in m ==> Overlay(map[], all)[h] == m[h]
    {
      OverlayHas(map[], all, h);
    }
    assert Overlay(map[], all) == m;
    FullRowsAgree(map[], fromMS, toMS, all);
    NoValues();
  }

  lemma NoValues()
    ensures Values(map[]) == multiset{}
  {
  }

  /** Distinct events laid over other ones are added to them. */
  lemma {:induction false} OverlayAdds(rows: map<string, Event>, items: seq<EventRow>)
    requires forall i | 0 <= i < |items| :: items[i].hash !in rows
    requires forall i, j | 0 <= i < j < |items| :: items[i].hash != items[j].hash
    ensures Values(Overlay(rows, items)) == Values(rows) + multiset(CompactAll(items))
    decreases |items|
  {
    hide Values, CompactAll;
    if items == [] {
      NothingCompact();
    } else {
      var next := rows[items[0].hash := Compact(items[0])];
      ValuesInsert(rows, items[0].hash, Compact(items[0]));
      assert forall i | 0 <= i < |items| - 1 :: items[1..][i] == items[i + 1];
      OverlayAdds(next, items[1..]);
      FirstCompact(items);
    }
  }

  // -------------------------------------------------------- on the rows as reported

  /** The checkpoint keeps exactly these rows, each under its hash. */
  ghost predicate Keeps(m: map<string, Event>, rows: seq<EventRow>) {
    && (forall i | 0 <= i < |rows| :: rows[i].hash in m && m[rows[i].hash] == Compact(rows[i]))
    && (forall h: string | h in m :: exists i :: 0 <= i < |rows| && rows[i].hash == h)
    && (forall i, j | 0 <= i < j < |rows| :: rows[i].hash != rows[j].hash)
  }

  lemma OverlayKeeps(m: map<string, Event>, rows: seq<EventRow>)
    requires Keeps(m, rows)
    ensures Overlay(map[], rows) == m
  {
    hide Overlay;
    forall h: string
      ensures h in Overlay(map[], rows) <==> h in m
      ensures h in m ==> Overlay(map[], rows)[h] == m[h]
    {
      OverlayHas(map[], rows, h);
    }
  }

  lemma KeepsValues(m: map<string, Event>, rows: seq<EventRow>)
    requires Keeps(m, rows)
    ensures multiset(CompactAll(rows)) == Values(m)
  {
    hide Values, Overlay, CompactAll;
    OverlayKeeps(m, rows);
    OverlayAdds(map[], rows);
    NoValues();
  }

  /** A checkpoint that keeps these rows reports them. */
  lemma KeepingReports(s: Snapshot, rows: seq<EventRow>)
    requires Agrees(s) && Keeps(s.rows.value, rows)
    ensures Reports(s, rows)
  {
    hide Values, CompactAll, Keeps, Reports, GroupBy, Sum;
    KeepsValues(s.rows.value, rows);
    CountingReports(s, rows);
  }

  predicate Stays(r: EventRow, fromMS: int, toMS: int, cutoff: int, items: seq<EventRow>) {
    fromMS <= r.atMS < toMS && r.atMS < cutoff && forall i | 0 <= i < |items| :: items[i].hash != r.hash
  }

  /** The rows that an increment leaves: in the new range, older than the cutoff, and not
      read again. */
  function Left(rows: seq<EventRow>, fromMS: int, toMS: int, cutoff: int, items: seq<EventRow>): seq<EventRow> {
    if rows == [] then []
    else
      (if Stays(rows[0], fromMS, toMS, cutoff, items) then [rows[0]] else [])
      + Left(rows[1..], fromMS, toMS, cutoff, items)
  }

  lemma {:induction false} LeftAre(rows: seq<EventRow>, fromMS: int, toMS: int, cutoff: int, items: seq<EventRow>)
    requires forall i, j | 0 <= i < j < |rows| :: rows[i].hash != rows[j].hash
    ensures var left := Left(rows, fromMS, toMS, cutoff, items);
            && (forall r :: r in left <==> r in rows && Stays(r, fromMS, toMS, cutoff, items))
            && (forall i, j | 0 <= i < j < |left| :: left[i].hash != left[j].hash)
    decreases |rows|
  {
    hide Stays;
    if rows == [] {
    } else {
      var rest := rows[1..];
      assert forall i | 0 <= i < |rest| :: rest[i] == rows[i + 1];
      LeftAre(rest, fromMS, toMS, cutoff, items);
      assert rows == [rows[0]] + rest;
      assert forall r | r in rest :: r.hash != rows[0].hash;
    }
  }

  lemma DistinctJoin(a: seq<EventRow>, b: seq<EventRow>)
    requires forall i, j | 0 <= i < j < |a| :: a[i].hash != a[j].hash
    requires forall i, j | 0 <= i < j < |b| :: b[i].hash != b[j].hash
    requires forall i, j | 0 <= i < |a| && 0 <= j < |b| :: a[i].hash != b[j].hash
    ensures forall i, j | 0 <= i < j < |a + b| :: (a + b)[i].hash != (a + b)[j].hash
  {
  }

  lemma HasElements(left: seq<EventRow>, items: seq<EventRow>)
    ensures forall r :: r in left + items <==> r in left || r in items
  {
  }

  /** A row that stays is where it was, whatever is laid over the checkpoint. */
  lemma StayingRow(
    m: map<string, Event>, rows: seq<EventRow>, r: EventRow, fromMS: int, toMS: int, cutoff: int, items: seq<EventRow>)
    requires Keeps(m, rows) && forall i, j | 0 <= i < j < |items| :: items[i].hash != items[j].hash
    requires r in rows && Stays(r, fromMS, toMS, cutoff, items)
    ensures var next := Overlay(Kept(m, fromMS, toMS, cutoff), items);
            r.hash in next && next[r.hash] == Compact(r)
  {
    hide Overlay;
    OverlayHas(Kept(m, fromMS, toMS, cutoff), items, r.hash);
  }

  lemma ReadRow(m: map<string, Event>, i: nat, items: seq<EventRow>)
    requires i < |items| && forall i, j | 0 <= i < j < |items| :: items[i].hash != items[j].hash
    ensures items[i].hash in Overlay(m, items) && Overlay(m, items)[items[i].hash] == Compact(items[i])
  {
    OverlayHas(m, items, items[i].hash);
  }

  lemma RowComesFrom(
    m: map<string, Event>, rows: seq<EventRow>, h: string, fromMS: int, toMS: int, cutoff: int, items: seq<EventRow>)
    returns (r: EventRow)
    requires Keeps(m, rows) && forall i, j | 0 <= i < j < |items| :: items[i].hash != items[j].hash
    requires h in Overlay(Kept(m, fromMS, toMS, cutoff), items)
    ensures r.hash == h && (r in items || (r in rows && Stays(r, fromMS, toMS, cutoff, items)))
  {
    hide Overlay;
    OverlayHas(Kept(m, fromMS, toMS, cutoff), items, h);
    if j: nat :| j < |items| && items[j].hash == h {
      return items[j];
    }
    var i :| 0 <= i < |rows| && rows[i].hash == h;
    return rows[i];
  }

  /** An increment over a checkpoint that keeps these rows keeps what stays of them and what
      it read. */
  lemma IncrementKeeps(
    m: map<string, Event>, rows: seq<EventRow>, fromMS: int, toMS: int, cutoff: int, items: seq<EventRow>)
    requires Keeps(m, rows) && forall i, j | 0 <= i < j < |items| :: items[i].hash != items[j].hash
    ensures Keeps(Overlay(Kept(m, fromMS, toMS, cutoff), items), Left(rows, fromMS, toMS, cutoff, items) + items)
  {
    LeftAre(rows, fromMS, toMS, cutoff, items);
    var left := Left(rows, fromMS, toMS, cutoff, items);
    var all, next := left + items, Overlay(Kept(m, fromMS, toMS, cutoff), items);
    HasElements(left, items);
    assert forall i, j | 0 <= i < |left| && 0 <= j < |items| :: left[i].hash != items[j].hash by {
      assert forall i | 0 <= i < |left| :: left[i] in left;
    }
    DistinctJoin(left, items);
    hide Overlay, Left, Stays, Kept;
    forall i | 0 <= i < |all|
      ensures all[i].hash in next && next[all[i].hash] == Compact(all[i])
    {
      if i < |left| {
        assert all[i] in left;
        StayingRow(m, rows, all[i], fromMS, toMS, cutoff, items);
      } else {
        ReadRow(Kept(m, fromMS, toMS, cutoff), i - |left|, items);
      }
    }
    forall h: string | h in next
      ensures exists i :: 0 <= i < |all| && all[i].hash == h
    {
      var r := RowComesFrom(m, rows, h, fromMS, toMS, cutoff, items);
      assert r in all;
    }
  }

  /** Whatever rows a checkpoint kept, these figures are those of what stays of them and of
      what was read. */
  ghost predicate ReportsOver(
    s: Snapshot, m: map<string, Event>, fromMS: int, toMS: int, cutoff: int, items: seq<EventRow>)
    reads s
  {
    forall rows | Keeps(m, rows) ::
      var after := Left(rows, fromMS, toMS, cutoff, items) + items;
      s.rows.Some? && Keeps(s.rows.value, after) && Reports(s, after)
  }

  lemma IncrementReports(
    s: Snapshot, m: map<string, Event>, fromMS: int, toMS: int, cutoff: int, items: seq<EventRow>)
    requires Agrees(s) && s.rows.value == Overlay(Kept(m, fromMS, toMS, cutoff), items)
    requires Acceptable(items, fromMS, toMS)
    ensures ReportsOver(s, m, fromMS, toMS, cutoff, items)
  {
    hide Agrees, Keeps, Reports, Left, Overlay, Kept, ValidEvent;
    forall rows | Keeps(m, rows)
      ensures var after := Left(rows, fromMS, toMS, cutoff, items) + items;
              s.rows.Some? && Keeps(s.rows.value, after) && Reports(s, after)
    {
      IncrementKeeps(m, rows, fromMS, toMS, cutoff, items);
      assert s.rows.Some? by { AgreesHasRows(s); }
      KeepingReports(s, Left(rows, fromMS, toMS, cutoff, items) + items);
    }
  }

  lemma AgreesHasRows(s: Snapshot)
    requires Agrees(s)
    ensures s.rows.Some?
  {
  }

  /** The checkpoint of a full read, if it leaves one, keeps the rows it read. */
  lemma {:induction false} FullRowsKeep(rows: map<string, Event>, fromMS: int, toMS: int, items: seq<EventRow>)
    requires FullRows(Some(rows), fromMS, toMS, items).Some?
    ensures FullRows(Some(rows), fromMS, toMS, items).value == Overlay(rows, items)
    ensures forall i | 0 <= i < |items| ::
              ValidEvent(fromMS, toMS, items[i].hash, Compact(items[i])) && items[i].hash !in rows
    ensures items != [] ==> |rows| + |items| <= MAX_ROWS
    ensures forall i, j | 0 <= i < j < |items| :: items[i].hash != items[j].hash
    decreases |items|
  {
    hide ValidEvent;
    if items == [] {
    } else {
      var next := FullRow(Some(rows), fromMS, toMS, items[0]);
      if next.None? {
        NoRowsStay(fromMS, toMS, items[1..]);
      }
      assert next.value.Keys == rows.Keys + {items[0].hash};
      FullRowsKeep(next.value, fromMS, toMS, items[1..]);
      assert forall i | 0 < i < |items| :: items[i] == items[1..][i - 1];
    }
  }

  /** A full read leaves a checkpoint exactly if it read at most 50000 rows, each usable and
      no two of the same event. */
  lemma CheckpointExactly(fromMS: int, toMS: int, items: seq<EventRow>)
    ensures FullRows(Some(map[]), fromMS, toMS, items).Some? <==>
              && |items| <= 50_000 && (forall i | 0 <= i < |items| :: Usable(items[i], fromMS, toMS))
              && (forall i, j | 0 <= i < j < |items| :: items[i].hash != items[j].hash)
  {
    forall i | 0 <= i < |items|
      ensures ValidEvent(fromMS, toMS, items[i].hash, Compact(items[i])) <==> Usable(items[i], fromMS, toMS)
    {
      UsableExactly(items[i], fromMS, toMS);
    }
    hide FullRows, Usable, ValidEvent, Overlay;
    if FullRows(Some(map[]), fromMS, toMS, items).Some? {
      FullRowsKeep(map[], fromMS, toMS, items);
    }
    if |items| <= 50_000 && (forall i | 0 <= i < |items| :: Usable(items[i], fromMS, toMS))
       && (forall i, j | 0 <= i < j < |items| :: items[i].hash != items[j].hash) {
      FullRowsAre(map[], fromMS, toMS, items);
    }
  }

  lemma RebuildKeeps(fromMS: int, toMS: int, items: seq<EventRow>)
    requires FullRows(Some(map[]), fromMS, toMS, items).Some?
    ensures Keeps(FullRows(Some(map[]), fromMS, toMS, items).value, items)
  {
    hide FullRows, Overlay;
    FullRowsKeep(map[], fromMS, toMS, items);
    var m := Overlay(map[], items);
    forall h: string
      ensures h in m <==> exists i :: 0 <= i < |items| && items[i].hash == h
      ensures forall i | 0 <= i < |items| && items[i].hash == h :: m[h] == Compact(items[i])
    {
      OverlayHas(map[], items, h);
    }
  }

  /** Two checkpoints with the same rows show the same statistics, however each was
      reached. */
  lemma SameRowsSameStatistics(a: Snapshot, b: Snapshot)
    requires Agrees(a) && Agrees(b) && a.rows == b.rows
    ensures a.byModel == b.byModel && a.calls == b.calls && a.tokens == b.tokens
  {
    GroupByIsOne(a.byModel, b.byModel, a.counted);
  }
}

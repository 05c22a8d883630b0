/** What the statistics show, told on the rows that upstream reports
    (internal/service/actual_model_incremental.go:46-77): which model a row counts for, and
    what is added up for it. */
module ActualModelReport {
  import opened ActualModels
  import opened Wrappers

  datatype Figures = Figures(calls: nat, failures: nat, input: int, output: int, total: int)

  /** The model that answered: the one upstream resolved, or else the one in its response, or
      else the label for calls that name none. */
  predicate Answered(r: EventRow, model: string) {
    || (r.resolved != "" && model == r.resolved)
    || (r.resolved == "" && r.response != "" && model == r.response)
    || (r.resolved == "" && r.response == "" && model == "\U{672A}\U{8BB0}\U{5F55}\U{5B9E}\U{9645}\U{6A21}\U{578B}")
  }

  /** What these rows add up to for one model, or for all. */
  function FiguresOf(rows: seq<EventRow>, model: Option<string>): Figures {
    if rows == [] then Figures(0, 0, 0, 0, 0)
    else
      var r, rest := rows[|rows| - 1], FiguresOf(rows[..|rows| - 1], model);
      if model.None? || Answered(r, model.value) then
        Figures(rest.calls + 1, if r.failed then rest.failures + 1 else rest.failures, rest.input + r.input,
                rest.output + r.output, rest.total + r.total)
      else rest
  }

  /** A 64-bit counter shows this number: exactly if it is in range, modulo 2^64 otherwise. */
  predicate Shows(counter: int, number: int) {
    && -0x8000_0000_0000_0000 <= counter < 0x8000_0000_0000_0000
    && (number - counter) % 0x1_0000_0000_0000_0000 == 0
  }

  predicate StatShows(stat: Stat, model: string, f: Figures) {
    && stat.model == model && stat.calls == f.calls && stat.failure == f.failures
    && stat.success == f.calls - f.failures
    && Shows(stat.input, f.input) && Shows(stat.output, f.output) && Shows(stat.total, f.total)
  }

  /** The statistics are those of exactly these rows. */
  ghost predicate Reports(s: Snapshot, rows: seq<EventRow>)
    reads s
  {
    && (forall model: string ::
          && (model in s.byModel <==> exists i :: 0 <= i < |rows| && Answered(rows[i], model))
          && (model in s.byModel ==> StatShows(s.byModel[model], model, FiguresOf(rows, Some(model)))))
    && s.calls == |rows| && Shows(s.tokens, FiguresOf(rows, None).total)
  }

  lemma WrapShows(x: int)
    ensures Shows(Wrap(x), x)
  {
    assert x - Wrap(x) == (x + HALF) - (x + HALF) % FULL;
  }

  lemma CompactAnswers(r: EventRow, model: string)
    ensures Answered(r, model) <==> Compact(r).model == model
  {
  }

  lemma FiguresStep(rows: seq<EventRow>, model: Option<string>)
    requires rows != []
    ensures var n := |rows| - 1; var part := Part(Compact(rows[n]), model);
            var f, rest := FiguresOf(rows, model), FiguresOf(rows[..n], model);
            && f.calls == rest.calls + part.calls && f.failures == rest.failures + part.failure
            && f.input == rest.input + part.input && f.output == rest.output + part.output
            && f.total == rest.total + part.total
  {
    if model.Some? {
      CompactAnswers(rows[|rows| - 1], model.value);
    }
  }

  lemma CompactLast(rows: seq<EventRow>)
    requires rows != []
    ensures var n := |rows| - 1;
            multiset(CompactAll(rows)) == multiset(CompactAll(rows[..n])) + multiset{Compact(rows[n])}
  {
    assert CompactAll(rows) == CompactAll(rows[..|rows| - 1]) + [Compact(rows[|rows| - 1])];
  }

  lemma {:induction false} FiguresAreSums(rows: seq<EventRow>, model: Option<string>)
    ensures var f, s := FiguresOf(rows, model), Sum(multiset(CompactAll(rows)), model);
            && f.calls == s.calls && f.failures == s.failure
            && f.input == s.input && f.output == s.output && f.total == s.total
    decreases |rows|
  {
    if rows == [] {
      assert CompactAll(rows) == [];
    } else {
      var n := |rows| - 1;
      FiguresAreSums(rows[..n], model);
      FiguresStep(rows, model);
      CompactLast(rows);
      SumInsert(multiset(CompactAll(rows[..n])), Compact(rows[n]), model);
      hide Sum, Part, CompactAll, FiguresOf;
    }
  }

  lemma AnsweredIsCounted(rows: seq<EventRow>, model: string)
    ensures (exists e :: e in multiset(CompactAll(rows)) && e.model == model)
       <==> exists i :: 0 <= i < |rows| && Answered(rows[i], model)
  {
    var all := CompactAll(rows);
    if i: nat :| i < |rows| && Answered(rows[i], model) {
      CompactAnswers(rows[i], model);
      assert all[i] in multiset(all);
    }
    if e :| e in multiset(all) && e.model == model {
      var i :| 0 <= i < |all| && all[i] == e;
      CompactAnswers(rows[i], model);
    }
  }

  /** Totals over exactly these rows are shown as what the rows add up to. */
  lemma CountingReports(s: Snapshot, rows: seq<EventRow>)
    requires s.Valid() && s.counted == multiset(CompactAll(rows))
    ensures Reports(s, rows)
  {
    hide Sum, CompactAll, FiguresOf, Wrap, Shows, Answered;
    forall model: string
      ensures model in s.byModel <==> exists i :: 0 <= i < |rows| && Answered(rows[i], model)
      ensures model in s.byModel ==> StatShows(s.byModel[model], model, FiguresOf(rows, Some(model)))
    {
      AnsweredIsCounted(rows, model);
      FiguresAreSums(rows, Some(model));
      var sums := Sum(s.counted, Some(model));
      WrapShows(sums.input);
      WrapShows(sums.output);
      WrapShows(sums.total);
    }
    FiguresAreSums(rows, None);
    WrapShows(Sum(s.counted, None).total);
    CompactCount(rows);
  }

  lemma CompactCount(rows: seq<EventRow>)
    ensures |multiset(CompactAll(rows))| == |rows|
  {
    assert |CompactAll(rows)| == |rows|;
  }

  /** A row that a checkpoint may keep: it has a hash of at most 256 bytes and a model name of
      at most 512, lies in the range and after the beginning of time, and counts nothing
      negative. */
  ghost predicate Usable(r: EventRow, fromMS: int, toMS: int) {
    && r.hash != "" && ByteLength(r.hash) <= 256
    && (forall model | Answered(r, model) :: ByteLength(model) <= 512)
    && r.atMS > 0 && fromMS <= r.atMS < toMS && r.input >= 0 && r.output >= 0 && r.total >= 0
  }

  lemma UsableExactly(r: EventRow, fromMS: int, toMS: int)
    ensures ValidEvent(fromMS, toMS, r.hash, Compact(r)) <==> Usable(r, fromMS, toMS)
  {
    var model := Compact(r).model;
    CompactAnswers(r, model);
    forall other | Answered(r, other)
      ensures other == model
    {
      CompactAnswers(r, other);
    }
    hide ByteLength, Answered;
  }
}

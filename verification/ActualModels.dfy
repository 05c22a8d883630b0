/** Statistics by the model that really answered
    (internal/service/actual_model_incremental.go): a checkpoint of rows with running
    totals, corrected by adding and subtracting rows.  Counters are 64-bit; a sum that
    leaves that range wraps, here as in the source. */
module ActualModels {
  import opened Wrappers

  const HALF: int := 0x8000_0000_0000_0000
  const FULL: int := 0x1_0000_0000_0000_0000

  function Wrap(x: int): int {
    (x + HALF) % FULL - HALF
  }

  lemma WrapAdd(a: int, b: int)
    ensures Wrap(Wrap(a) + b) == Wrap(a + b)
  {
  }

  const UNRECORDED := "\U{672A}\U{8BB0}\U{5F55}\U{5B9E}\U{9645}\U{6A21}\U{578B}"

  /** What upstream reports; the names are already trimmed. */
  datatype EventRow = EventRow(
    hash: string, atMS: int, resolved: string, response: string, input: int, output: int, total: int, failed: bool)

  datatype Event = Event(atMS: int, model: string, input: int, output: int, total: int, failed: bool)

  function Compact(r: EventRow): Event {
    Event(r.atMS, if r.resolved != "" then r.resolved else if r.response != "" then r.response else UNRECORDED,
          r.input, r.output, r.total, r.failed)
  }

  function CompactAll(items: seq<EventRow>): seq<Event> {
    seq(|items|, i requires 0 <= i < |items| => Compact(items[i]))
  }

  datatype Stat = Stat(model: string, calls: int, success: int, failure: int, input: int, output: int, total: int)

  // ------------------------------------------------------------ what the totals mean

  datatype Sums = Sums(calls: int, failure: int, input: int, output: int, total: int)

  const ZERO := Sums(0, 0, 0, 0, 0)

  function Add(a: Sums, b: Sums): Sums {
    Sums(a.calls + b.calls, a.failure + b.failure, a.input + b.input, a.output + b.output, a.total + b.total)
  }

  /** What one event adds to the sums of a model, or of all models. */
  function Part(e: Event, model: Option<string>): Sums {
    if model == None || model == Some(e.model)
    then Sums(1, if e.failed then 1 else 0, e.input, e.output, e.total) else ZERO
  }

  ghost function Pick<T>(s: multiset<T>): T
    requires s != multiset{}
  {
    var e :| e in s; e
  }

  ghost function Sum(s: multiset<Event>, model: Option<string>): Sums
    decreases |s|
  {
    if s == multiset{} then ZERO
    else
      var e := Pick(s);
      Add(Part(e, model), Sum(s - multiset{e}, model))
  }

  lemma SumUnfold(s: multiset<Event>, model: Option<string>)
    requires s != multiset{}
    ensures Sum(s, model) == Add(Part(Pick(s), model), Sum(s - multiset{Pick(s)}, model))
  {
  }

  lemma {:induction false} SumSplit(s: multiset<Event>, e: Event, model: Option<string>)
    requires e in s
    ensures Sum(s, model) == Add(Part(e, model), Sum(s - multiset{e}, model))
    decreases |s|
  {
    hide Sum, Part;
    SumUnfold(s, model);
    var f := Pick(s);
    if f != e {
      SumSplit(s - multiset{f}, e, model);
      SumSplit(s - multiset{e}, f, model);
      assert s - multiset{f} - multiset{e} == s - multiset{e} - multiset{f};
    }
  }

  lemma SumInsert(s: multiset<Event>, e: Event, model: Option<string>)
    ensures Sum(s + multiset{e}, model) == Add(Part(e, model), Sum(s, model))
  {
    hide Sum, Part;
    SumSplit(s + multiset{e}, e, model);
    assert s + multiset{e} - multiset{e} == s;
  }

  lemma PartTells(e: Event, model: Option<string>)
    ensures Part(e, model).calls == 0 || Part(e, model).calls == 1
    ensures Part(e, model) == ZERO <==> Part(e, model).calls == 0
    ensures model == None ==> Part(e, model).calls == 1
  {
  }

  /** The number of calls tells whether the model occurs at all. */
  lemma {:induction false} CallsTell(s: multiset<Event>, model: Option<string>)
    ensures Sum(s, model).calls >= 0
    ensures Sum(s, model).calls == 0 <==> forall e | e in s :: Part(e, model) == ZERO
    ensures model == None ==> Sum(s, model).calls == |s|
    decreases |s|
  {
    if s != multiset{} {
      var e := Pick(s);
      SumUnfold(s, model);
      PartTells(e, model);
      hide Sum, Part;
      CallsTell(s - multiset{e}, model);
      assert forall x :: x in s <==> x == e || x in s - multiset{e};
    }
  }

  function Shown(model: string, s: Sums): Stat {
    Stat(model, s.calls, s.calls - s.failure, s.failure, Wrap(s.input), Wrap(s.output), Wrap(s.total))
  }

  /** The map is exactly the group-by of the events: an entry for every model that
      occurs and for no other, with its sums. */
  ghost predicate GroupBy(byModel: map<string, Stat>, s: multiset<Event>) {
    forall model: string ::
      && (model in byModel <==> exists e :: e in s && e.model == model)
      && (model in byModel ==> byModel[model] == Shown(model, Sum(s, Some(model))))
  }

  lemma GroupByIsOne(a: map<string, Stat>, b: map<string, Stat>, s: multiset<Event>)
    requires GroupBy(a, s) && GroupBy(b, s)
    ensures a == b
  {
    forall model: string
      ensures model in a <==> model in b
      ensures model in a ==> a[model] == b[model]
    {
    }
  }

  // --------------------------------------------------------------- rows by their hash

  ghost function PickKey(m: map<string, Event>): string
    requires m != map[]
  {
    var h :| h in m; h
  }

  /** The rows without their hashes. */
  ghost function Values(m: map<string, Event>): multiset<Event>
    decreases |m|
  {
    if m == map[] then multiset{}
    else
      var h := PickKey(m);
      multiset{m[h]} + Values(m - {h})
  }

  lemma ValuesUnfold(m: map<string, Event>)
    requires m != map[]
    ensures Values(m) == multiset{m[PickKey(m)]} + Values(m - {PickKey(m)})
  {
  }

  lemma {:induction false} ValuesSplit(m: map<string, Event>, h: string)
    requires h in m
    ensures Values(m) == multiset{m[h]} + Values(m - {h})
    ensures Values(m - {h}) == Values(m) - multiset{m[h]}
    decreases |m|
  {
    hide Values;
    ValuesUnfold(m);
    var g := PickKey(m);
    if g != h {
      ValuesSplit(m - {g}, h);
      ValuesSplit(m - {h}, g);
      assert m - {g} - {h} == m - {h} - {g};
      SameUnion(Values(m - {g}), Values(m - {h}), Values(m - {g} - {h}), m[g], m[h]);
    }
  }

  lemma SameUnion(p: multiset<Event>, q: multiset<Event>, r: multiset<Event>, x: Event, y: Event)
    requires p == multiset{y} + r && q == multiset{x} + r
    ensures multiset{x} + p == multiset{y} + q
    ensures q == multiset{x} + p - multiset{y}
  {
  }

  lemma ValuesInsert(m: map<string, Event>, h: string, e: Event)
    requires h !in m
    ensures Values(m[h := e]) == Values(m) + multiset{e}
  {
    ValuesSplit(m[h := e], h);
    assert m[h := e] - {h} == m;
  }

  lemma {:induction false} ValuesCount(m: map<string, Event>)
    ensures |Values(m)| == |m|
    decreases |m|
  {
    if m == map[] {
    } else {
      var h := PickKey(m);
      ValuesCount(m - {h});
      assert m.Keys == (m - {h}).Keys + {h};
    }
  }

  // ------------------------------------------------------------------- the checkpoint

  const OVERLAP := 300_000
  const MAX_ROWS := 50_000
  const MAX_PAGES := 200

  function Utf8Size(c: char): nat {
    if c < '\U{80}' then 1 else if c < '\U{800}' then 2 else if c < '\U{10000}' then 3 else 4
  }

  function ByteLength(s: string): nat {
    if s == "" then 0 else Utf8Size(s[0]) + ByteLength(s[1..])
  }

  predicate ValidEvent(fromMS: int, toMS: int, hash: string, e: Event) {
    && hash != "" && ByteLength(hash) <= 256 && ByteLength(e.model) <= 512
    && e.atMS > 0 && fromMS <= e.atMS < toMS && e.input >= 0 && e.output >= 0 && e.total >= 0
  }

  function FullRow(rows: Option<map<string, Event>>, fromMS: int, toMS: int, r: EventRow): Option<map<string, Event>> {
    if rows.None? || !ValidEvent(fromMS, toMS, r.hash, Compact(r)) || r.hash in rows.value || |rows.value| >= MAX_ROWS
    then None else Some(rows.value[r.hash := Compact(r)])
  }

  class Snapshot {
    var fromMS: int
    var toMS: int
    var rows: Option<map<string, Event>>
    var byModel: map<string, Stat>
    var calls: int
    var tokens: int
    /** Every event the totals include at the moment. */
    ghost var counted: multiset<Event>

    ghost predicate Valid()
      reads this
    {
      GroupBy(byModel, counted) && calls == |counted| && tokens == Wrap(Sum(counted, None).total)
    }

    constructor (fromMS: int, toMS: int)
      ensures Valid() && rows == Some(map[]) && counted == multiset{}
      ensures this.fromMS == fromMS && this.toMS == toMS
    {
      this.fromMS, this.toMS := fromMS, toMS;
      rows, byModel, calls, tokens, counted := Some(map[]), map[], 0, 0, multiset{};
    }

    /** A copy for another range. */
    constructor Copy(from: Snapshot, fromMS: int, toMS: int)
      requires from.Valid()
      ensures Valid() && rows == from.rows && counted == from.counted
      ensures this.fromMS == fromMS && this.toMS == toMS
    {
      this.fromMS, this.toMS := fromMS, toMS;
      rows, byModel, calls, tokens, counted := from.rows, from.byModel, from.calls, from.tokens, from.counted;
    }

    /** One event in or out; at every moment the map is the exact group-by. */
    method Adjust(e: Event, sign: int)
      requires Valid() && (sign == 1 || (sign == -1 && e in counted))
      modifies `byModel, `calls, `tokens, `counted
      ensures Valid()
      ensures counted == if sign == 1 then old(counted) + multiset{e} else old(counted) - multiset{e}
    {
      ghost var before := counted;
      ghost var after := if sign == 1 then counted + multiset{e} else counted - multiset{e};
      hide Wrap, GroupBy, Sum;
      AdjustStat(byModel, before, after, e, sign);
      AdjustTotals(before, after, e, sign);
      var stat := if e.model in byModel then byModel[e.model] else Stat("", 0, 0, 0, 0, 0, 0);
      stat := stat.(model := e.model, calls := stat.calls + sign);
      if e.failed {
        stat := stat.(failure := stat.failure + sign);
      } else {
        stat := stat.(success := stat.success + sign);
      }
      assert sign * e.input == Signed(sign, e.input) && sign * e.output == Signed(sign, e.output);
      assert sign * e.total == Signed(sign, e.total);
      stat := stat.(input := Wrap(stat.input + sign * e.input), output := Wrap(stat.output + sign * e.output),
                    total := Wrap(stat.total + sign * e.total));
      assert stat == Adjusted(Entry(byModel, e.model), e, sign);
      if stat.calls == 0 {
        byModel := byModel - {e.model};
      } else {
        byModel := byModel[e.model := stat];
      }
      calls := calls + sign;
      tokens := Wrap(tokens + sign * e.total);
      counted := after;
    }

    /** One event of a full read.  A row that is not usable, or one too many, ends the
        checkpoint but not the statistics. */
    method AddFull(r: EventRow)
      requires Valid()
      modifies this
      ensures Valid() && fromMS == old(fromMS) && toMS == old(toMS)
      ensures counted == old(counted) + multiset{Compact(r)}
      ensures rows == FullRow(old(rows), fromMS, toMS, r)
    {
      hide GroupBy, Sum;
      var row := Compact(r);
      Adjust(row, 1);
      if rows == None {
        return;
      }
      if !ValidEvent(fromMS, toMS, r.hash, row) || r.hash in rows.value || |rows.value| >= MAX_ROWS {
        rows := None;
        return;
      }
      rows := Some(rows.value[r.hash := row]);
    }
  }

  function Signed(sign: int, x: int): int {
    if sign == 1 then x else -x
  }

  /** The entry of a model, zero if there is none. */
  function Entry(byModel: map<string, Stat>, model: string): Stat {
    if model in byModel then byModel[model].(model := model) else Stat(model, 0, 0, 0, 0, 0, 0)
  }

  function Adjusted(stat: Stat, e: Event, sign: int): Stat {
    Stat(stat.model, stat.calls + sign, if e.failed then stat.success else stat.success + sign,
         if e.failed then stat.failure + sign else stat.failure, Wrap(stat.input + Signed(sign, e.input)),
         Wrap(stat.output + Signed(sign, e.output)), Wrap(stat.total + Signed(sign, e.total)))
  }

  ghost predicate Moved(before: multiset<Event>, after: multiset<Event>, e: Event, sign: int) {
    || (sign == 1 && after == before + multiset{e})
    || (sign == -1 && e in before && after == before - multiset{e})
  }

  lemma MovedSum(before: multiset<Event>, after: multiset<Event>, e: Event, sign: int, model: Option<string>)
    requires Moved(before, after, e, sign)
    ensures if sign == 1 then Sum(after, model) == Add(Part(e, model), Sum(before, model))
            else Sum(before, model) == Add(Part(e, model), Sum(after, model))
  {
    if sign == 1 {
      SumInsert(before, e, model);
    } else {
      SumSplit(before, e, model);
    }
  }

  lemma EntryShows(byModel: map<string, Stat>, s: multiset<Event>, model: string)
    requires GroupBy(byModel, s)
    ensures Entry(byModel, model) == Shown(model, Sum(s, Some(model)))
  {
    if model !in byModel {
      NoneOfModel(s, model);
    }
  }

  lemma {:induction false} NoneOfModel(s: multiset<Event>, model: string)
    requires forall e | e in s :: e.model != model
    ensures Sum(s, Some(model)) == ZERO
    decreases |s|
  {
    if s != multiset{} {
      NoneOfModel(s - multiset{Pick(s)}, model);
    }
  }

  /** On sums: moving one event changes what is shown as `Adjusted` does. */
  lemma ShownAdjusts(model: string, s: Sums, t: Sums, e: Event, sign: int)
    requires e.model == model && (sign == 1 || sign == -1)
    requires if sign == 1 then t == Add(Part(e, Some(model)), s) else s == Add(Part(e, Some(model)), t)
    ensures Adjusted(Shown(model, s), e, sign) == Shown(model, t)
  {
    WrapAdd(s.input, Signed(sign, e.input));
    WrapAdd(s.output, Signed(sign, e.output));
    WrapAdd(s.total, Signed(sign, e.total));
    hide Wrap;
  }

  lemma OtherModel(before: multiset<Event>, after: multiset<Event>, e: Event, sign: int, model: string)
    requires Moved(before, after, e, sign) && model != e.model
    ensures Sum(after, Some(model)) == Sum(before, Some(model))
    ensures (exists x :: x in after && x.model == model) <==> (exists x :: x in before && x.model == model)
  {
    hide Sum;
    MovedSum(before, after, e, sign, Some(model));
    assert forall x: Event | x.model == model :: x in before <==> x in after;
  }

  lemma SomeOfModel(s: multiset<Event>, model: string)
    ensures Sum(s, Some(model)).calls == 0 <==> !exists x :: x in s && x.model == model
  {
    hide Sum;
    CallsTell(s, Some(model));
  }

  lemma OwnModel(byModel: map<string, Stat>, before: multiset<Event>, after: multiset<Event>, e: Event, sign: int)
    requires GroupBy(byModel, before) && Moved(before, after, e, sign)
    ensures var stat := Adjusted(Entry(byModel, e.model), e, sign);
            && stat == Shown(e.model, Sum(after, Some(e.model)))
            && (stat.calls == 0 <==> !exists x :: x in after && x.model == e.model)
  {
    hide Sum, GroupBy;
    EntryShows(byModel, before, e.model);
    MovedSum(before, after, e, sign, Some(e.model));
    ShownAdjusts(e.model, Sum(before, Some(e.model)), Sum(after, Some(e.model)), e, sign);
    SomeOfModel(after, e.model);
    hide Wrap, Adjusted, Entry;
  }

  lemma AdjustStat(byModel: map<string, Stat>, before: multiset<Event>, after: multiset<Event>, e: Event, sign: int)
    requires GroupBy(byModel, before) && Moved(before, after, e, sign)
    ensures var stat := Adjusted(Entry(byModel, e.model), e, sign);
            GroupBy(if stat.calls == 0 then byModel - {e.model} else byModel[e.model := stat], after)
  {
    hide Wrap, Adjusted, Entry, Sum, Shown, Moved;
    OwnModel(byModel, before, after, e, sign);
    var stat := Adjusted(Entry(byModel, e.model), e, sign);
    var byModel' := if stat.calls == 0 then byModel - {e.model} else byModel[e.model := stat];
    forall model: string
      ensures model in byModel' <==> exists x :: x in after && x.model == model
      ensures model in byModel' ==> byModel'[model] == Shown(model, Sum(after, Some(model)))
    {
      if model != e.model {
        OtherModel(before, after, e, sign, model);
      }
    }
  }

  lemma TotalMoves(s: Sums, t: Sums, e: Event, sign: int)
    requires sign == 1 || sign == -1
    requires if sign == 1 then t == Add(Part(e, None), s) else s == Add(Part(e, None), t)
    ensures Wrap(Wrap(s.total) + Signed(sign, e.total)) == Wrap(t.total)
  {
    WrapAdd(s.total, Signed(sign, e.total));
    hide Wrap;
  }

  lemma AdjustTotals(before: multiset<Event>, after: multiset<Event>, e: Event, sign: int)
    requires Moved(before, after, e, sign)
    ensures Wrap(Wrap(Sum(before, None).total) + Signed(sign, e.total)) == Wrap(Sum(after, None).total)
    ensures |after| == |before| + sign
  {
    hide Wrap, Sum;
    MovedSum(before, after, e, sign, None);
    TotalMoves(Sum(before, None), Sum(after, None), e, sign);
  }
}

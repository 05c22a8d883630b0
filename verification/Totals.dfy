/** Adding up what the entries of a map weigh, and making room by letting the oldest of
    them go. */
module Totals {

  ghost function PickKey<T>(m: map<string, T>): string
    requires m != map[]
  {
    var k :| k in m; k
  }

  ghost function Total<T(!new)>(m: map<string, T>, weight: T -> int): int
    decreases |m|
  {
    if m == map[] then 0 else weight(m[PickKey(m)]) + Total(m - {PickKey(m)}, weight)
  }

  lemma {:induction false} TotalSplit<T(!new)>(m: map<string, T>, weight: T -> int, k: string)
    requires k in m
    ensures Total(m, weight) == weight(m[k]) + Total(m - {k}, weight)
    decreases |m|
  {
    var g := PickKey(m);
    if g != k {
      TotalSplit(m - {g}, weight, k);
      TotalSplit(m - {k}, weight, g);
      assert m - {g} - {k} == m - {k} - {g};
    }
  }

  lemma TotalInsert<T(!new)>(m: map<string, T>, weight: T -> int, k: string, v: T)
    requires k !in m
    ensures Total(m[k := v], weight) == weight(v) + Total(m, weight) && |m[k := v]| == |m| + 1
  {
    hide Total;
    PutAndTaken(m, k, v);
    TotalSplit(m[k := v], weight, k);
  }

  lemma PutAndTaken<T(!new)>(m: map<string, T>, k: string, v: T)
    requires k !in m
    ensures m[k := v] - {k} == m && |m[k := v]| == |m| + 1
  {
    assert m[k := v].Keys == m.Keys + {k};
  }

  lemma Smaller<T>(m: map<string, T>, k: string)
    requires k in m
    ensures |m - {k}| == |m| - 1
  {
    assert m.Keys == (m - {k}).Keys + {k};
  }

  lemma TotalOfNothing<T(!new)>(weight: T -> int)
    ensures Total(map[], weight) == 0
  {
  }

  lemma {:induction false} TotalNotNegative<T(!new)>(m: map<string, T>, weight: T -> int)
    requires forall k | k in m :: weight(m[k]) >= 0
    ensures Total(m, weight) >= 0
    decreases |m|
  {
    if m == map[] {
    } else {
      TotalNotNegative(m - {PickKey(m)}, weight);
    }
  }

  /** Part of the entries, and none of it older than what is missing. */
  ghost predicate Kept<T(!new)>(before: map<string, T>, after: map<string, T>, age: T -> int) {
    && (forall k | k in after :: k in before && after[k] == before[k])
    && (forall k, g | k in after && g in before && g !in after :: age(before[g]) <= age(after[k]))
  }

  /** Had one more been left, the load would not have fitted. */
  ghost predicate Needed<T(!new)>(
    before: map<string, T>, after: map<string, T>, weight: T -> int, fits: (int, int) -> bool, load: int)
  {
    after == before ||
    exists g :: g in before && g !in after && !fits(|after| + 1, load + Total(after, weight) + weight(before[g]))
  }

  lemma KeptAll<T(!new)>(m: map<string, T>, age: T -> int, weight: T -> int, fits: (int, int) -> bool, load: int)
    ensures Kept(m, m, age) && Needed(m, m, weight, fits, load)
  {
  }

  /** The oldest one goes while there is no room. */
  lemma KeptLess<T(!new)>(
    before: map<string, T>, m: map<string, T>, oldest: string, age: T -> int, weight: T -> int,
      fits: (int, int) -> bool, load: int)
    requires Kept(before, m, age) && oldest in m && forall k | k in m :: age(m[oldest]) <= age(m[k])
    requires !fits(|m|, load + Total(m, weight))
    ensures Kept(before, m - {oldest}, age) && Needed(before, m - {oldest}, weight, fits, load) && |m - {oldest}| < |m|
  {
    hide Kept, Total, Needed;
    KeptStays(before, m, oldest, age);
    Smaller(m, oldest);
    TotalSplit(m, weight, oldest);
    NeededFor(before, m - {oldest}, oldest, weight, fits, load);
  }

  lemma NeededFor<T(!new)>(
    before: map<string, T>, after: map<string, T>, g: string, weight: T -> int, fits: (int, int) -> bool, load: int)
    requires g in before && g !in after && !fits(|after| + 1, load + Total(after, weight) + weight(before[g]))
    ensures Needed(before, after, weight, fits, load)
  {
    hide Total;
  }

  lemma KeptStays<T(!new)>(before: map<string, T>, m: map<string, T>, oldest: string, age: T -> int)
    requires Kept(before, m, age) && oldest in m && forall k | k in m :: age(m[oldest]) <= age(m[k])
    ensures Kept(before, m - {oldest}, age) && oldest in before && before[oldest] == m[oldest]
  {
  }
}

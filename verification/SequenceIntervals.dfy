/** Counting the bytes of a TCP stream that were seen, once or again
    (ops/capture-portal-tcp.py:69-81, 103-130). */
module SequenceIntervals {
  import opened Wrappers

  datatype Range = Range(left: int, right: int)

  predicate Before(a: Range, b: Range) {
    a.left < b.left || (a.left == b.left && a.right <= b.right)
  }

  predicate Sorted(s: seq<Range>) {
    forall i, j | 0 <= i < j < |s| :: Before(s[i], s[j])
  }

  /** Merged ranges: none touches or overlaps another, and they are in order. */
  predicate Separated(s: seq<Range>) {
    && (forall i | 0 <= i < |s| :: s[i].left <= s[i].right)
    && (forall i, j | 0 <= i < j < |s| :: s[i].right < s[j].left)
  }

  predicate Covers(s: seq<Range>, k: int) {
    exists i :: 0 <= i < |s| && s[i].left <= k < s[i].right
  }

  function Span(s: seq<Range>): int {
    if s == [] then 0 else s[0].right - s[0].left + Span(s[1..])
  }

  function Max(a: int, b: int): int {
    if a < b then b else a
  }

  function Min(a: int, b: int): int {
    if a < b then a else b
  }

  /** Bytes of [start, end) that a list of ranges covers, counted range by range. */
  function Overlap(s: seq<Range>, start: int, end: int): int {
    if s == [] then 0 else Max(0, Min(end, s[0].right) - Max(start, s[0].left)) + Overlap(s[1..], start, end)
  }

  // ------------------------------------------------------------------- sizes are counts

  /** The positions of a range. */
  function Positions(left: int, right: int): (p: set<int>)
    ensures forall k :: k in p <==> left <= k < right
    ensures |p| == Max(0, right - left)
    decreases Max(0, right - left)
  {
    if left >= right then {} else Positions(left, right - 1) + {right - 1}
  }

  function Seen(s: seq<Range>): set<int> {
    if s == [] then {} else Positions(s[0].left, s[0].right) + Seen(s[1..])
  }

  lemma {:induction false} SeenIsCovered(s: seq<Range>, k: int)
    ensures k in Seen(s) <==> Covers(s, k)
    decreases |s|
  {
    if s == [] {
    } else {
      SeenIsCovered(s[1..], k);
      if Covers(s[1..], k) {
        var i :| 0 <= i < |s[1..]| && s[1..][i].left <= k < s[1..][i].right;
        assert s[i + 1] == s[1..][i];
      }
      if Covers(s, k) {
        var i :| 0 <= i < |s| && s[i].left <= k < s[i].right;
        assert i > 0 ==> s[1..][i - 1] == s[i];
      }
    }
  }

  lemma DisjointSize(a: set<int>, b: set<int>)
    requires a !! b
    ensures |a + b| == |a| + |b|
  {
  }

  lemma SeparatedRest(s: seq<Range>)
    requires Separated(s) && s != []
    ensures Separated(s[1..]) && forall k | k in Seen(s[1..]) :: s[0].right < k
  {
    forall k | k in Seen(s[1..])
      ensures s[0].right < k
    {
      SeenIsCovered(s[1..], k);
    }
  }

  /** The total of separated ranges is the number of positions seen. */
  lemma {:induction false} SpanIsSize(s: seq<Range>)
    requires Separated(s)
    ensures Span(s) == |Seen(s)|
    decreases |s|
  {
    if s == [] {
    } else {
      SeparatedRest(s);
      SpanIsSize(s[1..]);
      DisjointSize(Positions(s[0].left, s[0].right), Seen(s[1..]));
    }
  }

  lemma BothSides(a: set<int>, b: set<int>, q: set<int>)
    requires a !! b
    ensures |(a + b) * q| == |a * q| + |b * q|
  {
    assert (a + b) * q == a * q + b * q;
    DisjointSize(a * q, b * q);
  }

  lemma Intersection(a: Range, start: int, end: int)
    ensures |Positions(a.left, a.right) * Positions(start, end)| == Max(0, Min(end, a.right) - Max(start, a.left))
  {
    hide Positions;
    var both := Positions(Max(start, a.left), Min(end, a.right));
    assert forall k :: k in both <==> k in Positions(a.left, a.right) && k in Positions(start, end);
    assert Positions(a.left, a.right) * Positions(start, end) == both;
  }

  /** The overlap is the number of positions seen that are seen again. */
  lemma {:induction false} OverlapIsSize(s: seq<Range>, start: int, end: int)
    requires Separated(s)
    ensures Overlap(s, start, end) == |Seen(s) * Positions(start, end)|
    decreases |s|
  {
    if s == [] {
      assert Seen(s) * Positions(start, end) == {};
    } else {
      hide Positions;
      SeparatedRest(s);
      OverlapIsSize(s[1..], start, end);
      BothSides(Positions(s[0].left, s[0].right), Seen(s[1..]), Positions(start, end));
      Intersection(s[0], start, end);
    }
  }

  // -------------------------------------------------------------------------- merging

  lemma InsertedSame(s: seq<Range>, i: nat, r: Range)
    requires i <= |s|
    ensures multiset(s[..i] + [r] + s[i..]) == multiset(s + [r])
  {
    assert s == s[..i] + s[i..];
    assert multiset(s) == multiset(s[..i]) + multiset(s[i..]);
  }

  lemma InsertedSorted(s: seq<Range>, i: nat, r: Range)
    requires i <= |s| && Sorted(s) && (i > 0 ==> Before(s[i - 1], r)) && forall k | i <= k < |s| :: Before(r, s[k])
    ensures Sorted(s[..i] + [r] + s[i..])
  {
    assert forall k | 0 <= k < i :: Before(s[k], r);
  }

  /** Puts one range where it belongs; with the rest in order this is what sorting does. */
  method InsertSorted(s: seq<Range>, r: Range) returns (t: seq<Range>)
    requires Sorted(s)
    ensures Sorted(t) && multiset(t) == multiset(s + [r])
  {
    hide Sorted;
    var i := |s|;
    while i > 0 && !Before(s[i - 1], r)
      invariant 0 <= i <= |s| && forall k | i <= k < |s| :: Before(r, s[k])
    {
      i := i - 1;
    }
    InsertedSame(s, i, r);
    InsertedSorted(s, i, r);
    t := s[..i] + [r] + s[i..];
  }

  lemma SameRanges(s: seq<Range>, t: seq<Range>, k: int)
    requires multiset(s) == multiset(t) && Covers(s, k)
    ensures Covers(t, k)
  {
    var i :| 0 <= i < |s| && s[i].left <= k < s[i].right;
    assert s[i] in multiset(s) && s[i] in multiset(t);
    var j :| 0 <= j < |t| && t[j] == s[i];
  }

  lemma CoversMore(s: seq<Range>, r: Range, k: int)
    ensures Covers(s + [r], k) <==> Covers(s, k) || r.left <= k < r.right
  {
    if Covers(s, k) {
      var i :| 0 <= i < |s| && s[i].left <= k < s[i].right;
      assert (s + [r])[i] == s[i];
    }
    assert (s + [r])[|s|] == r;
  }

  class FlowIntervals {
    var intervals: seq<Range>

    constructor ()
      ensures Valid() && intervals == []
    {
      intervals := [];
    }

    ghost predicate Valid()
      reads this
    {
      Separated(intervals)
    }

    method CountOverlap(start: int, end: int) returns (overlap: int)
      ensures overlap == Overlap(intervals, start, end)
    {
      overlap := 0;
      var i := 0;
      assert intervals[0..] == intervals;
      while i < |intervals|
        invariant 0 <= i <= |intervals|
        invariant overlap + Overlap(intervals[i..], start, end) == Overlap(intervals, start, end)
      {
        assert intervals[i..][0] == intervals[i] && intervals[i..][1..] == intervals[i + 1..];
        overlap := overlap + Max(0, Min(end, intervals[i].right) - Max(start, intervals[i].left));
        i := i + 1;
      }
    }

    /** Sorted ranges that may touch or overlap become separated ones. */
    method Merge(sorted: seq<Range>)
      requires Sorted(sorted) && forall i | 0 <= i < |sorted| :: sorted[i].left <= sorted[i].right
      modifies this
      ensures Valid() && forall k :: Covers(intervals, k) <==> Covers(sorted, k)
    {
      var merged: seq<Range> := [];
      var i := 0;
      while i < |sorted|
        invariant 0 <= i <= |sorted| && Separated(merged)
        invariant forall k :: Covers(merged, k) <==> Covers(sorted[..i], k)
        invariant merged != [] ==> i > 0 && merged[|merged| - 1].left <= sorted[i - 1].left
      {
        hide Covers, Separated;
        var r := sorted[i];
        assert sorted[..i + 1] == sorted[..i] + [r];
        assert i > 0 ==> Before(sorted[i - 1], r);
        if |merged| > 0 && r.left <= merged[|merged| - 1].right {
          var last := merged[|merged| - 1];
          Widened(merged, r, sorted[..i]);
          merged := merged[..|merged| - 1] + [Range(last.left, Max(r.right, last.right))];
        } else {
          Appended(merged, r, sorted[..i]);
          merged := merged + [r];
        }
        i := i + 1;
      }
      assert sorted[..i] == sorted;
      intervals := merged;
    }

    /** One segment: the ranges stay separated and cover exactly one range more, and its
        bytes are either new or counted as overlap. */
    method AddInterval(start: int, end: int) returns (overlap: int)
      requires Valid() && start <= end
      modifies this
      ensures Valid() && forall k :: Covers(intervals, k) <==> Covers(old(intervals), k) || start <= k < end
      ensures overlap == |Seen(old(intervals)) * Positions(start, end)|
      ensures end - start == Span(intervals) - Span(old(intervals)) + overlap
    {
      ghost var before := intervals;
      overlap := CountOverlap(start, end);
      OverlapIsSize(intervals, start, end);
      SeparatedIsSorted(intervals);
      var sorted := InsertSorted(intervals, Range(start, end));
      forall i | 0 <= i < |sorted|
        ensures sorted[i].left <= sorted[i].right
      {
        assert sorted[i] in multiset(sorted) && sorted[i] in multiset(before + [Range(start, end)]);
      }
      Merge(sorted);
      forall k
        ensures Covers(intervals, k) <==> Covers(before, k) || start <= k < end
      {
        CoversMore(before, Range(start, end), k);
        if Covers(sorted, k) {
          SameRanges(sorted, before + [Range(start, end)], k);
        }
        if Covers(before + [Range(start, end)], k) {
          SameRanges(before + [Range(start, end)], sorted, k);
        }
      }
      NewBytes(before, intervals, start, end);
    }
  }

  lemma Widened(merged: seq<Range>, r: Range, front: seq<Range>)
    requires Separated(merged) && merged != [] && r.left <= r.right
    requires merged[|merged| - 1].left <= r.left <= merged[|merged| - 1].right
    requires forall k :: Covers(merged, k) <==> Covers(front, k)
    ensures var last := merged[|merged| - 1];
            var wide := merged[..|merged| - 1] + [Range(last.left, Max(r.right, last.right))];
            Separated(wide) && forall k :: Covers(wide, k) <==> Covers(front + [r], k)
  {
    var last := merged[|merged| - 1];
    var before := merged[..|merged| - 1];
    var t := Range(last.left, Max(r.right, last.right));
    assert merged == before + [last];
    forall k
      ensures Covers(before + [t], k) <==> Covers(front + [r], k)
    {
      CoversMore(front, r, k);
      CoversMore(before, t, k);
      CoversMore(before, last, k);
    }
  }

  lemma Appended(merged: seq<Range>, r: Range, front: seq<Range>)
    requires Separated(merged) && r.left <= r.right && (merged != [] ==> merged[|merged| - 1].right < r.left)
    requires forall k :: Covers(merged, k) <==> Covers(front, k)
    ensures Separated(merged + [r]) && forall k :: Covers(merged + [r], k) <==> Covers(front + [r], k)
  {
    forall k
      ensures Covers(merged + [r], k) <==> Covers(front + [r], k)
    {
      CoversMore(front, r, k);
      CoversMore(merged, r, k);
    }
  }

  lemma SeparatedIsSorted(s: seq<Range>)
    requires Separated(s)
    ensures Sorted(s)
  {
  }

  lemma NewBytes(before: seq<Range>, after: seq<Range>, start: int, end: int)
    requires Separated(before) && Separated(after) && start <= end
    requires forall k :: Covers(after, k) <==> Covers(before, k) || start <= k < end
    ensures end - start == Span(after) - Span(before) + |Seen(before) * Positions(start, end)|
  {
    SpanIsSize(before);
    SpanIsSize(after);
    var p, s := Positions(start, end), Seen(before);
    forall k
      ensures k in Seen(after) <==> k in s || k in p
    {
      SeenIsCovered(before, k);
      SeenIsCovered(after, k);
    }
    assert Seen(after) == s + p;
    assert s + p == s + (p - s) && p == (p * s) + (p - s) && s * p == p * s;
    DisjointSize(s, p - s);
    DisjointSize(p * s, p - s);
  }

  // ----------------------------------------------------------------------- one direction

  /** A segment of one direction: where it starts behind the SYN, and its payload. */
  datatype Segment = Segment(relative: nat, bytes: nat)

  function Observed(segments: seq<Segment>): nat {
    if segments == [] then 0 else segments[0].bytes + Observed(segments[1..])
  }

  lemma {:induction false} ObservedMore(segments: seq<Segment>, s: Segment)
    ensures Observed(segments + [s]) == Observed(segments) + s.bytes
    decreases |segments|
  {
    if segments == [] {
      assert [s][1..] == [];
    } else {
      assert (segments + [s])[1..] == segments[1..] + [s];
      ObservedMore(segments[1..], s);
    }
  }

  predicate Carries(segments: seq<Segment>, k: int) {
    exists i :: 0 <= i < |segments| && segments[i].relative <= k < segments[i].relative + segments[i].bytes
  }

  lemma CarriesMore(segments: seq<Segment>, s: Segment)
    ensures forall k :: Carries(segments + [s], k) <==> Carries(segments, k) || s.relative <= k < s.relative + s.bytes
  {
    forall k
      ensures Carries(segments + [s], k) <==> Carries(segments, k) || s.relative <= k < s.relative + s.bytes
    {
      if Carries(segments, k) {
        var j :| 0 <= j < |segments| && segments[j].relative <= k < segments[j].relative + segments[j].bytes;
        assert (segments + [s])[j] == segments[j];
      }
      assert (segments + [s])[|segments|] == s;
    }
  }

  /** A packet of one direction, in the order of arrival. */
  datatype Packet = Packet(number: int, syn: bool, bytes: nat)

  const WRAP := 0x1_0000_0000

  /** The number of the first SYN, wherever it stands. */
  function Base(packets: seq<Packet>): Option<int> {
    if packets == [] then None else if packets[0].syn then Some(packets[0].number) else Base(packets[1..])
  }

  /** Numbers wrap at 32 bits, so a position is counted from the base. */
  function Relative(number: int, base: int): nat {
    (number - base) % WRAP
  }

  function Segments(packets: seq<Packet>, base: int): seq<Segment> {
    if packets == [] then []
    else
      var last := packets[|packets| - 1];
      Segments(packets[..|packets| - 1], base)
        + if last.bytes > 0 then [Segment(Relative(last.number, base), last.bytes)] else []
  }

  method FindBase(packets: seq<Packet>) returns (base: Option<int>)
    ensures base == Base(packets)
  {
    var i := 0;
    while i < |packets|
      invariant 0 <= i <= |packets| && Base(packets) == Base(packets[i..])
    {
      assert packets[i..][1..] == packets[i + 1..];
      if packets[i].syn {
        return Some(packets[i].number);
      }
      i := i + 1;
    }
    base := None;
  }

  /** Every byte observed is either unique or an overlap, and the unique ones are the
      positions that some packet carried.  Without a SYN nothing is counted. */
  method FlowBytes(packets: seq<Packet>) returns (observed: nat, unique: int, overlap: int, ghost seen: seq<Range>)
    ensures observed == unique + overlap && overlap >= 0
    ensures Base(packets).None? ==> observed == 0 && unique == 0
    ensures Base(packets).Some? ==>
              var segments := Segments(packets, Base(packets).value);
              && observed == Observed(segments) && unique == |Seen(seen)|
              && Separated(seen) && forall k :: Covers(seen, k) <==> Carries(segments, k)
  {
    var flow := new FlowIntervals();
    observed, overlap := 0, 0;
    var found := FindBase(packets);
    if found.None? {
      return 0, 0, 0, [];
    }
    var base := found.value;
    var i := 0;
    NothingAccounted();
    hide Accounted, Segments, Separated, Covers, Carries, Seen, Positions, Span, Observed;
    assert packets[..0] == [];
    while i < |packets|
      invariant 0 <= i <= |packets| && flow.Valid() && fresh(flow)
      invariant Accounted(flow.intervals, observed, overlap, Segments(packets[..i], base))
    {
      SegmentsMore(packets, base, i);
      if packets[i].bytes > 0 {
        var s := Segment(Relative(packets[i].number, base), packets[i].bytes);
        observed, overlap := AddSegment(flow, s, observed, overlap, Segments(packets[..i], base));
      }
      i := i + 1;
    }
    assert packets[..i] == packets;
    AllAccounted(flow.intervals, observed, overlap, Segments(packets, base));
    unique, seen := Span(flow.intervals), flow.intervals;
  }

  method AddSegment(flow: FlowIntervals, s: Segment, observed: nat, overlap: int, ghost segments: seq<Segment>)
    returns (observed': nat, overlap': int)
    requires flow.Valid() && Accounted(flow.intervals, observed, overlap, segments)
    modifies flow
    ensures flow.Valid() && Accounted(flow.intervals, observed', overlap', segments + [s])
  {
    ghost var before := flow.intervals;
    var again := flow.AddInterval(s.relative, s.relative + s.bytes);
    AccountMore(before, flow.intervals, observed, overlap, again, segments, s);
    observed', overlap' := observed + s.bytes, overlap + again;
  }

  lemma NothingAccounted()
    ensures Accounted([], 0, 0, []) && forall base :: Segments([], base) == []
  {
  }

  lemma AllAccounted(intervals: seq<Range>, observed: int, overlap: int, segments: seq<Segment>)
    requires Accounted(intervals, observed, overlap, segments) && Separated(intervals)
    ensures observed == Span(intervals) + overlap && overlap >= 0 && observed == Observed(segments)
    ensures Span(intervals) == |Seen(intervals)| && forall k :: Covers(intervals, k) <==> Carries(segments, k)
  {
    SpanIsSize(intervals);
  }

  /** What the counters say of the segments so far. */
  ghost predicate Accounted(intervals: seq<Range>, observed: int, overlap: int, segments: seq<Segment>) {
    && overlap >= 0 && observed == Observed(segments) && observed == Span(intervals) + overlap
    && forall k :: Covers(intervals, k) <==> Carries(segments, k)
  }

  lemma SegmentsMore(packets: seq<Packet>, base: int, i: nat)
    requires i < |packets|
    ensures Segments(packets[..i + 1], base)
         == Segments(packets[..i], base)
            + if packets[i].bytes > 0 then [Segment(Relative(packets[i].number, base), packets[i].bytes)] else []
    ensures Segments(packets[..i], base) + [] == Segments(packets[..i], base)
  {
    assert packets[..i + 1][..i] == packets[..i];
  }

  lemma AccountMore(before: seq<Range>, after: seq<Range>, observed: int, overlap: int, again: int,
      segments: seq<Segment>, s: Segment)
    requires Accounted(before, observed, overlap, segments) && again >= 0
    requires forall k :: Covers(after, k) <==> Covers(before, k) || s.relative <= k < s.relative + s.bytes
    requires s.bytes == Span(after) - Span(before) + again
    ensures Accounted(after, observed + s.bytes, overlap + again, segments + [s])
  {
    ObservedMore(segments, s);
    CarriesMore(segments, s);
    hide Covers, Carries, Span, Observed;
  }
}

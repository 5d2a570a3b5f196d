/** The transcript of a run: the coverage sweep and the merge of batch rows in src/twin/bots/runtime.py, and
    ingestion and annotation in src/twin/bots/service.py. */
module Transcript {
  import opened Common

  // ----- coverage, as it is meant

  predicate Hit(live: seq<Segment>, t: int) {
    exists s | s in live :: s.start <= t < s.end
  }

  /** The milliseconds of the candidate that lie in some live segment. */
  ghost function CoveredMs(candidate: Segment, live: seq<Segment>): set<int> {
    set t | candidate.start <= t < candidate.end && Hit(live, t)
  }

  /** Covered for at least a quarter of its length, taken as one millisecond at least. */
  ghost predicate Covered(candidate: Segment, live: seq<Segment>) {
    4 * |CoveredMs(candidate, live)| >= Max(1, candidate.end - candidate.start)
  }

  predicate Within(a: int, t: int, b: int) {
    a <= t < b
  }

  ghost function Span(a: int, b: int): set<int> {
    set t | a <= t < b && Within(a, t, b)
  }

  lemma {:induction false} SpanSize(a: int, b: int)
    requires a <= b
    ensures |Span(a, b)| == b - a
    decreases b - a
  {
    if a < b {
      SpanSize(a, b - 1);
      assert Span(a, b) == Span(a, b - 1) + {b - 1};
    } else {
      assert Span(a, b) == {};
    }
  }

  lemma SubsetSize(a: set<int>, b: set<int>)
    requires a <= b
    ensures |a| <= |b|
  {
    assert b == a + (b - a);
  }

  /** Coverage depends only on which live segments there are, never exceeds the duration, grows with the live
      segments, and a segment of positive length covers itself whole. */
  lemma CoverageLaws(candidate: Segment, live: seq<Segment>, more: seq<Segment>)
    requires forall s | s in live :: s in more
    ensures |CoveredMs(candidate, live)| <= Max(0, candidate.end - candidate.start)
    ensures |CoveredMs(candidate, live)| <= |CoveredMs(candidate, more)|
    ensures Covered(candidate, live) ==> Covered(candidate, more)
    ensures (forall s | s in more :: s in live) ==> CoveredMs(candidate, live) == CoveredMs(candidate, more)
    ensures (exists s | s in live :: s.start == candidate.start && s.end == candidate.end)
            ==> |CoveredMs(candidate, live)| == Max(0, candidate.end - candidate.start)
  {
    var whole := Span(candidate.start, candidate.end);
    if candidate.start < candidate.end {
      SpanSize(candidate.start, candidate.end);
    } else {
      assert whole == {};
    }
    SubsetSize(CoveredMs(candidate, live), whole);
    SubsetSize(CoveredMs(candidate, live), CoveredMs(candidate, more));
    if exists s | s in live :: s.start == candidate.start && s.end == candidate.end {
      assert CoveredMs(candidate, live) == whole;
    }
  }

  /** The threshold is a quarter: a segment four times as long as what live rows have of it is covered, and one
      that is any longer is not. */
  lemma QuarterIsEnough(start: int, shared: nat, extra: nat)
    requires 0 < shared
    ensures var live := [Segment("live", start - 1000, start + shared, None)];
            Covered(Segment("batch", start, start + 4 * shared + extra, None), live) <==> extra == 0
  {
    var live := [Segment("live", start - 1000, start + shared, None)];
    var s := Segment("batch", start, start + 4 * shared + extra, None);
    SpanSize(start, start + shared);
    forall t ensures t in CoveredMs(s, live) <==> t in Span(start, start + shared) {
      assert live[0] in live;
    }
    assert CoveredMs(s, live) == Span(start, start + shared);
  }

  // ----- coverage, as the source computes it

  function InsertByStart(s: Segment, sorted: seq<Segment>): seq<Segment> {
    if sorted == [] || s.start < sorted[0].start then [s] + sorted
    else [sorted[0]] + InsertByStart(s, sorted[1..])
  }

  /** The stable sort by start. */
  function SortByStart(live: seq<Segment>): seq<Segment> {
    if live == [] then [] else InsertByStart(live[|live| - 1], SortByStart(live[..|live| - 1]))
  }

  ghost predicate StartsAscend(xs: seq<Segment>) {
    forall i, j | 0 <= i < j < |xs| :: xs[i].start <= xs[j].start
  }

  lemma {:induction false} InsertSorts(s: Segment, sorted: seq<Segment>)
    requires StartsAscend(sorted)
    ensures StartsAscend(InsertByStart(s, sorted))
    ensures forall x :: x in InsertByStart(s, sorted) <==> x == s || x in sorted
  {
    if sorted == [] || s.start < sorted[0].start {
    } else {
      InsertSorts(s, sorted[1..]);
      var rest := InsertByStart(s, sorted[1..]);
      assert forall x :: x in sorted <==> x == sorted[0] || x in sorted[1..];
      assert forall x | x in sorted[1..] :: sorted[0].start <= x.start;
      assert forall i | 0 <= i < |rest| :: rest[i] in rest;
      assert InsertByStart(s, sorted) == [sorted[0]] + rest;
    }
  }

  lemma {:induction false} SortSorts(live: seq<Segment>)
    ensures StartsAscend(SortByStart(live))
    ensures forall x :: x in SortByStart(live) <==> x in live
  {
    if live != [] {
      var n := |live| - 1;
      SortSorts(live[..n]);
      InsertSorts(live[n], SortByStart(live[..n]));
      assert live == live[..n] + [live[n]];
    }
  }

  /** The parts of the sorted live segments inside the candidate. */
  method ClipToCandidate(candidate: Segment, sorted: seq<Segment>) returns (ranges: seq<(int, int)>)
    requires StartsAscend(sorted)
    ensures forall r | r in ranges :: r.0 < r.1
    ensures forall i, j | 0 <= i < j < |ranges| :: ranges[i].0 <= ranges[j].0
    ensures forall t :: InSome(ranges, t) <==> candidate.start <= t < candidate.end && Hit(sorted, t)
  {
    ranges := [];
    for i := 0 to |sorted|
      invariant forall r | r in ranges :: r.0 < r.1
      invariant forall j, m | 0 <= j < m < |ranges| :: ranges[j].0 <= ranges[m].0
      invariant forall j | 0 <= j < |ranges| && i < |sorted| :: ranges[j].0 <= Max(candidate.start, sorted[i].start)
      invariant forall t :: InSome(ranges, t) <==> candidate.start <= t < candidate.end && Hit(sorted[..i], t)
    {
      var start := Max(candidate.start, sorted[i].start);
      var end := Min(candidate.end, sorted[i].end);
      assert sorted[..i + 1] == sorted[..i] + [sorted[i]];
      HitAppend(sorted[..i], sorted[i]);
      if start < end {
        InSomeAppend(ranges, (start, end));
        ranges := ranges + [(start, end)];
      }
    }
    assert sorted[..|sorted|] == sorted;
  }

  predicate InSome(ranges: seq<(int, int)>, t: int) {
    exists r | r in ranges :: r.0 <= t < r.1
  }

  lemma HitAppend(live: seq<Segment>, s: Segment)
    ensures forall t :: Hit(live + [s], t) <==> Hit(live, t) || s.start <= t < s.end
  {
    forall t ensures Hit(live + [s], t) <==> Hit(live, t) || s.start <= t < s.end {
      assert s in live + [s];
      assert forall x | x in live :: x in live + [s];
    }
  }

  lemma InSomeAppend(ranges: seq<(int, int)>, r: (int, int))
    ensures forall t :: InSome(ranges + [r], t) <==> InSome(ranges, t) || r.0 <= t < r.1
  {
    forall t ensures InSome(ranges + [r], t) <==> InSome(ranges, t) || r.0 <= t < r.1 {
      assert r in ranges + [r];
      assert forall x | x in ranges :: x in ranges + [r];
    }
  }

  /** The points of a range after those counted so far. */
  lemma SpanAdds(closed: set<int>, start: int, end: int)
    requires start <= end && forall t | t in closed :: t < start
    ensures |closed + Span(start, end)| == |closed| + (end - start)
  {
    SpanSize(start, end);
  }

  ghost function Points(ranges: seq<(int, int)>): set<int> {
    if ranges == [] then {}
    else Points(ranges[..|ranges| - 1]) + Span(ranges[|ranges| - 1].0, ranges[|ranges| - 1].1)
  }

  lemma {:induction false} PointsAreInSome(ranges: seq<(int, int)>, t: int)
    ensures t in Points(ranges) <==> InSome(ranges, t)
  {
    if ranges != [] {
      var n := |ranges| - 1;
      PointsAreInSome(ranges[..n], t);
      InSomeAppend(ranges[..n], ranges[n]);
      assert ranges == ranges[..n] + [ranges[n]];
    }
  }

  /** The points of the first `i + 1` ranges, given those of the first `i`. */
  lemma PointsNext(ranges: seq<(int, int)>, i: nat)
    requires i < |ranges|
    ensures Points(ranges[..i + 1]) == Points(ranges[..i]) + Span(ranges[i].0, ranges[i].1)
  {
    assert ranges[..i + 1][..i] == ranges[..i];
  }

  /** The points so far: those added up already, all before `start`, and the range being merged. */
  ghost predicate Swept(points: set<int>, closed: set<int>, covered: nat, start: int, end: int) {
    covered == |closed| && start <= end && (forall t | t in closed :: t < start) && points == closed + Span(start, end)
  }

  lemma SweptMerges(points: set<int>, closed: set<int>, covered: nat, start: int, end: int, c: int, d: int)
    requires Swept(points, closed, covered, start, end) && start <= c <= end && c <= d
    ensures Swept(points + Span(c, d), closed, covered, start, Max(end, d))
  {
    assert points + Span(c, d) == closed + Span(start, Max(end, d));
  }

  lemma SweptMoves(points: set<int>, closed: set<int>, covered: nat, start: int, end: int, c: int, d: int)
    requires Swept(points, closed, covered, start, end) && end < c <= d
    ensures Swept(points + Span(c, d), points, covered + (end - start), c, d)
  {
    SpanAdds(closed, start, end);
  }

  /** The measure of a union of ranges whose starts ascend, by merging ranges that touch. */
  method MeasureUnion(ranges: seq<(int, int)>) returns (covered: nat)
    requires forall i | 0 <= i < |ranges| :: ranges[i].0 < ranges[i].1
    requires forall i, j | 0 <= i < j < |ranges| :: ranges[i].0 <= ranges[j].0
    ensures covered == |Points(ranges)|
  {
    covered := 0;
    var open, currentStart, currentEnd := false, 0, 0;
    ghost var closed: set<int> := {};
    for i := 0 to |ranges|
      invariant open <==> i > 0
      invariant open ==> currentStart <= ranges[i - 1].0
      invariant open ==> Swept(Points(ranges[..i]), closed, covered, currentStart, currentEnd)
      invariant !open ==> covered == 0 && closed == {}
    {
      var start, end := ranges[i].0, ranges[i].1;
      PointsNext(ranges, i);
      if !open {
        open, currentStart, currentEnd := true, start, end;
      } else if start <= currentEnd {
        SweptMerges(Points(ranges[..i]), closed, covered, currentStart, currentEnd, start, end);
        currentEnd := Max(currentEnd, end);
      } else {
        SweptMoves(Points(ranges[..i]), closed, covered, currentStart, currentEnd, start, end);
        closed := Points(ranges[..i]);
        covered := covered + (currentEnd - currentStart);
        currentStart, currentEnd := start, end;
      }
    }
    assert ranges[..|ranges|] == ranges;
    if open {
      SpanAdds(closed, currentStart, currentEnd);
      covered := covered + (currentEnd - currentStart);
    }
  }

  /** The sweep is the specification: it answers whether a quarter of the candidate is covered, exactly. */
  method CoveredByLive(candidate: Segment, live: seq<Segment>) returns (covered: bool)
    ensures covered == Covered(candidate, live)
  {
    var duration := Max(1, candidate.end - candidate.start);
    SortSorts(live);
    var ranges := ClipToCandidate(candidate, SortByStart(live));
    assert forall t :: Hit(SortByStart(live), t) <==> Hit(live, t);
    assert forall i | 0 <= i < |ranges| :: ranges[i] in ranges;
    var measure := MeasureUnion(ranges);
    forall t ensures t in Points(ranges) <==> InSome(ranges, t) {
      PointsAreInSome(ranges, t);
    }
    assert Points(ranges) == CoveredMs(candidate, live);
    covered := 4 * measure >= duration;
  }

  // ----- merging a batch into the transcript

  predicate SameUtterance(a: Segment, b: Segment) {
    a.start == b.start && a.end == b.end && a.text == b.text
  }

  predicate Stored(rows: seq<Segment>, s: Segment) {
    exists r | r in rows :: SameUtterance(r, s)
  }

  function Ingest(rows: seq<Segment>, s: Segment): seq<Segment> {
    if Stored(rows, s) then rows else rows + [s]
  }

  function IngestAll(rows: seq<Segment>, batch: seq<Segment>): seq<Segment> {
    if batch == [] then rows else Ingest(IngestAll(rows, batch[..|batch| - 1]), batch[|batch| - 1])
  }

  ghost function Uncovered(live: seq<Segment>, batch: seq<Segment>): seq<Segment> {
    if live == [] then batch
    else if batch == [] then []
    else
      var last := batch[|batch| - 1];
      Uncovered(live, batch[..|batch| - 1]) + if Covered(last, live) then [] else [last]
  }

  /** The merge of a batch after a live stream that delivered something. */
  ghost function Merge(rows: seq<Segment>, batch: seq<Segment>): seq<Segment> {
    IngestAll(rows, Uncovered(rows, batch))
  }

  ghost predicate DistinctUtterances(rows: seq<Segment>) {
    forall i, j | 0 <= i < j < |rows| :: !SameUtterance(rows[i], rows[j])
  }

  lemma IngestLaws(rows: seq<Segment>, s: Segment)
    ensures rows <= Ingest(rows, s) && Stored(Ingest(rows, s), s)
    ensures forall x | Stored(rows, x) :: Stored(Ingest(rows, s), x)
    ensures forall r | r in Ingest(rows, s) :: r in rows || r == s
    ensures DistinctUtterances(rows) ==> DistinctUtterances(Ingest(rows, s))
  {
    assert forall r | r in rows :: r in rows + [s];
    assert s in rows + [s];
    assert forall i | 0 <= i < |rows| :: rows[i] in rows;
  }

  /** A segment is added as it is, exactly when no row has its start, end and text; otherwise nothing changes. */
  lemma IngestAddsExactly(rows: seq<Segment>, s: Segment)
    ensures var known := exists r | r in rows :: r.start == s.start && r.end == s.end && r.text == s.text;
            Ingest(rows, s) == rows + if known then [] else [s]
  {
    assert Stored(rows, s) ==> exists r | r in rows :: SameUtterance(r, s);
    assert rows + [] == rows;
  }

  lemma {:induction false} IngestAllLaws(rows: seq<Segment>, batch: seq<Segment>)
    ensures rows <= IngestAll(rows, batch)
    ensures forall s | s in batch :: Stored(IngestAll(rows, batch), s)
    ensures forall r | r in IngestAll(rows, batch) :: r in rows || r in batch
    ensures DistinctUtterances(rows) ==> DistinctUtterances(IngestAll(rows, batch))
  {
    if batch != [] {
      var n := |batch| - 1;
      IngestAllLaws(rows, batch[..n]);
      IngestLaws(IngestAll(rows, batch[..n]), batch[n]);
      assert batch == batch[..n] + [batch[n]];
    }
  }

  lemma {:induction false} IngestStoredAgain(rows: seq<Segment>, batch: seq<Segment>)
    requires forall i | 0 <= i < |batch| :: Stored(rows, batch[i])
    ensures IngestAll(rows, batch) == rows
  {
    if batch != [] {
      IngestStoredAgain(rows, batch[..|batch| - 1]);
    }
  }

  lemma {:induction false} UncoveredElements(live: seq<Segment>, batch: seq<Segment>)
    ensures forall s :: s in Uncovered(live, batch) <==> s in batch && (live == [] || !Covered(s, live))
  {
    if live != [] && batch != [] {
      var n := |batch| - 1;
      UncoveredElements(live, batch[..n]);
      assert batch == batch[..n] + [batch[n]];
    }
  }

  /** Merging loses and alters no row, adds only batch rows, leaves every batch row either stored or covered for
      at least a quarter by the rows that were there, and never stores an utterance twice. */
  lemma MergeKeepsAndStores(rows: seq<Segment>, batch: seq<Segment>)
    ensures rows <= Merge(rows, batch)
    ensures forall r | r in Merge(rows, batch) :: r in rows || r in batch
    ensures forall s | s in batch :: Stored(Merge(rows, batch), s) || Covered(s, rows)
    ensures DistinctUtterances(rows) ==> DistinctUtterances(Merge(rows, batch))
  {
    IngestAllLaws(rows, Uncovered(rows, batch));
    UncoveredElements(rows, batch);
  }

  /** A second merge of the same batch adds nothing. */
  lemma MergeIsIdempotent(rows: seq<Segment>, batch: seq<Segment>)
    ensures Merge(Merge(rows, batch), batch) == Merge(rows, batch)
  {
    var merged := Merge(rows, batch);
    MergeKeepsAndStores(rows, batch);
    UncoveredElements(merged, batch);
    forall s | s in Uncovered(merged, batch) ensures Stored(merged, s) {
      CoverageLaws(s, rows, merged);
    }
    var again := Uncovered(merged, batch);
    assert forall i | 0 <= i < |again| :: again[i] in again;
    IngestStoredAgain(merged, again);
  }

  // ----- one row per time range

  predicate Overlap(a: Segment, b: Segment) {
    Max(a.start, b.start) < Min(a.end, b.end)
  }

  /** No two rows share a millisecond. */
  ghost predicate OneRowPerRange(rows: seq<Segment>) {
    forall i, j | 0 <= i < j < |rows| :: !Overlap(rows[i], rows[j])
  }

  lemma OverlapIsCoverage(s: Segment, rows: seq<Segment>)
    ensures CoveredMs(s, rows) == {} <==> forall r | r in rows :: !Overlap(r, s)
  {
    if r :| r in rows && Overlap(r, s) {
      assert Max(r.start, s.start) in CoveredMs(s, rows);
    }
  }

  /** The merge would add this batch row: it is not covered and its utterance is not stored. */
  ghost predicate Wanted(rows: seq<Segment>, batch: seq<Segment>, s: Segment) {
    s in batch && !Covered(s, rows) && !Stored(rows, s)
  }

  /** `added` is one row for each utterance of the batch that is not stored. */
  ghost predicate AddsOnceEach(rows: seq<Segment>, batch: seq<Segment>, added: seq<Segment>) {
    && (forall r | r in added :: r in batch && !Stored(rows, r))
    && (forall s | s in batch && !Stored(rows, s) :: Stored(added, s))
    && DistinctUtterances(added)
  }

  lemma {:induction false} IngestAllAdds(rows: seq<Segment>, batch: seq<Segment>) returns (added: seq<Segment>)
    ensures IngestAll(rows, batch) == rows + added && AddsOnceEach(rows, batch, added)
  {
    if batch == [] {
      added := [];
    } else {
      var n := |batch| - 1;
      var before := IngestAllAdds(rows, batch[..n]);
      added := if Stored(rows, batch[n]) then before else Ingest(before, batch[n]);
      assert IngestAll(rows, batch) == rows + added by {
        IngestBehind(rows, before, batch[n]);
      }
      assert AddsOnceEach(rows, batch, added) by {
        assert batch == batch[..n] + [batch[n]];
        AddsOneMore(rows, batch[..n], batch[n], batch, before);
      }
    }
  }

  lemma IngestBehind(rows: seq<Segment>, added: seq<Segment>, s: Segment)
    ensures Ingest(rows + added, s) == rows + if Stored(rows, s) then added else Ingest(added, s)
  {
    assert forall r :: r in rows + added <==> r in rows || r in added;
    assert rows + added + [s] == rows + (added + [s]);
  }

  lemma AddsOneMore(rows: seq<Segment>, batch: seq<Segment>, s: Segment, longer: seq<Segment>, added: seq<Segment>)
    requires AddsOnceEach(rows, batch, added)
    requires forall x :: x in longer <==> x in batch || x == s
    ensures AddsOnceEach(rows, longer, if Stored(rows, s) then added else Ingest(added, s))
  {
    if !Stored(rows, s) {
      IngestLaws(added, s);
    }
  }

  /** What the merge adds overlaps no row that was there, exactly when every batch row is stored, covered, or
      touches none of them. */
  lemma AddedRowsApartExactly(rows: seq<Segment>, batch: seq<Segment>)
    ensures rows <= Merge(rows, batch)
    ensures (forall r | r in Merge(rows, batch)[|rows|..] :: CoveredMs(r, rows) == {})
            <==> (forall s | s in batch :: Stored(rows, s) || Covered(s, rows) || CoveredMs(s, rows) == {})
  {
    var added := MergeAdds(rows, batch);
    assert Merge(rows, batch)[|rows|..] == added;
    WantedAreAdded(rows, batch, added);
  }

  /** `added` is what the merge adds: the wanted batch rows, one for each utterance. */
  ghost predicate IsAdded(rows: seq<Segment>, batch: seq<Segment>, added: seq<Segment>) {
    && (forall r | r in added :: Wanted(rows, batch, r))
    && (forall s | Wanted(rows, batch, s) :: Stored(added, s))
    && DistinctUtterances(added)
  }

  lemma WantedAreAdded(rows: seq<Segment>, batch: seq<Segment>, added: seq<Segment>)
    requires IsAdded(rows, batch, added)
    ensures (forall r | r in added :: CoveredMs(r, rows) == {})
            <==> (forall s | Wanted(rows, batch, s) :: CoveredMs(s, rows) == {})
  {
    if forall r | r in added :: CoveredMs(r, rows) == {} {
      forall s | Wanted(rows, batch, s) ensures CoveredMs(s, rows) == {} {
        var r :| r in added && SameUtterance(r, s);
        assert CoveredMs(r, rows) == CoveredMs(s, rows);
      }
    }
  }

  lemma MergeAdds(rows: seq<Segment>, batch: seq<Segment>) returns (added: seq<Segment>)
    ensures Merge(rows, batch) == rows + added && IsAdded(rows, batch, added)
  {
    added := IngestAllAdds(rows, Uncovered(rows, batch));
    UncoveredElements(rows, batch);
    assert rows == [] ==> forall s :: CoveredMs(s, rows) == {};
  }

  /** Exactly when a merged transcript has one row per time range: it had so before, every batch row to be added
      touches no row, and no two of them of different utterances touch each other. */
  lemma OneRowPerRangeExactly(rows: seq<Segment>, batch: seq<Segment>)
    ensures OneRowPerRange(Merge(rows, batch))
            <==> && OneRowPerRange(rows)
                 && (forall s | Wanted(rows, batch, s) :: CoveredMs(s, rows) == {})
                 && (forall s, t | Wanted(rows, batch, s) && Wanted(rows, batch, t) && Overlap(s, t) ::
                       SameUtterance(s, t))
  {
    var added := MergeAdds(rows, batch);
    WantedAreAdded(rows, batch, added);
    ApartRows(rows, added);
    ApartFromAdded(rows, added);
    WantedApart(rows, batch, added);
  }

  lemma ApartFromAdded(rows: seq<Segment>, added: seq<Segment>)
    ensures (forall r, a | r in rows && a in added :: !Overlap(r, a))
            <==> forall a | a in added :: CoveredMs(a, rows) == {}
  {
    forall a ensures CoveredMs(a, rows) == {} <==> forall r | r in rows :: !Overlap(r, a) {
      OverlapIsCoverage(a, rows);
    }
  }

  lemma WantedApart(rows: seq<Segment>, batch: seq<Segment>, added: seq<Segment>)
    requires IsAdded(rows, batch, added)
    ensures OneRowPerRange(added)
            <==> forall s, t | Wanted(rows, batch, s) && Wanted(rows, batch, t) && Overlap(s, t) :: SameUtterance(s, t)
  {
    if OneRowPerRange(added) {
      forall s, t | Wanted(rows, batch, s) && Wanted(rows, batch, t) && Overlap(s, t) ensures SameUtterance(s, t) {
        StandInsOverlap(added, s, t);
      }
    } else {
      var i, j :| 0 <= i < j < |added| && Overlap(added[i], added[j]);
      assert added[i] in added && added[j] in added;
    }
  }

  lemma StandInsOverlap(added: seq<Segment>, s: Segment, t: Segment)
    requires OneRowPerRange(added) && Stored(added, s) && Stored(added, t) && Overlap(s, t)
    ensures SameUtterance(s, t)
  {
    var i :| 0 <= i < |added| && SameUtterance(added[i], s);
    var j :| 0 <= j < |added| && SameUtterance(added[j], t);
    assert Overlap(added[i], added[j]) && Overlap(added[j], added[i]);
  }

  lemma ApartRows(rows: seq<Segment>, added: seq<Segment>)
    ensures OneRowPerRange(rows + added)
            <==> && OneRowPerRange(rows)
                 && OneRowPerRange(added)
                 && forall r, a | r in rows && a in added :: !Overlap(r, a)
  {
    var all := rows + added;
    if OneRowPerRange(all) {
      assert forall i | 0 <= i < |rows| :: all[i] == rows[i];
      assert forall j | 0 <= j < |added| :: all[|rows| + j] == added[j];
    }
  }

  /** A live row, and a batch row that reaches a little into it: both are kept. */
  lemma OverlapIsKept()
    ensures var live := [Segment("hello", 0, 1000, None)];
            var batch := [Segment("hello there", 900, 2000, None)];
            Merge(live, batch) == live + batch && OneRowPerRange(live) && !OneRowPerRange(Merge(live, batch))
  {
    var live, s := [Segment("hello", 0, 1000, None)], Segment("hello there", 900, 2000, None);
    SpanSize(900, 1000);
    SubsetSize(CoveredMs(s, live), Span(900, 1000));
    assert [s][..0] == [] && Uncovered(live, [s]) == [s];
    assert IngestAll(live, []) == live;
    assert IngestAll(live, [s]) == live + [s];
    assert Overlap((live + [s])[0], (live + [s])[1]);
  }

  // ----- the transcript over a whole run

  /** What may happen to the rows of a run. */
  datatype Edit =
    | Store(segment: Segment)
    | MergeIn(batch: seq<Segment>)
    | NameSpeakers(segments: seq<Segment>)

  ghost function Edited(rows: seq<Segment>, edits: seq<Edit>): seq<Segment> {
    if edits == [] then rows
    else
      var before := Edited(rows, edits[..|edits| - 1]);
      match edits[|edits| - 1]
      case Store(s) => Ingest(before, s)
      case MergeIn(batch) => Merge(before, batch)
      case NameSpeakers(segments) => Annotate(before, segments)
  }

  /** Every row of `before` is still in its place with its utterance and, if it had one, its speaker. */
  ghost predicate Keeps(before: seq<Segment>, after: seq<Segment>) {
    && |before| <= |after|
    && forall i | 0 <= i < |before| ::
         SameUtterance(before[i], after[i]) && (before[i].speaker.Some? ==> after[i] == before[i])
  }

  /** Over any run of stores, merges and annotations from any rows with distinct utterances, such as none, no two
      rows ever share start, end and text, and no row is lost, moved or altered but to be given a speaker. */
  lemma {:induction false} TranscriptsStayDistinct(rows: seq<Segment>, edits: seq<Edit>)
    requires DistinctUtterances(rows)
    ensures DistinctUtterances(Edited(rows, edits)) && Keeps(rows, Edited(rows, edits))
  {
    if edits != [] {
      var n := |edits| - 1;
      TranscriptsStayDistinct(rows, edits[..n]);
      var before := Edited(rows, edits[..n]);
      match edits[n]
      case Store(s) => IngestLaws(before, s);
      case MergeIn(batch) => MergeKeepsAndStores(before, batch);
      case NameSpeakers(segments) =>
        forall i | 0 <= i < |before| ensures SameUtterance(before[i], Annotate(before, segments)[i]) {
          AnnotateIsFirstMatch(before, segments, i);
        }
        forall i | 0 <= i < |before| && before[i].speaker.Some? ensures Annotate(before, segments)[i] == before[i] {
          AnnotateIsFirstMatch(before, segments, i);
        }
    }
  }

  /** The rows of one run, as the source adds to them. */
  class TranscriptRows {
    var rows: seq<Segment>

    constructor ()
      ensures rows == []
    {
      rows := [];
    }

    /** Adds the segment unless its utterance is stored; answers the row that has it. */
    method IngestSegment(s: Segment) returns (stored: Segment)
      modifies this
      ensures rows == Ingest(old(rows), s)
      ensures stored in rows && SameUtterance(stored, s)
    {
      if r :| r in rows && SameUtterance(r, s) {
        return r;
      }
      rows := rows + [s];
      return s;
    }

    method MergeBatch(batch: seq<Segment>)
      modifies this
      ensures rows == Merge(old(rows), batch)
    {
      var live := rows;
      var uncovered := UncoveredBatch(live, batch);
      for i := 0 to |uncovered|
        invariant rows == IngestAll(live, uncovered[..i])
      {
        assert uncovered[..i + 1][..i] == uncovered[..i];
        var _ := IngestSegment(uncovered[i]);
      }
      assert uncovered[..|uncovered|] == uncovered;
    }

    /** annotate_speakers: every labelled batch segment names the unlabelled rows it overlaps. */
    method AnnotateSpeakers(segments: seq<Segment>) returns (annotated: nat)
      modifies this
      ensures rows == Annotate(old(rows), segments)
      ensures annotated == Changes(old(rows), rows)
    {
      annotated := 0;
      NoChanges(rows);
      for i := 0 to |segments|
        invariant rows == Annotate(old(rows), segments[..i])
        invariant NamesOnly(old(rows), rows) && annotated == Changes(old(rows), rows)
      {
        ghost var before := rows;
        assert segments[..i + 1][..i] == segments[..i];
        if segments[i].speaker.Some? {
          var count := NameOverlapping(segments[i]);
          ChangesAdd(old(rows), before, rows);
          annotated := annotated + count;
        }
      }
      assert segments[..|segments|] == segments;
    }

    method NameOverlapping(s: Segment) returns (count: nat)
      requires s.speaker.Some?
      modifies this
      ensures rows == NameRows(old(rows), s)
      ensures count == Changes(old(rows), rows)
    {
      count := 0;
      var named := [];
      for i := 0 to |rows|
        invariant rows == old(rows)
        invariant named == NameRows(rows[..i], s)
        invariant count == Changes(rows[..i], named)
      {
        var row := rows[i];
        NameOneMore(rows, s, i);
        if row.speaker.None? && row.start < s.end && row.end > s.start {
          row := row.(speaker := s.speaker);
          count := count + 1;
        }
        named := named + [row];
      }
      assert rows[..|rows|] == rows;
      rows := named;
    }
  }

  method UncoveredBatch(live: seq<Segment>, batch: seq<Segment>) returns (uncovered: seq<Segment>)
    ensures uncovered == Uncovered(live, batch)
  {
    if live == [] {
      return batch;
    }
    uncovered := [];
    for i := 0 to |batch|
      invariant uncovered == Uncovered(live, batch[..i])
    {
      assert batch[..i + 1][..i] == batch[..i];
      var covered := CoveredByLive(batch[i], live);
      if !covered {
        uncovered := uncovered + [batch[i]];
      }
    }
    assert batch[..|batch|] == batch;
  }

  // ----- annotation

  predicate Names(s: Segment, row: Segment) {
    s.speaker.Some? && row.start < s.end && row.end > s.start
  }

  /** Of rows and segments that last, a labelled segment names exactly those it shares a millisecond with. */
  lemma NamesWhatItOverlaps(s: Segment, row: Segment)
    requires row.start < row.end && s.start < s.end
    ensures Names(s, row) <==> s.speaker.Some? && exists t :: Within(s.start, t, s.end) && Within(row.start, t, row.end)
  {
    var t := Max(s.start, row.start);
    assert Names(s, row) ==> Within(s.start, t, s.end) && Within(row.start, t, row.end);
  }

  function NameRow(row: Segment, s: Segment): Segment {
    if row.speaker.None? && Names(s, row) then row.(speaker := s.speaker) else row
  }

  function NameRows(rows: seq<Segment>, s: Segment): (named: seq<Segment>)
    ensures |named| == |rows|
    ensures forall i | 0 <= i < |rows| :: named[i] == NameRow(rows[i], s)
  {
    if rows == [] then [] else NameRows(rows[..|rows| - 1], s) + [NameRow(rows[|rows| - 1], s)]
  }

  function Annotate(rows: seq<Segment>, segments: seq<Segment>): (named: seq<Segment>)
    ensures |named| == |rows|
  {
    if segments == [] then rows else NameRows(Annotate(rows, segments[..|segments| - 1]), segments[|segments| - 1])
  }

  /** How many rows differ. */
  function Changes(before: seq<Segment>, after: seq<Segment>): nat
    requires |before| == |after|
  {
    if before == [] then 0
    else
      var n := |before| - 1;
      Changes(before[..n], after[..n]) + if before[n] != after[n] then 1 else 0
  }

  ghost predicate NamesOnly(before: seq<Segment>, after: seq<Segment>) {
    && |before| == |after|
    && forall i | 0 <= i < |before| :: after[i] == before[i] || (before[i].speaker.None? && after[i].speaker.Some?)
  }

  /** The speaker of the first labelled segment that overlaps the row, if there is one. */
  function FirstMatch(row: Segment, segments: seq<Segment>): Option<string> {
    if segments == [] then None
    else if Names(segments[0], row) then segments[0].speaker
    else FirstMatch(row, segments[1..])
  }

  lemma {:induction false} FirstMatchAppend(row: Segment, segments: seq<Segment>, s: Segment)
    ensures FirstMatch(row, segments + [s])
            == if FirstMatch(row, segments).Some? then FirstMatch(row, segments)
               else if Names(s, row) then s.speaker else None
  {
    if segments == [] {
      assert [] + [s] == [s];
    } else {
      FirstMatchAppend(row, segments[1..], s);
      assert (segments + [s])[1..] == segments[1..] + [s];
    }
  }

  /** The nested loops label each unlabelled row with its first match and leave the others alone. */
  lemma {:induction false} AnnotateIsFirstMatch(rows: seq<Segment>, segments: seq<Segment>, i: nat)
    requires i < |rows|
    ensures Annotate(rows, segments)[i]
            == if rows[i].speaker.None? then rows[i].(speaker := FirstMatch(rows[i], segments)) else rows[i]
  {
    if segments != [] {
      var n := |segments| - 1;
      AnnotateIsFirstMatch(rows, segments[..n], i);
      FirstMatchAppend(rows[i], segments[..n], segments[n]);
      assert segments == segments[..n] + [segments[n]];
    }
  }

  /** Annotating again changes nothing. */
  lemma AnnotateIsIdempotent(rows: seq<Segment>, segments: seq<Segment>)
    ensures Annotate(Annotate(rows, segments), segments) == Annotate(rows, segments)
  {
    var once := Annotate(rows, segments);
    forall i | 0 <= i < |rows| ensures Annotate(once, segments)[i] == once[i] {
      AnnotateIsFirstMatch(rows, segments, i);
      AnnotateIsFirstMatch(once, segments, i);
      SameMatch(rows[i], once[i], segments);
    }
  }

  lemma {:induction false} SameMatch(a: Segment, b: Segment, segments: seq<Segment>)
    requires a.start == b.start && a.end == b.end
    ensures FirstMatch(a, segments) == FirstMatch(b, segments)
  {
    if segments != [] {
      SameMatch(a, b, segments[1..]);
    }
  }

  lemma NameOneMore(rows: seq<Segment>, s: Segment, i: nat)
    requires i < |rows|
    ensures NameRows(rows[..i + 1], s) == NameRows(rows[..i], s) + [NameRow(rows[i], s)]
    ensures Changes(rows[..i + 1], NameRows(rows[..i], s) + [NameRow(rows[i], s)])
            == Changes(rows[..i], NameRows(rows[..i], s)) + if NameRow(rows[i], s) != rows[i] then 1 else 0
  {
    assert rows[..i + 1][..i] == rows[..i];
    assert (NameRows(rows[..i], s) + [NameRow(rows[i], s)])[..i] == NameRows(rows[..i], s);
  }

  lemma {:induction false} NoChanges(a: seq<Segment>)
    ensures Changes(a, a) == 0
  {
    if a != [] {
      NoChanges(a[..|a| - 1]);
    }
  }

  lemma {:induction false} ChangesAdd(a: seq<Segment>, b: seq<Segment>, c: seq<Segment>)
    requires NamesOnly(a, b) && NamesOnly(b, c)
    ensures Changes(a, c) == Changes(a, b) + Changes(b, c)
  {
    if a != [] {
      var n := |a| - 1;
      ChangesAdd(a[..n], b[..n], c[..n]);
    }
  }
}

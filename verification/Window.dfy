/** How the sender picks rows: the query window of run_once, _group_by_stream and _ready_deliveries in
    src/twin/webhooks/dispatch.py. */
module Window {
  import opened Common
  import opened Delivery

  const SEND_BATCH: nat := 50

  predicate Candidate(row: Row) {
    row.status in {Pending, Retry, Dead}
  }

  /** The query's sort key without its last component, the row's opaque id: ties may fall either way. */
  predicate SortsBefore(a: Row, b: Row) {
    a.sequence < b.sequence || (a.sequence == b.sequence && a.nextTryAt <= b.nextTryAt)
  }

  /** `window` is a possible answer to the query: the first `limit` candidates in sort order. */
  ghost predicate IsWindow(rows: map<nat, Row>, window: seq<nat>, limit: nat) {
    && NoDuplicates(window)
    && |window| <= limit
    && (forall id | id in window :: id in rows && Candidate(rows[id]))
    && (forall i, j | 0 <= i < j < |window| :: SortsBefore(rows[window[i]], rows[window[j]]))
    && (forall id | id in rows && Candidate(rows[id]) && id !in window ::
          |window| == limit && forall w | w in window :: SortsBefore(rows[w], rows[id]))
  }

  ghost predicate Listed(rows: map<nat, Row>, items: seq<nat>) {
    forall id | id in items :: id in rows
  }

  /** Least sequence of its stream among the listed rows. */
  ghost predicate IsHead(rows: map<nat, Row>, items: seq<nat>, id: nat)
    requires Listed(rows, items)
  {
    && id in items
    && forall j | j in items && rows[j].stream == rows[id].stream :: rows[id].sequence <= rows[j].sequence
  }

  ghost predicate Due(row: Row, moment: real) {
    Sendable(row.status) && row.nextTryAt <= moment
  }

  /** What _ready_deliveries answers: exactly the due stream heads, each once. */
  ghost predicate IsReady(rows: map<nat, Row>, items: seq<nat>, moment: real, ready: seq<nat>)
    requires Listed(rows, items)
  {
    && NoDuplicates(ready)
    && forall id :: id in ready <==> IsHead(rows, items, id) && Due(rows[id], moment)
  }

  ghost predicate DistinctSequences(rows: map<nat, Row>) {
    forall i, j | i in rows && j in rows && i != j && rows[i].stream == rows[j].stream ::
      rows[i].sequence != rows[j].sequence
  }

  /** The true head of a stream: no pending, retry or dead row of it anywhere in the table has a lower sequence. */
  ghost predicate IsStreamHead(rows: map<nat, Row>, id: nat) {
    && id in rows
    && Candidate(rows[id])
    && forall j | j in rows && j != id && Candidate(rows[j]) && rows[j].stream == rows[id].stream ::
         rows[id].sequence < rows[j].sequence
  }

  lemma CandidateOrSettled(row: Row)
    ensures Candidate(row) <==> row.status !in {Sent, Skipped}
  {
    match row.status
    case Pending =>
    case Retry =>
    case Sent =>
    case Dead =>
    case Skipped =>
  }

  /** However small the batch, the ready rows of a window are true stream heads, at most one per stream; and
      a due true head is missed only when the batch was full. */
  lemma WindowShowsHeads(rows: map<nat, Row>, window: seq<nat>, limit: nat, moment: real, ready: seq<nat>)
    requires DistinctSequences(rows) && IsWindow(rows, window, limit) && IsReady(rows, window, moment, ready)
    ensures forall id | id in ready :: IsStreamHead(rows, id)
    ensures forall id | id in ready ::
              && id in rows && rows[id].status in {Pending, Retry} && rows[id].nextTryAt <= moment
              && forall j | j in rows && rows[j].stream == rows[id].stream && j != id ::
                   rows[j].status in {Sent, Skipped} || rows[id].sequence < rows[j].sequence
    ensures forall i, j | i in ready && j in ready && rows[i].stream == rows[j].stream :: i == j
    ensures forall id | id in rows && rows[id].status in {Pending, Retry} && rows[id].nextTryAt <= moment ::
              || id in ready
              || |window| == limit
              || exists j | j in rows && rows[j].stream == rows[id].stream ::
                   rows[j].sequence < rows[id].sequence && rows[j].status !in {Sent, Skipped}
  {
    forall id | id in ready
      ensures IsStreamHead(rows, id)
      ensures rows[id].status in {Pending, Retry} && rows[id].nextTryAt <= moment
      ensures forall j | j in rows && rows[j].stream == rows[id].stream && j != id ::
                rows[j].status in {Sent, Skipped} || rows[id].sequence < rows[j].sequence
    {
      assert IsHead(rows, window, id);
      forall j | j in rows && j != id && rows[j].stream == rows[id].stream
        ensures rows[j].status in {Sent, Skipped} || rows[id].sequence < rows[j].sequence
      {
        CandidateOrSettled(rows[j]);
        assert rows[id].sequence != rows[j].sequence;
        if Candidate(rows[j]) && j !in window {
          assert SortsBefore(rows[id], rows[j]);
        }
      }
    }
    forall id | id in rows && rows[id].status in {Pending, Retry} && rows[id].nextTryAt <= moment && id !in ready
      ensures || |window| == limit
              || exists j | j in rows && rows[j].stream == rows[id].stream ::
                   rows[j].sequence < rows[id].sequence && rows[j].status !in {Sent, Skipped}
    {
      assert id in window ==> !IsHead(rows, window, id);
      forall j | j in window ensures rows[j].status !in {Sent, Skipped} {
        CandidateOrSettled(rows[j]);
      }
    }
  }

  lemma {:induction false} HasFirst(rows: map<nat, Row>, ids: set<nat>) returns (first: nat)
    requires ids != {} && ids <= rows.Keys
    ensures first in ids && forall id | id in ids :: SortsBefore(rows[first], rows[id])
    decreases ids
  {
    var x :| x in ids;
    if ids == {x} {
      first := x;
    } else {
      first := HasFirst(rows, ids - {x});
      if !SortsBefore(rows[first], rows[x]) {
        first := x;
      }
    }
  }

  /** The query always has an answer. */
  lemma {:induction false} HasWindow(rows: map<nat, Row>, limit: nat) returns (window: seq<nat>)
    ensures IsWindow(rows, window, limit)
  {
    window := [];
    if limit > 0 {
      window := HasWindow(rows, limit - 1);
      var left := set id | id in rows && Candidate(rows[id]) && id !in window;
      if left != {} {
        var first := HasFirst(rows, left);
        assert |window| == limit - 1 by {
          assert first in left;
        }
        window := window + [first];
      } else {
        assert forall id | id in rows && Candidate(rows[id]) :: id in left || id in window;
      }
    }
  }

  // ----- the loops of the source

  function OfStream(rows: map<nat, Row>, items: seq<nat>, k: Stream): seq<nat> {
    if items == [] then []
    else
      var id := items[|items| - 1];
      OfStream(rows, items[..|items| - 1], k) + if id in rows && rows[id].stream == k then [id] else []
  }

  function SequenceOf(rows: map<nat, Row>, id: nat): nat {
    if id in rows then rows[id].sequence else 0
  }

  function InsertBySequence(rows: map<nat, Row>, ids: seq<nat>, id: nat): seq<nat> {
    if ids == [] || SequenceOf(rows, id) < SequenceOf(rows, ids[0]) then [id] + ids
    else [ids[0]] + InsertBySequence(rows, ids[1..], id)
  }

  /** The stable sort of one group by sequence. */
  function SortBySequence(rows: map<nat, Row>, ids: seq<nat>): seq<nat> {
    if ids == [] then [] else InsertBySequence(rows, SortBySequence(rows, ids[..|ids| - 1]), ids[|ids| - 1])
  }

  ghost predicate InSequence(rows: map<nat, Row>, ids: seq<nat>) {
    forall i, j | 0 <= i < j < |ids| :: SequenceOf(rows, ids[i]) <= SequenceOf(rows, ids[j])
  }

  lemma {:induction false} InsertSorts(rows: map<nat, Row>, ids: seq<nat>, id: nat)
    requires InSequence(rows, ids)
    ensures InSequence(rows, InsertBySequence(rows, ids, id))
    ensures forall x :: x in InsertBySequence(rows, ids, id) <==> x in ids || x == id
  {
    if ids == [] || SequenceOf(rows, id) < SequenceOf(rows, ids[0]) {
    } else {
      InsertSorts(rows, ids[1..], id);
      var rest := InsertBySequence(rows, ids[1..], id);
      assert forall x :: x in ids <==> x == ids[0] || x in ids[1..];
      assert forall i | 0 <= i < |rest| :: rest[i] in rest;
    }
  }

  lemma {:induction false} SortSorts(rows: map<nat, Row>, ids: seq<nat>)
    ensures InSequence(rows, SortBySequence(rows, ids))
    ensures forall x :: x in SortBySequence(rows, ids) <==> x in ids
  {
    if ids != [] {
      var n := |ids| - 1;
      SortSorts(rows, ids[..n]);
      InsertSorts(rows, SortBySequence(rows, ids[..n]), ids[n]);
      assert ids == ids[..n] + [ids[n]];
    }
  }

  lemma {:induction false} OfStreamElements(rows: map<nat, Row>, items: seq<nat>, k: Stream)
    requires Listed(rows, items)
    ensures forall id :: id in OfStream(rows, items, k) <==> id in items && rows[id].stream == k
  {
    if items != [] {
      OfStreamElements(rows, items[..|items| - 1], k);
    }
  }

  /** Fills the dictionary of streams, in order of first appearance. */
  method CollectStreams(rows: map<nat, Row>, items: seq<nat>)
    returns (order: seq<Stream>, groups: map<Stream, seq<nat>>)
    requires Listed(rows, items)
    ensures NoDuplicates(order)
    ensures forall k :: k in groups <==> k in order
    ensures forall k | k in order :: groups[k] == OfStream(rows, items, k) != []
    ensures forall k | k !in order :: OfStream(rows, items, k) == []
  {
    order, groups := [], map[];
    for i := 0 to |items|
      invariant NoDuplicates(order)
      invariant forall k :: k in groups <==> k in order
      invariant forall k | k in order :: groups[k] == OfStream(rows, items[..i], k) != []
      invariant forall k | k !in order :: OfStream(rows, items[..i], k) == []
    {
      var key := rows[items[i]].stream;
      OfStreamSteps(rows, items, i);
      if key !in groups {
        groups := groups[key := []];
        order := order + [key];
      }
      groups := groups[key := groups[key] + [items[i]]];
    }
    assert items[..|items|] == items;
  }

  lemma OfStreamSteps(rows: map<nat, Row>, items: seq<nat>, i: nat)
    requires Listed(rows, items) && i < |items|
    ensures forall k :: OfStream(rows, items[..i + 1], k)
                        == OfStream(rows, items[..i], k) + if rows[items[i]].stream == k then [items[i]] else []
  {
    assert items[..i + 1][..i] == items[..i];
  }

  /** The streams of the listed rows, each with its rows in sequence. */
  ghost predicate Grouped(rows: map<nat, Row>, items: seq<nat>, order: seq<Stream>, groups: map<Stream, seq<nat>>) {
    && NoDuplicates(order)
    && (forall k :: k in order <==> OfStream(rows, items, k) != [])
    && (forall k | k in order :: k in groups && groups[k] == SortBySequence(rows, OfStream(rows, items, k)))
  }

  method GroupByStream(rows: map<nat, Row>, items: seq<nat>) returns (order: seq<Stream>, groups: map<Stream, seq<nat>>)
    requires Listed(rows, items)
    ensures Grouped(rows, items, order, groups)
  {
    order, groups := CollectStreams(rows, items);
    for i := 0 to |order|
      invariant forall k :: k in groups <==> k in order
      invariant forall j | 0 <= j < i :: groups[order[j]] == SortBySequence(rows, OfStream(rows, items, order[j]))
      invariant forall j | i <= j < |order| :: groups[order[j]] == OfStream(rows, items, order[j])
    {
      assert order[i] in order;
      groups := groups[order[i] := SortBySequence(rows, groups[order[i]])];
    }
  }

  method ReadyDeliveries(rows: map<nat, Row>, items: seq<nat>, moment: real) returns (ready: seq<nat>)
    requires Listed(rows, items) && DistinctSequences(rows)
    ensures IsReady(rows, items, moment, ready)
  {
    var order, groups := GroupByStream(rows, items);
    ghost var heads := HeadsOfGroups(rows, items, order, groups);
    ready := DueHeads(rows, order, groups, moment, heads);
  }

  /** The loop over the groups: the head of each, when it is due. */
  method DueHeads(rows: map<nat, Row>, order: seq<Stream>, groups: map<Stream, seq<nat>>, moment: real,
                  ghost heads: seq<nat>)
    returns (ready: seq<nat>)
    requires |heads| == |order| && NoDuplicates(heads)
    requires forall i | 0 <= i < |order| ::
               order[i] in groups && groups[order[i]] != [] && groups[order[i]][0] == heads[i]
    requires forall i | 0 <= i < |heads| :: heads[i] in rows
    ensures NoDuplicates(ready)
    ensures forall id :: id in ready <==> id in heads && id in rows && Due(rows[id], moment)
  {
    ready := [];
    for i := 0 to |order|
      invariant NoDuplicates(ready)
      invariant forall id :: id in ready <==> id in heads[..i] && id in rows && Due(rows[id], moment)
    {
      var group := groups[order[i]];
      assert heads[..i + 1] == heads[..i] + [heads[i]];
      if Sendable(rows[group[0]].status) && rows[group[0]].nextTryAt <= moment {
        ready := ready + [group[0]];
      }
    }
    assert heads[..|order|] == heads;
  }

  lemma HeadsOfGroups(rows: map<nat, Row>, items: seq<nat>, order: seq<Stream>, groups: map<Stream, seq<nat>>)
    returns (heads: seq<nat>)
    requires Listed(rows, items) && DistinctSequences(rows) && Grouped(rows, items, order, groups)
    ensures |heads| == |order| && NoDuplicates(heads)
    ensures forall i | 0 <= i < |order| :: groups[order[i]] != [] && groups[order[i]][0] == heads[i] && heads[i] in rows
    ensures forall id :: id in heads <==> IsHead(rows, items, id)
  {
    forall i | 0 <= i < |order|
      ensures groups[order[i]] != [] && IsHead(rows, items, groups[order[i]][0])
      ensures rows[groups[order[i]][0]].stream == order[i]
    {
      assert order[i] in order;
      HeadOfGroup(rows, items, order[i]);
    }
    heads := seq(|order|, j requires 0 <= j < |order| => groups[order[j]][0]);
    forall id | IsHead(rows, items, id) ensures id in heads {
      HeadOfItsGroup(rows, items, id);
      var j :| 0 <= j < |order| && order[j] == rows[id].stream;
      assert heads[j] == id;
    }
  }

  lemma HeadOfGroup(rows: map<nat, Row>, items: seq<nat>, k: Stream)
    requires Listed(rows, items) && OfStream(rows, items, k) != []
    ensures var group := SortBySequence(rows, OfStream(rows, items, k));
            group != [] && IsHead(rows, items, group[0]) && rows[group[0]].stream == k
  {
    OfStreamElements(rows, items, k);
    var ids := OfStream(rows, items, k);
    SortSorts(rows, ids);
    var group := SortBySequence(rows, ids);
    assert ids[0] in group;
    assert group[0] in ids;
    forall j | j in items && rows[j].stream == k ensures rows[group[0]].sequence <= rows[j].sequence {
      assert j in group;
    }
  }

  lemma HeadOfItsGroup(rows: map<nat, Row>, items: seq<nat>, id: nat)
    requires Listed(rows, items) && DistinctSequences(rows) && IsHead(rows, items, id)
    ensures var ids := OfStream(rows, items, rows[id].stream);
            ids != [] && SortBySequence(rows, ids) != [] && SortBySequence(rows, ids)[0] == id
  {
    var k := rows[id].stream;
    OfStreamElements(rows, items, k);
    assert id in OfStream(rows, items, k);
    HeadOfGroup(rows, items, k);
  }
}

/** The order in which events of one stream reach its subscriber. */
module Ordering {
  import opened Delivery
  import opened Window
  import opened Protocol

  /** Every row of the stream created before `id` and still in the table is sent or skipped. */
  ghost predicate Ahead(t: Table, k: Stream, id: nat) {
    forall j | j in t.rows && j < id && t.rows[j].stream == k :: Settled(t.rows[j].status)
  }

  /** Some sender may still start a POST of the row: it is on its list, or leased and not yet posted. */
  ghost predicate ArmedBy(s: State, i: nat, id: nat) {
    i in s.senders && (id in s.senders[i].todo || (Flying(s, i) && !FlightOf(s, i).posted && FlightOf(s, i).row == id))
  }

  predicate Belongs(t: Table, k: Stream, id: nat) {
    id < |t.births| && t.births[id].stream == k
  }

  ghost predicate InOrder(s: State, k: Stream) {
    forall i: nat, id: nat | ArmedBy(s, i, id) && Belongs(s.table, k, id) :: Ahead(s.table, k, id)
  }

  /** The operator replays a row of the stream only while it is unsettled (ADR 0006 speaks of dead rows). */
  predicate CarefulStep(s: State, step: Step, k: Stream) {
    step.ReplayRow? && step.row in s.table.rows && s.table.rows[step.row].stream == k ==>
      !Settled(s.table.rows[step.row].status)
  }

  ghost predicate CarefulRun(steps: seq<Step>, k: Stream) {
    forall n | 0 <= n < |steps| :: CarefulStep(Run(INIT, steps[..n]), steps[n], k)
  }

  lemma ArmedSteps(s: State, step: Step, i: nat, id: nat)
    requires ArmedBy(Apply(s, step), i, id)
    ensures ArmedBy(s, i, id) || (step.Poll? && Enabled(s, step) && step.sender == i && id in step.ready)
  {
    var u := Apply(s, step);
    if id in u.senders[i].todo {
      TodoSteps(s, step, i, id);
    } else {
      FlightSteps(s, step, i);
    }
  }

  /** A sent or skipped row stays so until it is purged, unless it is replayed. */
  lemma SettledStays(s: State, step: Step, j: nat)
    requires Inv(s) && j in s.table.rows && j in Apply(s, step).table.rows
    requires Settled(s.table.rows[j].status) && !(step.ReplayRow? && step.row == j)
    ensures Settled(Apply(s, step).table.rows[j].status)
  {
    RowSteps(s, step, j);
    assert s.table.rows[j].leaseToken.None?;
  }

  /** Polled rows are stream heads, so nothing before them is outstanding. */
  lemma PolledIsAhead(s: State, step: Step, k: Stream, id: nat)
    requires Inv(s) && step.Poll? && Enabled(s, step) && id in step.ready && Belongs(s.table, k, id)
    ensures Ahead(s.table, k, id)
  {
    WindowShowsHeads(s.table.rows, step.window, SEND_BATCH, step.moment, step.ready);
    assert IsStreamHead(s.table.rows, id);
  }

  lemma AheadStays(s: State, step: Step, k: Stream, id: nat)
    requires Inv(s) && id < |s.table.births| && Ahead(s.table, k, id) && CarefulStep(s, step, k)
    ensures Ahead(Apply(s, step).table, k, id)
  {
    TableSteps(s, step);
    var u := Apply(s, step);
    forall j | j in u.table.rows && j < id && u.table.rows[j].stream == k ensures Settled(u.table.rows[j].status) {
      SettledStays(s, step, j);
    }
  }

  lemma InOrderKept(s: State, step: Step, k: Stream)
    requires Inv(s) && InOrder(s, k) && CarefulStep(s, step, k)
    ensures InOrder(Apply(s, step), k)
  {
    TableSteps(s, step);
    var u := Apply(s, step);
    forall i: nat, id: nat | ArmedBy(u, i, id) && Belongs(u.table, k, id) ensures Ahead(u.table, k, id) {
      ArmedSteps(s, step, i, id);
      if ArmedBy(s, i, id) {
        assert id < |s.table.births|;
        assert Belongs(s.table, k, id);
      } else {
        assert IsHead(s.table.rows, step.window, id);
        PolledIsAhead(s, step, k, id);
      }
      AheadStays(s, step, k, id);
    }
  }

  lemma CarefulPrefix(steps: seq<Step>, k: Stream)
    requires steps != [] && CarefulRun(steps, k)
    ensures CarefulRun(steps[..|steps| - 1], k)
    ensures CarefulStep(Run(INIT, steps[..|steps| - 1]), steps[|steps| - 1], k)
  {
    var before := steps[..|steps| - 1];
    forall n | 0 <= n < |before| ensures CarefulStep(Run(INIT, before[..n]), before[n], k) {
      assert before[..n] == steps[..n];
    }
  }

  lemma {:induction false} InOrderAlways(steps: seq<Step>, k: Stream)
    requires CarefulRun(steps, k)
    ensures InOrder(Run(INIT, steps), k)
  {
    if steps != [] {
      var before := steps[..|steps| - 1];
      CarefulPrefix(steps, k);
      InOrderAlways(before, k);
      InvAlways(before);
      InOrderKept(Run(INIT, before), steps[|steps| - 1], k);
    }
  }

  /** Ordered delivery: whenever a POST of a row may start, every row of its stream created earlier and still
      in the table is skipped, or sent and acknowledged by its receiver; while the row itself is still there, so
      is every row of its stream with a lower sequence. Holds over every interleaving in which the stream's
      settled rows are not replayed. */
  lemma OrderedDelivery(steps: seq<Step>, i: nat, k: Stream)
    requires CarefulRun(steps, k)
    requires Enabled(Run(INIT, steps), Post(i))
    requires Belongs(Run(INIT, steps).table, k, FlightOf(Run(INIT, steps), i).row)
    ensures var t, id := Run(INIT, steps).table, FlightOf(Run(INIT, steps), i).row;
            && Ahead(t, k, id)
            && (forall j | j in t.rows && j < id && t.rows[j].stream == k && t.rows[j].status == Sent ::
                  j in Run(INIT, steps).acknowledged)
            && (id in t.rows ==> forall j | j in t.rows && t.rows[j].stream == k
                                           && t.rows[j].sequence < t.rows[id].sequence :: Settled(t.rows[j].status))
  {
    InvAlways(steps);
    InOrderAlways(steps, k);
    var s := Run(INIT, steps);
    assert ArmedBy(s, i, FlightOf(s, i).row);
    if FlightOf(s, i).row in s.table.rows {
      SequenceIsCreation(s.table, k, FlightOf(s, i).row);
    }
  }

  lemma SequenceIsCreation(t: Table, k: Stream, id: nat)
    requires WellFormed(t) && id in t.rows && t.rows[id].stream == k
    ensures forall j | j in t.rows && t.rows[j].stream == k && t.rows[j].sequence < t.rows[id].sequence :: j < id
  {
  }
}

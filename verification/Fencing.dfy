/** Lease tokens fence stale attempts: what runs of the outbox protocol promise about who may write a row. */
module Fencing {
  import opened Delivery
  import opened Protocol

  /** An issued token that no longer is (and, as shown below, never again will be) the row's lease. */
  ghost predicate Fenced(s: State, id: nat, token: nat) {
    token < s.nextToken && !HoldsLease(s.table.rows, id, token)
  }

  lemma FencedKept(s: State, step: Step, id: nat, token: nat)
    requires Inv(s) && Fenced(s, id, token)
    ensures Fenced(Apply(s, step), id, token)
  {
    if HoldsLease(Apply(s, step).table.rows, id, token) {
      LeaseSteps(s, step, id);
    }
  }

  /** A token that lost its row never gets it back, whatever happens next. */
  lemma {:induction false} FencedForever(s: State, steps: seq<Step>, id: nat, token: nat)
    requires Inv(s) && Fenced(s, id, token)
    ensures Inv(Run(s, steps)) && Fenced(Run(s, steps), id, token)
  {
    if steps != [] {
      FencedForever(s, steps[..|steps| - 1], id, token);
      InvKept(Run(s, steps[..|steps| - 1]), steps[|steps| - 1]);
      FencedKept(Run(s, steps[..|steps| - 1]), steps[|steps| - 1], id, token);
    }
  }

  /** Whatever changes a leased row (a take-over, a recorded outcome, a skip, a replay) fences its token. */
  lemma ChangeFences(s: State, step: Step, id: nat, token: nat)
    requires Inv(s) && HoldsLease(s.table.rows, id, token)
    requires id !in Apply(s, step).table.rows || Apply(s, step).table.rows[id] != s.table.rows[id]
    ensures Fenced(Apply(s, step), id, token)
  {
    RowSteps(s, step, id);
  }

  /** From any reachable state and through any continuation, an attempt whose token is fenced writes nothing. */
  lemma FencedAttemptIsInert(before: seq<Step>, after: seq<Step>, i: nat, reply: Reply, now: real, jitter: real)
    requires Flying(Run(INIT, before), i)
    requires var f := FlightOf(Run(INIT, before), i);
             Fenced(Run(INIT, before), f.row, f.token)
    requires Flying(Run(Run(INIT, before), after), i)
    requires FlightOf(Run(Run(INIT, before), after), i).token == FlightOf(Run(INIT, before), i).token
    requires FlightOf(Run(Run(INIT, before), after), i).row == FlightOf(Run(INIT, before), i).row
    ensures Apply(Run(Run(INIT, before), after), Finish(i, reply, now, jitter)).table
            == Run(Run(INIT, before), after).table
  {
    InvAlways(before);
    var f := FlightOf(Run(INIT, before), i);
    FencedForever(Run(INIT, before), after, f.row, f.token);
  }

  /** Of two attempts in flight on one row, at least one is fenced for the rest of the run. */
  lemma OneWriterPerRow(before: seq<Step>, after: seq<Step>, i: nat, j: nat)
    requires Flying(Run(INIT, before), i) && Flying(Run(INIT, before), j) && i != j
    requires FlightOf(Run(INIT, before), i).row == FlightOf(Run(INIT, before), j).row
    ensures var s, id := Run(INIT, before), FlightOf(Run(INIT, before), i).row;
            || Fenced(Run(s, after), id, FlightOf(s, i).token)
            || Fenced(Run(s, after), id, FlightOf(s, j).token)
  {
    InvAlways(before);
    var s, id := Run(INIT, before), FlightOf(Run(INIT, before), i).row;
    if HoldsLease(s.table.rows, id, FlightOf(s, i).token) {
      FencedForever(s, after, id, FlightOf(s, j).token);
    } else {
      FencedForever(s, after, id, FlightOf(s, i).token);
    }
  }

  /** In every reachable state only a row still to be sent carries a lease; attempts are bounded by ten plus
      the replays of the row; a row waiting to be retried has failed at least once and fewer than ten times;
      and a row never replayed has at most ten outcomes recorded, the tenth of which settles or kills it. */
  lemma RetriesAreBounded(steps: seq<Step>, id: nat)
    requires id in Run(INIT, steps).table.rows
    ensures var s := Run(INIT, steps);
            var row := s.table.rows[id];
            && (row.leaseToken.Some? ==> Sendable(row.status))
            && row.attempts <= MAX_ATTEMPTS + s.replayed[id]
            && (row.status == Retry ==> 1 <= row.attempts < MAX_ATTEMPTS)
            && (s.replayed[id] == 0 ==> s.recorded[id] <= MAX_ATTEMPTS)
            && (s.replayed[id] == 0 && s.recorded[id] == MAX_ATTEMPTS ==> !Sendable(row.status))
  {
    InvAlways(steps);
    var s := Run(INIT, steps);
    assert CountsAgree(s.table.rows[id], s.replayed[id], s.recorded[id]);
  }
}

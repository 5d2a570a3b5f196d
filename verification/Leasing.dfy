/** When an attempt on a row is granted, when a row is picked again after a failure, and what a recorded outcome
    makes of it: the timing of the outbox protocol, in clock values, reply codes and statuses. */
module Leasing {
  import opened Common
  import opened Delivery
  import opened Window
  import opened Protocol

  // ----- leases exclude

  /** The step starts an attempt on the row. */
  ghost predicate Grants(s: State, step: Step, id: nat) {
    && step.Begin? && !Flying(s, step.sender)
    && Flying(Apply(s, step), step.sender) && FlightOf(Apply(s, step), step.sender).row == id
  }

  /** The step records an outcome of the row, replays it or skips it. */
  ghost predicate Clears(s: State, step: Step, id: nat) {
    Recorded(s, step, id) || ((step.ReplayRow? || step.SkipRow?) && step.row == id)
  }

  ghost predicate GrantedAt(steps: seq<Step>, id: nat, n: nat) {
    n < |steps| && Grants(Run(INIT, steps[..n]), steps[n], id)
  }

  ghost predicate ClearedAt(steps: seq<Step>, id: nat, n: nat) {
    n < |steps| && Clears(Run(INIT, steps[..n]), steps[n], id)
  }

  /** Step `n` started an attempt on the row, and nothing has cleared the row since. */
  ghost predicate Standing(steps: seq<Step>, id: nat, n: nat) {
    GrantedAt(steps, id, n) && forall m: nat | n < m < |steps| :: !ClearedAt(steps, id, m)
  }

  /** The row has no lease, or that of the latest standing grant. */
  ghost predicate LeaseStands(steps: seq<Step>, id: nat) {
    var rows := Run(INIT, steps).table.rows;
    id in rows && rows[id].leaseExpiresAt.Some? ==>
      exists n: nat :: Standing(steps, id, n) && rows[id].leaseExpiresAt.value == steps[n].now + 120.0
  }

  ghost predicate LeasedUntil(t: Table, id: nat, at: real) {
    id in t.rows && t.rows[id].leaseExpiresAt.Some? && at <= t.rows[id].leaseExpiresAt.value
  }

  /** The row's lease outlasts every standing grant. */
  ghost predicate LeaseOutlasts(steps: seq<Step>, id: nat) {
    forall n: nat | Standing(steps, id, n) :: LeasedUntil(Run(INIT, steps).table, id, steps[n].now + 120.0)
  }

  lemma AtPrefix(steps: seq<Step>, id: nat, n: nat, m: nat)
    requires n < m <= |steps|
    ensures GrantedAt(steps[..m], id, n) == GrantedAt(steps, id, n)
    ensures ClearedAt(steps[..m], id, n) == ClearedAt(steps, id, n)
  {
    assert steps[..m][..n] == steps[..n];
  }

  lemma StandingBefore(steps: seq<Step>, id: nat, n: nat)
    requires steps != [] && n < |steps| - 1
    ensures var last := |steps| - 1;
            Standing(steps, id, n) <==> Standing(steps[..last], id, n) && !ClearedAt(steps, id, last)
  {
    var last := |steps| - 1;
    AtPrefix(steps, id, n, last);
    forall m: nat | n < m < last ensures ClearedAt(steps[..last], id, m) == ClearedAt(steps, id, m) {
      AtPrefix(steps, id, m, last);
    }
  }

  /** A grant sets the row's lease, and comes only when the one before is over. */
  lemma GrantSets(s: State, step: Step, id: nat)
    requires Inv(s) && Grants(s, step, id)
    ensures id in s.table.rows && id in Apply(s, step).table.rows
    ensures Apply(s, step).table.rows[id].leaseExpiresAt == Some(step.now + 120.0)
    ensures s.table.rows[id].leaseExpiresAt.Some? ==> s.table.rows[id].leaseExpiresAt.value <= step.now
  {
    GrantIsLease(s, step, id);
    RowSteps(s, step, id);
  }

  lemma ClearUnsets(s: State, step: Step, id: nat)
    requires Inv(s) && Clears(s, step, id) && id in Apply(s, step).table.rows
    ensures Apply(s, step).table.rows[id].leaseExpiresAt.None?
  {
    if id in s.table.rows {
      RowSteps(s, step, id);
    } else {
      NewRowSteps(s, step, id);
    }
  }

  lemma OthersKeepLease(s: State, step: Step, id: nat)
    requires Inv(s) && LeasedSendable(s) && !Grants(s, step, id) && !Clears(s, step, id)
    ensures var rows, after := s.table.rows, Apply(s, step).table.rows;
            if id in after then
              after[id].leaseExpiresAt == if id in rows then rows[id].leaseExpiresAt else None
            else
              id in rows ==> rows[id].leaseExpiresAt.None?
  {
    if id in s.table.rows {
      GrantIsLease(s, step, id);
      RowSteps(s, step, id);
    } else if id in Apply(s, step).table.rows {
      NewRowSteps(s, step, id);
    }
  }

  lemma GrantIsLease(s: State, step: Step, id: nat)
    ensures Grants(s, step, id)
            <==> step.Begin? && Choosing(s, step.sender) && s.senders[step.sender].todo[0] == id
                 && CanLease(s.table.rows, id, step.now)
  {
  }

  /** Only rows still to be sent have a lease that may expire. */
  ghost predicate LeasedSendable(s: State) {
    forall id | id in s.table.rows :: s.table.rows[id].leaseExpiresAt.Some? ==> Sendable(s.table.rows[id].status)
  }

  lemma LeasedSendableKept(s: State, step: Step)
    requires Inv(s) && LeasedSendable(s)
    ensures LeasedSendable(Apply(s, step))
  {
    var u := Apply(s, step);
    forall id | id in u.table.rows ensures u.table.rows[id].leaseExpiresAt.Some? ==> Sendable(u.table.rows[id].status) {
      if id in s.table.rows {
        RowSteps(s, step, id);
      } else {
        NewRowSteps(s, step, id);
      }
    }
  }

  lemma {:induction false} LeasedSendableAlways(steps: seq<Step>)
    ensures LeasedSendable(Run(INIT, steps))
  {
    if steps != [] {
      LeasedSendableAlways(steps[..|steps| - 1]);
      InvAlways(steps[..|steps| - 1]);
      LeasedSendableKept(Run(INIT, steps[..|steps| - 1]), steps[|steps| - 1]);
    }
  }

  lemma {:induction false} LeaseTells(steps: seq<Step>, id: nat)
    ensures LeaseStands(steps, id) && LeaseOutlasts(steps, id)
  {
    if steps != [] {
      var last := |steps| - 1;
      LeaseTells(steps[..last], id);
      InvAlways(steps[..last]);
      LeasedSendableAlways(steps[..last]);
      LeaseOutlastsOn(steps, id);
      LeaseStandsOn(steps, id);
    }
  }

  lemma LeaseOutlastsOn(steps: seq<Step>, id: nat)
    requires steps != [] && LeaseOutlasts(steps[..|steps| - 1], id)
    requires Inv(Run(INIT, steps[..|steps| - 1])) && LeasedSendable(Run(INIT, steps[..|steps| - 1]))
    ensures LeaseOutlasts(steps, id)
  {
    var last := |steps| - 1;
    var s := Run(INIT, steps[..last]);
    forall n: nat | Standing(steps, id, n) ensures LeasedUntil(Run(INIT, steps).table, id, steps[n].now + 120.0) {
      if n < last {
        StandingBefore(steps, id, n);
        LeasedOn(s, steps[last], id, steps[n].now + 120.0);
      } else {
        GrantSets(s, steps[last], id);
      }
    }
  }

  lemma LeasedOn(s: State, step: Step, id: nat, at: real)
    requires Inv(s) && LeasedSendable(s) && LeasedUntil(s.table, id, at) && !Clears(s, step, id)
    ensures LeasedUntil(Apply(s, step).table, id, at)
  {
    if Grants(s, step, id) {
      GrantSets(s, step, id);
    } else {
      OthersKeepLease(s, step, id);
    }
  }

  lemma LeaseStandsOn(steps: seq<Step>, id: nat)
    requires steps != [] && LeaseStands(steps[..|steps| - 1], id)
    requires Inv(Run(INIT, steps[..|steps| - 1])) && LeasedSendable(Run(INIT, steps[..|steps| - 1]))
    ensures LeaseStands(steps, id)
  {
    var last := |steps| - 1;
    var s, rows := Run(INIT, steps[..last]), Run(INIT, steps).table.rows;
    if id in rows && rows[id].leaseExpiresAt.Some? {
      if Grants(s, steps[last], id) {
        GrantSets(s, steps[last], id);
        assert Standing(steps, id, last);
      } else if Clears(s, steps[last], id) {
        ClearUnsets(s, steps[last], id);
      } else {
        OthersKeepLease(s, steps[last], id);
        var n: nat :| Standing(steps[..last], id, n) && rows[id].leaseExpiresAt.value == steps[..last][n].now + 120.0;
        StandingBefore(steps, id, n);
      }
    }
  }

  /** A sender whose turn has come to a row starts an attempt exactly when the row is in the table, pending or to be
      retried, and every attempt on it that was started less than 120 seconds ago has been recorded, or the row
      replayed or skipped since. */
  lemma AttemptIsGrantedExactly(steps: seq<Step>, i: nat, now: real)
    requires Choosing(Run(INIT, steps), i)
    ensures var s := Run(INIT, steps);
            var id := s.senders[i].todo[0];
            Grants(s, Begin(i, now), id)
            <==> && id in s.table.rows && s.table.rows[id].status in {Pending, Retry}
                 && forall n: nat | Standing(steps, id, n) :: steps[n].now + 120.0 <= now
  {
    var s := Run(INIT, steps);
    var id := s.senders[i].todo[0];
    LeaseTells(steps, id);
    GrantIsLease(s, Begin(i, now), id);
  }

  /** Exclusion: of two attempts started on one row with nothing recorded, replayed or skipped on it in between, the
      second comes at least 120 seconds after the first. */
  lemma AttemptsExclude(steps: seq<Step>, id: nat, n: nat, m: nat)
    requires n < m < |steps| && GrantedAt(steps, id, n) && GrantedAt(steps, id, m)
    requires forall x: nat | n < x < m :: !ClearedAt(steps, id, x)
    ensures steps[n].now + 120.0 <= steps[m].now
  {
    AtPrefix(steps, id, n, m);
    forall x: nat | n < x < m ensures !ClearedAt(steps[..m], id, x) {
      AtPrefix(steps, id, x, m);
    }
    assert Standing(steps[..m], id, n);
    GrantIsLease(Run(INIT, steps[..m]), steps[m], id);
    AttemptIsGrantedExactly(steps[..m], steps[m].sender, steps[m].now);
  }

  // ----- outcomes

  /** What a recorded outcome makes of the row, by the code of the reply: an accepted one settles it without counting
      an attempt; any other counts one, and kills the row if the code is neither 408, 429 nor a 5xx, or at the tenth
      attempt, which for a row never replayed is the tenth outcome. */
  lemma OutcomeTells(steps: seq<Step>, step: Step, id: nat)
    requires Recorded(Run(INIT, steps), step, id)
    ensures var s := Run(INIT, steps);
            var row, after := s.table.rows[id], Apply(s, step).table.rows[id];
            var gone := step.reply.NoReply?;
            var given := !gone && step.reply.code !in {408, 429} && !(500 <= step.reply.code < 600);
            && row.status in {Pending, Retry} && after.leaseToken.None? && after.leaseExpiresAt.None?
            && (after.status == Sent <==> !gone && step.reply.code < 300)
            && (after.status == Sent ==> after.attempts == row.attempts)
            && (after.status != Sent ==> after.attempts == row.attempts + 1)
            && (after.status == Dead <==> (gone || 300 <= step.reply.code) && (given || 10 <= row.attempts + 1))
            && (after.status == Retry <==> after.status !in {Sent, Dead})
            && (s.replayed[id] == 0 ==>
                  (after.status == Dead <==> (gone || 300 <= step.reply.code) && (given || s.recorded[id] == 9)))
  {
    InvAlways(steps);
    RowSteps(Run(INIT, steps), step, id);
    var s := Run(INIT, steps);
    assert CountsAgree(s.table.rows[id], s.replayed[id], s.recorded[id]);
  }

  /** A row is born due, with no attempt counted. */
  lemma BornDue(s: State, subscriptions: seq<string>, event: Event, now: real, id: nat)
    requires Inv(s)
    ensures var u := Apply(s, Emit(subscriptions, event, now));
            && |u.table.births| == |s.table.births| + |subscriptions|
            && (|s.table.births| <= id < |u.table.births| ==>
                  && id in u.table.rows && u.table.rows[id].event == event
                  && u.table.rows[id].stream == Stream(event.bot, subscriptions[id - |s.table.births|])
                  && u.table.rows[id].status == Pending && u.table.rows[id].attempts == 0
                  && u.table.rows[id].nextTryAt == now && u.table.rows[id].createdAt == now
                  && u.table.rows[id].leaseToken.None? && u.table.rows[id].leaseExpiresAt.None?)
  {
    TableSteps(s, Emit(subscriptions, event, now));
    StoreBirths(s.table, subscriptions, event, now);
    BirthsInOrder(subscriptions, event);
    var u := Apply(s, Emit(subscriptions, event, now));
    if |s.table.births| <= id < |u.table.births| {
      assert u.table.births[id] == BirthsFor(subscriptions, event)[id - |s.table.births|];
    }
  }

  lemma {:induction false} BirthsInOrder(subscriptions: seq<string>, event: Event)
    ensures |BirthsFor(subscriptions, event)| == |subscriptions|
    ensures forall i | 0 <= i < |subscriptions| ::
              BirthsFor(subscriptions, event)[i] == Birth(Stream(event.bot, subscriptions[i]), event)
  {
    if subscriptions != [] {
      BirthsInOrder(subscriptions[1..], event);
    }
  }

  /** A replay makes a row due again, whatever it was; a skipped row is never due. */
  lemma DueAgain(s: State, id: nat, now: real)
    requires id in s.table.rows
    ensures var replayed := Apply(s, ReplayRow(id, now)).table.rows[id];
            && replayed.status == Pending && replayed.nextTryAt == now && replayed.attempts == s.table.rows[id].attempts
            && replayed.leaseToken.None? && replayed.leaseExpiresAt.None?
    ensures var skipped := Apply(s, SkipRow(id, now)).table.rows[id];
            && skipped.status == Skipped && skipped.nextTryAt == now + 30.0 * 86400.0
            && skipped.attempts == s.table.rows[id].attempts
            && skipped.leaseToken.None? && skipped.leaseExpiresAt.None?
  {
  }

  /** A purge at a moment takes exactly the rows more than thirty days old that are sent, dead or skipped. */
  lemma PurgeTells(s: State, moment: real, id: nat)
    requires id in s.table.rows
    ensures var row, after := s.table.rows[id], Apply(s, PurgeRows(moment)).table.rows;
            && (id !in after <==> row.status in {Sent, Dead, Skipped} && row.createdAt < moment - 30.0 * 86400.0)
            && (id in after ==> after[id] == row)
  {
  }

  // ----- backoff

  /** Waits start at two seconds, double with every attempt, and stop growing at five minutes. */
  lemma BackoffDoubles(attempts: nat)
    requires attempts >= 1
    ensures Backoff(1) == 2 && Backoff(attempts + 1) == Min(300, 2 * Backoff(attempts))
  {
  }

  /** The Retry-After of a reply, zero when there is none or it is negative. */
  function Asked(r: Reply): int {
    if r.Reply? && r.retryAfter.Some? && r.retryAfter.value > 0 then r.retryAfter.value else 0
  }

  ghost predicate RetryAt(s: State, id: nat, at: real) {
    id in s.table.rows && s.table.rows[id].status == Retry && s.table.rows[id].nextTryAt == at
  }

  lemma RetryAtStays(s: State, step: Step, id: nat, at: real)
    requires Inv(s) && RetryAt(s, id, at) && !Clears(s, step, id)
    ensures RetryAt(Apply(s, step), id, at)
  {
    RowSteps(s, step, id);
  }

  lemma {:induction false} RetryAtKept(s: State, between: seq<Step>, id: nat, at: real)
    requires Inv(s) && RetryAt(s, id, at)
    requires forall n | 0 <= n < |between| :: !Clears(Run(s, between[..n]), between[n], id)
    ensures Inv(Run(s, between)) && RetryAt(Run(s, between), id, at)
  {
    if between != [] {
      var n := |between| - 1;
      forall m | 0 <= m < n ensures !Clears(Run(s, between[..n][..m]), between[..n][m], id) {
        assert between[..n][..m] == between[..m];
      }
      RetryAtKept(s, between[..n], id, at);
      InvKept(Run(s, between[..n]), between[n]);
      RetryAtStays(Run(s, between[..n]), between[n], id, at);
    }
  }

  lemma OutcomeWaits(steps: seq<Step>, step: Step, id: nat)
    requires Recorded(Run(INIT, steps), step, id) && Apply(Run(INIT, steps), step).table.rows[id].status == Retry
    ensures var after := Apply(Run(INIT, steps), step).table.rows[id];
            var least := Max(Backoff(after.attempts), Asked(step.reply)) as real;
            && 1 <= after.attempts && 2.0 <= least
            && step.now + least <= after.nextTryAt <= step.now + least + MinReal(1.0, least * 0.1)
  {
    InvAlways(steps);
    var s := Run(INIT, steps);
    RowSteps(s, step, id);
    var row := s.table.rows[id];
    assert !Accepted(step.reply) && !Exhausted(row.attempts + 1, step.reply);
    RetryDelayBounds(row, step.reply, step.now, step.jitter);
    Pow2Monotone(0, row.attempts);
  }

  /** An earlier row of the stream is still outstanding. */
  ghost predicate Blocked(t: Table, id: nat) {
    id in t.rows
    && exists j | j in t.rows && t.rows[j].stream == t.rows[id].stream && j < id :: t.rows[j].status !in {Sent, Skipped}
  }

  lemma PolledWhenDue(s: State, poll: Step, id: nat, at: real)
    requires Inv(s) && RetryAt(s, id, at) && poll.Poll? && Enabled(s, poll)
    ensures id in poll.ready ==> at <= poll.moment
    ensures at <= poll.moment ==> id in poll.ready || |poll.window| == 50 || Blocked(s.table, id)
  {
    WindowShowsHeads(s.table.rows, poll.window, SEND_BATCH, poll.moment, poll.ready);
  }

  /** Backoff: after an outcome recorded at some time leaves a row to be retried, and until the row gets another
      outcome, is replayed or skipped, no sender is given it earlier than the backoff for its attempts, nor than the
      reply asked for with Retry-After; and once both are over by a tenth, at most a second, any sender that polls is
      given it, unless its window is full or an earlier row of the stream is outstanding. */
  lemma BackoffIsKept(before: seq<Step>, step: Step, between: seq<Step>, poll: Step, id: nat)
    requires Recorded(Run(INIT, before), step, id)
    requires Apply(Run(INIT, before), step).table.rows[id].status == Retry
    requires var s := Apply(Run(INIT, before), step);
             && (forall n | 0 <= n < |between| :: !Clears(Run(s, between[..n]), between[n], id))
             && poll.Poll? && Enabled(Run(s, between), poll)
    ensures var s := Apply(Run(INIT, before), step);
            var least := Max(Backoff(s.table.rows[id].attempts), Asked(step.reply)) as real;
            && 2.0 <= least
            && (id in poll.ready ==> step.now + least <= poll.moment)
            && (step.now + least + MinReal(1.0, least * 0.1) <= poll.moment ==>
                  id in poll.ready || |poll.window| == 50 || Blocked(Run(s, between).table, id))
  {
    var s := Apply(Run(INIT, before), step);
    OutcomeWaits(before, step, id);
    InvAlways(before);
    InvKept(Run(INIT, before), step);
    RetryAtKept(s, between, id, s.table.rows[id].nextTryAt);
    PolledWhenDue(Run(s, between), poll, id, s.table.rows[id].nextTryAt);
  }
}

/** The outbox protocol: emitters, any number of senders, operators and the purge, interleaved one
    transaction at a time. A sender keeps its list of ready rows and its attempt in flight outside the
    database and may crash at any point. The Redis lease that senders also take is advisory: here a sender
    may pass over a row for any reason, and nothing stops two senders working on one stream. */
module Protocol {
  import opened Common
  import opened Delivery
  import opened Window

  /** An attempt whose lease was granted; `posted` once its POST has started. */
  datatype Flight = Flight(row: nat, token: nat, posted: bool)

  datatype Sender = Sender(todo: seq<nat>, flight: Option<Flight>)

  /** The database, the senders, and the history of a run: the rows whose POSTs started, in order; how often each
      row was replayed and had an outcome recorded; and the rows some receiver answered with success. */
  datatype State = State(
    table: Table,
    senders: map<nat, Sender>,
    nextToken: nat,
    posts: seq<nat>,
    replayed: multiset<nat>,
    recorded: multiset<nat>,
    acknowledged: set<nat>)

  datatype Step =
    | Emit(subscriptions: seq<string>, event: Event, now: real)
    | Poll(sender: nat, window: seq<nat>, ready: seq<nat>, moment: real)
    | Pass(sender: nat)
    | Begin(sender: nat, now: real)
    | Post(sender: nat)
    | Finish(sender: nat, reply: Reply, now: real, jitter: real)
    | Crash(sender: nat)
    | ReplayRow(row: nat, now: real)
    | SkipRow(row: nat, now: real)
    | PurgeRows(moment: real)

  const INIT := State(Table(map[], []), map[], 0, [], multiset{}, multiset{}, {})

  predicate Idle(s: State, i: nat) {
    i !in s.senders || s.senders[i] == Sender([], None)
  }

  predicate Flying(s: State, i: nat) {
    i in s.senders && s.senders[i].flight.Some?
  }

  predicate Choosing(s: State, i: nat) {
    i in s.senders && s.senders[i].flight.None? && s.senders[i].todo != []
  }

  function FlightOf(s: State, i: nat): Flight
    requires Flying(s, i)
  {
    s.senders[i].flight.value
  }

  predicate PossibleReply(rows: map<nat, Row>, f: Flight, reply: Reply, jitter: real) {
    HoldsLease(rows, f.row, f.token) && !Accepted(reply) && !Exhausted(rows[f.row].attempts + 1, reply) ==>
      JitterInRange(Delay(rows[f.row].attempts + 1, reply), jitter)
  }

  ghost predicate Enabled(s: State, step: Step) {
    match step
    case Emit(_, _, _) => true
    case Poll(i, window, ready, moment) =>
      && Idle(s, i)
      && IsWindow(s.table.rows, window, SEND_BATCH)
      && IsReady(s.table.rows, window, moment, ready)
    case Pass(i) => Choosing(s, i)
    case Begin(i, _) => Choosing(s, i)
    case Post(i) => Flying(s, i) && !FlightOf(s, i).posted
    case Finish(i, reply, _, jitter) =>
      && Flying(s, i)
      && FlightOf(s, i).posted
      && PossibleReply(s.table.rows, FlightOf(s, i), reply, jitter)
    case Crash(i) => i in s.senders
    case ReplayRow(_, _) => true
    case SkipRow(_, _) => true
    case PurgeRows(_) => true
  }

  ghost function Apply(s: State, step: Step): State
  {
    if !Enabled(s, step) then s
    else match step
      case Emit(subscriptions, event, now) => s.(table := Store(s.table, subscriptions, event, now))
      case Poll(i, _, ready, _) => s.(senders := s.senders[i := Sender(ready, None)])
      case Pass(i) => s.(senders := s.senders[i := Sender(s.senders[i].todo[1..], None)])
      case Begin(i, now) => BeginAttempt(s, i, now)
      case Post(i) =>
        var f := FlightOf(s, i);
        s.(senders := s.senders[i := s.senders[i].(flight := Some(f.(posted := true)))],
           posts := s.posts + [f.row])
      case Finish(i, reply, now, jitter) => FinishAttempt(s, i, reply, now, jitter)
      case Crash(i) => s.(senders := s.senders - {i})
      case ReplayRow(id, now) => s.(table := Replay(s.table, id, now), replayed := s.replayed + multiset{id})
      case SkipRow(id, now) => s.(table := Skip(s.table, id, now))
      case PurgeRows(moment) => s.(table := Purge(s.table, moment))
  }

  function BeginAttempt(s: State, i: nat, now: real): State
    requires Choosing(s, i)
  {
    var id, rest := s.senders[i].todo[0], s.senders[i].todo[1..];
    if CanLease(s.table.rows, id, now)
    then s.(table := Lease(s.table, id, s.nextToken, now),
            senders := s.senders[i := Sender(rest, Some(Flight(id, s.nextToken, false)))],
            nextToken := s.nextToken + 1)
    else s.(senders := s.senders[i := Sender(rest, None)])
  }

  function FinishAttempt(s: State, i: nat, reply: Reply, now: real, jitter: real): State
    requires Flying(s, i)
  {
    var f := FlightOf(s, i);
    s.(table := Record(s.table, f.row, f.token, reply, now, jitter),
       senders := s.senders[i := s.senders[i].(flight := None)],
       recorded := if HoldsLease(s.table.rows, f.row, f.token) then s.recorded + multiset{f.row} else s.recorded,
       acknowledged := if Accepted(reply) then s.acknowledged + {f.row} else s.acknowledged)
  }

  ghost function Run(s: State, steps: seq<Step>): State {
    if steps == [] then s else Apply(Run(s, steps[..|steps| - 1]), steps[|steps| - 1])
  }

  // ----- what every run keeps

  ghost predicate Known(s: State) {
    && (forall i, x | i in s.senders && x in s.senders[i].todo :: x < |s.table.births|)
    && (forall i | Flying(s, i) :: FlightOf(s, i).row < |s.table.births|)
    && (forall i | Flying(s, i) && FlightOf(s, i).posted :: FlightOf(s, i).row in s.posts)
    && (forall id | id in s.posts :: id < |s.table.births|)
  }

  /** A lease is held only by a row still to be sent, tokens are never shared, and a row's token is known to
      no attempt on another row. */
  ghost predicate Tokens(s: State) {
    && (forall id | id in s.table.rows && s.table.rows[id].leaseToken.Some? ::
          s.table.rows[id].leaseToken.value < s.nextToken && Sendable(s.table.rows[id].status))
    && (forall i | Flying(s, i) :: FlightOf(s, i).token < s.nextToken)
    && (forall i, j | Flying(s, i) && Flying(s, j) && i != j :: FlightOf(s, i).token != FlightOf(s, j).token)
    && (forall i, id | Flying(s, i) && HoldsLease(s.table.rows, id, FlightOf(s, i).token) :: id == FlightOf(s, i).row)
  }

  /** The attempt counter of row `id` against what was done to it. */
  ghost predicate CountsAgree(row: Row, replayed: nat, recorded: nat) {
    && (row.status == Retry ==> 1 <= row.attempts < MAX_ATTEMPTS)
    && row.attempts <= MAX_ATTEMPTS + replayed
    && (Sendable(row.status) ==> row.attempts < MAX_ATTEMPTS + replayed)
    && (replayed == 0 ==> recorded <= MAX_ATTEMPTS)
    && (replayed == 0 && Sendable(row.status) ==> recorded == row.attempts)
  }

  ghost predicate Counts(s: State) {
    && (forall id | id in s.table.rows :: CountsAgree(s.table.rows[id], s.replayed[id], s.recorded[id]))
    && (forall id | id in s.recorded :: id < |s.table.births|)
  }

  /** A row is marked sent only after a receiver answered one of its POSTs with success. */
  ghost predicate Honest(s: State) {
    && (forall id | id in s.table.rows && s.table.rows[id].status == Sent :: id in s.acknowledged)
    && (forall id | id in s.acknowledged :: id in s.posts)
  }

  ghost predicate Inv(s: State) {
    WellFormed(s.table) && Known(s) && Tokens(s) && Counts(s) && Honest(s)
  }

  /** No step but an emit touches anything of the table except statuses, counters, times and leases. */
  lemma TableSteps(s: State, step: Step)
    requires WellFormed(s.table)
    ensures WellFormed(Apply(s, step).table)
    ensures s.table.births <= Apply(s, step).table.births
    ensures step.Emit? ==> Extends(s.table, Apply(s, step).table, step.event, step.now)
    ensures !step.Emit? ==> SameShape(s.table, Apply(s, step).table)
  {
    if step.Emit? {
      StoreAppends(s.table, step.subscriptions, step.event, step.now);
    } else {
      ShapeSteps(s, step);
      SameShapeKeepsWellFormed(s.table, Apply(s, step).table);
    }
  }

  lemma ShapeSteps(s: State, step: Step)
    requires !step.Emit?
    ensures SameShape(s.table, Apply(s, step).table)
  {
    if Enabled(s, step) {
      match step
      case Begin(i, now) => LeaseKeepsShape(s.table, s.senders[i].todo[0], s.nextToken, now);
      case Finish(i, reply, now, jitter) =>
        RecordKeepsShape(s.table, FlightOf(s, i).row, FlightOf(s, i).token, reply, now, jitter);
      case ReplayRow(id, now) => OperatorKeepsShape(s.table, id, now);
      case SkipRow(id, now) => OperatorKeepsShape(s.table, id, now);
      case PurgeRows(moment) => PurgeKeepsShape(s.table, moment);
      case _ =>
    }
  }

  /** What a step makes of one row of the table: nothing when it purges it. */
  ghost function RowAfter(s: State, step: Step, id: nat): Option<Row>
    requires id in s.table.rows
  {
    var row := s.table.rows[id];
    match step
    case Begin(i, now) =>
      if Choosing(s, i) && s.senders[i].todo[0] == id && CanLease(s.table.rows, id, now)
      then Some(row.(leaseToken := Some(s.nextToken), leaseExpiresAt := Some(now + SEND_LEASE_TTL_S)))
      else Some(row)
    case Finish(i, reply, now, jitter) =>
      if Enabled(s, step) && FlightOf(s, i).row == id && HoldsLease(s.table.rows, id, FlightOf(s, i).token)
      then Some(AfterReply(row, reply, now, jitter)) else Some(row)
    case ReplayRow(x, now) => if x == id then Some(Unleased(row.(status := Pending, nextTryAt := now))) else Some(row)
    case SkipRow(x, now) =>
      if x == id then Some(Unleased(row.(status := Skipped, nextTryAt := now + ROW_TTL_S))) else Some(row)
    case PurgeRows(moment) => if Purgeable(row, moment) then None else Some(row)
    case _ => Some(row)
  }

  lemma RowSteps(s: State, step: Step, id: nat)
    requires WellFormed(s.table) && id in s.table.rows
    ensures var rows := Apply(s, step).table.rows;
            if id in rows then RowAfter(s, step, id) == Some(rows[id]) else RowAfter(s, step, id) == None
  {
    match step
    case Emit(_, _, _) => TableSteps(s, step);
    case Begin(_, _) => BeginRowSteps(s, step, id);
    case Finish(_, _, _, _) => FinishRowSteps(s, step, id);
    case _ =>
  }

  lemma BeginRowSteps(s: State, step: Step, id: nat)
    requires step.Begin? && id in s.table.rows
    ensures id in Apply(s, step).table.rows && RowAfter(s, step, id) == Some(Apply(s, step).table.rows[id])
  {
  }

  lemma FinishRowSteps(s: State, step: Step, id: nat)
    requires step.Finish? && id in s.table.rows
    ensures id in Apply(s, step).table.rows && RowAfter(s, step, id) == Some(Apply(s, step).table.rows[id])
  {
  }

  /** The status of a row changes only by a recorded outcome, a replay or a skip; only finished rows vanish. */
  lemma StatusSteps(s: State, step: Step, id: nat)
    requires WellFormed(s.table) && id in s.table.rows
    ensures var rows := Apply(s, step).table.rows;
            if id in rows then
              || rows[id].status == s.table.rows[id].status
              || Recorded(s, step, id)
              || (step.ReplayRow? && step.row == id && rows[id].status == Pending)
              || (step.SkipRow? && step.row == id)
            else
              !Sendable(s.table.rows[id].status)
  {
    RowSteps(s, step, id);
  }

  /** A row that was not there before was born just now. */
  lemma NewRowSteps(s: State, step: Step, id: nat)
    requires WellFormed(s.table) && id in Apply(s, step).table.rows && id !in s.table.rows
    ensures step.Emit? && |s.table.births| <= id < |Apply(s, step).table.births|
    ensures exists k, sequence :: Apply(s, step).table.rows[id] == NewRow(k, step.event, sequence, step.now)
  {
    TableSteps(s, step);
    var u := Apply(s, step);
    if step.Emit? {
      assert u.table.rows[id] == NewRow(u.table.births[id].stream, step.event, u.table.rows[id].sequence, step.now);
    }
  }

  /** A flight after a step is the one before it, perhaps posted by now, or has just been granted. */
  lemma FlightSteps(s: State, step: Step, i: nat)
    requires Flying(Apply(s, step), i)
    ensures var f := FlightOf(Apply(s, step), i);
            if Flying(s, i) then
              && f.row == FlightOf(s, i).row && f.token == FlightOf(s, i).token
              && (f.posted <==> FlightOf(s, i).posted || step == Post(i))
            else
              && step.Begin? && step.sender == i && Choosing(s, i) && CanLease(s.table.rows, f.row, step.now)
              && f == Flight(s.senders[i].todo[0], s.nextToken, false)
              && Apply(s, step).table == Lease(s.table, f.row, s.nextToken, step.now)
              && Apply(s, step).nextToken == s.nextToken + 1
  {
  }

  /** A row is on a sender's list after a step because it was before or because the sender just polled it. */
  lemma TodoSteps(s: State, step: Step, i: nat, x: nat)
    requires i in Apply(s, step).senders && x in Apply(s, step).senders[i].todo
    ensures (i in s.senders && x in s.senders[i].todo)
            || (step.Poll? && Enabled(s, step) && step.sender == i && x in step.ready)
  {
  }

  lemma KnownKept(s: State, step: Step)
    requires WellFormed(s.table) && Known(s)
    ensures Known(Apply(s, step))
  {
    TableSteps(s, step);
    var u := Apply(s, step);
    forall i, x | i in u.senders && x in u.senders[i].todo ensures x < |u.table.births| {
      TodoSteps(s, step, i, x);
      if !(i in s.senders && x in s.senders[i].todo) {
        assert IsHead(s.table.rows, step.window, x);
      }
    }
    forall i | Flying(u, i)
      ensures FlightOf(u, i).row < |u.table.births| && (FlightOf(u, i).posted ==> FlightOf(u, i).row in u.posts)
    {
      FlightSteps(s, step, i);
    }
  }

  /** A row's lease after a step was there before, or has just been granted to the row. */
  lemma LeaseSteps(s: State, step: Step, id: nat)
    requires WellFormed(s.table) && Tokens(s)
    requires id in Apply(s, step).table.rows && Apply(s, step).table.rows[id].leaseToken.Some?
    ensures var row := Apply(s, step).table.rows[id];
            && Sendable(row.status)
            && (HoldsLease(s.table.rows, id, row.leaseToken.value)
                || (step.Begin? && row.leaseToken.value == s.nextToken
                    && Choosing(s, step.sender) && s.senders[step.sender].todo[0] == id
                    && Apply(s, step).nextToken == s.nextToken + 1))
  {
    if id in s.table.rows {
      RowSteps(s, step, id);
    } else {
      NewRowSteps(s, step, id);
    }
  }

  lemma TokensKept(s: State, step: Step)
    requires WellFormed(s.table) && Tokens(s)
    ensures Tokens(Apply(s, step))
  {
    var u := Apply(s, step);
    forall id | id in u.table.rows && u.table.rows[id].leaseToken.Some?
      ensures u.table.rows[id].leaseToken.value < u.nextToken && Sendable(u.table.rows[id].status)
    {
      LeaseSteps(s, step, id);
    }
    forall i | Flying(u, i) ensures FlightOf(u, i).token < u.nextToken {
      FlightSteps(s, step, i);
    }
    forall i, j | Flying(u, i) && Flying(u, j) && i != j ensures FlightOf(u, i).token != FlightOf(u, j).token {
      FlightSteps(s, step, i);
      FlightSteps(s, step, j);
    }
    forall i, id | Flying(u, i) && HoldsLease(u.table.rows, id, FlightOf(u, i).token)
      ensures id == FlightOf(u, i).row
    {
      FlightSteps(s, step, i);
      LeaseSteps(s, step, id);
    }
  }

  lemma ReplyCounts(row: Row, replayed: nat, recorded: nat, r: Reply, now: real, jitter: real)
    requires CountsAgree(row, replayed, recorded) && Sendable(row.status)
    ensures CountsAgree(AfterReply(row, r, now, jitter), replayed, recorded + 1)
  {
  }

  lemma RowCountsKept(s: State, step: Step, id: nat)
    requires WellFormed(s.table) && Tokens(s) && Counts(s) && id in Apply(s, step).table.rows
    ensures var u := Apply(s, step);
            CountsAgree(u.table.rows[id], u.replayed[id], u.recorded[id])
  {
    TallySteps(s, step, id);
    if id !in s.table.rows {
      NewRowSteps(s, step, id);
      assert id !in s.recorded;
    } else {
      RowSteps(s, step, id);
      var row := s.table.rows[id];
      assert CountsAgree(row, s.replayed[id], s.recorded[id]);
      if Recorded(s, step, id) {
        ReplyCounts(row, s.replayed[id], s.recorded[id], step.reply, step.now, step.jitter);
      }
    }
  }

  /** The step records an outcome of the row. */
  ghost predicate Recorded(s: State, step: Step, id: nat) {
    && step.Finish? && Enabled(s, step)
    && FlightOf(s, step.sender).row == id && HoldsLease(s.table.rows, id, FlightOf(s, step.sender).token)
  }

  lemma TallySteps(s: State, step: Step, id: nat)
    ensures Apply(s, step).replayed[id] == s.replayed[id] + if step.ReplayRow? && step.row == id then 1 else 0
    ensures Apply(s, step).recorded[id] == s.recorded[id] + if Recorded(s, step, id) then 1 else 0
  {
  }

  lemma CountsKept(s: State, step: Step)
    requires WellFormed(s.table) && Tokens(s) && Counts(s)
    ensures Counts(Apply(s, step))
  {
    var u := Apply(s, step);
    forall id | id in u.table.rows ensures CountsAgree(u.table.rows[id], u.replayed[id], u.recorded[id]) {
      RowCountsKept(s, step, id);
    }
    forall id | id in u.recorded ensures id < |u.table.births| {
      TableSteps(s, step);
      TallySteps(s, step, id);
    }
  }

  lemma AcknowledgedSteps(s: State, step: Step)
    requires Known(s)
    ensures forall id | id in s.acknowledged :: id in Apply(s, step).acknowledged
    ensures forall id | id in s.posts :: id in Apply(s, step).posts
    ensures forall id | id in Apply(s, step).acknowledged :: id in s.acknowledged || id in s.posts
    ensures forall id | Recorded(s, step, id) && Accepted(step.reply) :: id in Apply(s, step).acknowledged
  {
  }

  lemma HonestKept(s: State, step: Step)
    requires WellFormed(s.table) && Known(s) && Honest(s)
    ensures Honest(Apply(s, step))
  {
    AcknowledgedSteps(s, step);
    var u := Apply(s, step);
    forall id | id in u.table.rows && u.table.rows[id].status == Sent ensures id in u.acknowledged {
      SentSteps(s, step, id);
    }
  }

  lemma SentSteps(s: State, step: Step, id: nat)
    requires WellFormed(s.table) && id in Apply(s, step).table.rows && Apply(s, step).table.rows[id].status == Sent
    ensures (id in s.table.rows && s.table.rows[id].status == Sent) || (Recorded(s, step, id) && Accepted(step.reply))
  {
    if id in s.table.rows {
      RowSteps(s, step, id);
    } else {
      NewRowSteps(s, step, id);
    }
  }

  lemma InvKept(s: State, step: Step)
    requires Inv(s)
    ensures Inv(Apply(s, step))
  {
    TableSteps(s, step);
    KnownKept(s, step);
    TokensKept(s, step);
    CountsKept(s, step);
    HonestKept(s, step);
  }

  lemma {:induction false} InvAlways(steps: seq<Step>)
    ensures Inv(Run(INIT, steps))
  {
    if steps != [] {
      InvAlways(steps[..|steps| - 1]);
      InvKept(Run(INIT, steps[..|steps| - 1]), steps[|steps| - 1]);
    }
  }
}

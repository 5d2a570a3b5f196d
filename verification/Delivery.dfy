/** The webhook outbox table and the transactions on it: src/twin/webhooks/dispatch.py and
    src/twin/api/routes/deliveries.py. Each function is what one committed transaction does to the table;
    the methods of class Outbox do it the way the source does and are proved equal to these functions. */
module Delivery {
  import opened Common
  import opened Lifecycle

  const MAX_ATTEMPTS: nat := 10
  const RETRY_BASE_S: nat := 2
  const RETRY_CAP_S: nat := 300
  const SEND_LEASE_TTL_S: real := 120.0
  const ROW_TTL_S: real := 2592000.0  // 30 days

  datatype Stream = Stream(bot: string, subscription: string)

  datatype Event =
    | StatusChanged(bot: string, status: Status)
    | SegmentStored(bot: string, segment: nat)
    | NotesCompleted(bot: string)

  datatype DeliveryStatus = Pending | Retry | Sent | Dead | Skipped

  datatype Row = Row(
    stream: Stream,
    event: Event,
    sequence: nat,
    status: DeliveryStatus,
    attempts: nat,
    nextTryAt: real,
    createdAt: real,
    leaseToken: Option<nat>,
    leaseExpiresAt: Option<real>)

  /** What every row was created as; row `i` of the table, while it exists, is birth `i`. */
  datatype Birth = Birth(stream: Stream, event: Event)

  /** The rows now in the table, keyed by creation number, and the births of all rows there ever were. */
  datatype Table = Table(rows: map<nat, Row>, births: seq<Birth>)

  predicate Settled(s: DeliveryStatus) {
    s == Sent || s == Skipped
  }

  predicate Sendable(s: DeliveryStatus) {
    s == Pending || s == Retry
  }

  /** Rows carry what they were born with, and within a stream sequence numbers follow creation. */
  ghost predicate WellFormed(t: Table) {
    && (forall i | i in t.rows :: i < |t.births| && t.rows[i].stream == t.births[i].stream
                                  && t.rows[i].event == t.births[i].event)
    && (forall i, j | i in t.rows && j in t.rows && i < j && t.rows[i].stream == t.rows[j].stream ::
          t.rows[i].sequence < t.rows[j].sequence)
  }

  /** `u` has no row `t` had not, and rows keep what they were born with. */
  ghost predicate SameShape(t: Table, u: Table) {
    && u.births == t.births
    && forall i | i in u.rows :: i in t.rows && u.rows[i].stream == t.rows[i].stream
                                 && u.rows[i].event == t.rows[i].event && u.rows[i].sequence == t.rows[i].sequence
  }

  lemma SameShapeKeepsWellFormed(t: Table, u: Table)
    requires WellFormed(t) && SameShape(t, u)
    ensures WellFormed(u)
  {
  }

  // ----- storing an event

  /** The largest sequence of the stream among rows created before `bound`, 0 when there is none. */
  function LastSequence(rows: map<nat, Row>, k: Stream, bound: nat): nat {
    if bound == 0 then 0
    else
      var below := LastSequence(rows, k, bound - 1);
      if bound - 1 in rows && rows[bound - 1].stream == k && below < rows[bound - 1].sequence
      then rows[bound - 1].sequence else below
  }

  lemma {:induction false} LastSequenceIsMaximum(rows: map<nat, Row>, k: Stream, bound: nat)
    ensures forall i | i in rows && i < bound && rows[i].stream == k ::
              rows[i].sequence <= LastSequence(rows, k, bound)
    ensures LastSequence(rows, k, bound) == 0 ||
            exists i | i in rows && i < bound :: rows[i].stream == k
                                                 && rows[i].sequence == LastSequence(rows, k, bound)
  {
    if bound > 0 {
      LastSequenceIsMaximum(rows, k, bound - 1);
    }
  }

  function NewRow(k: Stream, event: Event, sequence: nat, now: real): Row {
    Row(k, event, sequence, Pending, 0, now, now, None, None)
  }

  function StoreOne(t: Table, subscription: string, event: Event, now: real): Table {
    var k := Stream(event.bot, subscription);
    var row := NewRow(k, event, LastSequence(t.rows, k, |t.births|) + 1, now);
    Table(t.rows[|t.births| := row], t.births + [Birth(k, event)])
  }

  /** One row per subscription, all in the caller's transaction. */
  function Store(t: Table, subscriptions: seq<string>, event: Event, now: real): Table
    decreases |subscriptions|
  {
    if subscriptions == [] then t
    else Store(StoreOne(t, subscriptions[0], event, now), subscriptions[1..], event, now)
  }

  function BirthsFor(subscriptions: seq<string>, event: Event): seq<Birth> {
    if subscriptions == [] then []
    else [Birth(Stream(event.bot, subscriptions[0]), event)] + BirthsFor(subscriptions[1..], event)
  }

  lemma StoreOneKeeps(t: Table, subscription: string, event: Event, now: real)
    requires WellFormed(t)
    ensures WellFormed(StoreOne(t, subscription, event, now))
    ensures Extends(t, StoreOne(t, subscription, event, now), event, now)
  {
    LastSequenceIsMaximum(t.rows, Stream(event.bot, subscription), |t.births|);
  }

  /** The rows of `t` are untouched in `u`, and every row born since is pending, unattempted and unleased. */
  ghost predicate Extends(t: Table, u: Table, event: Event, now: real) {
    && t.births <= u.births
    && (forall i | i < |t.births| :: i in u.rows <==> i in t.rows)
    && (forall i | i in t.rows :: i in u.rows && u.rows[i] == t.rows[i])
    && (forall i | |t.births| <= i < |u.births| ::
          i in u.rows && u.rows[i] == NewRow(u.births[i].stream, event, u.rows[i].sequence, now))
  }

  lemma ExtendsTwice(t: Table, v: Table, u: Table, event: Event, now: real)
    requires Extends(t, v, event, now) && Extends(v, u, event, now)
    ensures Extends(t, u, event, now)
  {
    forall i | |t.births| <= i < |u.births|
      ensures i in u.rows && u.rows[i] == NewRow(u.births[i].stream, event, u.rows[i].sequence, now)
    {
      if i < |v.births| {
        assert u.rows[i] == v.rows[i] && u.births[i] == v.births[i];
      }
    }
  }

  /** Storing an event bears one row per subscription, in order. */
  lemma {:induction false} StoreBirths(t: Table, subscriptions: seq<string>, event: Event, now: real)
    ensures Store(t, subscriptions, event, now).births == t.births + BirthsFor(subscriptions, event)
    decreases |subscriptions|
  {
    if subscriptions == [] {
      assert t.births + [] == t.births;
    } else {
      var b, rest := Birth(Stream(event.bot, subscriptions[0]), event), BirthsFor(subscriptions[1..], event);
      StoreBirths(StoreOne(t, subscriptions[0], event, now), subscriptions[1..], event, now);
      assert t.births + [b] + rest == t.births + ([b] + rest);
    }
  }

  /** Storing keeps sequence numbers in creation order and touches no row that was there. */
  lemma {:induction false} StoreAppends(t: Table, subscriptions: seq<string>, event: Event, now: real)
    requires WellFormed(t)
    ensures WellFormed(Store(t, subscriptions, event, now))
    ensures Extends(t, Store(t, subscriptions, event, now), event, now)
    decreases |subscriptions|
  {
    if subscriptions == [] {
      assert t.births + [] == t.births;
    } else {
      var v := StoreOne(t, subscriptions[0], event, now);
      StoreOneKeeps(t, subscriptions[0], event, now);
      StoreAppends(v, subscriptions[1..], event, now);
      ExtendsTwice(t, v, Store(v, subscriptions[1..], event, now), event, now);
    }
  }

  // ----- leasing, recording and purging

  predicate CanLease(rows: map<nat, Row>, id: nat, now: real) {
    && id in rows
    && Sendable(rows[id].status)
    && !(rows[id].leaseExpiresAt.Some? && rows[id].leaseExpiresAt.value > now)
  }

  function Lease(t: Table, id: nat, token: nat, now: real): Table {
    if CanLease(t.rows, id, now)
    then t.(rows := t.rows[id := t.rows[id].(leaseToken := Some(token),
                                             leaseExpiresAt := Some(now + SEND_LEASE_TTL_S))])
    else t
  }

  /** What came back from the POST: an exception, or a status code with the parsed Retry-After header. */
  datatype Reply = NoReply | Reply(code: int, retryAfter: Option<int>)

  predicate Accepted(r: Reply) {
    r.Reply? && r.code < 300
  }

  predicate IsRetryable(r: Reply) {
    r.NoReply? || r.code in {408, 429} || 500 <= r.code <= 599
  }

  function RetryAfterSeconds(r: Reply): Option<int> {
    if r.NoReply? then None
    else match r.retryAfter
      case None => None
      case Some(v) => Some(Max(0, v))
  }

  function Pow2(n: nat): nat {
    if n == 0 then 1 else 2 * Pow2(n - 1)
  }

  /** The capped exponential part of the wait after the given number of attempts. */
  function Backoff(attempts: nat): int
    requires attempts >= 1
  {
    Min(RETRY_CAP_S, RETRY_BASE_S * Pow2(attempts - 1))
  }

  /** The wait before jitter. */
  function Delay(attempts: nat, r: Reply): int
    requires attempts >= 1
  {
    match RetryAfterSeconds(r)
    case None => Max(Backoff(attempts), 0)
    case Some(v) => Max(Backoff(attempts), v)
  }

  /** The jitter random.uniform may draw on top of a wait. */
  predicate JitterInRange(delay: int, jitter: real) {
    0.0 <= jitter <= MinReal(1.0, delay as real * 0.1)
  }

  predicate Exhausted(attempts: nat, r: Reply) {
    !IsRetryable(r) || attempts >= MAX_ATTEMPTS
  }

  function Unleased(row: Row): Row {
    row.(leaseToken := None, leaseExpiresAt := None)
  }

  function AfterReply(row: Row, r: Reply, now: real, jitter: real): Row {
    if Accepted(r) then Unleased(row.(status := Sent))
    else
      var attempts := row.attempts + 1;
      if Exhausted(attempts, r) then Unleased(row.(status := Dead, attempts := attempts))
      else Unleased(row.(status := Retry, attempts := attempts,
                         nextTryAt := now + Delay(attempts, r) as real + jitter))
  }

  predicate HoldsLease(rows: map<nat, Row>, id: nat, token: nat) {
    id in rows && rows[id].leaseToken == Some(token)
  }

  function Record(t: Table, id: nat, token: nat, r: Reply, now: real, jitter: real): Table {
    if HoldsLease(t.rows, id, token)
    then t.(rows := t.rows[id := AfterReply(t.rows[id], r, now, jitter)])
    else t
  }

  predicate Purgeable(row: Row, moment: real) {
    row.createdAt < moment - ROW_TTL_S && row.status in {Sent, Dead, Skipped}
  }

  function Purge(t: Table, moment: real): Table {
    t.(rows := map i | i in t.rows && !Purgeable(t.rows[i], moment) :: t.rows[i])
  }

  ghost function PurgeableIds(t: Table, moment: real): set<nat> {
    set i | i in t.rows && Purgeable(t.rows[i], moment)
  }

  lemma PurgeRemoves(t: Table, moment: real)
    ensures Purge(t, moment).rows == t.rows - PurgeableIds(t, moment)
  {
  }

  // ----- the operator's routes

  function Replay(t: Table, id: nat, now: real): Table {
    if id in t.rows
    then t.(rows := t.rows[id := Unleased(t.rows[id].(status := Pending, nextTryAt := now))])
    else t
  }

  function Skip(t: Table, id: nat, now: real): Table {
    if id in t.rows
    then t.(rows := t.rows[id := Unleased(t.rows[id].(status := Skipped, nextTryAt := now + ROW_TTL_S))])
    else t
  }

  /** Every transaction but a store keeps the shape of the table. */
  lemma LeaseKeepsShape(t: Table, id: nat, token: nat, now: real)
    ensures SameShape(t, Lease(t, id, token, now))
  {
  }

  lemma RecordKeepsShape(t: Table, id: nat, token: nat, r: Reply, now: real, jitter: real)
    ensures SameShape(t, Record(t, id, token, r, now, jitter))
  {
  }

  lemma PurgeKeepsShape(t: Table, moment: real)
    ensures SameShape(t, Purge(t, moment))
  {
  }

  lemma OperatorKeepsShape(t: Table, id: nat, now: real)
    ensures SameShape(t, Replay(t, id, now))
    ensures SameShape(t, Skip(t, id, now))
  {
  }

  // ----- retry arithmetic

  lemma {:induction false} Pow2Monotone(m: nat, n: nat)
    requires m <= n
    ensures 1 <= Pow2(m) <= Pow2(n)
    decreases n
  {
    if m < n {
      Pow2Monotone(m, n - 1);
    } else if 0 < n {
      Pow2Monotone(n - 1, n - 1);
    }
  }

  /** A retry comes no sooner than two seconds and no later than max(300, Retry-After) + 1 seconds after the
      failure, never sooner than a Retry-After asks (delay-seconds, section 10.2.3 of RFC 9110), and the wait
      without Retry-After never shrinks as attempts go up. */
  lemma RetryDelayBounds(row: Row, r: Reply, now: real, jitter: real)
    requires !Accepted(r) && !Exhausted(row.attempts + 1, r)
    requires JitterInRange(Delay(row.attempts + 1, r), jitter)
    ensures var wait := AfterReply(row, r, now, jitter).nextTryAt - now;
            var asked := match RetryAfterSeconds(r) case None => 0 case Some(v) => v;
            && 2.0 <= wait <= Max(RETRY_CAP_S, asked) as real + 1.0
            && asked as real <= wait
    ensures forall n: nat | 1 <= n <= row.attempts + 1 :: Backoff(n) <= Backoff(row.attempts + 1)
  {
    Pow2Monotone(0, row.attempts);
    forall n: nat | 1 <= n <= row.attempts + 1 ensures Backoff(n) <= Backoff(row.attempts + 1) {
      Pow2Monotone(n - 1, row.attempts);
    }
  }

  // ----- the table as the source updates it

  /** The webhook_deliveries table. `births` is history kept for the specification only. */
  class Outbox {
    var rows: map<nat, Row>
    var nextRow: nat
    ghost var births: seq<Birth>

    ghost predicate Valid()
      reads this
    {
      nextRow == |births|
    }

    ghost function View(): Table
      reads this
    {
      Table(rows, births)
    }

    constructor ()
      ensures Valid() && View() == Table(map[], [])
    {
      rows, nextRow, births := map[], 0, [];
    }

    /** The SELECT ... ORDER BY sequence DESC LIMIT 1 of a store: the last sequence used on the stream. */
    method PreviousSequence(k: Stream) returns (sequence: nat)
      requires Valid()
      ensures sequence == LastSequence(rows, k, |births|)
    {
      sequence := 0;
      for i := 0 to nextRow
        invariant sequence == LastSequence(rows, k, i)
      {
        if i in rows && rows[i].stream == k && sequence < rows[i].sequence {
          sequence := rows[i].sequence;
        }
      }
    }

    method StoreEvent(subscriptions: seq<string>, event: Event, now: real)
      requires Valid()
      modifies this
      ensures Valid() && View() == Store(old(View()), subscriptions, event, now)
    {
      for i := 0 to |subscriptions|
        invariant Valid()
        invariant Store(View(), subscriptions[i..], event, now) == Store(old(View()), subscriptions, event, now)
      {
        var k := Stream(event.bot, subscriptions[i]);
        var previous := PreviousSequence(k);
        assert subscriptions[i..][1..] == subscriptions[i + 1..];
        rows := rows[nextRow := NewRow(k, event, previous + 1, now)];
        nextRow := nextRow + 1;
        births := births + [Birth(k, event)];
      }
    }

    /** The first transaction of an attempt: take the row's lease, or report that it cannot be had. */
    method TakeLease(id: nat, token: nat, now: real) returns (leased: bool)
      requires Valid()
      modifies this
      ensures Valid() && View() == Lease(old(View()), id, token, now)
      ensures leased == CanLease(old(rows), id, now)
      ensures leased ==> HoldsLease(rows, id, token)
    {
      if id !in rows {
        return false;
      }
      var current := rows[id];
      if !Sendable(current.status) {
        return false;
      }
      if current.leaseExpiresAt.Some? && current.leaseExpiresAt.value > now {
        return false;
      }
      current := current.(leaseToken := Some(token));
      current := current.(leaseExpiresAt := Some(now + SEND_LEASE_TTL_S));
      rows := rows[id := current];
      return true;
    }

    /** The second transaction of an attempt whose POST was accepted. */
    method RecordSent(id: nat, token: nat, r: Reply, now: real)
      requires Valid() && Accepted(r)
      modifies this
      ensures Valid() && View() == Record(old(View()), id, token, r, now, 0.0)
    {
      if id in rows && rows[id].leaseToken == Some(token) {
        var current := rows[id];
        current := current.(status := Sent);
        current := current.(leaseToken := None, leaseExpiresAt := None);
        rows := rows[id := current];
      }
    }

    /** The second transaction of an attempt whose POST failed; the result says what the sender counts. */
    method RecordFailure(id: nat, token: nat, r: Reply, now: real, jitter: real) returns (dead: bool)
      requires Valid() && !Accepted(r)
      modifies this
      ensures Valid() && View() == Record(old(View()), id, token, r, now, jitter)
      ensures dead == (HoldsLease(old(rows), id, token) && Exhausted(old(rows)[id].attempts + 1, r))
    {
      if id !in rows || rows[id].leaseToken != Some(token) {
        return false;
      }
      var current := rows[id];
      current := current.(attempts := current.attempts + 1);
      if !IsRetryable(r) || current.attempts >= MAX_ATTEMPTS {
        current := current.(status := Dead, leaseToken := None, leaseExpiresAt := None);
        rows := rows[id := current];
        return true;
      }
      var retryAfter := RetryAfterSeconds(r);
      var backoff := Min(RETRY_CAP_S, RETRY_BASE_S * Pow2(current.attempts - 1));
      backoff := Max(backoff, if retryAfter.Some? then retryAfter.value else 0);
      current := current.(status := Retry, nextTryAt := now + backoff as real + jitter);
      current := current.(leaseToken := None, leaseExpiresAt := None);
      rows := rows[id := current];
      return false;
    }

    /** Deletes finished rows past their age and counts them. */
    method PurgeRows(moment: real) returns (count: nat)
      requires Valid()
      modifies this
      ensures Valid() && View() == Purge(old(View()), moment)
      ensures count == |PurgeableIds(old(View()), moment)|
    {
      var doomed := set i | i in rows && Purgeable(rows[i], moment);
      assert doomed == PurgeableIds(View(), moment);
      PurgeRemoves(View(), moment);
      count := 0;
      var left := doomed;
      while left != {}
        invariant left <= doomed
        invariant rows == old(rows) - (doomed - left)
        invariant count + |left| == |doomed|
        invariant births == old(births) && nextRow == old(nextRow)
        decreases left
      {
        var i :| i in left;
        assert doomed - (left - {i}) == (doomed - left) + {i};
        rows := rows - {i};
        left := left - {i};
        count := count + 1;
      }
      assert doomed - left == doomed;
    }

    method ReplayRow(id: nat, now: real) returns (found: bool)
      requires Valid()
      modifies this
      ensures Valid() && View() == Replay(old(View()), id, now)
      ensures found == (id in old(rows))
    {
      if id !in rows {
        return false;
      }
      var delivery := rows[id];
      delivery := delivery.(status := Pending, nextTryAt := now);
      delivery := delivery.(leaseToken := None, leaseExpiresAt := None);
      rows := rows[id := delivery];
      return true;
    }

    method SkipRow(id: nat, now: real) returns (found: bool)
      requires Valid()
      modifies this
      ensures Valid() && View() == Skip(old(View()), id, now)
      ensures found == (id in old(rows))
    {
      if id !in rows {
        return false;
      }
      var delivery := rows[id];
      delivery := delivery.(status := Skipped, nextTryAt := now + ROW_TTL_S);
      delivery := delivery.(leaseToken := None, leaseExpiresAt := None);
      rows := rows[id := delivery];
      return true;
    }
  }
}

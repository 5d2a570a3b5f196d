/** Capacity reservations and the counter that mirrors them: src/twin/bots/runner.py. */
module Capacity {
  import opened Common
  import opened Lifecycle

  const RESERVATION_STALE_S: real := 300.0

  datatype Counter = Counter(active: int, limit: int)

  datatype Reservation = Reservation(tenant: string, bot: string, owner: string, acquiredAt: real, released: bool)

  datatype Ledger = Ledger(counters: map<string, Counter>, reservations: seq<Reservation>)

  predicate Holds(r: Reservation, bot: string) {
    r.bot == bot && !r.released
  }

  /** The place of the bot's unreleased reservation, or the number of reservations when it has none. */
  function Find(rs: seq<Reservation>, bot: string): (i: nat)
    ensures i <= |rs|
    ensures i < |rs| ==> Holds(rs[i], bot)
    ensures forall j | 0 <= j < i :: !Holds(rs[j], bot)
    decreases |rs|
  {
    if rs == [] || Holds(rs[0], bot) then 0 else 1 + Find(rs[1..], bot)
  }

  /** Unreleased reservations of the tenant. */
  function Held(rs: seq<Reservation>, tenant: string): nat {
    if rs == [] then 0
    else
      var last := rs[|rs| - 1];
      Held(rs[..|rs| - 1], tenant) + if last.tenant == tenant && !last.released then 1 else 0
  }

  // ----- the transactions

  function Opened(counters: map<string, Counter>, tenant: string, limit: int): map<string, Counter> {
    counters[tenant := if tenant in counters then counters[tenant].(limit := limit) else Counter(0, limit)]
  }

  function Reserve(l: Ledger, tenant: string, limit: int, bot: string, owner: string, now: real): Ledger {
    var counters := Opened(l.counters, tenant, limit);
    if Find(l.reservations, bot) < |l.reservations| || counters[tenant].active >= limit
    then l.(counters := counters)
    else Ledger(counters[tenant := counters[tenant].(active := counters[tenant].active + 1)],
                l.reservations + [Reservation(tenant, bot, owner, now, false)])
  }

  /** Whether the caller may run: it owns the bot's reservation, or there was none and there was room. */
  function Granted(l: Ledger, tenant: string, limit: int, bot: string, owner: string): bool {
    var i := Find(l.reservations, bot);
    if i < |l.reservations| then l.reservations[i].owner == owner
    else Opened(l.counters, tenant, limit)[tenant].active < limit
  }

  /** The clamp of the source keeps a counter from going below zero. */
  function Lowered(counters: map<string, Counter>, tenant: string): map<string, Counter> {
    if tenant in counters then counters[tenant := counters[tenant].(active := Max(0, counters[tenant].active - 1))]
    else counters
  }

  function ReleaseAt(l: Ledger, i: nat): Ledger
    requires i < |l.reservations|
  {
    Ledger(Lowered(l.counters, l.reservations[i].tenant), l.reservations[i := l.reservations[i].(released := true)])
  }

  function Release(l: Ledger, bot: string): Ledger {
    var i := Find(l.reservations, bot);
    if i < |l.reservations| then ReleaseAt(l, i) else l
  }

  predicate Forfeits(r: Reservation, runs: map<string, Status>, now: real) {
    && !r.released
    && (r.bot !in runs || Terminal(runs[r.bot]) || (runs[r.bot] == Queued && now - r.acquiredAt > RESERVATION_STALE_S))
  }

  /** The first `n` reservations swept. */
  function Sweep(l: Ledger, runs: map<string, Status>, now: real, n: nat): (swept: Ledger)
    requires n <= |l.reservations|
    ensures |swept.reservations| == |l.reservations|
  {
    if n == 0 then l
    else
      var before := Sweep(l, runs, now, n - 1);
      if Forfeits(before.reservations[n - 1], runs, now) then ReleaseAt(before, n - 1) else before
  }

  // ----- what every transaction keeps

  ghost predicate OneHolder(rs: seq<Reservation>) {
    forall i, j | 0 <= i < j < |rs| && !rs[i].released && !rs[j].released :: rs[i].bot != rs[j].bot
  }

  /** Every counter equals the number of unreleased reservations of its tenant; no bot holds two. */
  ghost predicate Balanced(l: Ledger) {
    && OneHolder(l.reservations)
    && (forall t | t in l.counters :: l.counters[t].active == Held(l.reservations, t))
    && (forall t | t !in l.counters :: Held(l.reservations, t) == 0)
  }

  lemma {:induction false} HeldAfterRelease(rs: seq<Reservation>, i: nat, tenant: string)
    requires i < |rs| && !rs[i].released
    ensures Held(rs, tenant) == Held(rs[i := rs[i].(released := true)], tenant)
                                + if rs[i].tenant == tenant then 1 else 0
  {
    var n := |rs| - 1;
    var after := rs[i := rs[i].(released := true)];
    if i < n {
      HeldAfterRelease(rs[..n], i, tenant);
      assert after[..n] == rs[..n][i := rs[..n][i].(released := true)];
    } else {
      assert after[..n] == rs[..n];
    }
  }

  /** Releasing one reservation keeps the books, and the clamp at zero does not act. */
  lemma ReleaseKeepsBalance(l: Ledger, i: nat)
    requires Balanced(l) && i < |l.reservations| && !l.reservations[i].released
    ensures Balanced(ReleaseAt(l, i))
    ensures var t := l.reservations[i].tenant;
            t in l.counters && ReleaseAt(l, i).counters[t].active == l.counters[t].active - 1
  {
    forall t ensures Held(l.reservations, t) == Held(ReleaseAt(l, i).reservations, t)
                                                + if l.reservations[i].tenant == t then 1 else 0
    {
      HeldAfterRelease(l.reservations, i, t);
    }
  }

  lemma ReserveKeepsBalance(l: Ledger, tenant: string, limit: int, bot: string, owner: string, now: real)
    requires Balanced(l)
    ensures Balanced(Reserve(l, tenant, limit, bot, owner, now))
  {
    var counters := Opened(l.counters, tenant, limit);
    if Find(l.reservations, bot) == |l.reservations| && counters[tenant].active < limit {
      NewReservationKeepsBalance(l.(counters := counters), Reservation(tenant, bot, owner, now, false));
    }
  }

  lemma NewReservationKeepsBalance(l: Ledger, r: Reservation)
    requires Balanced(l) && r.tenant in l.counters && !r.released && Find(l.reservations, r.bot) == |l.reservations|
    ensures Balanced(Ledger(l.counters[r.tenant := l.counters[r.tenant].(active := l.counters[r.tenant].active + 1)],
                            l.reservations + [r]))
  {
    AppendedOneHolder(l.reservations, r);
    forall t ensures Held(l.reservations + [r], t) == Held(l.reservations, t) + if t == r.tenant then 1 else 0 {
      HeldAppended(l.reservations, r, t);
    }
  }

  lemma AppendedOneHolder(rs: seq<Reservation>, r: Reservation)
    requires OneHolder(rs) && Find(rs, r.bot) == |rs|
    ensures OneHolder(rs + [r])
  {
    assert forall j | 0 <= j < |rs| :: !Holds(rs[j], r.bot);
  }

  lemma HeldAppended(rs: seq<Reservation>, r: Reservation, tenant: string)
    ensures Held(rs + [r], tenant) == Held(rs, tenant) + if r.tenant == tenant && !r.released then 1 else 0
  {
    assert (rs + [r])[..|rs|] == rs;
  }

  lemma {:induction false} SweepKeepsBalance(l: Ledger, runs: map<string, Status>, now: real, n: nat)
    requires Balanced(l) && n <= |l.reservations|
    ensures Balanced(Sweep(l, runs, now, n))
  {
    if n > 0 {
      SweepKeepsBalance(l, runs, now, n - 1);
      var before := Sweep(l, runs, now, n - 1);
      if Forfeits(before.reservations[n - 1], runs, now) {
        ReleaseKeepsBalance(before, n - 1);
      }
    }
  }

  /** A sweep releases exactly the reservations whose run is gone or over, or still queued more than 300 seconds after
      the reservation was made, and changes nothing else of them. */
  lemma {:induction false} SweepReleasesForfeits(l: Ledger, runs: map<string, Status>, now: real, n: nat)
    requires n <= |l.reservations|
    ensures forall i | 0 <= i < |l.reservations| ::
              var r := l.reservations[i];
              var gone := r.bot !in runs || runs[r.bot] in {Completed, Failed};
              var stale := r.bot in runs && runs[r.bot] == Queued && now - r.acquiredAt > 300.0;
              Sweep(l, runs, now, n).reservations[i] == if i < n && (gone || stale) then r.(released := true) else r
  {
    if n > 0 {
      SweepReleasesForfeits(l, runs, now, n - 1);
    }
  }

  /** A sweep takes nothing from a run that is joining, joined, recording or processing, nor from a queued one whose
      reservation is fresh; afterwards every reservation still held belongs to one of these. */
  lemma SweepSparesLiveRuns(l: Ledger, runs: map<string, Status>, now: real, i: nat)
    requires i < |l.reservations|
    ensures var after := Sweep(l, runs, now, |l.reservations|).reservations[i];
            var r := l.reservations[i];
            && (r.bot in runs && runs[r.bot] in {Joining, Joined, Recording, Processing} ==> after == r)
            && (r.bot in runs && runs[r.bot] == Queued && now - r.acquiredAt <= 300.0 ==> after == r)
            && (!after.released ==>
                  && after.bot in runs
                  && (runs[after.bot] in {Joining, Joined, Recording, Processing}
                      || (runs[after.bot] == Queued && now - after.acquiredAt <= 300.0)))
  {
    SweepReleasesForfeits(l, runs, now, |l.reservations|);
  }

  /** Ownership: after a granted reserve the caller holds the bot's only reservation; asking again changes only
      the configured limit and is granted; another owner is refused. */
  lemma ReserveSettlesOwnership(l: Ledger, tenant: string, limit: int, bot: string, owner: string, now: real)
    requires Balanced(l) && Granted(l, tenant, limit, bot, owner)
    ensures var after := Reserve(l, tenant, limit, bot, owner, now);
            var i := Find(after.reservations, bot);
            && i < |after.reservations| && after.reservations[i].owner == owner
            && (forall t, m, o :: Granted(after, t, m, bot, o) <==> o == owner)
            && (forall t, m, o, later :: Reserve(after, t, m, bot, o, later).reservations == after.reservations)
  {
    var after := Reserve(l, tenant, limit, bot, owner, now);
    if Find(l.reservations, bot) == |l.reservations| {
      assert after.reservations == l.reservations + [Reservation(tenant, bot, owner, now, false)];
      assert Holds(after.reservations[|l.reservations|], bot);
      assert forall j | 0 <= j < |l.reservations| :: after.reservations[j] == l.reservations[j];
    }
  }

  /** Who may run: whoever has the bot's reservation; and when nobody has one, anybody while the tenant has fewer
      than its limit. Only the latter makes a reservation. */
  lemma ReserveGrantsExactly(l: Ledger, tenant: string, limit: int, bot: string, owner: string, now: real)
    requires Balanced(l)
    ensures var rs, after := l.reservations, Reserve(l, tenant, limit, bot, owner, now);
            var taken := exists i | 0 <= i < |rs| :: rs[i].bot == bot && !rs[i].released;
            var own := exists i | 0 <= i < |rs| :: rs[i].bot == bot && !rs[i].released && rs[i].owner == owner;
            && (Granted(l, tenant, limit, bot, owner) <==> own || (!taken && Held(rs, tenant) < limit))
            && after.reservations
               == (if taken || Held(rs, tenant) >= limit then rs
                   else rs + [Reservation(tenant, bot, owner, now, false)])
            && tenant in after.counters && after.counters[tenant].limit == limit
  {
    var rs := l.reservations;
    var found := Find(rs, bot);
    if i :| 0 <= i < |rs| && rs[i].bot == bot && !rs[i].released {
      assert Holds(rs[i], bot) && i == found;
    }
    assert found < |rs| ==> Holds(rs[found], bot);
  }

  // ----- over whole runs

  datatype Step =
    | TryReserve(tenant: string, limit: int, bot: string, owner: string, now: real)
    | Free(bot: string)
    | SweepAll(runs: map<string, Status>, now: real)

  function Apply(l: Ledger, s: Step): Ledger {
    match s
    case TryReserve(tenant, limit, bot, owner, now) => Reserve(l, tenant, limit, bot, owner, now)
    case Free(bot) => Release(l, bot)
    case SweepAll(runs, now) => Sweep(l, runs, now, |l.reservations|)
  }

  function Run(steps: seq<Step>): Ledger {
    if steps == [] then Ledger(map[], []) else Apply(Run(steps[..|steps| - 1]), steps[|steps| - 1])
  }

  /** Conservation: after any run of reserves with any limits, releases and sweeps, each tenant's counter is its
      number of unreleased reservations. */
  lemma {:induction false} CountersMirrorReservations(steps: seq<Step>)
    ensures Balanced(Run(steps))
  {
    if steps != [] {
      var before, last := Run(steps[..|steps| - 1]), steps[|steps| - 1];
      CountersMirrorReservations(steps[..|steps| - 1]);
      match last
      case TryReserve(tenant, limit, bot, owner, now) => ReserveKeepsBalance(before, tenant, limit, bot, owner, now);
      case Free(bot) =>
        if Find(before.reservations, bot) < |before.reservations| {
          ReleaseKeepsBalance(before, Find(before.reservations, bot));
        }
      case SweepAll(runs, now) => SweepKeepsBalance(before, runs, now, |before.reservations|);
    }
  }

  /** The step leaves a queued run's reservation of the given time alone: it does not release the bot's reservation, and
      if it sweeps, then while the run is live, or queued and the reservation at most 300 seconds old. */
  predicate Spares(s: Step, bot: string, acquiredAt: real) {
    && s != Free(bot)
    && (s.SweepAll? ==>
          && bot in s.runs
          && (s.runs[bot] in {Joining, Joined, Recording, Processing}
              || (s.runs[bot] == Queued && s.now - acquiredAt <= 300.0)))
  }

  lemma ReservationStays(l: Ledger, s: Step, i: nat)
    requires i < |l.reservations| && !l.reservations[i].released
    requires Spares(s, l.reservations[i].bot, l.reservations[i].acquiredAt)
    ensures i < |Apply(l, s).reservations| && Apply(l, s).reservations[i] == l.reservations[i]
  {
    if s.SweepAll? {
      SweepReleasesForfeits(l, s.runs, s.now, |l.reservations|);
    }
  }

  lemma RunThen(steps: seq<Step>, s: Step)
    ensures Run(steps + [s]) == Apply(Run(steps), s)
  {
    assert (steps + [s])[..|steps|] == steps;
  }

  /** A place once given is kept: a reservation is still there after any further attempts, releases of other bots and
      sweeps, as long as each sweep finds its run live, or queued and the reservation at most 300 seconds old. */
  lemma {:induction false} FreshReservationStays(
    before: seq<Step>, tenant: string, limit: int, bot: string, owner: string, now: real, after: seq<Step>)
    requires forall r | r in Run(before).reservations :: r.bot == bot ==> r.released
    requires Granted(Run(before), tenant, limit, bot, owner)
    requires forall n | 0 <= n < |after| :: Spares(after[n], bot, now)
    ensures var rs := Run(before + [TryReserve(tenant, limit, bot, owner, now)] + after).reservations;
            var i := |Run(before).reservations|;
            i < |rs| && rs[i] == Reservation(tenant, bot, owner, now, false)
  {
    var reserved := before + [TryReserve(tenant, limit, bot, owner, now)];
    if after == [] {
      CountersMirrorReservations(before);
      RunThen(before, TryReserve(tenant, limit, bot, owner, now));
      ReserveGrantsExactly(Run(before), tenant, limit, bot, owner, now);
      assert reserved + [] == reserved;
    } else {
      var n := |after| - 1;
      FreshReservationStays(before, tenant, limit, bot, owner, now, after[..n]);
      assert reserved + after == reserved + after[..n] + [after[n]];
      RunThen(reserved + after[..n], after[n]);
      ReservationStays(Run(reserved + after[..n]), after[n], |Run(before).reservations|);
    }
  }

  lemma {:induction false} SweepLowers(l: Ledger, runs: map<string, Status>, now: real, n: nat, tenant: string)
    requires Balanced(l) && n <= |l.reservations|
    ensures Held(Sweep(l, runs, now, n).reservations, tenant) <= Held(l.reservations, tenant)
  {
    if n > 0 {
      SweepLowers(l, runs, now, n - 1, tenant);
      SweepKeepsBalance(l, runs, now, n - 1);
      var before := Sweep(l, runs, now, n - 1);
      if Forfeits(before.reservations[n - 1], runs, now) {
        HeldAfterRelease(before.reservations, n - 1, tenant);
      }
    }
  }

  /** No tenant ever holds more than the largest limit it was configured with. */
  lemma {:induction false} LimitIsKept(steps: seq<Step>, tenant: string, limit: nat)
    requires forall s | s in steps && s.TryReserve? && s.tenant == tenant :: s.limit <= limit
    ensures Held(Run(steps).reservations, tenant) <= limit
  {
    if steps != [] {
      var n := |steps| - 1;
      var before, last := Run(steps[..n]), steps[n];
      assert last in steps && forall s | s in steps[..n] :: s in steps;
      LimitIsKept(steps[..n], tenant, limit);
      CountersMirrorReservations(steps[..n]);
      match last
      case TryReserve(t, m, bot, owner, now) =>
        var r := Reservation(t, bot, owner, now, false);
        assert (before.reservations + [r])[..|before.reservations|] == before.reservations;
      case Free(bot) =>
        if Find(before.reservations, bot) < |before.reservations| {
          HeldAfterRelease(before.reservations, Find(before.reservations, bot), tenant);
        }
      case SweepAll(runs, now) => SweepLowers(before, runs, now, |before.reservations|, tenant);
    }
  }

  // ----- the tables as the source updates them

  class CapacityLedger {
    var counters: map<string, Counter>
    var reservations: seq<Reservation>

    ghost function View(): Ledger
      reads this
    {
      Ledger(counters, reservations)
    }

    constructor ()
      ensures View() == Ledger(map[], [])
    {
      counters, reservations := map[], [];
    }

    method FindReservation(bot: string) returns (i: nat)
      ensures i == Find(reservations, bot)
    {
      i := 0;
      while i < |reservations| && !Holds(reservations[i], bot)
        invariant i <= |reservations|
        invariant Find(reservations, bot) == i + Find(reservations[i..], bot)
      {
        i := i + 1;
      }
    }

    method TryReserve(tenant: string, limit: int, bot: string, owner: string, now: real) returns (granted: bool)
      modifies this
      ensures View() == Reserve(old(View()), tenant, limit, bot, owner, now)
      ensures granted == Granted(old(View()), tenant, limit, bot, owner)
    {
      var counter: Counter;
      if tenant !in counters {
        counter := Counter(0, limit);
      } else {
        counter := counters[tenant];
        counter := counter.(limit := limit);
      }
      counters := counters[tenant := counter];
      var current := FindReservation(bot);
      if current < |reservations| {
        return reservations[current].owner == owner;
      }
      if counter.active >= counter.limit {
        return false;
      }
      reservations := reservations + [Reservation(tenant, bot, owner, now, false)];
      counters := counters[tenant := counter.(active := counter.active + 1)];
      return true;
    }

    method HasOtherReservation(bot: string, owner: string) returns (other: bool)
      ensures other <==> exists i | 0 <= i < |reservations| && i == Find(reservations, bot) ::
                           reservations[i].owner != owner
    {
      var current := FindReservation(bot);
      other := current < |reservations| && reservations[current].owner != owner;
    }

    method ReleaseReservation(i: nat)
      requires i < |reservations|
      modifies this
      ensures View() == ReleaseAt(old(View()), i)
    {
      var reservation := reservations[i];
      reservations := reservations[i := reservation.(released := true)];
      if reservation.tenant in counters {
        var counter := counters[reservation.tenant];
        counters := counters[reservation.tenant := counter.(active := Max(0, counter.active - 1))];
      }
    }

    method ReleaseBot(bot: string)
      modifies this
      ensures View() == Release(old(View()), bot)
    {
      var current := FindReservation(bot);
      if current == |reservations| {
        return;
      }
      ReleaseReservation(current);
    }

    method SweepReservations(runs: map<string, Status>, now: real) returns (released: nat)
      modifies this
      ensures View() == Sweep(old(View()), runs, now, |old(reservations)|)
      ensures released == |set i | 0 <= i < |reservations| && reservations[i] != old(reservations)[i]|
    {
      released := 0;
      ghost var changed := {};
      for i := 0 to |reservations|
        invariant |reservations| == |old(reservations)|
        invariant View() == Sweep(old(View()), runs, now, i)
        invariant forall j | i <= j < |reservations| :: reservations[j] == old(reservations)[j]
        invariant changed == set j | 0 <= j < i && reservations[j] != old(reservations)[j]
        invariant released == |changed|
      {
        var reservation := reservations[i];
        if reservation.released {
          continue;
        }
        var stale := now - reservation.acquiredAt > RESERVATION_STALE_S;
        if reservation.bot !in runs
           || runs[reservation.bot] in {Completed, Failed}
           || (runs[reservation.bot] == Queued && stale) {
          ReleaseReservation(i);
          released := released + 1;
          changed := changed + {i};
        }
      }
    }
  }
}

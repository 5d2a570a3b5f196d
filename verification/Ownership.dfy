/** Who releases whose reservation: execute_run in src/twin/bots/runner.py reserves under an owner of its own and
    releases by bot, whoever holds the bot's reservation by then. */
module Ownership {
  import opened Lifecycle
  import opened Capacity

  /** The ledger; the owners now running, each with its bot; and the owners that are through. */
  datatype Crew = Crew(ledger: Ledger, running: map<string, string>, done: set<string>)

  /** One try at a reservation, by an owner that has none; an owner's final release; a sweep. */
  datatype Move =
    | Attempt(tenant: string, limit: int, bot: string, owner: string, now: real)
    | Finish(owner: string)
    | SweepNow(runs: map<string, Status>, now: real)

  const NOBODY := Crew(Ledger(map[], []), map[], {})

  function Next(c: Crew, m: Move): Crew {
    match m
    case Attempt(tenant, limit, bot, owner, now) =>
      if owner in c.running || owner in c.done then c
      else
        c.(ledger := Reserve(c.ledger, tenant, limit, bot, owner, now),
           running := if Granted(c.ledger, tenant, limit, bot, owner) then c.running[owner := bot] else c.running)
    case Finish(owner) =>
      if owner !in c.running then c
      else Crew(Release(c.ledger, c.running[owner]), c.running - {owner}, c.done + {owner})
    case SweepNow(runs, now) => c.(ledger := Sweep(c.ledger, runs, now, |c.ledger.reservations|))
  }

  function After(c: Crew, moves: seq<Move>): Crew {
    if moves == [] then c else Next(After(c, moves[..|moves| - 1]), moves[|moves| - 1])
  }

  // ----- what every move keeps

  /** Reservations have owners of their own, and those not released belong to a running owner of the bot. */
  ghost predicate Attributed(c: Crew) {
    && (forall i, j | 0 <= i < j < |c.ledger.reservations| ::
          c.ledger.reservations[i].owner != c.ledger.reservations[j].owner)
    && (forall i | 0 <= i < |c.ledger.reservations| :: KnownOwner(c, c.ledger.reservations[i]))
  }

  predicate KnownOwner(c: Crew, r: Reservation) {
    && (r.owner in c.running || r.owner in c.done)
    && (!r.released ==> r.owner in c.running && c.running[r.owner] == r.bot)
  }

  ghost predicate Inv(c: Crew) {
    Balanced(c.ledger) && Attributed(c)
  }

  /** The owner's reservation is not released. */
  ghost predicate Keeps(c: Crew, owner: string) {
    exists i | 0 <= i < |c.ledger.reservations| ::
      c.ledger.reservations[i].owner == owner && !c.ledger.reservations[i].released
  }

  ghost predicate Lost(c: Crew, owner: string) {
    owner in c.running && !Keeps(c, owner)
  }

  /** The move is a release that takes another owner's reservation. */
  ghost predicate TakesForeign(c: Crew, m: Move) {
    && m.Finish? && m.owner in c.running
    && var i := Find(c.ledger.reservations, c.running[m.owner]);
    && i < |c.ledger.reservations| && c.ledger.reservations[i].owner != m.owner
  }

  lemma FindIsHolder(rs: seq<Reservation>, i: nat)
    requires OneHolder(rs) && i < |rs| && !rs[i].released
    ensures Find(rs, rs[i].bot) == i
  {
    assert Holds(rs[i], rs[i].bot);
  }

  /** A reservation attempt by a new owner is granted only by making a reservation. */
  lemma GrantIsNew(c: Crew, tenant: string, limit: int, bot: string, owner: string, now: real)
    requires Inv(c) && owner !in c.running && owner !in c.done
    ensures Granted(c.ledger, tenant, limit, bot, owner)
            <==> Reserve(c.ledger, tenant, limit, bot, owner, now).reservations
                 == c.ledger.reservations + [Reservation(tenant, bot, owner, now, false)]
    ensures !Granted(c.ledger, tenant, limit, bot, owner) ==>
              Reserve(c.ledger, tenant, limit, bot, owner, now).reservations == c.ledger.reservations
  {
    var i := Find(c.ledger.reservations, bot);
    if i < |c.ledger.reservations| {
      assert KnownOwner(c, c.ledger.reservations[i]);
    }
  }

  lemma AttemptKeeps(c: Crew, m: Move)
    requires Inv(c) && m.Attempt?
    ensures Inv(Next(c, m))
    ensures forall o | o in Next(c, m).running && !Keeps(Next(c, m), o) :: Lost(c, o)
    ensures forall o | Keeps(c, o) :: Keeps(Next(c, m), o)
  {
    if m.owner !in c.running && m.owner !in c.done {
      GrantIsNew(c, m.tenant, m.limit, m.bot, m.owner, m.now);
      ReserveKeepsBalance(c.ledger, m.tenant, m.limit, m.bot, m.owner, m.now);
      if Granted(c.ledger, m.tenant, m.limit, m.bot, m.owner) {
        NewOwnerJoins(c, Next(c, m), Reservation(m.tenant, m.bot, m.owner, m.now, false));
      } else {
        SameReservations(c, Next(c, m));
      }
    }
  }

  lemma SameReservations(c: Crew, u: Crew)
    requires Attributed(c) && u.ledger.reservations == c.ledger.reservations
    requires u.running == c.running && u.done == c.done
    ensures Attributed(u) && forall o :: Keeps(u, o) <==> Keeps(c, o)
  {
    assert forall i | 0 <= i < |c.ledger.reservations| :: KnownOwner(c, c.ledger.reservations[i]);
  }

  lemma NewOwnerJoins(c: Crew, u: Crew, r: Reservation)
    requires Attributed(c) && r.owner !in c.running && r.owner !in c.done && !r.released
    requires u.ledger.reservations == c.ledger.reservations + [r]
    requires u.running == c.running[r.owner := r.bot] && u.done == c.done
    ensures Attributed(u) && forall o :: Keeps(u, o) <==> Keeps(c, o) || o == r.owner
  {
    var rs, more := c.ledger.reservations, u.ledger.reservations;
    assert more[|rs|] == r && forall i | 0 <= i < |rs| :: more[i] == rs[i];
    assert forall i | 0 <= i < |rs| :: KnownOwner(c, rs[i]);
    forall i | 0 <= i < |more| ensures KnownOwner(u, more[i]) {
      assert i < |rs| ==> KnownOwner(c, rs[i]);
    }
    forall o ensures Keeps(u, o) <==> Keeps(c, o) || o == r.owner {
      if i :| 0 <= i < |rs| && rs[i].owner == o && !rs[i].released {
        assert more[i] == rs[i];
      }
    }
  }

  lemma ReleaseLeavesOthers(c: Crew, bot: string, i: nat)
    requires Inv(c) && i < |c.ledger.reservations|
    ensures var rs, after := c.ledger.reservations, Release(c.ledger, bot).reservations;
            |after| == |rs| && after[i] == if i == Find(rs, bot) then rs[i].(released := true) else rs[i]
  {
  }

  lemma FinishKeeps(c: Crew, m: Move)
    requires Inv(c) && m.Finish?
    ensures Inv(Next(c, m))
  {
    if m.owner in c.running {
      var rs, bot := c.ledger.reservations, c.running[m.owner];
      var u := Next(c, m);
      if Find(rs, bot) < |rs| {
        ReleaseKeepsBalance(c.ledger, Find(rs, bot));
      }
      forall i | 0 <= i < |u.ledger.reservations| ensures KnownOwner(u, u.ledger.reservations[i]) {
        ReleaseLeavesOthers(c, bot, i);
        assert KnownOwner(c, rs[i]);
        if !rs[i].released && rs[i].owner == m.owner {
          FindIsHolder(rs, i);
        }
      }
      forall i, j | 0 <= i < j < |u.ledger.reservations|
        ensures u.ledger.reservations[i].owner != u.ledger.reservations[j].owner
      {
        ReleaseLeavesOthers(c, bot, i);
        ReleaseLeavesOthers(c, bot, j);
      }
    }
  }

  lemma SweepKeeps(c: Crew, m: Move)
    requires Inv(c) && m.SweepNow?
    ensures Inv(Next(c, m))
  {
    var rs := c.ledger.reservations;
    SweepKeepsBalance(c.ledger, m.runs, m.now, |rs|);
    SweepReleasesForfeits(c.ledger, m.runs, m.now, |rs|);
    var u := Next(c, m);
    forall i | 0 <= i < |u.ledger.reservations| ensures KnownOwner(u, u.ledger.reservations[i]) {
      assert KnownOwner(c, rs[i]);
    }
  }

  lemma InvKept(c: Crew, m: Move)
    requires Inv(c)
    ensures Inv(Next(c, m))
  {
    match m
    case Attempt(_, _, _, _, _) => AttemptKeeps(c, m);
    case Finish(_) => FinishKeeps(c, m);
    case SweepNow(_, _) => SweepKeeps(c, m);
  }

  lemma {:induction false} InvAlways(moves: seq<Move>)
    ensures Inv(After(NOBODY, moves))
  {
    if moves != [] {
      InvAlways(moves[..|moves| - 1]);
      InvKept(After(NOBODY, moves[..|moves| - 1]), moves[|moves| - 1]);
    }
  }

  // ----- one release

  /** An owner's release takes its own reservation and no other exactly when it still has it; otherwise it takes
      the reservation of whoever runs the bot by then, if anyone keeps one. */
  lemma ReleaseTakesOwnExactly(moves: seq<Move>, owner: string)
    requires owner in After(NOBODY, moves).running
    ensures var c := After(NOBODY, moves);
            var u := Next(c, Finish(owner));
            && |u.ledger.reservations| == |c.ledger.reservations|
            && (Keeps(c, owner) <==> exists i | 0 <= i < |c.ledger.reservations| ::
                                       c.ledger.reservations[i].owner == owner
                                       && u.ledger.reservations[i] != c.ledger.reservations[i])
            && (TakesForeign(c, Finish(owner)) <==>
                  Lost(c, owner) && exists o :: o in c.running && c.running[o] == c.running[owner] && Keeps(c, o))
            && (forall o | o in u.running && Lost(u, o) && !Lost(c, o) :: TakesForeign(c, Finish(owner)))
  {
    InvAlways(moves);
    var c := After(NOBODY, moves);
    OwnReleased(c, owner);
    ForeignExactly(c, owner);
    FinishLoses(c, owner);
  }

  lemma OwnReleased(c: Crew, owner: string)
    requires Inv(c) && owner in c.running
    ensures var u := Next(c, Finish(owner));
            && |u.ledger.reservations| == |c.ledger.reservations|
            && (Keeps(c, owner) <==> exists i | 0 <= i < |c.ledger.reservations| ::
                                       c.ledger.reservations[i].owner == owner
                                       && u.ledger.reservations[i] != c.ledger.reservations[i])
  {
    var rs, u := c.ledger.reservations, Next(c, Finish(owner));
    if i :| 0 <= i < |rs| && rs[i].owner == owner && !rs[i].released {
      assert KnownOwner(c, rs[i]);
      FindIsHolder(rs, i);
      ReleaseLeavesOthers(c, c.running[owner], i);
      assert u.ledger.reservations[i] != rs[i];
    }
  }

  lemma ForeignExactly(c: Crew, owner: string)
    requires Inv(c) && owner in c.running
    ensures TakesForeign(c, Finish(owner)) <==>
              Lost(c, owner) && exists o :: o in c.running && c.running[o] == c.running[owner] && Keeps(c, o)
  {
    var rs, bot := c.ledger.reservations, c.running[owner];
    var found := Find(rs, bot);
    if i :| 0 <= i < |rs| && rs[i].owner == owner && !rs[i].released {
      assert KnownOwner(c, rs[i]);
      FindIsHolder(rs, i);
    } else if o :| o in c.running && c.running[o] == bot && Keeps(c, o) {
      var i :| 0 <= i < |rs| && rs[i].owner == o && !rs[i].released;
      assert KnownOwner(c, rs[i]);
      FindIsHolder(rs, i);
    } else if found < |rs| {
      assert KnownOwner(c, rs[found]) && Keeps(c, rs[found].owner);
    }
  }

  lemma FinishLoses(c: Crew, owner: string)
    requires Inv(c) && owner in c.running
    ensures var u := Next(c, Finish(owner));
            forall o | o in u.running && Lost(u, o) && !Lost(c, o) :: TakesForeign(c, Finish(owner))
  {
    var rs, u := c.ledger.reservations, Next(c, Finish(owner));
    forall o | o in u.running && Lost(u, o) && !Lost(c, o) ensures TakesForeign(c, Finish(owner)) {
      var i :| 0 <= i < |rs| && rs[i].owner == o && !rs[i].released;
      ReleaseLeavesOthers(c, c.running[owner], i);
      assert i == Find(rs, c.running[owner]);
    }
  }

  // ----- over runs

  ghost predicate NoSweeps(moves: seq<Move>) {
    forall n | 0 <= n < |moves| :: !moves[n].SweepNow?
  }

  ghost predicate NobodyLost(c: Crew) {
    forall o | o in c.running :: Keeps(c, o)
  }

  /** The sweep takes the reservation of an owner that is still running. */
  ghost predicate SweepTakesRunning(c: Crew, m: Move) {
    m.SweepNow? && exists i | 0 <= i < |c.ledger.reservations| :: Forfeits(c.ledger.reservations[i], m.runs, m.now)
  }

  lemma NobodyLostKept(c: Crew, m: Move)
    requires Inv(c) && NobodyLost(c) && !SweepTakesRunning(c, m)
    ensures NobodyLost(Next(c, m)) && !TakesForeign(c, m)
  {
    match m
    case Attempt(_, _, _, _, _) => AttemptKeeps(c, m);
    case Finish(owner) =>
      if owner in c.running {
        ForeignExactly(c, owner);
        FinishLoses(c, owner);
      }
    case SweepNow(runs, now) =>
      SweepReleasesForfeits(c.ledger, runs, now, |c.ledger.reservations|);
      assert Next(c, m).ledger.reservations == c.ledger.reservations;
  }

  lemma {:induction false} NobodyLostAlways(moves: seq<Move>)
    requires forall n | 0 <= n < |moves| :: !SweepTakesRunning(After(NOBODY, moves[..n]), moves[n])
    ensures NobodyLost(After(NOBODY, moves))
  {
    if moves != [] {
      var n := |moves| - 1;
      assert forall m | 0 <= m < n :: moves[..n][..m] == moves[..m] && moves[..n][m] == moves[m];
      NobodyLostAlways(moves[..n]);
      InvAlways(moves[..n]);
      NobodyLostKept(After(NOBODY, moves[..n]), moves[n]);
    }
  }

  /** Until a sweep takes the reservation of a running owner, reservations held and running owners are one to one,
      and every owner releases its own. */
  lemma SparedOwnersReleaseTheirOwn(moves: seq<Move>, m: Move)
    requires forall n | 0 <= n < |moves| :: !SweepTakesRunning(After(NOBODY, moves[..n]), moves[n])
    ensures var c := After(NOBODY, moves);
            && !TakesForeign(c, m)
            && (forall o | o in c.running :: Keeps(c, o))
            && (forall i | 0 <= i < |c.ledger.reservations| && !c.ledger.reservations[i].released ::
                  c.ledger.reservations[i].owner in c.running
                  && c.running[c.ledger.reservations[i].owner] == c.ledger.reservations[i].bot)
            && (forall a, b | a in c.running && b in c.running && a != b :: c.running[a] != c.running[b])
  {
    var c := After(NOBODY, moves);
    NobodyLostAlways(moves);
    InvAlways(moves);
    if m.Finish? && m.owner in c.running {
      ForeignExactly(c, m.owner);
    }
    assert forall i | 0 <= i < |c.ledger.reservations| :: KnownOwner(c, c.ledger.reservations[i]);
    forall a, b | a in c.running && b in c.running && a != b ensures c.running[a] != c.running[b] {
      KeepersApart(c, a, b);
    }
  }

  lemma KeepersApart(c: Crew, a: string, b: string)
    requires Inv(c) && a in c.running && b in c.running && a != b && Keeps(c, a) && Keeps(c, b)
    ensures c.running[a] != c.running[b]
  {
    var rs := c.ledger.reservations;
    var i :| 0 <= i < |rs| && rs[i].owner == a && !rs[i].released;
    var j :| 0 <= j < |rs| && rs[j].owner == b && !rs[j].released;
    assert KnownOwner(c, rs[i]) && KnownOwner(c, rs[j]);
  }

  /** By reserving and releasing alone it can come to a release that takes another owner's reservation. */
  ghost predicate ForeignAhead(c: Crew) {
    exists more, m :: NoSweeps(more) && TakesForeign(After(c, more), m)
  }

  /** Exactly when reserving and releasing alone can make some owner take another's reservation: some running owner
      has lost its own. */
  lemma ForeignReleaseAheadExactly(moves: seq<Move>)
    ensures ForeignAhead(After(NOBODY, moves)) <==> exists o :: Lost(After(NOBODY, moves), o)
  {
    var c := After(NOBODY, moves);
    InvAlways(moves);
    if o :| Lost(c, o) {
      var more := ForeignReleaseFollows(c, o);
      assert NoSweeps(more) && TakesForeign(After(c, more), Finish(o));
    } else {
      forall o | o in c.running ensures Keeps(c, o) {
        assert !Lost(c, o);
      }
      forall more, m | NoSweeps(more) ensures !TakesForeign(After(c, more), m) {
        NobodyLostOn(c, more);
        if m.Finish? {
          NobodyLostKept(After(c, more), m);
        }
      }
    }
  }

  lemma {:induction false} NobodyLostOn(c: Crew, more: seq<Move>)
    requires Inv(c) && NobodyLost(c) && NoSweeps(more)
    ensures Inv(After(c, more)) && NobodyLost(After(c, more))
  {
    if more != [] {
      var n := |more| - 1;
      NobodyLostOn(c, more[..n]);
      NobodyLostKept(After(c, more[..n]), more[n]);
      InvKept(After(c, more[..n]), more[n]);
    }
  }

  /** If nobody else runs the bot, somebody new may; either way the release of the lost owner is next. */
  lemma ForeignReleaseFollows(c: Crew, owner: string) returns (more: seq<Move>)
    requires Inv(c) && Lost(c, owner)
    ensures NoSweeps(more) && TakesForeign(After(c, more), Finish(owner))
  {
    var rs, bot := c.ledger.reservations, c.running[owner];
    if Find(rs, bot) < |rs| {
      more := [];
    } else {
      var other := FreshOwner(c.running.Keys + c.done, "");
      var limit := Opened(c.ledger.counters, "", 0)[""].active + 1;
      var attempt := Attempt("", limit, bot, other, 0.0);
      more := [attempt];
      assert more[..0] == [] && After(c, more) == Next(c, attempt);
      GrantIsNew(c, "", limit, bot, other, 0.0);
      var u := Next(c, attempt);
      assert u.ledger.reservations == rs + [Reservation("", bot, other, 0.0, false)];
      AttemptKeeps(c, attempt);
      FindIsHolder(u.ledger.reservations, |rs|);
    }
  }

  lemma FreshOwner(taken: set<string>, x: string) returns (unused: string)
    requires forall t | t in taken :: |x| <= |t|
    ensures unused !in taken && |x| <= |unused|
    decreases |taken|
  {
    if x !in taken {
      unused := x;
    } else {
      var same := set t | t in taken && |t| == |x|;
      var longer := taken - same;
      assert x in same;
      SubsetShrinks(taken, same, x);
      unused := FreshOwner(longer, x + "x");
    }
  }

  lemma SubsetShrinks(taken: set<string>, same: set<string>, x: string)
    requires x in same && x in taken
    ensures |taken - same| < |taken|
  {
    assert taken - same <= taken - {x};
    Smaller(taken - same, taken - {x});
  }

  lemma Smaller(a: set<string>, b: set<string>)
    requires a <= b
    ensures |a| <= |b|
  {
    assert b == a + (b - a);
  }
}

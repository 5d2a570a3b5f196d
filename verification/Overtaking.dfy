/** What the operator's routes can do to the order of a stream. They take any row: replaying a sent or skipped one
    lets a later event overtake it, and skipping a pending one takes its turn away. */
module Overtaking {
  import opened Common
  import opened Delivery
  import opened Window
  import opened Protocol
  import opened Ordering
  import opened FirstDelivery

  ghost predicate NoReplays(steps: seq<Step>) {
    forall n | 0 <= n < |steps| :: !steps[n].ReplayRow?
  }

  ghost predicate NoSkips(steps: seq<Step>) {
    forall n | 0 <= n < |steps| :: !steps[n].SkipRow?
  }

  /** A replay of row `id`, which has status `st`, is followed by a POST of a later row of its stream that
      starts while an earlier one is outstanding. */
  ghost predicate Overtakes(st: DeliveryStatus, before: seq<Step>, id: nat, now: real, after: seq<Step>, i: nat) {
    var s := Run(INIT, before);
    var u := Run(INIT, before + [ReplayRow(id, now)] + after);
    && id in s.table.rows && s.table.rows[id].status == st
    && CarefulRun(before, s.table.rows[id].stream) && NoReplays(after)
    && Enabled(u, Post(i))
    && Belongs(u.table, s.table.rows[id].stream, FlightOf(u, i).row)
    && !Ahead(u.table, s.table.rows[id].stream, FlightOf(u, i).row)
  }

  lemma RunThen(steps: seq<Step>, step: Step)
    ensures Run(INIT, steps + [step]) == Apply(Run(INIT, steps), step)
  {
    assert (steps + [step])[..|steps|] == steps;
  }

  lemma {:induction false} RunOn(s: State, steps: seq<Step>, more: seq<Step>)
    ensures Run(s, steps + more) == Run(Run(s, steps), more)
  {
    if more == [] {
      assert steps + more == steps;
    } else {
      var n := |more| - 1;
      RunOn(s, steps, more[..n]);
      assert (steps + more)[..|steps| + n] == steps + more[..n];
    }
  }

  lemma {:induction false} CarefulThen(before: seq<Step>, id: nat, now: real, after: seq<Step>, k: Stream)
    requires CarefulRun(before, k) && NoReplays(after)
    requires CarefulStep(Run(INIT, before), ReplayRow(id, now), k)
    ensures CarefulRun(before + [ReplayRow(id, now)] + after, k)
  {
    var steps := before + [ReplayRow(id, now)] + after;
    forall n | 0 <= n < |steps| ensures CarefulStep(Run(INIT, steps[..n]), steps[n], k) {
      if n < |before| {
        assert steps[..n] == before[..n];
      } else if n == |before| {
        assert steps[..n] == before;
      } else {
        assert steps[n] == after[n - |before| - 1];
      }
    }
  }

  const STREAM := Stream("bot", "subscription")
  const EVENT := NotesCompleted("bot")
  const FIRST := NewRow(STREAM, EVENT, 1, 0.0)
  const SECOND := NewRow(STREAM, EVENT, 2, 0.0)
  const BORN := [Birth(STREAM, EVENT), Birth(STREAM, EVENT)]
  const TWO_EMITTED := [Emit(["subscription"], EVENT, 0.0), Emit(["subscription"], EVENT, 0.0)]

  ghost function Start(first: Row, senders: map<nat, Sender>, tokens: nat, posts: seq<nat>, recorded: multiset<nat>,
                       acknowledged: set<nat>): State {
    State(Table(map[0 := first, 1 := SECOND], BORN), senders, tokens, posts, multiset{}, recorded, acknowledged)
  }

  lemma EmitOne(s: State, subscription: string)
    ensures Apply(s, Emit([subscription], EVENT, 0.0)) == s.(table := StoreOne(s.table, subscription, EVENT, 0.0))
  {
    assert [subscription][0] == subscription && [subscription][1..] == [];
    var next := StoreOne(s.table, subscription, EVENT, 0.0);
    assert Store(next, [], EVENT, 0.0) == next;
    assert Store(s.table, [subscription], EVENT, 0.0) == next;
  }

  ghost const ONE_STORED := INIT.(table := Table(map[0 := FIRST], [Birth(STREAM, EVENT)]))

  lemma AfterOneEmit()
    ensures Run(INIT, [TWO_EMITTED[0]]) == ONE_STORED
  {
    RunThen([], TWO_EMITTED[0]);
    assert [] + [TWO_EMITTED[0]] == [TWO_EMITTED[0]];
    EmitOne(INIT, "subscription");
  }

  lemma SecondEmit()
    ensures Apply(ONE_STORED, TWO_EMITTED[1]) == Start(FIRST, map[], 0, [], multiset{}, {})
  {
    EmitOne(ONE_STORED, "subscription");
    assert LastSequence(ONE_STORED.table.rows, STREAM, 1) == 1;
    assert map[0 := FIRST][1 := SECOND] == map[0 := FIRST, 1 := SECOND];
  }

  lemma AfterTwoEmits()
    ensures Run(INIT, TWO_EMITTED) == Start(FIRST, map[], 0, [], multiset{}, {})
  {
    AfterOneEmit();
    SecondEmit();
    RunThen([TWO_EMITTED[0]], TWO_EMITTED[1]);
    assert [TWO_EMITTED[0]] + [TWO_EMITTED[1]] == TWO_EMITTED;
  }

  lemma PollsSecond(s: State, first: Row, i: nat)
    requires s.table == Table(map[0 := first, 1 := SECOND], BORN)
    requires Settled(first.status) && Idle(s, i)
    ensures Apply(s, Poll(i, [1], [1], 0.0)) == s.(senders := s.senders[i := Sender([1], None)])
  {
    var rows := s.table.rows;
    assert rows[1] == SECOND;
    assert IsWindow(rows, [1], SEND_BATCH);
    assert IsReady(rows, [1], 0.0, [1]) by {
      assert forall id :: id in [1] <==> id == 1;
    }
  }

  /** Once the second row is polled behind a settled first one, replaying the first lets the second go ahead. */
  lemma SecondOvertakes(before: seq<Step>, first: Row, tokens: nat, posts: seq<nat>, recorded: multiset<nat>,
                        acknowledged: set<nat>)
    requires Run(INIT, before) == Start(first, map[0 := Sender([1], None)], tokens, posts, recorded, acknowledged)
    requires Settled(first.status) && first.stream == STREAM && NoReplays(before)
    ensures Overtakes(first.status, before, 0, 0.0, [Begin(0, 0.0)], 0)
  {
    var s := Run(INIT, before);
    assert Run(INIT, before + [ReplayRow(0, 0.0)] + [Begin(0, 0.0)])
        == Apply(Apply(s, ReplayRow(0, 0.0)), Begin(0, 0.0)) by {
      RunThen(before, ReplayRow(0, 0.0));
      RunThen(before + [ReplayRow(0, 0.0)], Begin(0, 0.0));
    }
    SecondGoesAhead(s, first);
    assert s.table.rows[0] == first;
  }

  lemma SecondGoesAhead(s: State, first: Row)
    requires s.table == Start(first, map[], 0, [], multiset{}, {}).table && first.stream == STREAM
    requires 0 in s.senders && s.senders[0] == Sender([1], None)
    ensures var u := Apply(Apply(s, ReplayRow(0, 0.0)), Begin(0, 0.0));
            && Enabled(u, Post(0)) && FlightOf(u, 0).row == 1
            && Belongs(u.table, STREAM, 1) && !Ahead(u.table, STREAM, 1)
  {
    var t := Apply(s, ReplayRow(0, 0.0));
    assert t.table.rows[0].status == Pending && t.table.rows[1] == SECOND;
    var u := Apply(t, Begin(0, 0.0));
    assert 0 in u.table.rows && u.table.rows[0].status == Pending && u.table.rows[0].stream == STREAM;
    assert FlightOf(u, 0).row == 1;
  }

  lemma SkippedIsOvertaken() returns (before: seq<Step>)
    ensures Overtakes(Skipped, before, 0, 0.0, [Begin(0, 0.0)], 0)
  {
    var skip, poll := SkipRow(0, 0.0), Poll(0, [1], [1], 0.0);
    before := TWO_EMITTED + [skip] + [poll];
    AfterTwoEmits();
    RunThen(TWO_EMITTED, skip);
    RunThen(TWO_EMITTED + [skip], poll);
    var first := FIRST.(status := Skipped, nextTryAt := ROW_TTL_S);
    var s := Run(INIT, TWO_EMITTED + [skip]);
    assert s == Start(first, map[], 0, [], multiset{}, {});
    PollsSecond(s, first, 0);
    SecondOvertakes(before, first, 0, [], multiset{}, {});
  }

  const HELD := FIRST.(leaseToken := Some(0), leaseExpiresAt := Some(SEND_LEASE_TTL_S))
  const DELIVERED := FIRST.(status := Sent)

  lemma FirstIsPolled() returns (steps: seq<Step>)
    ensures NoReplays(steps) && NoSkips(steps)
    ensures Run(INIT, steps) == Start(FIRST, map[0 := Sender([0], None)], 0, [], multiset{}, {})
  {
    var poll := Poll(0, [0, 1], [0], 0.0);
    steps := TWO_EMITTED + [poll];
    AfterTwoEmits();
    PollsFirst(Run(INIT, TWO_EMITTED));
    RunThen(TWO_EMITTED, poll);
  }

  lemma FirstIsLeased() returns (steps: seq<Step>)
    ensures NoReplays(steps) && NoSkips(steps)
    ensures Run(INIT, steps) == Start(HELD, map[0 := Sender([], Some(Flight(0, 0, false)))], 1, [], multiset{}, {})
  {
    var polled := FirstIsPolled();
    steps := polled + [Begin(0, 0.0)];
    RunThen(polled, Begin(0, 0.0));
    var s := Run(INIT, polled);
    assert s.senders[0].todo[0] == 0 && s.senders[0].todo[1..] == [];
    assert CanLease(s.table.rows, 0, 0.0);
    assert Lease(s.table, 0, 0, 0.0).rows == map[0 := HELD, 1 := SECOND];
  }

  lemma FirstIsPosted() returns (steps: seq<Step>)
    ensures NoReplays(steps) && NoSkips(steps)
    ensures Run(INIT, steps) == Start(HELD, map[0 := Sender([], Some(Flight(0, 0, true)))], 1, [0], multiset{}, {})
  {
    var leased := FirstIsLeased();
    steps := leased + [Post(0)];
    RunThen(leased, Post(0));
  }

  lemma FirstIsDelivered() returns (steps: seq<Step>)
    ensures NoReplays(steps)
    ensures Run(INIT, steps) == Start(DELIVERED, map[0 := Sender([], None)], 1, [0], multiset{0}, {0})
  {
    var posted := FirstIsPosted();
    var finish := Finish(0, Reply(200, None), 0.0, 0.0);
    steps := posted + [finish];
    RunThen(posted, finish);
    var s := Run(INIT, posted);
    assert AfterReply(HELD, finish.reply, 0.0, 0.0) == DELIVERED;
    assert Apply(s, finish).table.rows == map[0 := DELIVERED, 1 := SECOND];
  }

  lemma SentIsOvertaken() returns (before: seq<Step>)
    ensures Overtakes(Sent, before, 0, 0.0, [Begin(0, 0.0)], 0)
  {
    var done := FirstIsDelivered();
    var poll := Poll(0, [1], [1], 0.0);
    before := done + [poll];
    RunThen(done, poll);
    PollsSecond(Run(INIT, done), DELIVERED, 0);
    SecondOvertakes(before, DELIVERED, 1, [0], multiset{0}, {0});
  }

  lemma PollsFirst(s: State)
    requires s == Start(FIRST, map[], 0, [], multiset{}, {})
    ensures Apply(s, Poll(0, [0, 1], [0], 0.0)) == s.(senders := map[0 := Sender([0], None)])
  {
    var rows := s.table.rows;
    assert rows[0] == FIRST && rows[1] == SECOND;
    assert IsWindow(rows, [0, 1], SEND_BATCH);
    assert IsReady(rows, [0, 1], 0.0, [0]) by {
      assert 0 in [0, 1] && 1 in [0, 1];
      assert forall id :: id in [0] <==> id == 0;
    }
  }

  // ----- when a replay lets later events overtake

  /** Sender `i` can come to POST row `x` with no further help: its attempt is granted, or it lists the row and
      the row may still be sent. */
  ghost predicate MayPost(s: State, i: nat, x: nat) {
    && i in s.senders
    && (|| (Flying(s, i) && !FlightOf(s, i).posted && FlightOf(s, i).row == x)
        || (x in s.senders[i].todo && x in s.table.rows && Sendable(s.table.rows[x].status)))
  }

  ghost predicate AllAhead(s: State, k: Stream) {
    forall i: nat, x: nat | MayPost(s, i, x) && Belongs(s.table, k, x) :: Ahead(s.table, k, x)
  }

  lemma SendableSteps(s: State, step: Step, x: nat)
    requires Inv(s) && !step.ReplayRow? && x < |s.table.births|
    requires x in Apply(s, step).table.rows && Sendable(Apply(s, step).table.rows[x].status)
    ensures x in s.table.rows && Sendable(s.table.rows[x].status)
  {
    if x in s.table.rows {
      RowSteps(s, step, x);
    } else {
      NewRowSteps(s, step, x);
    }
  }

  lemma MayPostSteps(s: State, step: Step, i: nat, x: nat)
    requires Inv(s) && !step.ReplayRow? && MayPost(Apply(s, step), i, x)
    ensures MayPost(s, i, x) || (step.Poll? && Enabled(s, step) && x in step.ready)
  {
    var u := Apply(s, step);
    if Flying(u, i) && !FlightOf(u, i).posted && FlightOf(u, i).row == x {
      FlightSteps(s, step, i);
    } else {
      TodoSteps(s, step, i, x);
      if i in s.senders && x in s.senders[i].todo {
        SendableSteps(s, step, x);
      }
    }
  }

  lemma AllAheadKept(s: State, step: Step, k: Stream)
    requires Inv(s) && !step.ReplayRow? && AllAhead(s, k)
    ensures AllAhead(Apply(s, step), k)
  {
    TableSteps(s, step);
    var u := Apply(s, step);
    forall i: nat, x: nat | MayPost(u, i, x) && Belongs(u.table, k, x) ensures Ahead(u.table, k, x) {
      MayPostSteps(s, step, i, x);
      if MayPost(s, i, x) {
        assert x < |s.table.births|;
        assert Belongs(s.table, k, x);
      } else {
        assert IsHead(s.table.rows, step.window, x);
        PolledIsAhead(s, step, k, x);
      }
      AheadStays(s, step, k, x);
    }
  }

  lemma {:induction false} AllAheadOn(s: State, after: seq<Step>, k: Stream)
    requires Inv(s) && AllAhead(s, k) && NoReplays(after)
    ensures Inv(Run(s, after)) && AllAhead(Run(s, after), k)
  {
    if after != [] {
      var n := |after| - 1;
      AllAheadOn(s, after[..n], k);
      InvKept(Run(s, after[..n]), after[n]);
      AllAheadKept(Run(s, after[..n]), after[n], k);
    }
  }

  /** A sender works off each row of its list once. */
  ghost predicate Orderly(s: State) {
    forall i | i in s.senders ::
      NoDuplicates(s.senders[i].todo) && (Flying(s, i) ==> FlightOf(s, i).row !in s.senders[i].todo)
  }

  lemma OrderlyKept(s: State, step: Step)
    requires Orderly(s)
    ensures Orderly(Apply(s, step))
  {
  }

  lemma {:induction false} OrderlyAlways(steps: seq<Step>)
    ensures Orderly(Run(INIT, steps))
  {
    if steps != [] {
      OrderlyAlways(steps[..|steps| - 1]);
      OrderlyKept(Run(INIT, steps[..|steps| - 1]), steps[|steps| - 1]);
    }
  }

  /** How much sender `i` has to do before it is through with its list. */
  ghost function Work(s: State, i: nat): nat
    requires i in s.senders
  {
    3 * |s.senders[i].todo| + if !Flying(s, i) then 0 else if FlightOf(s, i).posted then 1 else 2
  }

  /** One step by which sender `i` gets nearer to row `x` on its list, touching neither `x` nor `id`. */
  lemma NextTowards(s: State, i: nat, x: nat, id: nat) returns (step: Step)
    requires Orderly(s) && MayPost(s, i, x) && !(Flying(s, i) && FlightOf(s, i).row == x)
    requires id != x && id in s.table.rows && s.table.rows[id].leaseToken.None?
    ensures var u := Apply(s, step);
            && !step.ReplayRow? && Orderly(u) && MayPost(u, i, x)
            && u.table.births == s.table.births && id in u.table.rows && u.table.rows[id] == s.table.rows[id]
            && (Work(u, i) < Work(s, i) || (Flying(u, i) && FlightOf(u, i).row == x))
  {
    var todo := s.senders[i].todo;
    if Flying(s, i) {
      step := if FlightOf(s, i).posted then Finish(i, Reply(200, None), 0.0, 0.0) else Post(i);
    } else if todo[0] == x {
      var expiry := s.table.rows[x].leaseExpiresAt;
      step := Begin(i, if expiry.Some? then expiry.value else 0.0);
    } else {
      step := Pass(i);
    }
    OrderlyKept(s, step);
  }

  lemma {:induction false} PostsInTime(s: State, i: nat, x: nat, id: nat) returns (after: seq<Step>)
    requires Orderly(s) && MayPost(s, i, x) && (Flying(s, i) && FlightOf(s, i).row == x ==> !FlightOf(s, i).posted)
    requires id != x && id in s.table.rows && s.table.rows[id].leaseToken.None?
    ensures NoReplays(after)
    ensures var u := Run(s, after);
            && Enabled(u, Post(i)) && FlightOf(u, i).row == x
            && u.table.births == s.table.births && id in u.table.rows && u.table.rows[id] == s.table.rows[id]
    decreases Work(s, i)
  {
    if Flying(s, i) && FlightOf(s, i).row == x {
      after := [];
    } else {
      var step := NextTowards(s, i, x, id);
      var u := Apply(s, step);
      assert [step][..0] == [] && Run(s, [step]) == u;
      if Flying(u, i) && FlightOf(u, i).row == x {
        after := [step];
      } else {
        var rest := PostsInTime(u, i, x, id);
        after := [step] + rest;
        RunOn(s, [step], rest);
      }
    }
  }

  /** Exactly when replaying a row of a stream treated carefully so far lets a later one overtake it: the row is
      sent or skipped, and some sender holds an unposted attempt on a later row of the stream, or lists one that
      may still be sent. */
  lemma ReplayOvertakesExactly(before: seq<Step>, id: nat, now: real)
    requires id in Run(INIT, before).table.rows && CarefulRun(before, Run(INIT, before).table.rows[id].stream)
    ensures var s := Run(INIT, before);
            var row := s.table.rows[id];
            (exists after, i :: Overtakes(row.status, before, id, now, after, i))
            <==> Settled(row.status)
                 && exists i: nat, x: nat :: MayPost(s, i, x) && Belongs(s.table, row.stream, x) && id < x
  {
    var s := Run(INIT, before);
    var row := s.table.rows[id];
    if after, i :| Overtakes(row.status, before, id, now, after, i) {
      OvertakingNeeds(before, id, now, after, i);
    }
    if Settled(row.status) {
      if i: nat, x: nat :| MayPost(s, i, x) && Belongs(s.table, row.stream, x) && id < x {
        var after := ReplayedIsOvertaken(before, id, now, i, x);
      }
    }
  }

  lemma OvertakingNeeds(before: seq<Step>, id: nat, now: real, after: seq<Step>, i: nat)
    requires id in Run(INIT, before).table.rows
    requires Overtakes(Run(INIT, before).table.rows[id].status, before, id, now, after, i)
    ensures var s := Run(INIT, before);
            var row := s.table.rows[id];
            Settled(row.status)
            && exists i: nat, x: nat :: MayPost(s, i, x) && Belongs(s.table, row.stream, x) && id < x
  {
    var s := Run(INIT, before);
    var k := s.table.rows[id].stream;
    var u := Apply(s, ReplayRow(id, now));
    OvertakenIsSettled(before, id, now, after, i);
    InvAlways(before);
    InOrderAlways(before, k);
    InvKept(s, ReplayRow(id, now));
    if forall j: nat, x: nat | MayPost(s, j, x) && Belongs(s.table, k, x) :: x <= id {
      ReplayKeepsAhead(s, id, now);
      AllAheadOn(u, after, k);
      assert Run(INIT, before + [ReplayRow(id, now)] + after) == Run(u, after) by {
        RunThen(before, ReplayRow(id, now));
        RunOn(INIT, before + [ReplayRow(id, now)], after);
      }
      AheadOfPost(Run(u, after), i, k);
      assert false;
    }
  }

  lemma AheadOfPost(s: State, i: nat, k: Stream)
    requires AllAhead(s, k) && Enabled(s, Post(i)) && Belongs(s.table, k, FlightOf(s, i).row)
    ensures Ahead(s.table, k, FlightOf(s, i).row)
  {
    assert MayPost(s, i, FlightOf(s, i).row);
  }

  lemma OvertakenIsSettled(before: seq<Step>, id: nat, now: real, after: seq<Step>, i: nat)
    requires id in Run(INIT, before).table.rows
    requires Overtakes(Run(INIT, before).table.rows[id].status, before, id, now, after, i)
    ensures Settled(Run(INIT, before).table.rows[id].status)
  {
    var row := Run(INIT, before).table.rows[id];
    if !Settled(row.status) {
      CarefulThen(before, id, now, after, row.stream);
      OrderedDelivery(before + [ReplayRow(id, now)] + after, i, row.stream);
    }
  }

  lemma ReplayKeepsAhead(s: State, id: nat, now: real)
    requires id in s.table.rows && InOrder(s, s.table.rows[id].stream)
    requires forall i: nat, x: nat | MayPost(s, i, x) && Belongs(s.table, s.table.rows[id].stream, x) :: x <= id
    ensures AllAhead(Apply(s, ReplayRow(id, now)), s.table.rows[id].stream)
  {
    var u, k := Apply(s, ReplayRow(id, now)), s.table.rows[id].stream;
    forall i: nat, x: nat | MayPost(u, i, x) && Belongs(u.table, k, x) ensures Ahead(u.table, k, x) {
      assert ArmedBy(s, i, x) && Belongs(s.table, k, x);
      assert x != id ==> MayPost(s, i, x);
    }
  }

  lemma ReplayedIsOvertaken(before: seq<Step>, id: nat, now: real, i: nat, x: nat) returns (after: seq<Step>)
    requires id in Run(INIT, before).table.rows && CarefulRun(before, Run(INIT, before).table.rows[id].stream)
    requires var s := Run(INIT, before);
             && Settled(s.table.rows[id].status) && MayPost(s, i, x)
             && id < x && Belongs(s.table, s.table.rows[id].stream, x)
    ensures Overtakes(Run(INIT, before).table.rows[id].status, before, id, now, after, i)
  {
    var s := Run(INIT, before);
    var u := Apply(s, ReplayRow(id, now));
    OrderlyAlways(before);
    OrderlyKept(s, ReplayRow(id, now));
    after := PostsInTime(u, i, x, id);
    RunThen(before, ReplayRow(id, now));
    RunOn(INIT, before + [ReplayRow(id, now)], after);
    assert u.table.rows[id].status == Pending;
  }

  /** Which replays are safe: no run in which a row of status `st` is replayed can overtake, exactly when the
      status is not sent or skipped. */
  lemma ReplayIsSafeExactly(st: DeliveryStatus)
    ensures (forall before, id, now, after, i :: !Overtakes(st, before, id, now, after, i)) <==> !Settled(st)
  {
    if st == Sent {
      var before := SentIsOvertaken();
    } else if st == Skipped {
      var before := SkippedIsOvertaken();
    } else {
      forall before, id, now, after, i ensures !Overtakes(st, before, id, now, after, i) {
        if Overtakes(st, before, id, now, after, i) {
          OvertakingNeeds(before, id, now, after, i);
        }
      }
    }
  }

  // ----- when a skip disturbs first deliveries

  /** Row `id`, which has status `st`, is skipped in a run that is faithful but for this skip, and the first POSTs
      of its stream are not its rows in creation order. */
  ghost predicate Misplaces(st: DeliveryStatus, before: seq<Step>, id: nat, now: real, after: seq<Step>) {
    var s, steps := Run(INIT, before), before + [SkipRow(id, now)] + after;
    && id in s.table.rows && s.table.rows[id].status == st
    && (forall n | 0 <= n < |steps| && n != |before| ::
          FaithfulStep(Run(INIT, steps[..n]), steps[n], s.table.rows[id].stream))
    && !InCreationOrder(Run(INIT, steps), s.table.rows[id].stream)
  }

  /** Which skips leave first deliveries alone: no run in which a row of status `st` is skipped has them out of
      order or leaves a gap, exactly when the status is not pending. */
  lemma SkipIsSafeExactly(st: DeliveryStatus)
    ensures (forall before, id, now, after :: !Misplaces(st, before, id, now, after)) <==> st != Pending
  {
    if st == Pending {
      var before, after := SkipReordersFirstPosts();
    } else {
      forall before, id, now, after ensures !Misplaces(st, before, id, now, after) {
        if Misplaces(st, before, id, now, after) {
          var k, steps := Run(INIT, before).table.rows[id].stream, before + [SkipRow(id, now)] + after;
          assert steps[..|before|] == before && steps[|before|] == SkipRow(id, now);
          FirstPostsInCreationOrder(steps, k);
        }
      }
    }
  }

  /** A row skipped between its lease and its POST is still posted, here after the row behind it. */
  lemma SkipReordersFirstPosts() returns (before: seq<Step>, after: seq<Step>)
    ensures Misplaces(Pending, before, 0, 0.0, after)
    ensures var s := Run(INIT, before + [SkipRow(0, 0.0)] + after);
            FirstPosts(s.posts, s.table.births, STREAM) == [1, 0]
  {
    before := FirstIsLeased();
    after := [Poll(1, [1], [1], 0.0), Begin(1, 0.0), Post(1), Post(0)];
    PostsBackwards(before, after);
    PostedBackwards();
    OnlyThatSkip(before, after, STREAM);
    assert 0 in Run(INIT, before).table.rows && Run(INIT, before).table.rows[0] == HELD;
  }

  lemma PostsBackwards(before: seq<Step>, after: seq<Step>)
    requires Run(INIT, before) == Start(HELD, map[0 := Sender([], Some(Flight(0, 0, false)))], 1, [], multiset{}, {})
    requires after == [Poll(1, [1], [1], 0.0), Begin(1, 0.0), Post(1), Post(0)]
    ensures var s := Run(INIT, before + [SkipRow(0, 0.0)] + after);
            s.posts == [1, 0] && s.table.births == BORN
  {
    var skipped := before + [SkipRow(0, 0.0)];
    SkippedWhileLeased(before);
    OvertakeSkipped(skipped + [after[0]], FIRST.(status := Skipped, nextTryAt := ROW_TTL_S));
    assert skipped + after == skipped + [after[0]] + [Begin(1, 0.0)] + [Post(1)] + [Post(0)];
  }

  lemma OnlyThatSkip(before: seq<Step>, after: seq<Step>, k: Stream)
    requires NoSkips(before) && NoSkips(after)
    ensures var steps := before + [SkipRow(0, 0.0)] + after;
            forall n | 0 <= n < |steps| && n != |before| :: FaithfulStep(Run(INIT, steps[..n]), steps[n], k)
  {
    var steps := before + [SkipRow(0, 0.0)] + after;
    forall n | 0 <= n < |steps| && n != |before| ensures !steps[n].SkipRow? {
      if n > |before| {
        assert steps[n] == after[n - |before| - 1];
      }
    }
  }

  lemma SkippedWhileLeased(leased: seq<Step>)
    requires Run(INIT, leased) == Start(HELD, map[0 := Sender([], Some(Flight(0, 0, false)))], 1, [], multiset{}, {})
    ensures Run(INIT, leased + [SkipRow(0, 0.0)] + [Poll(1, [1], [1], 0.0)])
            == Start(FIRST.(status := Skipped, nextTryAt := ROW_TTL_S),
                     map[0 := Sender([], Some(Flight(0, 0, false))), 1 := Sender([1], None)],
                     1, [], multiset{}, {})
  {
    var skipped := leased + [SkipRow(0, 0.0)];
    RunThen(leased, SkipRow(0, 0.0));
    RunThen(skipped, Poll(1, [1], [1], 0.0));
    PollsSecond(Run(INIT, skipped), FIRST.(status := Skipped, nextTryAt := ROW_TTL_S), 1);
  }

  lemma PostedBackwards()
    ensures FirstPosts([1, 0], BORN, STREAM) == [1, 0] && !([1, 0] <= Created(BORN, STREAM))
  {
    assert [1, 0][..1] == [1] && [1][..0] == [];
    assert FirstPosts([], BORN, STREAM) == [];
    assert FirstPosts([1], BORN, STREAM) == [1];
    CreatedInOrder(BORN, STREAM);
  }

  lemma OvertakeSkipped(before: seq<Step>, first: Row)
    requires first.stream == STREAM
    requires Run(INIT, before)
             == Start(first, map[0 := Sender([], Some(Flight(0, 0, false))), 1 := Sender([1], None)],
                      1, [], multiset{}, {})
    ensures var s := Run(INIT, before + [Begin(1, 0.0)] + [Post(1)] + [Post(0)]);
            s.posts == [1, 0] && s.table.births == BORN
  {
    var begun := before + [Begin(1, 0.0)];
    var posted := begun + [Post(1)];
    RunThen(before, Begin(1, 0.0));
    RunThen(begun, Post(1));
    RunThen(posted, Post(0));
    assert FlightOf(Run(INIT, begun), 1) == Flight(1, 1, false);
    assert FlightOf(Run(INIT, posted), 0) == Flight(0, 0, false);
  }

  // ----- why order is stated by creation

  /** The purge lets a stream use a sequence number again: the only row is skipped and purged, and the next one
      gets its number. */
  lemma SequenceIsReused() returns (before: seq<Step>, after: seq<Step>)
    ensures var s, u := Run(INIT, before), Run(INIT, before + after);
            && 0 in s.table.rows && 1 !in s.table.rows && 0 !in u.table.rows && 1 in u.table.rows
            && s.table.rows[0].stream == u.table.rows[1].stream
            && s.table.rows[0].sequence == u.table.rows[1].sequence
  {
    before := [TWO_EMITTED[0]];
    var skip, purge, emit := SkipRow(0, 0.0), PurgeRows(ROW_TTL_S + 1.0), TWO_EMITTED[1];
    after := [skip, purge, emit];
    assert before + after == before + [skip] + [purge] + [emit];
    AfterOneEmit();
    RunThen(before, skip);
    RunThen(before + [skip], purge);
    RunThen(before + [skip] + [purge], emit);
    var purged := Run(INIT, before + [skip] + [purge]);
    assert purged.table == Table(map[], [Birth(STREAM, EVENT)]);
    EmitOne(purged, "subscription");
    assert LastSequence(purged.table.rows, STREAM, 1) == 0;
  }
}

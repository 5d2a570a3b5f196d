/** What skips do to the order of first deliveries, beyond the gap each leaves by design: a skip of a row that was
    never posted can bring later rows ahead of it only if an attempt on it is under way, or it is replayed. */
module Skipping {
  import opened Common
  import opened Delivery
  import opened Window
  import opened Protocol
  import opened Ordering
  import opened FirstDelivery
  import opened Overtaking

  /** Sender `i` holds an attempt on the row that was granted and not posted yet. */
  predicate AboutToPost(s: State, i: nat, id: nat) {
    Flying(s, i) && !FlightOf(s, i).posted && FlightOf(s, i).row == id
  }

  /** No row of the stream is skipped before its first POST while an attempt on it is about to post, and none so
      skipped is replayed. */
  ghost predicate MildStep(s: State, step: Step, k: Stream) {
    && (step.SkipRow? && step.row in s.table.rows && s.table.rows[step.row].stream == k && step.row !in s.posts ==>
          forall i :: !AboutToPost(s, i, step.row))
    && (step.ReplayRow? && step.row in s.table.rows && s.table.rows[step.row].stream == k && step.row !in s.posts ==>
          s.table.rows[step.row].status != Skipped)
  }

  ghost predicate MildRun(steps: seq<Step>, k: Stream) {
    forall n | 0 <= n < |steps| :: MildStep(Run(INIT, steps[..n]), steps[n], k)
  }

  /** The row was skipped before its first POST, and will not be posted any more. */
  ghost predicate Abandoned(s: State, id: nat) {
    && id !in s.posts
    && (id in s.table.rows ==> s.table.rows[id].status == Skipped)
    && forall i :: !AboutToPost(s, i, id)
  }

  ghost predicate DoneWith(s: State, id: nat) {
    id in s.posts || Abandoned(s, id)
  }

  /** Every row of the stream is pending, posted or abandoned. */
  ghost predicate Waiting(s: State, k: Stream) {
    forall id: nat | Belongs(s.table, k, id) && !DoneWith(s, id) ::
      id in s.table.rows && s.table.rows[id].status == Pending
  }

  ghost predicate Passed(s: State, k: Stream, id: nat) {
    forall j: nat | j < id && Belongs(s.table, k, j) :: DoneWith(s, j)
  }

  ghost predicate ArmedPassed(s: State, k: Stream) {
    forall i: nat, id: nat | ArmedBy(s, i, id) && Belongs(s.table, k, id) :: Passed(s, k, id)
  }

  /** Before the POST number `n`, of a row of the stream, every earlier row of it had been posted, unless it is not
      posted at all. */
  ghost predicate InTurn(t: Table, posts: seq<nat>, k: Stream, n: nat)
    requires n < |posts|
  {
    forall j: nat | j < posts[n] && Belongs(t, k, j) && j in posts :: j in posts[..n]
  }

  ghost predicate PostsInTurn(t: Table, posts: seq<nat>, k: Stream) {
    forall n: nat | n < |posts| && Belongs(t, k, posts[n]) :: InTurn(t, posts, k, n)
  }

  /** Whatever was passed over is abandoned now. */
  ghost predicate PostsPassed(s: State, k: Stream) {
    forall n: nat | n < |s.posts| && Belongs(s.table, k, s.posts[n]) :: PassedAt(s, k, n)
  }

  ghost predicate PassedAt(s: State, k: Stream, n: nat)
    requires n < |s.posts|
  {
    forall j: nat | j < s.posts[n] && Belongs(s.table, k, j) :: j in s.posts[..n] || Abandoned(s, j)
  }

  ghost predicate Mild(s: State, k: Stream) {
    Inv(s) && Waiting(s, k) && ArmedPassed(s, k) && PostsPassed(s, k)
  }

  lemma AboutToPostSteps(s: State, step: Step, i: nat, id: nat)
    requires AboutToPost(Apply(s, step), i, id)
    ensures AboutToPost(s, i, id) || (id in s.table.rows && Sendable(s.table.rows[id].status))
  {
    FlightSteps(s, step, i);
  }

  lemma AbandonedStays(s: State, step: Step, k: Stream, id: nat)
    requires Inv(s) && Belongs(s.table, k, id) && Abandoned(s, id) && MildStep(s, step, k)
    ensures Abandoned(Apply(s, step), id)
  {
    var u := Apply(s, step);
    PostsGrow(s, step);
    forall i ensures !AboutToPost(u, i, id) {
      if AboutToPost(u, i, id) {
        AboutToPostSteps(s, step, i, id);
      }
    }
    assert step.Post? && Enabled(s, step) ==> AboutToPost(s, step.sender, FlightOf(s, step.sender).row);
    if id in s.table.rows {
      RowSteps(s, step, id);
      assert s.table.rows[id].leaseToken.None?;
    } else if id in u.table.rows {
      NewRowSteps(s, step, id);
    }
  }

  lemma DoneStays(s: State, step: Step, k: Stream, id: nat)
    requires Inv(s) && Belongs(s.table, k, id) && DoneWith(s, id) && MildStep(s, step, k)
    ensures DoneWith(Apply(s, step), id)
  {
    PostsGrow(s, step);
    if id !in s.posts {
      AbandonedStays(s, step, k, id);
    }
  }

  lemma WaitingKept(s: State, step: Step, k: Stream)
    requires Inv(s) && Waiting(s, k) && MildStep(s, step, k)
    ensures Waiting(Apply(s, step), k)
  {
    TableSteps(s, step);
    PostsGrow(s, step);
    var u := Apply(s, step);
    forall id: nat | Belongs(u.table, k, id) && !DoneWith(u, id)
      ensures id in u.table.rows && u.table.rows[id].status == Pending
    {
      if id < |s.table.births| {
        assert Belongs(s.table, k, id);
        if DoneWith(s, id) {
          DoneStays(s, step, k, id);
        } else if step.SkipRow? && step.row == id {
          SkipAbandons(s, step, k);
        } else {
          PendingStays(s, step, id);
        }
      }
    }
  }

  lemma SkipAbandons(s: State, step: Step, k: Stream)
    requires step.SkipRow? && step.row in s.table.rows && s.table.rows[step.row].stream == k && step.row !in s.posts
    requires MildStep(s, step, k)
    ensures Abandoned(Apply(s, step), step.row)
  {
    assert forall i :: !AboutToPost(s, i, step.row);
    assert Apply(s, step).senders == s.senders;
    forall i ensures !AboutToPost(Apply(s, step), i, step.row) {
      assert !AboutToPost(s, i, step.row);
    }
  }

  lemma PassedStays(s: State, step: Step, k: Stream, id: nat)
    requires Inv(s) && id < |s.table.births| && Passed(s, k, id) && MildStep(s, step, k)
    ensures Passed(Apply(s, step), k, id)
  {
    TableSteps(s, step);
    var u := Apply(s, step);
    forall j: nat | j < id && Belongs(u.table, k, j) ensures DoneWith(u, j) {
      assert Belongs(s.table, k, j);
      DoneStays(s, step, k, j);
    }
  }

  lemma PolledIsPassed(s: State, step: Step, k: Stream, id: nat)
    requires Inv(s) && Waiting(s, k)
    requires step.Poll? && Enabled(s, step) && id in step.ready && Belongs(s.table, k, id)
    ensures Passed(s, k, id)
  {
    PolledIsAhead(s, step, k, id);
  }

  lemma ArmedPassedKept(s: State, step: Step, k: Stream)
    requires Inv(s) && Waiting(s, k) && ArmedPassed(s, k) && MildStep(s, step, k)
    ensures ArmedPassed(Apply(s, step), k)
  {
    TableSteps(s, step);
    var u := Apply(s, step);
    forall i: nat, id: nat | ArmedBy(u, i, id) && Belongs(u.table, k, id) ensures Passed(u, k, id) {
      ArmedSteps(s, step, i, id);
      if ArmedBy(s, i, id) {
        assert id < |s.table.births|;
        assert Belongs(s.table, k, id);
      } else {
        assert IsHead(s.table.rows, step.window, id);
        PolledIsPassed(s, step, k, id);
      }
      PassedStays(s, step, k, id);
    }
  }

  lemma PassedAtStays(s: State, step: Step, k: Stream, n: nat)
    requires Inv(s) && n < |s.posts| && PassedAt(s, k, n) && MildStep(s, step, k)
    ensures n < |Apply(s, step).posts| && PassedAt(Apply(s, step), k, n)
  {
    TableSteps(s, step);
    PostsGrow(s, step);
    var u := Apply(s, step);
    assert s.posts[n] in s.posts && u.posts[n] == s.posts[n] && u.posts[..n] == s.posts[..n];
    forall j: nat | j < u.posts[n] && Belongs(u.table, k, j) ensures j in u.posts[..n] || Abandoned(u, j) {
      assert Belongs(s.table, k, j);
      if j !in s.posts[..n] {
        AbandonedStays(s, step, k, j);
      }
    }
  }

  lemma NewPostIsPassed(s: State, step: Step, k: Stream)
    requires Inv(s) && ArmedPassed(s, k) && MildStep(s, step, k)
    requires step.Post? && Enabled(s, step) && Belongs(s.table, k, FlightOf(s, step.sender).row)
    ensures var n := |s.posts|;
            n < |Apply(s, step).posts| && PassedAt(Apply(s, step), k, n)
  {
    var u, n, id := Apply(s, step), |s.posts|, FlightOf(s, step.sender).row;
    assert ArmedBy(s, step.sender, id);
    assert u.posts[..n] == s.posts && u.table == s.table;
    forall j: nat | j < u.posts[n] && Belongs(u.table, k, j) ensures j in u.posts[..n] || Abandoned(u, j) {
      assert DoneWith(s, j);
      if j !in s.posts {
        AbandonedStays(s, step, k, j);
      }
    }
  }

  lemma PostsPassedKept(s: State, step: Step, k: Stream)
    requires Inv(s) && ArmedPassed(s, k) && PostsPassed(s, k) && MildStep(s, step, k)
    ensures PostsPassed(Apply(s, step), k)
  {
    TableSteps(s, step);
    PostsGrow(s, step);
    var u := Apply(s, step);
    forall n: nat | n < |u.posts| && Belongs(u.table, k, u.posts[n]) ensures PassedAt(u, k, n) {
      if n < |s.posts| {
        assert s.posts[n] in s.posts && u.posts[n] == s.posts[n];
        assert Belongs(s.table, k, s.posts[n]);
        PassedAtStays(s, step, k, n);
      } else {
        NewPostIsPassed(s, step, k);
      }
    }
  }

  lemma MildKept(s: State, step: Step, k: Stream)
    requires Mild(s, k) && MildStep(s, step, k)
    ensures Mild(Apply(s, step), k)
  {
    InvKept(s, step);
    WaitingKept(s, step, k);
    ArmedPassedKept(s, step, k);
    PostsPassedKept(s, step, k);
  }

  lemma MildPrefix(steps: seq<Step>, k: Stream)
    requires steps != [] && MildRun(steps, k)
    ensures MildRun(steps[..|steps| - 1], k)
    ensures MildStep(Run(INIT, steps[..|steps| - 1]), steps[|steps| - 1], k)
  {
    var before := steps[..|steps| - 1];
    forall n | 0 <= n < |before| ensures MildStep(Run(INIT, before[..n]), before[n], k) {
      assert before[..n] == steps[..n];
    }
  }

  lemma {:induction false} MildAlways(steps: seq<Step>, k: Stream)
    requires MildRun(steps, k)
    ensures Mild(Run(INIT, steps), k)
  {
    if steps != [] {
      MildPrefix(steps, k);
      MildAlways(steps[..|steps| - 1], k);
      MildKept(Run(INIT, steps[..|steps| - 1]), steps[|steps| - 1], k);
    }
  }

  lemma {:induction false} InTurnIsIncreasing(t: Table, posts: seq<nat>, k: Stream)
    requires PostsInTurn(t, posts, k)
    ensures Increasing(FirstPosts(posts, t.births, k))
  {
    if posts != [] {
      var n := |posts| - 1;
      forall m: nat | m < n && Belongs(t, k, posts[..n][m]) ensures InTurn(t, posts[..n], k, m) {
        assert InTurn(t, posts, k, m) && posts[..n][..m] == posts[..m];
        assert forall j | j in posts[..n] :: j in posts;
      }
      InTurnIsIncreasing(t, posts[..n], k);
      FirstPostsElements(posts[..n], t.births, k);
      var done, id := FirstPosts(posts[..n], t.births, k), posts[n];
      if Belongs(t, k, id) && id !in posts[..n] {
        forall i | 0 <= i < |done| ensures done[i] < id {
          assert done[i] in done;
          var m: nat :| m < n && posts[m] == done[i];
          assert InTurn(t, posts, k, m) && id in posts;
        }
      }
    }
  }

  /** First POSTs of a stream keep the order of creation through any number of skips, replays and purges, though
      skips leave gaps, as long as no row is skipped while its first POST is about to start, and none skipped
      before its first POST is replayed. */
  lemma FirstPostsKeepOrder(steps: seq<Step>, k: Stream)
    requires MildRun(steps, k)
    ensures var s := Run(INIT, steps);
            Increasing(FirstPosts(s.posts, s.table.births, k))
  {
    MildAlways(steps, k);
    MildIsIncreasing(Run(INIT, steps), k);
  }

  // ----- exactly when a skip can bring later rows ahead

  /** Row `id` of `s` is skipped, all other skips are faithful, it is not replayed, and the first POSTs of its
      stream end up out of order. */
  ghost predicate Disorders(before: seq<Step>, id: nat, now: real, after: seq<Step>) {
    var s, u := Run(INIT, before), Run(INIT, before + [SkipRow(id, now)]);
    && id in s.table.rows
    && var k := s.table.rows[id].stream;
    && FaithfulAfter(u, after, k, id)
    && !Increasing(FirstPosts(Run(u, after).posts, Run(u, after).table.births, k))
  }

  ghost predicate FaithfulAfter(u: State, after: seq<Step>, k: Stream, id: nat) {
    forall n | 0 <= n < |after| ::
      FaithfulStep(Run(u, after[..n]), after[n], k) && !(after[n].ReplayRow? && after[n].row == id)
  }

  /** Rows of the stream not posted yet are in the table and pending, but for `id`. */
  ghost predicate UnpostedPendingBut(s: State, k: Stream, id: nat) {
    forall x: nat | Belongs(s.table, k, x) && x != id && x !in s.posts ::
      x in s.table.rows && s.table.rows[x].status == Pending
  }

  lemma UnpostedPendingButKept(s: State, step: Step, k: Stream, id: nat)
    requires Inv(s) && UnpostedPendingBut(s, k, id) && FaithfulStep(s, step, k)
    ensures UnpostedPendingBut(Apply(s, step), k, id)
  {
    PostsGrow(s, step);
    TableSteps(s, step);
    var u := Apply(s, step);
    forall x: nat | Belongs(u.table, k, x) && x != id && x !in u.posts
      ensures x in u.table.rows && u.table.rows[x].status == Pending
    {
      if x < |s.table.births| {
        assert Belongs(s.table, k, x);
        PendingStays(s, step, x);
      }
    }
  }

  lemma FaithfulIsMild(s: State, step: Step, k: Stream, id: nat)
    requires Inv(s) && UnpostedPendingBut(s, k, id) && FaithfulStep(s, step, k)
    requires !(step.ReplayRow? && step.row == id) && (step.SkipRow? && step.row == id ==> Abandoned(s, id))
    ensures MildStep(s, step, k)
  {
    if (step.ReplayRow? || step.SkipRow?) && step.row in s.table.rows && s.table.rows[step.row].stream == k {
      assert Belongs(s.table, k, step.row);
    }
  }

  /** A faithful run skips no row before its first POST, so it is mild. */
  lemma FaithfulRunIsMild(steps: seq<Step>, k: Stream)
    requires FaithfulRun(steps, k)
    ensures MildRun(steps, k)
  {
    forall n | 0 <= n < |steps| ensures MildStep(Run(INIT, steps[..n]), steps[n], k) {
      var s, step := Run(INIT, steps[..n]), steps[n];
      forall m | 0 <= m < n ensures FaithfulStep(Run(INIT, steps[..n][..m]), steps[..n][m], k) {
        assert steps[..n][..m] == steps[..m];
      }
      GaplessAlways(steps[..n], k);
      InvAlways(steps[..n]);
      FaithfulIsMild(s, step, k, if step.ReplayRow? || step.SkipRow? then step.row + 1 else 0);
    }
  }

  /** Once the row is abandoned, faithful steps that do not replay it keep everything in order. */
  lemma {:induction false} MildOn(u: State, after: seq<Step>, k: Stream, id: nat)
    requires Mild(u, k) && UnpostedPendingBut(u, k, id) && Belongs(u.table, k, id) && Abandoned(u, id)
    requires FaithfulAfter(u, after, k, id)
    ensures var v := Run(u, after);
            Mild(v, k) && UnpostedPendingBut(v, k, id) && Belongs(v.table, k, id) && Abandoned(v, id)
  {
    if after != [] {
      var n := |after| - 1;
      forall m | 0 <= m < n
        ensures FaithfulStep(Run(u, after[..n][..m]), after[..n][m], k)
        ensures !(after[..n][m].ReplayRow? && after[..n][m].row == id)
      {
        assert after[..n][..m] == after[..m];
      }
      MildOn(u, after[..n], k, id);
      var v, step := Run(u, after[..n]), after[n];
      FaithfulIsMild(v, step, k, id);
      MildKept(v, step, k);
      UnpostedPendingButKept(v, step, k, id);
      AbandonedStays(v, step, k, id);
      TableSteps(v, step);
    }
  }

  lemma MildIsIncreasing(s: State, k: Stream)
    requires Mild(s, k)
    ensures Increasing(FirstPosts(s.posts, s.table.births, k))
  {
    forall n: nat | n < |s.posts| && Belongs(s.table, k, s.posts[n]) ensures InTurn(s.table, s.posts, k, n) {
      assert PassedAt(s, k, n);
    }
    InTurnIsIncreasing(s.table, s.posts, k);
  }

  lemma DisorderNeedsAttempt(before: seq<Step>, id: nat, now: real, after: seq<Step>)
    requires id in Run(INIT, before).table.rows && FaithfulRun(before, Run(INIT, before).table.rows[id].stream)
    requires id !in Run(INIT, before).posts && Disorders(before, id, now, after)
    ensures exists i :: AboutToPost(Run(INIT, before), i, id)
  {
    var s := Run(INIT, before);
    var k, skip := s.table.rows[id].stream, SkipRow(id, now);
    if forall i :: !AboutToPost(s, i, id) {
      FaithfulRunIsMild(before, k);
      MildAlways(before, k);
      GaplessAlways(before, k);
      RunThen(before, skip);
      SkipLeaves(s, k, id, now);
      MildKept(s, skip, k);
      SkipAbandons(s, skip, k);
      MildOn(Apply(s, skip), after, k, id);
      MildIsIncreasing(Run(Apply(s, skip), after), k);
    }
  }

  lemma SkipLeaves(s: State, k: Stream, id: nat, now: real)
    requires Inv(s) && UnpostedPending(s, k) && Belongs(s.table, k, id) && id in s.table.rows
    ensures var u := Apply(s, SkipRow(id, now));
            && UnpostedPendingBut(u, k, id) && Belongs(u.table, k, id)
            && u.posts == s.posts && u.senders == s.senders && u.table.births == s.table.births
            && id in u.table.rows && u.table.rows[id].status == Skipped
  {
    var u := Apply(s, SkipRow(id, now));
    forall x: nat | Belongs(u.table, k, x) && x != id && x !in u.posts
      ensures x in u.table.rows && u.table.rows[x].status == Pending
    {
      assert Belongs(s.table, k, x);
    }
  }

  // ----- how an attempt under way brings disorder

  /** Rows the sender could pick instead of the later rows of the stream. */
  ghost function InTheWay(t: Table, k: Stream, id: nat): set<nat> {
    set r | r in t.rows && Candidate(t.rows[r]) && (t.rows[r].stream != k || r <= id)
  }

  /** `u` is `s` with some rows skipped, none of them a later row of the stream. */
  ghost predicate OnlySkipped(s: State, u: State, k: Stream, id: nat) {
    && u.posts == s.posts && u.senders == s.senders && u.table.births == s.table.births
    && (forall x | x in s.table.rows && x > id && s.table.rows[x].stream == k ::
          x in u.table.rows && u.table.rows[x] == s.table.rows[x])
  }

  lemma SkipClears(s: State, r: nat, k: Stream, id: nat)
    requires Inv(s) && r in InTheWay(s.table, k, id)
    ensures var u := Apply(s, SkipRow(r, 0.0));
            && InTheWay(u.table, k, id) == InTheWay(s.table, k, id) - {r}
            && OnlySkipped(s, u, k, id)
  {
  }

  ghost predicate EarlierPosted(s: State, k: Stream, id: nat) {
    forall j: nat | j < id && Belongs(s.table, k, j) :: j in s.posts
  }

  lemma FaithfulFirst(s: State, step: Step, rest: seq<Step>, k: Stream, id: nat)
    requires FaithfulStep(s, step, k) && !(step.ReplayRow? && step.row == id)
    requires FaithfulAfter(Apply(s, step), rest, k, id)
    ensures FaithfulAfter(s, [step] + rest, k, id)
    ensures Run(s, [step] + rest) == Run(Apply(s, step), rest)
  {
    var steps := [step] + rest;
    RunOne(s, step);
    RunOn(s, [step], rest);
    forall n | 0 <= n < |steps|
      ensures FaithfulStep(Run(s, steps[..n]), steps[n], k) && !(steps[n].ReplayRow? && steps[n].row == id)
    {
      if n > 0 {
        assert steps[..n] == [step] + rest[..n - 1] && steps[n] == rest[n - 1];
        RunOn(s, [step], rest[..n - 1]);
      } else {
        assert steps[..0] == [] && Run(s, []) == s;
      }
    }
  }

  /** The operator skips everything in the way; of the stream, that is only rows posted before. */
  lemma {:induction false} ClearTheWay(s: State, k: Stream, id: nat) returns (after: seq<Step>)
    requires Inv(s) && EarlierPosted(s, k, id)
    requires id in s.table.rows ==> s.table.rows[id].status == Skipped
    ensures FaithfulAfter(s, after, k, id)
    ensures var u := Run(s, after);
            Inv(u) && InTheWay(u.table, k, id) == {} && OnlySkipped(s, u, k, id)
    decreases InTheWay(s.table, k, id)
  {
    if InTheWay(s.table, k, id) == {} {
      after := [];
    } else {
      var r :| r in InTheWay(s.table, k, id);
      var step := SkipRow(r, 0.0);
      SkipClears(s, r, k, id);
      ClearsOne(s, r, k, id);
      InvKept(s, step);
      var u := Apply(s, step);
      var rest := ClearTheWay(u, k, id);
      after := [step] + rest;
      FaithfulFirst(s, step, rest, k, id);
      SkippedTwice(s, u, Run(u, rest), k, id);
    }
  }

  lemma ClearsOne(s: State, r: nat, k: Stream, id: nat)
    requires Inv(s) && EarlierPosted(s, k, id) && r in InTheWay(s.table, k, id)
    requires id in s.table.rows ==> s.table.rows[id].status == Skipped
    ensures FaithfulStep(s, SkipRow(r, 0.0), k)
    ensures var u := Apply(s, SkipRow(r, 0.0));
            && EarlierPosted(u, k, id)
            && (id in u.table.rows ==> u.table.rows[id].status == Skipped)
  {
    assert s.table.rows[r].stream == k ==> Belongs(s.table, k, r);
    var u := Apply(s, SkipRow(r, 0.0));
    assert forall j: nat | Belongs(u.table, k, j) :: Belongs(s.table, k, j);
  }

  lemma SkippedTwice(s: State, u: State, v: State, k: Stream, id: nat)
    requires Inv(s) && OnlySkipped(s, u, k, id) && OnlySkipped(u, v, k, id)
    ensures OnlySkipped(s, v, k, id)
  {
    forall x | x in s.table.rows && x > id && s.table.rows[x].stream == k
      ensures x in v.table.rows && v.table.rows[x] == s.table.rows[x]
    {
      assert u.table.rows[x] == s.table.rows[x];
    }
  }

  lemma {:induction false} UnusedSender(senders: map<nat, Sender>, j: nat) returns (unused: nat)
    requires forall i | i in senders :: j <= i
    ensures unused !in senders && j <= unused
    decreases senders.Keys
  {
    if j in senders {
      unused := UnusedSender(senders - {j}, j + 1);
    } else {
      unused := j;
    }
  }

  /** All rows of the stream after `id` wait for their first POST, and there is one. */
  ghost predicate LaterWaiting(s: State, k: Stream, id: nat) {
    && (forall x: nat | Belongs(s.table, k, x) && id < x ::
          x !in s.posts && x in s.table.rows && s.table.rows[x].status == Pending)
    && exists x: nat :: Belongs(s.table, k, x) && id < x
  }

  /** With nothing in the way a sender that polls is given the next row of the stream after `id`. */
  lemma NextIsReady(s: State, k: Stream, id: nat) returns (window: seq<nat>, x: nat)
    requires Inv(s) && LaterWaiting(s, k, id) && InTheWay(s.table, k, id) == {}
    ensures Belongs(s.table, k, x) && id < x && x in s.table.rows
    ensures x !in s.posts && s.table.rows[x].status == Pending
    ensures IsWindow(s.table.rows, window, SEND_BATCH)
    ensures IsReady(s.table.rows, window, s.table.rows[x].nextTryAt, [x])
  {
    var rows := s.table.rows;
    window := HasWindow(rows, SEND_BATCH);
    forall w | w in window ensures rows[w].stream == k && id < w && Belongs(s.table, k, w) {
      assert w !in InTheWay(s.table, k, id);
    }
    var later: nat :| Belongs(s.table, k, later) && id < later;
    assert later in window || |window| == SEND_BATCH;
    x := window[0];
    assert x in window;
    forall w: nat ensures w in [x] <==> IsHead(rows, window, w) && Due(rows[w], rows[x].nextTryAt) {
      FirstIsHead(s, window, k, w);
    }
  }

  lemma FirstIsHead(s: State, window: seq<nat>, k: Stream, w: nat)
    requires WellFormed(s.table) && IsWindow(s.table.rows, window, SEND_BATCH) && window != []
    requires forall y | y in window :: s.table.rows[y].stream == k
    ensures IsHead(s.table.rows, window, w) <==> w == window[0]
  {
    var rows := s.table.rows;
    assert window[0] in window;
    forall y | y in window ensures rows[window[0]].sequence <= rows[y].sequence {
      var i :| 0 <= i < |window| && window[i] == y;
      assert i > 0 ==> SortsBefore(rows[window[0]], rows[window[i]]);
    }
    if IsHead(rows, window, w) {
      assert rows[w].sequence == rows[window[0]].sequence;
    }
  }

  /** That sender posts it, and then the attempt on `id` goes ahead. */
  lemma NextIsPosted(s: State, i: nat, k: Stream, id: nat) returns (after: seq<Step>, x: nat)
    requires Inv(s) && AboutToPost(s, i, id) && LaterWaiting(s, k, id) && InTheWay(s.table, k, id) == {}
    ensures NoReplays(after) && NoSkips(after)
    ensures Run(s, after).posts == s.posts + [x] + [id] && Run(s, after).table.births == s.table.births
    ensures Belongs(s.table, k, x) && id < x && x !in s.posts
  {
    var window;
    window, x := NextIsReady(s, k, id);
    after := PostBoth(s, i, id, window, x);
  }

  lemma PostBoth(s: State, i: nat, id: nat, window: seq<nat>, x: nat) returns (after: seq<Step>)
    requires AboutToPost(s, i, id) && x in s.table.rows && Sendable(s.table.rows[x].status)
    requires IsWindow(s.table.rows, window, SEND_BATCH)
    requires IsReady(s.table.rows, window, s.table.rows[x].nextTryAt, [x])
    ensures NoReplays(after) && NoSkips(after)
    ensures Run(s, after).posts == s.posts + [x] + [id] && Run(s, after).table.births == s.table.births
  {
    var j := UnusedSender(s.senders, 0);
    var poll, begin := PollAndBegin(s, j, window, x);
    after := [poll, begin, Post(j), Post(i)];
    var u := Apply(Apply(s, poll), begin);
    assert AboutToPost(u, i, id) && AboutToPost(u, j, x);
    PostsTwo(u, j, i, x, id);
    RunFour(s, poll, begin, Post(j), Post(i));
  }

  /** A new sender polls the one ready row and takes its lease. */
  lemma PollAndBegin(s: State, j: nat, window: seq<nat>, x: nat) returns (poll: Step, begin: Step)
    requires j !in s.senders && x in s.table.rows && Sendable(s.table.rows[x].status)
    requires IsWindow(s.table.rows, window, SEND_BATCH)
    requires IsReady(s.table.rows, window, s.table.rows[x].nextTryAt, [x])
    ensures poll.Poll? && begin.Begin?
    ensures var u := Apply(Apply(s, poll), begin);
            && u.senders == s.senders[j := Sender([], Some(Flight(x, s.nextToken, false)))]
            && u.posts == s.posts && u.table.births == s.table.births
  {
    var row := s.table.rows[x];
    poll := Poll(j, window, [x], row.nextTryAt);
    begin := Begin(j, if row.leaseExpiresAt.Some? then row.leaseExpiresAt.value else 0.0);
    assert Apply(s, poll) == s.(senders := s.senders[j := Sender([x], None)]);
    BeginsAlone(Apply(s, poll), j, x, begin);
  }

  lemma RunFour(s: State, a: Step, b: Step, c: Step, d: Step)
    ensures Run(s, [a, b, c, d]) == Apply(Apply(Apply(Apply(s, a), b), c), d)
  {
    assert [a] + [b] + [c] + [d] == [a, b, c, d];
    RunOn(s, [a] + [b] + [c], [d]);
    RunOn(s, [a] + [b], [c]);
    RunOn(s, [a], [b]);
    RunOne(s, a);
    RunOne(Apply(s, a), b);
    RunOne(Apply(Apply(s, a), b), c);
    RunOne(Apply(Apply(Apply(s, a), b), c), d);
  }

  lemma RunOne(s: State, step: Step)
    ensures Run(s, [step]) == Apply(s, step)
  {
    assert [step][..0] == [];
  }

  lemma BeginsAlone(s: State, j: nat, x: nat, begin: Step)
    requires j in s.senders && s.senders[j] == Sender([x], None) && x in s.table.rows
    requires Sendable(s.table.rows[x].status) && begin.Begin? && begin.sender == j
    requires s.table.rows[x].leaseExpiresAt.Some? ==> s.table.rows[x].leaseExpiresAt.value <= begin.now
    ensures var u := Apply(s, begin);
            && u.senders == s.senders[j := Sender([], Some(Flight(x, s.nextToken, false)))]
            && u.posts == s.posts && u.table.births == s.table.births
  {
    assert [x][1..] == [];
    assert CanLease(s.table.rows, x, begin.now);
  }

  lemma PostsTwo(s: State, j: nat, i: nat, x: nat, id: nat)
    requires j != i && AboutToPost(s, j, x) && AboutToPost(s, i, id)
    ensures var u := Apply(Apply(s, Post(j)), Post(i));
            u.posts == s.posts + [x] + [id] && u.table.births == s.table.births
  {
  }

  lemma NoOperatorIsFaithful(u: State, after: seq<Step>, k: Stream, id: nat)
    requires NoReplays(after) && NoSkips(after)
    ensures FaithfulAfter(u, after, k, id)
  {
  }

  lemma FaithfulJoin(u: State, a: seq<Step>, b: seq<Step>, k: Stream, id: nat)
    requires FaithfulAfter(u, a, k, id) && FaithfulAfter(Run(u, a), b, k, id)
    ensures FaithfulAfter(u, a + b, k, id)
    ensures Run(u, a + b) == Run(Run(u, a), b)
  {
    RunOn(u, a, b);
    var steps := a + b;
    forall n | 0 <= n < |steps|
      ensures FaithfulStep(Run(u, steps[..n]), steps[n], k) && !(steps[n].ReplayRow? && steps[n].row == id)
    {
      if n < |a| {
        assert steps[..n] == a[..n] && steps[n] == a[n];
      } else {
        assert steps[..n] == a + b[..n - |a|] && steps[n] == b[n - |a|];
        RunOn(u, a, b[..n - |a|]);
      }
    }
  }

  /** One more row of the stream is stored behind `id`. */
  lemma OneMoreWaits(s: State, k: Stream, id: nat) returns (emit: Step)
    requires Inv(s) && UnpostedPendingBut(s, k, id) && id < |s.table.births|
    requires forall x: nat | Belongs(s.table, k, x) && id < x :: x !in s.posts
    ensures emit.Emit?
    ensures var u := Apply(s, emit);
            && Inv(u) && LaterWaiting(u, k, id)
            && u.posts == s.posts && u.senders == s.senders && s.table.births <= u.table.births
            && (id in s.table.rows ==> id in u.table.rows && u.table.rows[id] == s.table.rows[id])
  {
    emit := Emit([k.subscription], NotesCompleted(k.bot), 0.0);
    var u := Apply(s, emit);
    InvKept(s, emit);
    TableSteps(s, emit);
    StoreBirths(s.table, emit.subscriptions, emit.event, emit.now);
    assert BirthsFor(emit.subscriptions, emit.event) == [Birth(k, emit.event)];
    assert Belongs(u.table, k, |s.table.births|);
    forall x: nat | Belongs(u.table, k, x) && id < x
      ensures x !in u.posts && x in u.table.rows && u.table.rows[x].status == Pending
    {
      if x < |s.table.births| {
        assert Belongs(s.table, k, x);
      }
    }
  }

  lemma EarlierStays(s: State, step: Step, k: Stream, id: nat)
    requires Inv(s) && EarlierPosted(s, k, id) && id < |s.table.births|
    ensures EarlierPosted(Apply(s, step), k, id)
  {
    TableSteps(s, step);
    PostsGrow(s, step);
    var u := Apply(s, step);
    assert forall j: nat | j < id && Belongs(u.table, k, j) :: Belongs(s.table, k, j);
  }

  lemma AttemptBringsDisorder(s: State, i: nat, k: Stream, id: nat) returns (after: seq<Step>)
    requires Inv(s) && AboutToPost(s, i, id) && Belongs(s.table, k, id) && id !in s.posts
    requires id in s.table.rows && s.table.rows[id].status == Skipped
    requires EarlierPosted(s, k, id) && UnpostedPendingBut(s, k, id)
    requires forall x: nat | Belongs(s.table, k, x) && id < x :: x !in s.posts
    ensures FaithfulAfter(s, after, k, id)
    ensures !Increasing(FirstPosts(Run(s, after).posts, Run(s, after).table.births, k))
  {
    var emit := OneMoreWaits(s, k, id);
    var stored := Apply(s, emit);
    EarlierStays(s, emit, k, id);
    var rest, x := ClearAndPost(stored, i, k, id);
    after := [emit] + rest;
    FaithfulFirst(s, emit, rest, k, id);
    LaterFirst(s.posts, stored.table.births, k, x, id);
  }

  lemma ClearAndPost(s: State, i: nat, k: Stream, id: nat) returns (after: seq<Step>, x: nat)
    requires Inv(s) && AboutToPost(s, i, id) && LaterWaiting(s, k, id) && EarlierPosted(s, k, id)
    requires id in s.table.rows ==> s.table.rows[id].status == Skipped
    ensures FaithfulAfter(s, after, k, id)
    ensures Run(s, after).posts == s.posts + [x] + [id] && Run(s, after).table.births == s.table.births
    ensures Belongs(s.table, k, x) && id < x && x !in s.posts
  {
    var clearing := ClearTheWay(s, k, id);
    var cleared := Run(s, clearing);
    StillWaiting(s, cleared, k, id);
    var posting;
    posting, x := NextIsPosted(cleared, i, k, id);
    NoOperatorIsFaithful(cleared, posting, k, id);
    FaithfulJoin(s, clearing, posting, k, id);
    after := clearing + posting;
  }

  lemma StillWaiting(s: State, u: State, k: Stream, id: nat)
    requires Inv(s) && LaterWaiting(s, k, id) && OnlySkipped(s, u, k, id)
    ensures LaterWaiting(u, k, id)
  {
    forall x: nat | Belongs(u.table, k, x) && id < x
      ensures x !in u.posts && x in u.table.rows && u.table.rows[x].status == Pending
    {
      assert Belongs(s.table, k, x);
    }
    var x: nat :| Belongs(s.table, k, x) && id < x;
    assert Belongs(u.table, k, x);
  }

  lemma LaterFirst(posts: seq<nat>, births: seq<Birth>, k: Stream, x: nat, id: nat)
    requires id < x < |births| && births[id].stream == k && births[x].stream == k && x !in posts && id !in posts
    ensures !Increasing(FirstPosts(posts + [x] + [id], births, k))
  {
    assert (posts + [x])[..|posts|] == posts && (posts + [x] + [id])[..|posts| + 1] == posts + [x];
    var done := FirstPosts(posts, births, k);
    assert FirstPosts(posts + [x], births, k) == done + [x];
    assert FirstPosts(posts + [x] + [id], births, k) == done + [x] + [id];
    assert (done + [x] + [id])[|done|] == x && (done + [x] + [id])[|done| + 1] == id;
  }

  /** Exactly when skipping a pending row that was never posted can bring a later row's first POST ahead of its own,
      though it is not replayed and all else is faithful: some sender holds an attempt on it that is about to post. */
  lemma SkipDisordersExactly(before: seq<Step>, id: nat, now: real)
    requires id in Run(INIT, before).table.rows && FaithfulRun(before, Run(INIT, before).table.rows[id].stream)
    requires Run(INIT, before).table.rows[id].status == Pending && id !in Run(INIT, before).posts
    ensures (exists after :: Disorders(before, id, now, after))
            <==> exists i :: AboutToPost(Run(INIT, before), i, id)
  {
    if after :| Disorders(before, id, now, after) {
      DisorderNeedsAttempt(before, id, now, after);
    }
    if i :| AboutToPost(Run(INIT, before), i, id) {
      var after := SkipIsOvertaken(before, id, now, i);
    }
  }

  lemma SkipIsOvertaken(before: seq<Step>, id: nat, now: real, i: nat) returns (after: seq<Step>)
    requires id in Run(INIT, before).table.rows && FaithfulRun(before, Run(INIT, before).table.rows[id].stream)
    requires id !in Run(INIT, before).posts && AboutToPost(Run(INIT, before), i, id)
    ensures Disorders(before, id, now, after)
  {
    var s := Run(INIT, before);
    var k, skip := s.table.rows[id].stream, SkipRow(id, now);
    InvAlways(before);
    InvKept(s, skip);
    GaplessAlways(before, k);
    assert Belongs(s.table, k, id) && ArmedBy(s, i, id);
    SkipLeaves(s, k, id, now);
    NoLaterPosted(s, k, id);
    var u := Apply(s, skip);
    assert EarlierPosted(u, k, id) by {
      assert Reached(s.table, s.posts, k, id);
    }
    assert forall x: nat | Belongs(u.table, k, x) :: Belongs(s.table, k, x);
    after := AttemptBringsDisorder(u, i, k, id);
    RunThen(before, skip);
  }

  lemma NoLaterPosted(s: State, k: Stream, id: nat)
    requires Gapless(s.table, s.posts, k) && Belongs(s.table, k, id) && id !in s.posts
    ensures forall x: nat | Belongs(s.table, k, x) && id < x :: x !in s.posts
  {
    forall x: nat | Belongs(s.table, k, x) && x in s.posts ensures Reached(s.table, s.posts, k, x) {
      PostedIsReached(s, k, x);
    }
  }

  lemma PostedIsReached(s: State, k: Stream, x: nat)
    requires Gapless(s.table, s.posts, k) && Belongs(s.table, k, x) && x in s.posts
    ensures Reached(s.table, s.posts, k, x)
  {
    var n: nat :| n < |s.posts| && s.posts[n] == x;
    assert Reached(s.table, s.posts[..n], k, x);
  }
}

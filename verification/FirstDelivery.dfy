/** First deliveries happen in creation order and leave no gap, as long as the operator skips no row of the
    stream that is pending and was never posted. Replays and the purge may come at any time. */
module FirstDelivery {
  import opened Delivery
  import opened Window
  import opened Protocol
  import opened Ordering

  /** The row skipped, if any, is not pending or has been posted before. */
  predicate FaithfulStep(s: State, step: Step, k: Stream) {
    step.SkipRow? && step.row in s.table.rows && s.table.rows[step.row].stream == k ==>
      s.table.rows[step.row].status != Pending || step.row in s.posts
  }

  ghost predicate FaithfulRun(steps: seq<Step>, k: Stream) {
    forall n | 0 <= n < |steps| :: FaithfulStep(Run(INIT, steps[..n]), steps[n], k)
  }

  /** Rows of the stream not posted yet are in the table and pending. */
  ghost predicate UnpostedPending(s: State, k: Stream) {
    forall id: nat | Belongs(s.table, k, id) && id !in s.posts ::
      id in s.table.rows && s.table.rows[id].status == Pending
  }

  /** Every row of the stream created before `id` has been posted. */
  ghost predicate Reached(t: Table, posts: seq<nat>, k: Stream, id: nat) {
    forall j: nat | j < id && Belongs(t, k, j) :: j in posts
  }

  /** Whatever a sender may still post comes after rows that were all posted. */
  ghost predicate ArmedInTurn(s: State, k: Stream) {
    forall i: nat, id: nat | ArmedBy(s, i, id) && Belongs(s.table, k, id) :: Reached(s.table, s.posts, k, id)
  }

  /** Before any POST of the stream, every row of the stream created earlier had been posted. */
  ghost predicate Gapless(t: Table, posts: seq<nat>, k: Stream) {
    forall n: nat | n < |posts| && Belongs(t, k, posts[n]) :: Reached(t, posts[..n], k, posts[n])
  }

  lemma RecordedIsPosted(s: State, step: Step, id: nat)
    requires Known(s)
    ensures Recorded(s, step, id) ==> id in s.posts
  {
  }

  lemma PendingStays(s: State, step: Step, id: nat)
    requires Inv(s) && id in s.table.rows && s.table.rows[id].status == Pending && id !in s.posts
    requires !(step.SkipRow? && step.row == id)
    ensures id in Apply(s, step).table.rows && Apply(s, step).table.rows[id].status == Pending
  {
    StatusSteps(s, step, id);
    RecordedIsPosted(s, step, id);
  }

  lemma UnpostedPendingKept(s: State, step: Step, k: Stream)
    requires Inv(s) && UnpostedPending(s, k) && FaithfulStep(s, step, k)
    ensures UnpostedPending(Apply(s, step), k)
  {
    var u := Apply(s, step);
    PostsGrow(s, step);
    TableSteps(s, step);
    forall id: nat | Belongs(u.table, k, id) && id !in u.posts
      ensures id in u.table.rows && u.table.rows[id].status == Pending
    {
      if id < |s.table.births| {
        assert Belongs(s.table, k, id);
        PendingStays(s, step, id);
      }
    }
  }

  lemma PostsGrow(s: State, step: Step)
    ensures Apply(s, step).posts == s.posts
            || (step.Post? && Enabled(s, step) && Apply(s, step).posts == s.posts + [FlightOf(s, step.sender).row])
    ensures forall id | id in s.posts :: id in Apply(s, step).posts
  {
  }

  lemma ReachedStays(s: State, step: Step, k: Stream, id: nat)
    requires WellFormed(s.table) && id < |s.table.births| && Reached(s.table, s.posts, k, id)
    ensures Reached(Apply(s, step).table, Apply(s, step).posts, k, id)
  {
    TableSteps(s, step);
    PostsGrow(s, step);
    var u := Apply(s, step);
    forall j: nat | j < id && Belongs(u.table, k, j) ensures j in u.posts {
      assert Belongs(s.table, k, j);
    }
  }

  /** A polled row is the head of its stream, so an unposted, hence pending, row before it would be polled. */
  lemma PolledIsReached(s: State, step: Step, k: Stream, id: nat)
    requires Inv(s) && UnpostedPending(s, k)
    requires step.Poll? && Enabled(s, step) && id in step.ready && Belongs(s.table, k, id)
    ensures Reached(s.table, s.posts, k, id)
  {
    PolledIsAhead(s, step, k, id);
  }

  lemma ArmedInTurnKept(s: State, step: Step, k: Stream)
    requires Inv(s) && UnpostedPending(s, k) && ArmedInTurn(s, k)
    ensures ArmedInTurn(Apply(s, step), k)
  {
    TableSteps(s, step);
    var u := Apply(s, step);
    forall i: nat, id: nat | ArmedBy(u, i, id) && Belongs(u.table, k, id) ensures Reached(u.table, u.posts, k, id) {
      ArmedSteps(s, step, i, id);
      if ArmedBy(s, i, id) {
        assert id < |s.table.births|;
        assert Belongs(s.table, k, id);
      } else {
        assert IsHead(s.table.rows, step.window, id);
        PolledIsReached(s, step, k, id);
      }
      ReachedStays(s, step, k, id);
    }
  }

  lemma GaplessKept(s: State, step: Step, k: Stream)
    requires Inv(s) && ArmedInTurn(s, k) && Gapless(s.table, s.posts, k)
    ensures Gapless(Apply(s, step).table, Apply(s, step).posts, k)
  {
    TableSteps(s, step);
    PostsGrow(s, step);
    var u := Apply(s, step);
    forall n: nat | n < |u.posts| && Belongs(u.table, k, u.posts[n])
      ensures Reached(u.table, u.posts[..n], k, u.posts[n])
    {
      if n < |s.posts| {
        assert u.posts[n] == s.posts[n] && u.posts[..n] == s.posts[..n];
        assert s.posts[n] in s.posts;
        assert Belongs(s.table, k, s.posts[n]);
      } else {
        assert u.posts[..n] == s.posts;
        assert ArmedBy(s, step.sender, u.posts[n]);
        assert Belongs(s.table, k, u.posts[n]);
      }
      assert Reached(s.table, u.posts[..n], k, u.posts[n]);
      assert forall j: nat | j < u.posts[n] && Belongs(u.table, k, j) :: Belongs(s.table, k, j);
    }
  }

  lemma FaithfulPrefix(steps: seq<Step>, k: Stream)
    requires steps != [] && FaithfulRun(steps, k)
    ensures FaithfulRun(steps[..|steps| - 1], k)
    ensures FaithfulStep(Run(INIT, steps[..|steps| - 1]), steps[|steps| - 1], k)
  {
    var before := steps[..|steps| - 1];
    forall n | 0 <= n < |before| ensures FaithfulStep(Run(INIT, before[..n]), before[n], k) {
      assert before[..n] == steps[..n];
    }
  }

  /** In every faithful run, whatever is replayed or purged: a row not posted yet waits in the table, what may be
      posted next is the earliest such row or was posted before, and no POST ever left a gap behind it. */
  lemma {:induction false} GaplessAlways(steps: seq<Step>, k: Stream)
    requires FaithfulRun(steps, k)
    ensures UnpostedPending(Run(INIT, steps), k)
    ensures ArmedInTurn(Run(INIT, steps), k)
    ensures Gapless(Run(INIT, steps).table, Run(INIT, steps).posts, k)
  {
    if steps != [] {
      var before := steps[..|steps| - 1];
      FaithfulPrefix(steps, k);
      GaplessAlways(before, k);
      InvAlways(before);
      UnpostedPendingKept(Run(INIT, before), steps[|before|], k);
      ArmedInTurnKept(Run(INIT, before), steps[|before|], k);
      GaplessKept(Run(INIT, before), steps[|before|], k);
    }
  }

  // ----- the same as sequences

  /** The rows of the stream in creation order. */
  function Created(births: seq<Birth>, k: Stream): seq<nat> {
    if births == [] then []
    else
      var n := |births| - 1;
      Created(births[..n], k) + if births[n].stream == k then [n] else []
  }

  /** The rows of the stream in the order of their first POSTs. */
  function FirstPosts(posts: seq<nat>, births: seq<Birth>, k: Stream): seq<nat> {
    if posts == [] then []
    else
      var n := |posts| - 1;
      var id := posts[n];
      FirstPosts(posts[..n], births, k)
      + if id < |births| && births[id].stream == k && id !in posts[..n] then [id] else []
  }

  predicate Increasing(xs: seq<nat>) {
    forall i, j | 0 <= i < j < |xs| :: xs[i] < xs[j]
  }

  lemma {:induction false} CreatedInOrder(births: seq<Birth>, k: Stream)
    ensures forall id: nat :: id in Created(births, k) <==> id < |births| && births[id].stream == k
    ensures Increasing(Created(births, k))
  {
    if births != [] {
      var n := |births| - 1;
      CreatedInOrder(births[..n], k);
      var c := Created(births[..n], k);
      assert forall i | 0 <= i < |c| :: c[i] in c && c[i] < n;
      assert Created(births, k) == c + if births[n].stream == k then [n] else [];
    }
  }

  lemma {:induction false} FirstPostsElements(posts: seq<nat>, births: seq<Birth>, k: Stream)
    ensures forall id: nat :: id in FirstPosts(posts, births, k)
                              <==> id in posts && id < |births| && births[id].stream == k
  {
    if posts != [] {
      var n := |posts| - 1;
      FirstPostsElements(posts[..n], births, k);
      assert posts == posts[..n] + [posts[n]];
    }
  }

  lemma {:induction false} GaplessIsPrefix(t: Table, posts: seq<nat>, k: Stream)
    requires Gapless(t, posts, k)
    ensures FirstPosts(posts, t.births, k) <= Created(t.births, k)
  {
    if posts != [] {
      var n := |posts| - 1;
      forall m: nat | m < n && Belongs(t, k, posts[..n][m]) ensures Reached(t, posts[..n][..m], k, posts[..n][m]) {
        assert posts[..n][..m] == posts[..m];
      }
      GaplessIsPrefix(t, posts[..n], k);
      var done, all, id := FirstPosts(posts[..n], t.births, k), Created(t.births, k), posts[n];
      if Belongs(t, k, id) && id !in posts[..n] {
        FirstPostsElements(posts[..n], t.births, k);
        CreatedInOrder(t.births, k);
        NextInOrder(all, done, id);
      }
    }
  }

  /** In an increasing sequence, the element after a prefix that holds everything smaller comes next. */
  lemma NextInOrder(all: seq<nat>, done: seq<nat>, id: nat)
    requires Increasing(all)
    requires done <= all && id in all && id !in done
    requires forall j | j in all && j < id :: j in done
    ensures done + [id] <= all
  {
    var p :| 0 <= p < |all| && all[p] == id;
    assert forall q | 0 <= q < |done| :: all[q] == done[q] && done[q] in done;
    assert |done| <= p;
    var x := all[|done|];
    assert forall q | 0 <= q < |done| :: done[q] < x;
    assert x in all && x !in done;
  }

  /** The first POSTs of the stream are a prefix of everything ever stored for it. */
  ghost predicate InCreationOrder(s: State, k: Stream) {
    FirstPosts(s.posts, s.table.births, k) <= Created(s.table.births, k)
  }

  /** First POSTs of a stream are its rows in creation order, none left out, after any faithful run. */
  lemma FirstPostsInCreationOrder(steps: seq<Step>, k: Stream)
    requires FaithfulRun(steps, k)
    ensures InCreationOrder(Run(INIT, steps), k)
  {
    GaplessAlways(steps, k);
    GaplessIsPrefix(Run(INIT, steps).table, Run(INIT, steps).posts, k);
  }
}

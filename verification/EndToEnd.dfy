/** Runs, subscriptions and the outbox together: what a subscriber sees of a run's life. */
module EndToEnd {
  import opened Common
  import opened Lifecycle
  import opened Delivery
  import P = Protocol
  import opened FirstDelivery
  import opened Service

  /** The database's runs and subscriptions; the steps taken so far by the outbox protocol; and history: the
      statuses each run went through, the subscriptions there were when it was created, and every
      subscription id ever issued. */
  datatype World = World(
    runs: map<string, BotRun>,
    subscriptions: seq<string>,
    trace: seq<P.Step>,
    history: map<string, seq<Status>>,
    origin: map<string, set<string>>,
    issued: set<string>)

  datatype Act =
    | Subscribe(subscription: string)
    | Unsubscribe(subscription: string)
    | CreateBot(bot: string, meeting: string, key: Option<string>, now: real)
    | AdvanceBot(bot: string, target: Status, now: real)
    | FailBot(bot: string, code: string, reason: string, now: real)
    | Publish(event: Event, now: real)
    | Deliver(step: P.Step)

  const EMPTY := World(map[], [], [], map[], map[], {})

  ghost function Net(w: World): P.State {
    P.Run(P.INIT, w.trace)
  }

  ghost function Births(w: World): seq<Birth> {
    Net(w).table.births
  }

  /** Commits a change of runs: the status event, if any, is emitted with it and joins the history. */
  function Committed(w: World, c: Change, now: real): World {
    match c.event
    case Some(StatusChanged(bot, status)) =>
      w.(runs := c.runs,
         trace := w.trace + [P.Emit(w.subscriptions, StatusChanged(bot, status), now)],
         history := w.history[bot := (if bot in w.history then w.history[bot] else []) + [status]])
    case _ => w.(runs := c.runs)
  }

  predicate IsStatus(e: Event) {
    e.StatusChanged?
  }

  function Without(xs: seq<string>, x: string): seq<string> {
    if xs == [] then [] else (if xs[0] == x then [] else [xs[0]]) + Without(xs[1..], x)
  }

  /** One act, or nothing when it is not possible: ids are fresh, segments and notes belong to a run. */
  function Next(w: World, act: Act): World {
    match act
    case Subscribe(id) =>
      if id in w.issued then w else w.(subscriptions := w.subscriptions + [id], issued := w.issued + {id})
    case Unsubscribe(id) => w.(subscriptions := Without(w.subscriptions, id))
    case CreateBot(bot, meeting, key, now) =>
      if bot in w.runs || Create(w.runs, bot, meeting, key, now).event.None? then w
      else Committed(w, Create(w.runs, bot, meeting, key, now), now).(
             origin := w.origin[bot := set s | s in w.subscriptions])
    case AdvanceBot(bot, target, now) => Committed(w, Advance(w.runs, bot, target, now), now)
    case FailBot(bot, code, reason, now) => Committed(w, Fail(w.runs, bot, code, reason, now), now)
    case Publish(event, now) =>
      if IsStatus(event) || event.bot !in w.runs then w
      else w.(trace := w.trace + [P.Emit(w.subscriptions, event, now)])
    case Deliver(step) => if step.Emit? then w else w.(trace := w.trace + [step])
  }

  function After(acts: seq<Act>): World {
    if acts == [] then EMPTY else Next(After(acts[..|acts| - 1]), acts[|acts| - 1])
  }

  ghost function DbOf(w: World): Db {
    Db(w.runs, w.subscriptions, Net(w).table)
  }

  /** The world's acts on runs are the service's transactions on the database. */
  lemma ActsAreTransactions(w: World, act: Act)
    ensures match act
            case AdvanceBot(bot, target, now) =>
              DbOf(Next(w, act)) == Commit(DbOf(w), Advance(w.runs, bot, target, now), now)
            case FailBot(bot, code, reason, now) =>
              DbOf(Next(w, act)) == Commit(DbOf(w), Fail(w.runs, bot, code, reason, now), now)
            case CreateBot(bot, meeting, key, now) =>
              bot !in w.runs ==> DbOf(Next(w, act)) == Commit(DbOf(w), Create(w.runs, bot, meeting, key, now), now)
            case Subscribe(id) => id !in w.issued ==> Next(w, act).subscriptions == w.subscriptions + [id]
            case Unsubscribe(id) => forall x :: x in Next(w, act).subscriptions <==> x in w.subscriptions && x != id
            case Publish(event, now) =>
              !event.StatusChanged? && event.bot in w.runs ==>
                DbOf(Next(w, act)) == DbOf(w).(outbox := Store(Net(w).table, w.subscriptions, event, now))
            case Deliver(step) => !step.Emit? ==> Net(Next(w, act)) == P.Apply(Net(w), step)
  {
    match act
    case AdvanceBot(bot, target, now) => CommittedIsCommit(w, Advance(w.runs, bot, target, now), now);
    case FailBot(bot, code, reason, now) => CommittedIsCommit(w, Fail(w.runs, bot, code, reason, now), now);
    case CreateBot(bot, meeting, key, now) => CommittedIsCommit(w, Create(w.runs, bot, meeting, key, now), now);
    case Publish(event, now) => assert (w.trace + [P.Emit(w.subscriptions, event, now)])[..|w.trace|] == w.trace;
    case Deliver(step) => assert (w.trace + [step])[..|w.trace|] == w.trace;
    case Unsubscribe(id) => WithoutMembers(w.subscriptions, id);
    case _ =>
  }

  lemma {:induction false} WithoutMembers(xs: seq<string>, x: string)
    ensures forall y :: y in Without(xs, x) <==> y in xs && y != x
  {
    if xs != [] {
      WithoutMembers(xs[1..], x);
      assert xs == [xs[0]] + xs[1..];
    }
  }

  lemma CommittedIsCommit(w: World, c: Change, now: real)
    requires c.event.Some? ==> IsStatus(c.event.value)
    ensures DbOf(Committed(w, c, now)) == Commit(DbOf(w), c, now)
  {
    if c.event.Some? {
      var step := P.Emit(w.subscriptions, c.event.value, now);
      assert (w.trace + [step])[..|w.trace|] == w.trace;
    }
  }

  // ----- runs follow their histories

  ghost predicate RunFollows(run: BotRun, h: seq<Status>) {
    && ValidHistory(h)
    && run.status == h[|h| - 1]
    && (run.joinedAt.Some? <==> Joined in h)
    && (run.leftAt.Some? <==> Terminal(run.status))
    && (run.status == Failed ==> run.stopReason.Some?)
  }

  ghost predicate OneActivePerMeeting(runs: map<string, BotRun>) {
    forall a, b | a in runs && b in runs && a != b && !Terminal(runs[a].status) && !Terminal(runs[b].status) ::
      runs[a].meetingKey != runs[b].meetingKey
  }

  ghost predicate RunsFollow(w: World) {
    && w.history.Keys == w.runs.Keys == w.origin.Keys
    && (forall b | b in w.runs :: RunFollows(w.runs[b], w.history[b]))
    && OneActivePerMeeting(w.runs)
    && UniqueKeys(w.runs)
  }

  lemma AdvancedFollows(run: BotRun, h: seq<Status>, target: Status, now: real)
    requires RunFollows(run, h) && CanTransition(run.status, target)
    ensures RunFollows(Advanced(run, target, now), h + [target])
  {
    var g := h + [target];
    forall i | 0 < i < |g| ensures CanTransition(g[i - 1], g[i]) {
      if i < |h| {
        assert CanTransition(h[i - 1], h[i]);
      }
    }
    assert g[|h|] == target && g[|h|] in g;
    assert Joined in g <==> Joined in h || target == Joined;
  }

  /** Replacing a run that is not over by one for the same meeting and key keeps runs distinct. */
  lemma ReplacedRunsDistinct(runs: map<string, BotRun>, bot: string, run: BotRun)
    requires OneActivePerMeeting(runs) && UniqueKeys(runs) && bot in runs && !Terminal(runs[bot].status)
    requires run.meetingKey == runs[bot].meetingKey && run.idempotencyKey == runs[bot].idempotencyKey
    ensures OneActivePerMeeting(runs[bot := run]) && UniqueKeys(runs[bot := run])
  {
  }

  lemma AdvanceKeeps(w: World, bot: string, noted: BotRun, target: Status, now: real)
    requires RunsFollow(w) && bot in w.runs && !Terminal(w.runs[bot].status)
    requires RunFollows(noted, w.history[bot])
    requires noted.meetingKey == w.runs[bot].meetingKey && noted.idempotencyKey == w.runs[bot].idempotencyKey
    requires CanTransition(noted.status, target)
    ensures RunsFollow(Committed(w, Change(w.runs[bot := Advanced(noted, target, now)],
                                           Some(StatusChanged(bot, target)), Done), now))
  {
    AdvancedFollows(noted, w.history[bot], target, now);
    ReplacedRunsDistinct(w.runs, bot, Advanced(noted, target, now));
  }

  lemma RunsFollowKept(w: World, act: Act)
    requires RunsFollow(w)
    ensures RunsFollow(Next(w, act))
  {
    match act
    case AdvanceBot(bot, target, now) => GrantKeeps(w, bot, target, now);
    case FailBot(bot, code, reason, now) => FailKeeps(w, bot, code, reason, now);
    case CreateBot(bot, meeting, key, now) =>
      if bot !in w.runs && Create(w.runs, bot, meeting, key, now).event.Some? {
        CreateKeeps(w, bot, meeting, key, now);
      }
    case _ =>
  }

  lemma GrantKeeps(w: World, bot: string, target: Status, now: real)
    requires RunsFollow(w)
    ensures RunsFollow(Next(w, AdvanceBot(bot, target, now)))
  {
    if Advance(w.runs, bot, target, now).event.Some? {
      AdvanceKeeps(w, bot, w.runs[bot], target, now);
    }
  }

  lemma FailKeeps(w: World, bot: string, code: string, reason: string, now: real)
    requires RunsFollow(w)
    ensures RunsFollow(Next(w, FailBot(bot, code, reason, now)))
  {
    if bot in w.runs && !Terminal(w.runs[bot].status) {
      var noted := w.runs[bot].(errorCode := Some(code), stopReason := Some(reason));
      assert w.runs[bot := noted][bot := Advanced(noted, Failed, now)] == w.runs[bot := Advanced(noted, Failed, now)];
      AdvanceKeeps(w, bot, noted, Failed, now);
    }
  }

  lemma CreateKeeps(w: World, bot: string, meeting: string, key: Option<string>, now: real)
    requires RunsFollow(w) && bot !in w.runs && Create(w.runs, bot, meeting, key, now).event.Some?
    ensures RunsFollow(Next(w, CreateBot(bot, meeting, key, now)))
  {
    var u := Next(w, CreateBot(bot, meeting, key, now));
    assert u.history[bot] == [Queued];
    assert RunFollows(NewRun(meeting, key, now), [Queued]);
    AddedRunsDistinct(w.runs, bot, meeting, key, now);
  }

  lemma AddedRunsDistinct(runs: map<string, BotRun>, bot: string, meeting: string, key: Option<string>, now: real)
    requires OneActivePerMeeting(runs) && UniqueKeys(runs) && bot !in runs
    requires !ActiveMeeting(runs, meeting) && !Reused(runs, key)
    ensures OneActivePerMeeting(runs[bot := NewRun(meeting, key, now)])
    ensures UniqueKeys(runs[bot := NewRun(meeting, key, now)])
  {
  }

  lemma {:induction false} RunsFollowAlways(acts: seq<Act>)
    ensures RunsFollow(After(acts))
  {
    if acts != [] {
      RunsFollowAlways(acts[..|acts| - 1]);
      RunsFollowKept(After(acts[..|acts| - 1]), acts[|acts| - 1]);
    }
  }

  // ----- a run that goes well

  lemma AfterThen(acts: seq<Act>, act: Act)
    ensures After(acts + [act]) == Next(After(acts), act)
  {
    assert (acts + [act])[..|acts|] == acts;
  }

  /** The advances of the run along the way to its status number `n`, at the given times. */
  function WayTo(bot: string, times: seq<real>, n: nat): seq<Act>
    requires n <= 5 && n <= |times|
  {
    if n == 0 then [] else WayTo(bot, times, n - 1) + [AdvanceBot(bot, PATH[n], times[n - 1])]
  }

  lemma {:induction false} WayLeadsOn(acts: seq<Act>, bot: string, times: seq<real>, n: nat)
    requires bot in After(acts).runs && After(acts).runs[bot].status == Queued && n <= 5 && n <= |times|
    ensures var w := After(acts + WayTo(bot, times, n));
            bot in w.runs && w.runs[bot].status == PATH[n] && bot in w.history && w.history[bot] == PATH[..n + 1]
  {
    if n == 0 {
      assert acts + WayTo(bot, times, 0) == acts;
      QueuedFromStart(acts, bot);
    } else {
      WayLeadsOn(acts, bot, times, n - 1);
      var so := acts + WayTo(bot, times, n - 1);
      var act := AdvanceBot(bot, PATH[n], times[n - 1]);
      assert acts + WayTo(bot, times, n) == so + [act];
      AfterThen(so, act);
      OneStepOn(After(so), bot, n, times[n - 1]);
    }
  }

  lemma QueuedFromStart(acts: seq<Act>, bot: string)
    requires bot in After(acts).runs && After(acts).runs[bot].status == Queued
    ensures bot in After(acts).history && After(acts).history[bot] == PATH[..1]
  {
    RunsFollowAlways(acts);
    QueuedHistory(After(acts).history[bot]);
  }

  lemma OneStepOn(w: World, bot: string, n: nat, now: real)
    requires 1 <= n <= 5 && bot in w.runs && w.runs[bot].status == PATH[n - 1]
    requires bot in w.history && w.history[bot] == PATH[..n]
    ensures var u := Next(w, AdvanceBot(bot, PATH[n], now));
            bot in u.runs && u.runs[bot].status == PATH[n] && bot in u.history && u.history[bot] == PATH[..n + 1]
  {
    assert NextOnPath(PATH[n - 1], PATH[n]);
    assert PATH[n - 1] !in {Completed, Failed};
    AdvanceGrantsExactly(w.runs, bot, PATH[n], now);
    assert PATH[..n] + [PATH[n]] == PATH[..n + 1];
  }

  lemma QueuedHistory(h: seq<Status>)
    requires ValidHistory(h) && h[|h| - 1] == Queued
    ensures h == PATH[..1]
  {
    HistoriesExactly(h);
    assert forall i | 0 < i < 6 :: PATH[i] != Queued;
    assert h <= PATH ==> h[|h| - 1] == PATH[|h| - 1];
  }

  /** Five advances, at any times, take any queued run to completion by way of every status; and no completed run
      got there otherwise. */
  lemma RunsComplete(acts: seq<Act>, bot: string, times: seq<real>)
    requires bot in After(acts).runs && |times| == 5
    ensures After(acts).runs[bot].status == Queued ==>
              var w := After(acts + WayTo(bot, times, 5));
              bot in w.runs && w.runs[bot].status == Completed && bot in w.history && w.history[bot] == PATH
    ensures bot in After(acts).history
            && (After(acts).runs[bot].status == Completed ==> After(acts).history[bot] == PATH)
  {
    RunsFollowAlways(acts);
    HistoriesExactly(After(acts).history[bot]);
    if After(acts).runs[bot].status == Queued {
      WayLeadsOn(acts, bot, times, 5);
    }
  }

  // ----- a single joiner

  /** The act moves `bot` to joining and its caller is told so. */
  predicate GrantsJoin(w: World, act: Act, bot: string) {
    && act.AdvanceBot? && act.bot == bot && act.target == Joining
    && Advance(w.runs, bot, Joining, act.now).answer == Done
  }

  /** How many times moving `bot` to joining succeeded, counting every caller. */
  function JoinsGranted(acts: seq<Act>, bot: string): nat {
    if acts == [] then 0
    else
      var n := |acts| - 1;
      JoinsGranted(acts[..n], bot) + if GrantsJoin(After(acts[..n]), acts[n], bot) then 1 else 0
  }

  predicate LeftQueue(w: World, bot: string) {
    bot in w.runs && w.runs[bot].status != Queued
  }

  lemma JoinLeavesQueue(w: World, act: Act, bot: string)
    ensures LeftQueue(w, bot) ==> LeftQueue(Next(w, act), bot) && !GrantsJoin(w, act, bot)
    ensures GrantsJoin(w, act, bot) ==> LeftQueue(Next(w, act), bot)
  {
  }

  lemma {:induction false} JoinsLeaveQueue(acts: seq<Act>, bot: string)
    ensures JoinsGranted(acts, bot) <= 1
    ensures JoinsGranted(acts, bot) == 1 ==> LeftQueue(After(acts), bot)
  {
    if acts != [] {
      JoinsLeaveQueue(acts[..|acts| - 1], bot);
      JoinLeavesQueue(After(acts[..|acts| - 1]), acts[|acts| - 1], bot);
    }
  }

  /** Whatever claims, duplicate jobs, cancels and sweeps come together, a bot is let into joining at most once,
      so at most one browser is opened for it; and the life of a run has at most six statuses, none twice. */
  lemma SingleJoiner(acts: seq<Act>, bot: string)
    ensures JoinsGranted(acts, bot) <= 1
    ensures bot in After(acts).runs ==>
              && bot in After(acts).history
              && var h := After(acts).history[bot];
              && |h| <= 6
              && (forall i, j | 0 <= i < j < |h| :: h[i] != h[j])
              && (forall i | 0 <= i < |h| && Terminal(h[i]) :: i == |h| - 1)
  {
    JoinsLeaveQueue(acts, bot);
    RunsFollowAlways(acts);
    if bot in After(acts).runs {
      HistoryShape(After(acts).history[bot]);
    }
  }

  /** In every reachable world each run's status, join and leave times agree with its history, and no two runs
      that are not over share a meeting. */
  lemma RunsAreConsistent(acts: seq<Act>)
    ensures var w := After(acts);
            && (forall b | b in w.runs :: b in w.history && RunFollows(w.runs[b], w.history[b]))
            && OneActivePerMeeting(w.runs)
            && UniqueKeys(w.runs)
  {
    RunsFollowAlways(acts);
  }

  // ----- what a stream tells of a run

  /** The statuses told to a stream by all rows born on it. */
  function Trail(births: seq<Birth>, k: Stream): seq<Status> {
    if births == [] then []
    else
      var last := births[|births| - 1];
      Trail(births[..|births| - 1], k) + if last.stream == k && IsStatus(last.event) then [last.event.status] else []
  }

  /** The statuses told by the given rows, in the given order. */
  function Told(births: seq<Birth>, ids: seq<nat>): seq<Status> {
    if ids == [] then []
    else
      var id := ids[|ids| - 1];
      Told(births, ids[..|ids| - 1])
      + if id < |births| && IsStatus(births[id].event) then [births[id].event.status] else []
  }

  lemma {:induction false} TrailAppend(a: seq<Birth>, b: seq<Birth>, k: Stream)
    ensures Trail(a + b, k) == Trail(a, k) + Trail(b, k)
  {
    if b == [] {
      assert a + b == a;
    } else {
      var n := |b| - 1;
      TrailAppend(a, b[..n], k);
      assert (a + b)[..|a| + n] == a + b[..n];
    }
  }

  lemma {:induction false} TrailOfEmit(subscriptions: seq<string>, event: Event, k: Stream)
    requires NoDuplicates(subscriptions)
    ensures Trail(BirthsFor(subscriptions, event), k)
            == if k.subscription in subscriptions && k.bot == event.bot && IsStatus(event) then [event.status] else []
  {
    if subscriptions != [] {
      var b := Birth(Stream(event.bot, subscriptions[0]), event);
      forall i, j | 0 <= i < j < |subscriptions[1..]| ensures subscriptions[1..][i] != subscriptions[1..][j] {
        assert subscriptions[i + 1] != subscriptions[j + 1];
      }
      TrailOfEmit(subscriptions[1..], event, k);
      TrailAppend([b], BirthsFor(subscriptions[1..], event), k);
      assert [b][..0] == [];
      assert forall x | x in subscriptions[1..] :: x != subscriptions[0];
      assert k.subscription in subscriptions
         <==> k.subscription == subscriptions[0] || k.subscription in subscriptions[1..];
    }
  }

  lemma {:induction false} ToldStable(births: seq<Birth>, more: seq<Birth>, ids: seq<nat>)
    requires births <= more
    requires forall i | 0 <= i < |ids| :: ids[i] < |births|
    ensures Told(births, ids) == Told(more, ids)
  {
    if ids != [] {
      ToldStable(births, more, ids[..|ids| - 1]);
    }
  }

  lemma ToldAppend(births: seq<Birth>, ids: seq<nat>, id: nat)
    ensures Told(births, ids + [id])
            == Told(births, ids) + if id < |births| && IsStatus(births[id].event) then [births[id].event.status] else []
  {
    assert (ids + [id])[..|ids|] == ids;
  }

  lemma CreatedToldStable(births: seq<Birth>, more: seq<Birth>, k: Stream)
    requires births <= more
    ensures Told(births, Created(births, k)) == Told(more, Created(births, k))
  {
    CreatedInOrder(births, k);
    var ids := Created(births, k);
    assert forall i | 0 <= i < |ids| :: ids[i] in ids;
    ToldStable(births, more, ids);
  }

  lemma {:induction false} CreatedTellTrail(births: seq<Birth>, k: Stream)
    ensures Told(births, Created(births, k)) == Trail(births, k)
  {
    if births != [] {
      var n := |births| - 1;
      CreatedTellTrail(births[..n], k);
      CreatedToldStable(births[..n], births, k);
      if births[n].stream == k {
        ToldAppend(births, Created(births[..n], k), n);
      } else {
        assert Created(births, k) == Created(births[..n], k);
      }
    }
  }

  lemma {:induction false} ToldPrefix(births: seq<Birth>, a: seq<nat>, b: seq<nat>)
    requires a <= b
    ensures Told(births, a) <= Told(births, b)
  {
    if a != b {
      ToldPrefix(births, a, b[..|b| - 1]);
    }
  }

  // ----- streams follow the histories of their runs

  ghost predicate StreamsFollow(w: World) {
    && NoDuplicates(w.subscriptions)
    && (forall s | s in w.subscriptions :: s in w.issued)
    && (forall b | b in w.origin :: w.origin[b] <= w.issued)
    && (forall b, s | b in w.origin && b in w.history && s in w.origin[b] :: StreamFollows(w, b, s))
    && (forall b, s | b !in w.runs :: Trail(Births(w), Stream(b, s)) == [])
  }

  /** The stream has been told all of the run's history, or the part up to its subscription's end. */
  ghost predicate StreamFollows(w: World, b: string, s: string)
    requires b in w.history
  {
    var trail := Trail(Births(w), Stream(b, s));
    trail <= w.history[b] && (s in w.subscriptions ==> trail == w.history[b])
  }

  lemma TraceGrows(w: World, step: P.Step)
    ensures var s := Net(w);
            P.Run(P.INIT, w.trace + [step]) == P.Apply(s, step)
    ensures !step.Emit? ==> P.Apply(Net(w), step).table.births == Births(w)
    ensures step.Emit? ==>
              P.Apply(Net(w), step).table.births == Births(w) + BirthsFor(step.subscriptions, step.event)
  {
    assert (w.trace + [step])[..|w.trace|] == w.trace;
    if step.Emit? {
      StoreBirths(Net(w).table, step.subscriptions, step.event, step.now);
    } else {
      P.InvAlways(w.trace);
      P.TableSteps(Net(w), step);
    }
  }

  /** What an emit adds to each stream's trail. */
  lemma EmitTells(w: World, event: Event, now: real, k: Stream)
    requires NoDuplicates(w.subscriptions)
    ensures Trail(P.Run(P.INIT, w.trace + [P.Emit(w.subscriptions, event, now)]).table.births, k)
            == Trail(Births(w), k)
               + if k.subscription in w.subscriptions && k.bot == event.bot && IsStatus(event)
                 then [event.status] else []
  {
    TraceGrows(w, P.Emit(w.subscriptions, event, now));
    TrailAppend(Births(w), BirthsFor(w.subscriptions, event), k);
    TrailOfEmit(w.subscriptions, event, k);
  }

  lemma {:induction false} WithoutElements(xs: seq<string>, x: string)
    requires NoDuplicates(xs)
    ensures NoDuplicates(Without(xs, x))
    ensures forall y :: y in Without(xs, x) <==> y in xs && y != x
  {
    if xs != [] {
      forall i, j | 0 <= i < j < |xs[1..]| ensures xs[1..][i] != xs[1..][j] {
        assert xs[i + 1] != xs[j + 1];
      }
      WithoutElements(xs[1..], x);
      assert forall y :: y in xs <==> y == xs[0] || y in xs[1..];
      assert forall y | y in xs[1..] :: y != xs[0];
      var rest := Without(xs[1..], x);
      assert xs[0] !in rest;
      assert Without(xs, x) == (if xs[0] == x then [] else [xs[0]]) + rest;
    }
  }

  /** A committed status change reaches every stream of its run and no other. */
  lemma CommitKeepsStreams(w: World, bot: string, status: Status, runs: map<string, BotRun>, now: real)
    requires RunsFollow(w) && StreamsFollow(w) && bot in w.runs && runs.Keys == w.runs.Keys
    ensures StreamsFollow(Committed(w, Change(runs, Some(StatusChanged(bot, status)), Done), now))
  {
    var e := StatusChanged(bot, status);
    var u := Committed(w, Change(runs, Some(e), Done), now);
    forall b, s | b in u.origin && b in u.history && s in u.origin[b] ensures StreamFollows(u, b, s) {
      CommitKeepsStream(w, bot, status, runs, now, b, s);
    }
    forall b, s | b !in u.runs ensures Trail(Births(u), Stream(b, s)) == [] {
      EmitTells(w, e, now, Stream(b, s));
    }
  }

  lemma CommitKeepsStream(w: World, bot: string, status: Status, runs: map<string, BotRun>, now: real, b: string,
                          s: string)
    requires NoDuplicates(w.subscriptions) && bot in w.history && b in w.history && StreamFollows(w, b, s)
    ensures StreamFollows(Committed(w, Change(runs, Some(StatusChanged(bot, status)), Done), now), b, s)
  {
    EmitTells(w, StatusChanged(bot, status), now, Stream(b, s));
  }

  /** `u` is `w` with a run just created and announced. */
  ghost predicate JustCreated(w: World, u: World, bot: string, now: real) {
    && bot !in w.runs && u.runs.Keys == w.runs.Keys + {bot}
    && u.subscriptions == w.subscriptions && u.issued == w.issued
    && u.trace == w.trace + [P.Emit(w.subscriptions, StatusChanged(bot, Queued), now)]
    && u.history == w.history[bot := [Queued]]
    && u.origin == w.origin[bot := set s | s in w.subscriptions]
  }

  lemma CreateJustCreates(w: World, bot: string, meeting: string, key: Option<string>, now: real)
    requires w.history.Keys == w.runs.Keys
    requires bot !in w.runs && Create(w.runs, bot, meeting, key, now).event.Some?
    ensures JustCreated(w, Next(w, CreateBot(bot, meeting, key, now)), bot, now)
  {
    assert [] + [Queued] == [Queued];
  }

  lemma CreatedStreamFollows(w: World, u: World, bot: string, now: real, b: string, s: string)
    requires w.history.Keys == w.runs.Keys == w.origin.Keys && StreamsFollow(w) && JustCreated(w, u, bot, now)
    requires b in u.origin && b in u.history && s in u.origin[b]
    ensures StreamFollows(u, b, s)
  {
    EmitTells(w, StatusChanged(bot, Queued), now, Stream(b, s));
    if b != bot {
      assert StreamFollows(w, b, s);
    } else {
      assert Trail(Births(w), Stream(b, s)) == [];
      assert [] + [Queued] == [Queued];
    }
  }

  lemma CreatedStreamsFollow(w: World, u: World, bot: string, now: real)
    requires w.history.Keys == w.runs.Keys == w.origin.Keys && StreamsFollow(w) && JustCreated(w, u, bot, now)
    ensures StreamsFollow(u)
  {
    forall b, s | b in u.origin && b in u.history && s in u.origin[b] ensures StreamFollows(u, b, s) {
      CreatedStreamFollows(w, u, bot, now, b, s);
    }
    forall b, s | b !in u.runs ensures Trail(Births(u), Stream(b, s)) == [] {
      EmitTells(w, StatusChanged(bot, Queued), now, Stream(b, s));
    }
  }

  lemma CreateKeepsStreams(w: World, bot: string, meeting: string, key: Option<string>, now: real)
    requires RunsFollow(w) && StreamsFollow(w) && bot !in w.runs && Create(w.runs, bot, meeting, key, now).event.Some?
    ensures StreamsFollow(Next(w, CreateBot(bot, meeting, key, now)))
  {
    CreateJustCreates(w, bot, meeting, key, now);
    CreatedStreamsFollow(w, Next(w, CreateBot(bot, meeting, key, now)), bot, now);
  }

  /** Acts that change no run: trails stay what they were. */
  lemma QuietKeepsStreams(w: World, act: Act)
    requires RunsFollow(w) && StreamsFollow(w)
    requires act.Subscribe? || act.Unsubscribe? || act.Publish? || act.Deliver?
    ensures StreamsFollow(Next(w, act))
  {
    var u := Next(w, act);
    QuietSubscriptions(w, act);
    forall k ensures Trail(Births(u), k) == Trail(Births(w), k) {
      QuietTells(w, act, k);
    }
    SameTrailsFollow(w, u);
  }

  /** `u` has the runs of `w`; what it subscribes beyond `w` is new. */
  ghost predicate OnlyNewSubscriptions(w: World, u: World) {
    && u.runs == w.runs && u.history == w.history && u.origin == w.origin
    && NoDuplicates(u.subscriptions) && w.issued <= u.issued
    && forall s | s in u.subscriptions :: s in u.issued && (s in w.issued ==> s in w.subscriptions)
  }

  lemma QuietSubscriptions(w: World, act: Act)
    requires NoDuplicates(w.subscriptions) && forall s | s in w.subscriptions :: s in w.issued
    requires act.Subscribe? || act.Unsubscribe? || act.Publish? || act.Deliver?
    ensures OnlyNewSubscriptions(w, Next(w, act))
  {
    if act.Unsubscribe? {
      WithoutElements(w.subscriptions, act.subscription);
    }
  }

  lemma SameTrailsFollow(w: World, u: World)
    requires StreamsFollow(w) && OnlyNewSubscriptions(w, u)
    requires forall k :: Trail(Births(u), k) == Trail(Births(w), k)
    ensures StreamsFollow(u)
  {
    forall b, s | b in u.origin && b in u.history && s in u.origin[b] ensures StreamFollows(u, b, s) {
      assert StreamFollows(w, b, s);
      assert s in w.issued;
    }
  }

  lemma QuietTells(w: World, act: Act, k: Stream)
    requires NoDuplicates(w.subscriptions)
    requires act.Subscribe? || act.Unsubscribe? || act.Publish? || act.Deliver?
    ensures Trail(Births(Next(w, act)), k) == Trail(Births(w), k)
  {
    if act.Publish? && Next(w, act) != w {
      EmitTells(w, act.event, act.now, k);
    } else if act.Deliver? && Next(w, act) != w {
      TraceGrows(w, act.step);
    }
  }

  lemma ChangeKeepsStreams(w: World, bot: string, target: Status, c: Change, now: real)
    requires RunsFollow(w) && StreamsFollow(w)
    requires c.event.None? ==> c.runs == w.runs
    requires c.event.Some? ==>
               c.event == Some(StatusChanged(bot, target)) && bot in w.runs && c.runs.Keys == w.runs.Keys
    ensures StreamsFollow(Committed(w, c, now))
  {
    if c.event.Some? {
      assert Committed(w, c, now) == Committed(w, Change(c.runs, Some(StatusChanged(bot, target)), Done), now);
      CommitKeepsStreams(w, bot, target, c.runs, now);
    } else {
      assert Committed(w, c, now) == w;
    }
  }

  lemma AdvanceKeepsStreams(w: World, bot: string, target: Status, now: real)
    requires RunsFollow(w) && StreamsFollow(w)
    ensures StreamsFollow(Next(w, AdvanceBot(bot, target, now)))
  {
    ChangeKeepsStreams(w, bot, target, Advance(w.runs, bot, target, now), now);
  }

  lemma FailKeepsStreams(w: World, bot: string, code: string, reason: string, now: real)
    requires RunsFollow(w) && StreamsFollow(w)
    ensures StreamsFollow(Next(w, FailBot(bot, code, reason, now)))
  {
    ChangeKeepsStreams(w, bot, Failed, Fail(w.runs, bot, code, reason, now), now);
  }

  lemma StreamsFollowKept(w: World, act: Act)
    requires RunsFollow(w) && StreamsFollow(w)
    ensures StreamsFollow(Next(w, act))
  {
    match act
    case CreateBot(bot, meeting, key, now) =>
      if bot !in w.runs && Create(w.runs, bot, meeting, key, now).event.Some? {
        CreateKeepsStreams(w, bot, meeting, key, now);
      }
    case AdvanceBot(bot, target, now) => AdvanceKeepsStreams(w, bot, target, now);
    case FailBot(bot, code, reason, now) => FailKeepsStreams(w, bot, code, reason, now);
    case _ => QuietKeepsStreams(w, act);
  }

  lemma {:induction false} StreamsFollowAlways(acts: seq<Act>)
    ensures StreamsFollow(After(acts))
  {
    if acts != [] {
      StreamsFollowAlways(acts[..|acts| - 1]);
      RunsFollowAlways(acts[..|acts| - 1]);
      StreamsFollowKept(After(acts[..|acts| - 1]), acts[|acts| - 1]);
    }
  }

  /** End to end: a subscription that existed when a run was created, and on whose stream no row that is pending
      and was never posted is skipped, is first told a prefix of the statuses the run went through, in that
      order, whatever is replayed or purged; and that history starts queued, follows the table of transitions
      and ends at its first terminal status. While it stays subscribed, the whole history has been stored for
      it. */
  lemma SubscribersSeeHistory(acts: seq<Act>, bot: string, subscription: string)
    requires bot in After(acts).origin && subscription in After(acts).origin[bot]
    requires FaithfulRun(After(acts).trace, Stream(bot, subscription))
    ensures bot in After(acts).history
    ensures var w := After(acts);
            && Told(Births(w), FirstPosts(Net(w).posts, Births(w), Stream(bot, subscription))) <= w.history[bot]
            && (subscription in w.subscriptions ==> Trail(Births(w), Stream(bot, subscription)) == w.history[bot])
            && ValidHistory(w.history[bot])
  {
    RunsFollowAlways(acts);
    StreamsFollowAlways(acts);
    var w, k := After(acts), Stream(bot, subscription);
    FirstPostsInCreationOrder(w.trace, k);
    ToldPrefix(Births(w), FirstPosts(Net(w).posts, Births(w), k), Created(Births(w), k));
    CreatedTellTrail(Births(w), k);
    assert StreamFollows(w, bot, subscription);
  }
}

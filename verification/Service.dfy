/** Bot runs and the service that moves them: BotService in src/twin/bots/service.py, fail_run in
    src/twin/bots/runtime.py and sweep_orphans in src/twin/bots/runner.py. Every change of status is stored in
    the outbox in the same transaction. */
module Service {
  import opened Common
  import opened Lifecycle
  import opened Delivery

  const DEFAULT_REASON := "failure"

  datatype BotRun = BotRun(
    meetingKey: string,
    idempotencyKey: Option<string>,
    status: Status,
    updatedAt: real,
    joinedAt: Option<real>,
    leftAt: Option<real>,
    errorCode: Option<string>,
    stopReason: Option<string>)

  datatype Answer = Done | Existing | NotFound | Conflict

  /** What one call does: the new runs, the status event stored with them, and the caller's answer. */
  datatype Change = Change(runs: map<string, BotRun>, event: Option<Event>, answer: Answer)

  /** The run after a granted transition. */
  function Advanced(run: BotRun, target: Status, now: real): BotRun {
    run.(status := target,
         updatedAt := now,
         joinedAt := if target == Joined && run.joinedAt.None? then Some(now) else run.joinedAt,
         leftAt := if Terminal(target) then Some(now) else run.leftAt,
         stopReason := if target == Failed && run.stopReason.None? then Some(DEFAULT_REASON) else run.stopReason)
  }

  function Advance(runs: map<string, BotRun>, bot: string, target: Status, now: real): Change {
    if bot !in runs then Change(runs, None, NotFound)
    else if Terminal(runs[bot].status) then Change(runs, None, if runs[bot].status == target then Done else Conflict)
    else if !CanTransition(runs[bot].status, target) then Change(runs, None, Conflict)
    else Change(runs[bot := Advanced(runs[bot], target, now)], Some(StatusChanged(bot, target)), Done)
  }

  /** Cancelling, failing and reaping: the reason is noted and the run fails, unless it is over already. */
  function Fail(runs: map<string, BotRun>, bot: string, code: string, reason: string, now: real): Change {
    if bot !in runs then Change(runs, None, NotFound)
    else if Terminal(runs[bot].status) then Change(runs, None, Done)
    else Advance(runs[bot := runs[bot].(errorCode := Some(code), stopReason := Some(reason))], bot, Failed, now)
  }

  predicate Reused(runs: map<string, BotRun>, key: Option<string>) {
    key.Some? && exists b | b in runs :: runs[b].idempotencyKey == key
  }

  predicate ReusedFor(runs: map<string, BotRun>, key: Option<string>, meeting: string) {
    exists b | b in runs :: runs[b].idempotencyKey == key && runs[b].meetingKey == meeting
  }

  predicate ActiveMeeting(runs: map<string, BotRun>, meeting: string) {
    exists b | b in runs :: runs[b].meetingKey == meeting && !Terminal(runs[b].status)
  }

  function NewRun(meeting: string, key: Option<string>, now: real): BotRun {
    BotRun(meeting, key, Queued, now, None, None, None, None)
  }

  /** `bot` is the fresh id of the run to create. An empty key is looked up by nobody, but the unique column
      still refuses it a second time. */
  function Create(runs: map<string, BotRun>, bot: string, meeting: string, key: Option<string>, now: real): Change {
    if Reused(runs, key) && key != Some("")
    then Change(runs, None, if ReusedFor(runs, key, meeting) then Existing else Conflict)
    else if ActiveMeeting(runs, meeting) || Reused(runs, key) then Change(runs, None, Conflict)
    else Change(runs[bot := NewRun(meeting, key, now)], Some(StatusChanged(bot, Queued)), Done)
  }

  ghost predicate UniqueKeys(runs: map<string, BotRun>) {
    forall a, b | a in runs && b in runs && a != b && runs[a].idempotencyKey.Some? ::
      runs[a].idempotencyKey != runs[b].idempotencyKey
  }

  predicate IsOrphan(run: BotRun, heartbeat: bool, now: real, staleAfter: real) {
    Live(run.status) && !heartbeat && now - run.updatedAt > staleAfter
  }

  // ----- what the transactions do, in statuses and fields

  /** `target` comes right after `current` on the way of a run that goes well. */
  predicate NextOnPath(current: Status, target: Status) {
    exists i | 0 <= i < 5 :: PATH[i] == current && PATH[i + 1] == target
  }

  lemma TransitionsExactly(current: Status, target: Status)
    ensures CanTransition(current, target)
            <==> current !in {Completed, Failed} && (target == Failed || NextOnPath(current, target))
  {
    assert PATH[0] == Queued && PATH[1] == Joining && PATH[2] == Joined;
    assert PATH[3] == Recording && PATH[4] == Processing && PATH[5] == Completed;
  }

  /** Advancing an unfinished run is granted, with an event, exactly for the next status on the way or failure, and
      stamps the time; any other target is refused. A finished run accepts its own status and nothing else, without
      an event. */
  lemma AdvanceGrantsExactly(runs: map<string, BotRun>, bot: string, target: Status, now: real)
    requires bot in runs
    ensures var c, was := Advance(runs, bot, target, now), runs[bot].status;
            var granted := was !in {Completed, Failed} && (target == Failed || NextOnPath(was, target));
            && (c.event.Some? <==> granted)
            && (c.answer == Done <==> granted || (was in {Completed, Failed} && target == was))
            && (c.answer == Conflict <==> c.answer != Done)
            && (!granted ==> c.runs == runs)
            && (granted ==>
                  && c.event == Some(StatusChanged(bot, target))
                  && c.runs.Keys == runs.Keys && (forall b | b in runs && b != bot :: c.runs[b] == runs[b])
                  && c.runs[bot].status == target && c.runs[bot].updatedAt == now
                  && c.runs[bot].leftAt == (if target in {Completed, Failed} then Some(now) else runs[bot].leftAt)
                  && (target == Joined && runs[bot].joinedAt.None? ==> c.runs[bot].joinedAt == Some(now))
                  && (target != Joined || runs[bot].joinedAt.Some? ==> c.runs[bot].joinedAt == runs[bot].joinedAt)
                  && c.runs[bot].stopReason
                     == (if target == Failed && runs[bot].stopReason.None? then Some("failure")
                         else runs[bot].stopReason)
                  && c.runs[bot].errorCode == runs[bot].errorCode
                  && c.runs[bot].meetingKey == runs[bot].meetingKey)
  {
    TransitionsExactly(runs[bot].status, target);
  }

  /** Failing an unfinished run ends it with the code and reason given and one event; a finished one keeps its end. */
  lemma FailTells(runs: map<string, BotRun>, bot: string, code: string, reason: string, now: real)
    requires bot in runs
    ensures var c := Fail(runs, bot, code, reason, now);
            && c.answer == Done
            && (runs[bot].status in {Completed, Failed} ==> c.runs == runs && c.event.None?)
            && (runs[bot].status !in {Completed, Failed} ==>
                  && c.event == Some(StatusChanged(bot, Failed))
                  && c.runs == runs[bot := runs[bot].(status := Failed, errorCode := Some(code),
                                                      stopReason := Some(reason), leftAt := Some(now),
                                                      updatedAt := now)])
  {
    TransitionsExactly(runs[bot].status, Failed);
  }

  /** Who gets a run when it asks for one: with a key used before, the run that has it, if it is for the same
      meeting; otherwise a new queued run, if no unfinished run is at the meeting and no run has the key. */
  lemma CreateTells(runs: map<string, BotRun>, bot: string, meeting: string, key: Option<string>, now: real)
    requires UniqueKeys(runs) && bot !in runs
    ensures var c := Create(runs, bot, meeting, key, now);
            var used := key.Some? && exists b | b in runs :: runs[b].idempotencyKey == key;
            var busy := exists b | b in runs :: runs[b].meetingKey == meeting && runs[b].status !in {Completed, Failed};
            && (c.answer == Done <==> !used && !busy)
            && (c.answer == Existing <==>
                  key != Some("") && used
                  && forall b | b in runs && runs[b].idempotencyKey == key :: runs[b].meetingKey == meeting)
            && (c.answer == Conflict <==> c.answer !in {Done, Existing})
            && (c.answer != Done ==> c.runs == runs && c.event.None?)
            && (c.answer == Done ==>
                  && c.event == Some(StatusChanged(bot, Queued))
                  && c.runs == runs[bot := BotRun(meeting, key, Queued, now, None, None, None, None)])
  {
    if Reused(runs, key) {
      var b :| b in runs && runs[b].idempotencyKey == key;
      assert forall a | a in runs && runs[a].idempotencyKey == key :: a == b;
    }
  }

  datatype Db = Db(runs: map<string, BotRun>, subscriptions: seq<string>, outbox: Table)

  function Commit(db: Db, c: Change, now: real): Db {
    Db(c.runs, db.subscriptions,
       if c.event.Some? then Store(db.outbox, db.subscriptions, c.event.value, now) else db.outbox)
  }

  function FailEach(db: Db, bots: seq<string>, code: string, reason: string, now: real): Db {
    if bots == [] then db
    else
      var before := FailEach(db, bots[..|bots| - 1], code, reason, now);
      Commit(before, Fail(before.runs, bots[|bots| - 1], code, reason, now), now)
  }

  lemma FailTouchesOne(runs: map<string, BotRun>, bot: string, code: string, reason: string, now: real)
    ensures var after := Fail(runs, bot, code, reason, now).runs;
            after.Keys == runs.Keys && forall b | b in runs && b != bot :: after[b] == runs[b]
  {
  }

  /** Failing several runs ends each of them, once, and leaves the others alone. */
  lemma {:induction false} FailEachTells(db: Db, bots: seq<string>, code: string, reason: string, now: real)
    requires NoDuplicates(bots) && forall b | b in bots :: b in db.runs && db.runs[b].status !in {Completed, Failed}
    ensures var after := FailEach(db, bots, code, reason, now);
            && after.runs.Keys == db.runs.Keys && after.subscriptions == db.subscriptions
            && (forall b | b in db.runs && b !in bots :: after.runs[b] == db.runs[b])
            && (forall b | b in bots ::
                  after.runs[b] == db.runs[b].(status := Failed, errorCode := Some(code), stopReason := Some(reason),
                                               leftAt := Some(now), updatedAt := now))
  {
    if bots != [] {
      var n := |bots| - 1;
      assert forall b | b in bots[..n] :: b in bots;
      assert bots[n] !in bots[..n] && bots == bots[..n] + [bots[n]];
      FailEachTells(db, bots[..n], code, reason, now);
      var before := FailEach(db, bots[..n], code, reason, now);
      FailTells(before.runs, bots[n], code, reason, now);
    }
  }

  class BotService {
    var runs: map<string, BotRun>
    var subscriptions: seq<string>
    const outbox: Outbox

    ghost predicate Valid()
      reads this, outbox
    {
      UniqueKeys(runs) && outbox.Valid()
    }

    ghost function View(): Db
      reads this, outbox
    {
      Db(runs, subscriptions, outbox.View())
    }

    constructor (outbox: Outbox)
      requires outbox.Valid()
      ensures Valid() && this.outbox == outbox && View() == Db(map[], [], outbox.View())
    {
      runs, subscriptions := map[], [];
      this.outbox := outbox;
    }

    method AdvanceRun(bot: string, target: Status, now: real) returns (answer: Answer)
      requires Valid()
      modifies this, outbox
      ensures Valid()
      ensures View() == Commit(old(View()), Advance(old(runs), bot, target, now), now)
      ensures answer == Advance(old(runs), bot, target, now).answer
    {
      if bot !in runs {
        return NotFound;
      }
      var run := runs[bot];
      var current := run.status;
      if current == Completed || current == Failed {
        return if current == target then Done else Conflict;
      }
      if target !in Allowed(current) {
        return Conflict;
      }
      run := run.(status := target, updatedAt := now);
      if target == Joined && run.joinedAt.None? {
        run := run.(joinedAt := Some(now));
      }
      if target == Completed || target == Failed {
        run := run.(leftAt := Some(now));
        if target == Failed && run.stopReason.None? {
          run := run.(stopReason := Some(DEFAULT_REASON));
        }
      }
      runs := runs[bot := run];
      outbox.StoreEvent(subscriptions, StatusChanged(bot, target), now);
      return Done;
    }

    /** fail_run, and cancel with the reason "cancelled". */
    method FailRun(bot: string, code: string, reason: string, now: real) returns (answer: Answer)
      requires Valid()
      modifies this, outbox
      ensures Valid()
      ensures View() == Commit(old(View()), Fail(old(runs), bot, code, reason, now), now)
      ensures answer == Fail(old(runs), bot, code, reason, now).answer
    {
      if bot !in runs {
        return NotFound;
      }
      if runs[bot].status == Completed || runs[bot].status == Failed {
        return Done;
      }
      runs := runs[bot := runs[bot].(errorCode := Some(code))];
      runs := runs[bot := runs[bot].(stopReason := Some(reason))];
      assert runs == old(runs)[bot := old(runs)[bot].(errorCode := Some(code), stopReason := Some(reason))];
      answer := AdvanceRun(bot, Failed, now);
    }

    /** The answer comes with the run created or found. */
    method CreateOrGet(bot: string, meeting: string, key: Option<string>, now: real)
      returns (answer: Answer, run: string)
      requires Valid() && bot !in runs
      modifies this, outbox
      ensures Valid()
      ensures View() == Commit(old(View()), Create(old(runs), bot, meeting, key, now), now)
      ensures answer == Create(old(runs), bot, meeting, key, now).answer
      ensures answer == Done ==> run == bot
      ensures answer == Existing ==> run in runs && runs[run].idempotencyKey == key && runs[run].meetingKey == meeting
    {
      run := bot;
      if key.Some? && key.value != "" {
        if b :| b in runs && runs[b].idempotencyKey == key {
          run := b;
          answer := if runs[b].meetingKey != meeting then Conflict else Existing;
          return;
        }
      }
      if b :| b in runs && runs[b].meetingKey == meeting && !Terminal(runs[b].status) {
        return Conflict, run;
      }
      if b :| b in runs && key.Some? && runs[b].idempotencyKey == key {
        return Conflict, run;
      }
      runs := runs[bot := NewRun(meeting, key, now)];
      outbox.StoreEvent(subscriptions, StatusChanged(bot, Queued), now);
      answer := Done;
    }

    /** Fails every live run that was not updated for long and has no heartbeat; each exactly once. */
    method SweepOrphans(heartbeats: set<string>, staleAfter: real, now: real) returns (reaped: seq<string>)
      requires Valid()
      modifies this, outbox
      ensures Valid() && NoDuplicates(reaped)
      ensures forall b :: b in reaped <==>
                && b in old(runs) && old(runs)[b].status in {Joining, Joined, Recording, Processing}
                && b !in heartbeats && now - old(runs)[b].updatedAt > staleAfter
      ensures View() == FailEach(old(View()), reaped, "orphaned", "failure", now)
    {
      reaped := [];
      var left := set b | b in runs && Live(runs[b].status) && runs[b].updatedAt < now - staleAfter;
      while left != {}
        invariant Valid() && NoDuplicates(reaped)
        invariant forall b | b in reaped :: b !in left
        invariant forall b | b in left :: b in runs && b in old(runs) && runs[b] == old(runs)[b] && Live(runs[b].status)
        invariant forall b | b in reaped :: b in old(runs) && IsOrphan(old(runs)[b], b in heartbeats, now, staleAfter)
        invariant forall b | b in old(runs) && IsOrphan(old(runs)[b], b in heartbeats, now, staleAfter) ::
                    b in reaped || b in left
        invariant View() == FailEach(old(View()), reaped, "orphaned", DEFAULT_REASON, now)
        decreases left
      {
        var b :| b in left;
        left := left - {b};
        if b in heartbeats || !IsOrphan(runs[b], false, now, staleAfter) {
          continue;
        }
        assert (reaped + [b])[..|reaped|] == reaped;
        FailTouchesOne(runs, b, "orphaned", DEFAULT_REASON, now);
        var _ := FailRun(b, "orphaned", DEFAULT_REASON, now);
        reaped := reaped + [b];
      }
    }
  }
}

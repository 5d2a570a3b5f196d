/** The sequence numbers a stream gives its rows, over whole runs: when a number is given twice. */
module Numbering {
  import opened Delivery
  import opened Protocol
  import opened Ordering

  // ----- what a purge makes the table forget

  /** The youngest row of the stream still in the table. */
  ghost predicate Youngest(t: Table, k: Stream, i: nat) {
    i in t.rows && t.rows[i].stream == k && forall j | j in t.rows && t.rows[j].stream == k :: j <= i
  }

  ghost predicate Positive(t: Table) {
    forall i | i in t.rows :: 0 < t.rows[i].sequence
  }

  lemma LastIsYoungest(t: Table, k: Stream, i: nat)
    requires WellFormed(t) && Youngest(t, k, i)
    ensures LastSequence(t.rows, k, |t.births|) == t.rows[i].sequence
  {
    LastSequenceIsMaximum(t.rows, k, |t.births|);
  }

  lemma LastOfNone(t: Table, k: Stream)
    requires WellFormed(t) && forall i | i in t.rows :: t.rows[i].stream != k
    ensures LastSequence(t.rows, k, |t.births|) == 0
  {
    LastSequenceIsMaximum(t.rows, k, |t.births|);
  }

  /** A purge makes the table forget the last number of a stream exactly when it deletes its youngest row. */
  lemma PurgeForgetsExactly(t: Table, k: Stream, i: nat, moment: real)
    requires WellFormed(t) && Positive(t) && Youngest(t, k, i)
    ensures LastSequence(Purge(t, moment).rows, k, |t.births|) == LastSequence(t.rows, k, |t.births|)
            <==> !Purgeable(t.rows[i], moment)
  {
    var u := Purge(t, moment);
    PurgeKeepsShape(t, moment);
    SameShapeKeepsWellFormed(t, u);
    LastIsYoungest(t, k, i);
    if Purgeable(t.rows[i], moment) {
      LastSequenceIsMaximum(u.rows, k, |u.births|);
    } else {
      LastIsYoungest(u, k, i);
    }
  }

  // ----- the numbers given over a run

  /** The numbers of all rows ever born, by creation: `numbers` for those before, one more for each row stored. */
  function StoredNumbers(t: Table, subscriptions: seq<string>, event: Event, now: real, numbers: seq<nat>): seq<nat>
    decreases |subscriptions|
  {
    if subscriptions == [] then numbers
    else
      StoredNumbers(StoreOne(t, subscriptions[0], event, now), subscriptions[1..], event, now,
                    numbers + [LastSequence(t.rows, Stream(event.bot, subscriptions[0]), |t.births|) + 1])
  }

  ghost function Numbers(steps: seq<Step>): seq<nat> {
    if steps == [] then []
    else
      var before, last := steps[..|steps| - 1], steps[|steps| - 1];
      if last.Emit?
      then StoredNumbers(Run(INIT, before).table, last.subscriptions, last.event, last.now, Numbers(before))
      else Numbers(before)
  }

  /** Two rows of the stream were given the same number. */
  ghost predicate GivenTwice(births: seq<Birth>, numbers: seq<nat>, k: Stream) {
    exists i, j | 0 <= i < j < |births| && |births| == |numbers| ::
      births[i].stream == k && births[j].stream == k && numbers[i] == numbers[j]
  }

  /** The row of the stream born last is in the table no more. */
  ghost predicate ForgotLast(t: Table, k: Stream) {
    exists i: nat :: LastBorn(t.births, k, i) && i !in t.rows
  }

  predicate LastBorn(births: seq<Birth>, k: Stream, i: nat) {
    i < |births| && births[i].stream == k && forall j | i < j < |births| :: births[j].stream != k
  }

  /** `j` is the row of the stream born next after `i`. */
  predicate NextBorn(births: seq<Birth>, k: Stream, i: nat, j: nat) {
    && i < j < |births| && births[i].stream == k && births[j].stream == k
    && forall m | i < m < j :: births[m].stream != k
  }

  predicate FirstBorn(births: seq<Birth>, k: Stream, i: nat) {
    i < |births| && births[i].stream == k && forall m | 0 <= m < i :: births[m].stream != k
  }

  /** What is always so: rows bear the numbers they were given; the first number of the stream is one; and
      whatever follows a row that is still in the table was given the next number. */
  ghost predicate Booked(t: Table, numbers: seq<nat>, k: Stream) {
    && WellFormed(t)
    && |numbers| == |t.births|
    && (forall i | i in t.rows :: t.rows[i].sequence == numbers[i])
    && (forall i | 0 <= i < |numbers| :: 0 < numbers[i])
    && (forall i: nat | FirstBorn(t.births, k, i) :: numbers[i] == 1)
    && (forall i: nat, j: nat | NextBorn(t.births, k, i, j) && i in t.rows :: numbers[j] == numbers[i] + 1)
  }

  ghost predicate Rising(births: seq<Birth>, numbers: seq<nat>, k: Stream) {
    && |births| == |numbers|
    && forall i, j | 0 <= i < j < |births| && births[i].stream == k && births[j].stream == k :: numbers[i] < numbers[j]
  }

  lemma {:induction false} HasLastBorn(births: seq<Birth>, k: Stream, i: nat) returns (last: nat)
    requires i < |births| && births[i].stream == k
    ensures LastBorn(births, k, last)
    decreases |births| - i
  {
    if j: nat :| i < j < |births| && births[j].stream == k {
      last := HasLastBorn(births, k, j);
    } else {
      last := i;
    }
  }

  lemma {:induction false} HasFirstBorn(births: seq<Birth>, k: Stream, i: nat) returns (first: nat)
    requires i < |births| && births[i].stream == k
    ensures FirstBorn(births, k, first)
    decreases i
  {
    if j: nat :| j < i && births[j].stream == k {
      first := HasFirstBorn(births, k, j);
    } else {
      first := i;
    }
  }

  lemma {:induction false} HasNextBorn(births: seq<Birth>, k: Stream, i: nat, j: nat) returns (next: nat)
    requires i < j < |births| && births[i].stream == k && births[j].stream == k
    ensures NextBorn(births, k, i, next)
    decreases j
  {
    if m: nat :| i < m < j && births[m].stream == k {
      next := HasNextBorn(births, k, i, m);
    } else {
      next := j;
    }
  }

  lemma {:induction false} HasYoungest(t: Table, k: Stream, i: nat) returns (youngest: nat)
    requires WellFormed(t) && i in t.rows && t.rows[i].stream == k
    ensures Youngest(t, k, youngest)
    decreases |t.births| - i
  {
    if j :| j in t.rows && t.rows[j].stream == k && i < j {
      youngest := HasYoungest(t, k, j);
    } else {
      youngest := i;
    }
  }

  // ----- storing one row

  /** The number of a new row is the next one after the row born last when that is in the table. */
  lemma NumberAfterLast(t: Table, numbers: seq<nat>, k: Stream, last: nat)
    requires Booked(t, numbers, k) && LastBorn(t.births, k, last) && last in t.rows
    ensures LastSequence(t.rows, k, |t.births|) == numbers[last]
  {
    assert Youngest(t, k, last);
    LastIsYoungest(t, k, last);
  }

  lemma StoreOneBooks(t: Table, subscription: string, event: Event, now: real, numbers: seq<nat>, k: Stream)
    requires Booked(t, numbers, k)
    ensures var own := Stream(event.bot, subscription);
            Booked(StoreOne(t, subscription, event, now),
                   numbers + [LastSequence(t.rows, own, |t.births|) + 1], k)
  {
    var own := Stream(event.bot, subscription);
    var u, given := StoreOne(t, subscription, event, now), numbers + [LastSequence(t.rows, own, |t.births|) + 1];
    StoreOneKeeps(t, subscription, event, now);
    forall i: nat | FirstBorn(u.births, k, i) ensures given[i] == 1 {
      FirstIsOne(t, numbers, k, own, event, i);
    }
    forall i: nat, j: nat | NextBorn(u.births, k, i, j) && i in u.rows ensures given[j] == given[i] + 1 {
      NextIsOneMore(t, numbers, k, own, event, i, j);
    }
  }

  lemma FirstIsOne(t: Table, numbers: seq<nat>, k: Stream, own: Stream, event: Event, i: nat)
    requires Booked(t, numbers, k) && FirstBorn(t.births + [Birth(own, event)], k, i)
    ensures i < |t.births| ==> numbers[i] == 1
    ensures i == |t.births| ==> own == k && LastSequence(t.rows, k, |t.births|) == 0
  {
    var births := t.births + [Birth(own, event)];
    assert forall j | 0 <= j < |t.births| :: births[j] == t.births[j];
    if i < |t.births| {
      assert FirstBorn(t.births, k, i);
    } else {
      LastOfNone(t, k);
    }
  }

  lemma NextIsOneMore(t: Table, numbers: seq<nat>, k: Stream, own: Stream, event: Event, i: nat, j: nat)
    requires Booked(t, numbers, k) && NextBorn(t.births + [Birth(own, event)], k, i, j)
    ensures j < |t.births| && i in t.rows ==> numbers[j] == numbers[i] + 1
    ensures j == |t.births| && i in t.rows ==> own == k && LastSequence(t.rows, k, |t.births|) == numbers[i]
  {
    var births := t.births + [Birth(own, event)];
    assert forall m | 0 <= m < |t.births| :: births[m] == t.births[m];
    if i in t.rows {
      if j < |t.births| {
        assert NextBorn(t.births, k, i, j);
      } else {
        assert LastBorn(t.births, k, i);
        NumberAfterLast(t, numbers, k, i);
      }
    }
  }

  lemma StoreOneRises(t: Table, subscription: string, event: Event, now: real, numbers: seq<nat>, k: Stream)
    requires Booked(t, numbers, k) && Rising(t.births, numbers, k)
    requires Stream(event.bot, subscription) == k ==> !ForgotLast(t, k)
    ensures var own := Stream(event.bot, subscription);
            Rising(StoreOne(t, subscription, event, now).births,
                   numbers + [LastSequence(t.rows, own, |t.births|) + 1], k)
  {
    if Stream(event.bot, subscription) == k {
      forall j: nat | j < |t.births| && t.births[j].stream == k
        ensures numbers[j] <= LastSequence(t.rows, k, |t.births|)
      {
        LastIsGreatest(t, numbers, k, j);
      }
    }
  }

  lemma LastIsGreatest(t: Table, numbers: seq<nat>, k: Stream, j: nat)
    requires Booked(t, numbers, k) && Rising(t.births, numbers, k) && !ForgotLast(t, k)
    requires j < |t.births| && t.births[j].stream == k
    ensures numbers[j] <= LastSequence(t.rows, k, |t.births|)
  {
    var last := HasLastBorn(t.births, k, j);
    NumberAfterLast(t, numbers, k, last);
    assert j <= last;
  }

  /** When the row born last is gone, the new row gets a number that was given before. */
  lemma StoreOneRepeats(t: Table, subscription: string, event: Event, now: real, numbers: seq<nat>)
    requires Booked(t, numbers, Stream(event.bot, subscription)) && ForgotLast(t, Stream(event.bot, subscription))
    ensures var k := Stream(event.bot, subscription);
            GivenTwice(StoreOne(t, subscription, event, now).births,
                       numbers + [LastSequence(t.rows, k, |t.births|) + 1], k)
  {
    var k := Stream(event.bot, subscription);
    var last: nat :| LastBorn(t.births, k, last) && last !in t.rows;
    var given := numbers + [LastSequence(t.rows, k, |t.births|) + 1];
    var twin: nat;
    if i :| i in t.rows && t.rows[i].stream == k {
      var youngest := HasYoungest(t, k, i);
      LastIsYoungest(t, k, youngest);
      twin := HasNextBorn(t.births, k, youngest, last);
    } else {
      LastOfNone(t, k);
      twin := HasFirstBorn(t.births, k, last);
    }
    assert given[twin] == given[|t.births|] && twin < |t.births|;
    assert StoreOne(t, subscription, event, now).births[twin].stream == k;
  }

  lemma StillGivenTwice(births: seq<Birth>, numbers: seq<nat>, b: Birth, n: nat, k: Stream)
    requires GivenTwice(births, numbers, k)
    ensures GivenTwice(births + [b], numbers + [n], k)
  {
    var i, j :| 0 <= i < j < |births| && births[i].stream == k && births[j].stream == k && numbers[i] == numbers[j];
    assert (births + [b])[i].stream == k && (births + [b])[j].stream == k;
    assert (numbers + [n])[i] == (numbers + [n])[j];
  }

  // ----- storing an event

  lemma AfterOwnRow(t: Table, subscription: string, event: Event, now: real)
    ensures !ForgotLast(StoreOne(t, subscription, event, now), Stream(event.bot, subscription))
  {
    var u, k := StoreOne(t, subscription, event, now), Stream(event.bot, subscription);
    assert u.births[|t.births|].stream == k;
  }

  lemma AfterOtherRow(t: Table, subscription: string, event: Event, now: real, k: Stream)
    requires WellFormed(t) && Stream(event.bot, subscription) != k
    ensures ForgotLast(StoreOne(t, subscription, event, now), k) <==> ForgotLast(t, k)
  {
    var u := StoreOne(t, subscription, event, now);
    forall i: nat ensures LastBorn(u.births, k, i) <==> LastBorn(t.births, k, i) {
      assert forall j | 0 <= j < |t.births| :: u.births[j] == t.births[j];
      if LastBorn(t.births, k, i) {
        assert u.births[i].stream == k;
      }
    }
  }

  /** The event bears a row on the stream though the stream's last row is gone. */
  ghost predicate Forgetful(t: Table, subscriptions: seq<string>, event: Event, k: Stream) {
    k.bot == event.bot && k.subscription in subscriptions && ForgotLast(t, k)
  }

  /** Given twice or rising, as `twice` tells. */
  ghost predicate Verdict(births: seq<Birth>, numbers: seq<nat>, k: Stream, twice: bool) {
    if twice then GivenTwice(births, numbers, k) else Rising(births, numbers, k)
  }

  lemma StoreOneVerdict(t: Table, subscription: string, event: Event, now: real, numbers: seq<nat>, k: Stream,
                        twice: bool)
    requires Booked(t, numbers, k) && Verdict(t.births, numbers, k, twice)
    ensures var own := Stream(event.bot, subscription);
            Verdict(StoreOne(t, subscription, event, now).births,
                    numbers + [LastSequence(t.rows, own, |t.births|) + 1], k,
                    twice || (own == k && ForgotLast(t, k)))
    ensures var own := Stream(event.bot, subscription);
            ForgotLast(StoreOne(t, subscription, event, now), k) <==> own != k && ForgotLast(t, k)
  {
    var own := Stream(event.bot, subscription);
    if own == k {
      AfterOwnRow(t, subscription, event, now);
    } else {
      AfterOtherRow(t, subscription, event, now, k);
    }
    if twice {
      StillGivenTwice(t.births, numbers, Birth(own, event), LastSequence(t.rows, own, |t.births|) + 1, k);
    } else if own == k && ForgotLast(t, k) {
      StoreOneRepeats(t, subscription, event, now, numbers);
    } else {
      StoreOneRises(t, subscription, event, now, numbers, k);
    }
  }

  lemma {:induction false} StoreNumbers(
    t: Table, subscriptions: seq<string>, event: Event, now: real, numbers: seq<nat>, k: Stream, twice: bool)
    requires Booked(t, numbers, k) && Verdict(t.births, numbers, k, twice)
    ensures var u, given := Store(t, subscriptions, event, now), StoredNumbers(t, subscriptions, event, now, numbers);
            Booked(u, given, k) && Verdict(u.births, given, k, twice || Forgetful(t, subscriptions, event, k))
    decreases |subscriptions|
  {
    if subscriptions == [] {
      assert !Forgetful(t, subscriptions, event, k);
    } else {
      var subscription, own, rest := subscriptions[0], Stream(event.bot, subscriptions[0]), subscriptions[1..];
      var v, n := StoreOne(t, subscription, event, now), LastSequence(t.rows, own, |t.births|) + 1;
      StoreOneBooks(t, subscription, event, now, numbers, k);
      StoreOneVerdict(t, subscription, event, now, numbers, k, twice);
      var later := twice || (own == k && ForgotLast(t, k));
      StoreNumbers(v, rest, event, now, numbers + [n], k, later);
      assert (later || Forgetful(v, rest, event, k)) == (twice || Forgetful(t, subscriptions, event, k)) by {
        ForgetfulSteps(t, v, subscriptions, event, k);
      }
      assert Store(t, subscriptions, event, now) == Store(v, rest, event, now);
      assert StoredNumbers(t, subscriptions, event, now, numbers)
          == StoredNumbers(v, rest, event, now, numbers + [n]);
    }
  }

  lemma ForgetfulSteps(t: Table, v: Table, subscriptions: seq<string>, event: Event, k: Stream)
    requires subscriptions != []
    requires ForgotLast(v, k) <==> Stream(event.bot, subscriptions[0]) != k && ForgotLast(t, k)
    ensures Forgetful(t, subscriptions, event, k)
            <==> || (Stream(event.bot, subscriptions[0]) == k && ForgotLast(t, k))
                 || Forgetful(v, subscriptions[1..], event, k)
  {
    assert k.subscription in subscriptions
       <==> k.subscription == subscriptions[0] || k.subscription in subscriptions[1..];
  }

  lemma NotBoth(births: seq<Birth>, numbers: seq<nat>, k: Stream)
    ensures !(GivenTwice(births, numbers, k) && Rising(births, numbers, k))
  {
  }

  // ----- over runs

  lemma StepBooks(s: State, step: Step, numbers: seq<nat>, k: Stream)
    requires Booked(s.table, numbers, k) && !step.Emit?
    ensures Booked(Apply(s, step).table, numbers, k)
  {
    TableSteps(s, step);
  }

  /** An emit bears a row on the stream while the row the stream bore last is no longer in the table. */
  ghost predicate EmitsForgetful(s: State, step: Step, k: Stream) {
    step.Emit? && Forgetful(s.table, step.subscriptions, step.event, k)
  }

  ghost predicate EverForgetful(steps: seq<Step>, k: Stream) {
    exists n | 0 <= n < |steps| :: EmitsForgetful(Run(INIT, steps[..n]), steps[n], k)
  }

  lemma EverForgetfulSteps(steps: seq<Step>, k: Stream)
    requires steps != []
    ensures var n := |steps| - 1;
            EverForgetful(steps, k)
            <==> EverForgetful(steps[..n], k) || EmitsForgetful(Run(INIT, steps[..n]), steps[n], k)
  {
    var n := |steps| - 1;
    forall m | 0 <= m < n
      ensures EmitsForgetful(Run(INIT, steps[..n][..m]), steps[..n][m], k)
              == EmitsForgetful(Run(INIT, steps[..m]), steps[m], k)
    {
      assert steps[..n][..m] == steps[..m];
    }
  }

  lemma {:induction false} NumbersBooked(steps: seq<Step>, k: Stream)
    ensures var births, numbers := Run(INIT, steps).table.births, Numbers(steps);
            && Booked(Run(INIT, steps).table, numbers, k)
            && Verdict(births, numbers, k, EverForgetful(steps, k))
  {
    if steps != [] {
      var before, last := steps[..|steps| - 1], steps[|steps| - 1];
      var s := Run(INIT, before);
      NumbersBooked(before, k);
      EverForgetfulSteps(steps, k);
      if last.Emit? {
        StoreNumbers(s.table, last.subscriptions, last.event, last.now, Numbers(before), k, EverForgetful(before, k));
      } else {
        TableSteps(s, last);
        StepBooks(s, last, Numbers(before), k);
      }
    }
  }

  /** A stream gives a number twice, over a whole run, exactly when some event bears a row on it while the row it
      bore last is no longer in the table; otherwise its numbers rise with creation. Rows bear the numbers they
      were given for as long as they are there. */
  lemma NumbersRepeatExactly(steps: seq<Step>, k: Stream)
    ensures var births, numbers := Run(INIT, steps).table.births, Numbers(steps);
            && |numbers| == |births|
            && (forall i | i in Run(INIT, steps).table.rows ::
                  i < |numbers| && Run(INIT, steps).table.rows[i].sequence == numbers[i])
            && (GivenTwice(births, numbers, k) <==> EverForgetful(steps, k))
            && (Rising(births, numbers, k) <==> !EverForgetful(steps, k))
  {
    NumbersBooked(steps, k);
    NotBoth(Run(INIT, steps).table.births, Numbers(steps), k);
  }

  /** The row a stream bore last leaves the table only by a purge, sent, dead or skipped. */
  lemma OnlyPurgesForget(s: State, step: Step, k: Stream)
    requires WellFormed(s.table) && !ForgotLast(s.table, k) && ForgotLast(Apply(s, step).table, k)
    ensures step.PurgeRows? && exists i: nat :: LastBorn(s.table.births, k, i) && i in s.table.rows
                                           && Purgeable(s.table.rows[i], step.moment)
  {
    TableSteps(s, step);
    var u := Apply(s, step);
    var i: nat :| LastBorn(u.table.births, k, i) && i !in u.table.rows;
    if i < |s.table.births| {
      assert LastBorn(s.table.births, k, i);
      RowSteps(s, step, i);
    }
  }
}

/** When a guest slot that was released leaves no trace on later ones: exact conditions over all runs of the pacer,
    found by running it beside one where the slot was never taken. */
module PacingTraces {
  import opened Common
  import opened Pacing

  /** Pacers no one can tell apart from time `t` on. */
  ghost predicate Alike(p: Pacer, q: Pacer, t: real) {
    p.held == q.held && (p.nextAt == q.nextAt || (p.nextAt <= t && q.nextAt <= t))
  }

  /** The clock never goes back over the reserves, and starts no earlier than `t`. */
  ghost predicate ClockFrom(t: real, ops: seq<Op>) {
    && (forall i | 0 <= i < |ops| && ops[i].Reserve? :: t <= ops[i].now)
    && (forall i, j | 0 <= i < j < |ops| && ops[i].Reserve? && ops[j].Reserve? :: ops[i].now <= ops[j].now)
  }

  lemma StepKeepsAlike(gap: real, p: Pacer, q: Pacer, op: Op, t: real)
    requires gap >= 0.0 && Alike(p, q, t) && Paced(gap, p) && Paced(gap, q)
    requires op.Reserve? ==> t <= op.now
    ensures Alike(Step(gap, p, op), Step(gap, q, op), t)
  {
  }

  lemma {:induction false} RunKeepsAlike(gap: real, p: Pacer, q: Pacer, ops: seq<Op>, t: real)
    requires gap >= 0.0 && Alike(p, q, t) && Paced(gap, p) && Paced(gap, q) && ClockFrom(t, ops)
    ensures Alike(Run(gap, p, ops), Run(gap, q, ops), t)
    ensures Paced(gap, Run(gap, p, ops)) && Paced(gap, Run(gap, q, ops))
  {
    if ops != [] {
      var n := |ops| - 1;
      RunKeepsAlike(gap, p, q, ops[..n], t);
      StepKeepsAlike(gap, Run(gap, p, ops[..n]), Run(gap, q, ops[..n]), ops[n], t);
      StepKeepsPace(gap, Run(gap, p, ops[..n]), ops[n]);
      StepKeepsPace(gap, Run(gap, q, ops[..n]), ops[n]);
    }
  }

  /** Where the hold that was at `at` is after an operation that does not release it. */
  function Moved(at: nat, op: Op): nat {
    if op.Release? && op.index < at then at - 1 else at
  }

  function Position(at: nat, ops: seq<Op>): nat {
    if ops == [] then at else Moved(Position(at, ops[..|ops| - 1]), ops[|ops| - 1])
  }

  predicate Spares(at: nat, ops: seq<Op>) {
    forall m | 0 <= m < |ops| :: ops[m] != Release(Position(at, ops[..m]))
  }

  /** The same operation where the hold at `at` does not exist. */
  function WithoutHold(at: nat, op: Op): Op {
    if op.Release? && op.index > at then Release(op.index - 1) else op
  }

  /** The same operations where the hold that was at `at` was never taken. */
  function Others(at: nat, ops: seq<Op>): seq<Op> {
    if ops == [] then []
    else
      var n := |ops| - 1;
      Others(at, ops[..n]) + [WithoutHold(Position(at, ops[..n]), ops[n])]
  }

  /** The clock has not passed `t` in any reserve. */
  ghost predicate ClockUpTo(t: real, ops: seq<Op>) {
    forall i | 0 <= i < |ops| && ops[i].Reserve? :: ops[i].now <= t
  }

  /** `p` holds at `at` a slot `q` does not have; the older ones are the same, the later ones as many. */
  ghost predicate Beside(p: Pacer, q: Pacer, at: nat) {
    at < |p.held| == |q.held| + 1 && p.held[..at] == q.held[..at]
  }

  /** Slot `k` comes right after its predecessor. */
  predicate Follows(gap: real, held: seq<Hold>, k: nat) {
    0 < k < |held| && held[k].slot == held[k - 1].slot + gap
  }

  /** From `at` on each slot comes right after its predecessor, and so would the next one. */
  ghost predicate Tight(gap: real, p: Pacer, at: nat) {
    && at < |p.held|
    && (forall k: nat | at < k < |p.held| :: Follows(gap, p.held, k))
    && p.nextAt == p.held[|p.held| - 1].slot + gap
  }

  /** The operation releases the slot right before the one at `at` while that is the newest. */
  ghost predicate FreesPredecessor(gap: real, p: Pacer, at: nat, op: Op) {
    && 0 < at && at + 1 == |p.held|
    && op == Release(at - 1)
    && p.held[at - 1].slot + gap == p.held[at].slot
  }

  ghost predicate FreedPredecessor(gap: real, p: Pacer, at: nat, ops: seq<Op>) {
    exists m | 0 <= m < |ops| :: FreesPredecessor(gap, Run(gap, p, ops[..m]), Position(at, ops[..m]), ops[m])
  }

  lemma BesideSteps(gap: real, p: Pacer, q: Pacer, at: nat, op: Op)
    requires Beside(p, q, at) && op != Release(at)
    ensures var next := Moved(at, op);
            && Beside(Step(gap, p, op), Step(gap, q, WithoutHold(at, op)), next)
            && Step(gap, p, op).held[next] == p.held[at]
  {
    var u, v := Step(gap, p, op), Step(gap, q, WithoutHold(at, op));
    if op.Release? && op.index < at {
      WithoutOlder(p.held, at, op.index);
      WithoutOlder(q.held, at, op.index);
      assert u.held[at - 1] == p.held[at];
    } else {
      assert u.held[..at] == p.held[..at] && v.held[..at] == q.held[..at];
    }
  }

  lemma WithoutOlder(held: seq<Hold>, at: nat, i: nat)
    requires i < at <= |held|
    ensures (held[..i] + held[i + 1..])[..at - 1] == held[..at][..i] + held[..at][i + 1..]
  {
  }

  /** What is not tight never gets tight again, so later slots are reserved back to back and released newest
      first. */
  lemma TightBefore(gap: real, p: Pacer, at: nat, op: Op)
    requires gap > 0.0 && Paced(gap, p) && at < |p.held| && op != Release(at)
    requires Tight(gap, Step(gap, p, op), Moved(at, op))
    ensures Tight(gap, p, at)
    ensures op.Release? && at < op.index < |p.held| ==> op.index == |p.held| - 1
  {
    if op.Reserve? {
      TightBeforeReserve(gap, p, at, op.now);
    } else if op.index == at {
      assert false;
    } else if op.index < at {
      TightBeforeOlder(gap, p, at, op.index);
    } else if op.index < |p.held| {
      TightBeforeNewer(gap, p, at, op.index);
    }
  }

  lemma TightBeforeReserve(gap: real, p: Pacer, at: nat, now: real)
    requires Paced(gap, p) && at < |p.held| && Tight(gap, Step(gap, p, Reserve(now)), at)
    ensures Tight(gap, p, at)
  {
    var u := Step(gap, p, Reserve(now));
    forall k: nat | at < k < |p.held| ensures Follows(gap, p.held, k) {
      assert Follows(gap, u.held, k);
    }
    assert Follows(gap, u.held, |p.held|);
    assert InTime(gap, p, |p.held| - 1);
  }

  lemma TightBeforeOlder(gap: real, p: Pacer, at: nat, i: nat)
    requires gap > 0.0 && Paced(gap, p) && i < at < |p.held| && Tight(gap, Step(gap, p, Release(i)), at - 1)
    ensures Tight(gap, p, at)
  {
    var u := Step(gap, p, Release(i));
    forall k: nat | at < k < |p.held| ensures Follows(gap, p.held, k) {
      assert Follows(gap, u.held, k - 1);
    }
    OlderIsNotNewest(gap, p, i);
  }

  lemma MiddleLeavesRoom(gap: real, p: Pacer, i: nat)
    requires gap > 0.0 && Paced(gap, p) && 0 < i < |p.held| - 1
    ensures !Follows(gap, Step(gap, p, Release(i)).held, i)
  {
    assert Apart(gap, p.held, i - 1, i) && Apart(gap, p.held, i, i + 1);
  }

  lemma TightBeforeNewer(gap: real, p: Pacer, at: nat, i: nat)
    requires gap > 0.0 && Paced(gap, p) && at < i < |p.held| && Tight(gap, Step(gap, p, Release(i)), at)
    ensures Tight(gap, p, at) && i == |p.held| - 1
  {
    var u := Step(gap, p, Release(i));
    if i < |p.held| - 1 {
      MiddleLeavesRoom(gap, p, i);
    }
    assert i == |p.held| - 1;
    forall k: nat | at < k < i ensures Follows(gap, p.held, k) {
      assert Follows(gap, u.held, k);
    }
    assert Apart(gap, p.held, i - 1, i) && InTime(gap, p, i);
    assert Follows(gap, p.held, i);
  }

  predicate Earlier(gap: real, p: Pacer, q: Pacer, k: nat) {
    0 < k < |p.held| && k - 1 < |q.held| && q.held[k - 1].slot == p.held[k].slot - gap
  }

  /** Without the slot, before its predecessor is freed: everything later is one gap earlier. */
  ghost predicate Shifted(gap: real, p: Pacer, q: Pacer, at: nat) {
    && Beside(p, q, at)
    && q.nextAt == p.nextAt - gap
    && forall k: nat | at < k < |p.held| :: Earlier(gap, p, q, k)
  }

  /** From `from` on each slot is at most `bound` or comes right after its predecessor. */
  ghost predicate Low(gap: real, q: Pacer, from: nat, bound: real) {
    && from <= |q.held|
    && (forall k: nat | from <= k < |q.held| :: LowAt(gap, q.held, from, bound, k))
    && (q.nextAt <= bound || (from < |q.held| && q.nextAt == q.held[|q.held| - 1].slot + gap))
  }

  predicate LowAt(gap: real, held: seq<Hold>, from: nat, bound: real, k: nat) {
    k < |held| && (held[k].slot <= bound || (from < k && Follows(gap, held, k)))
  }

  lemma LowSteps(gap: real, q: Pacer, from: nat, bound: real, op: Op)
    requires gap > 0.0 && Paced(gap, q) && Low(gap, q, from, bound)
    requires op.Reserve? ==> op.now <= bound
    requires op.Release? && from <= op.index < |q.held| ==> op.index == |q.held| - 1
    ensures Low(gap, Step(gap, q, op), Moved(from, op), bound)
  {
    if op.Reserve? {
      LowReserves(gap, q, from, bound, op.now);
    } else if op.index < from {
      LowReleasesOlder(gap, q, from, bound, op.index);
    } else if op.index < |q.held| {
      LowReleasesLast(gap, q, from, bound);
    }
  }

  lemma LowReserves(gap: real, q: Pacer, from: nat, bound: real, now: real)
    requires Low(gap, q, from, bound) && now <= bound
    ensures Low(gap, Step(gap, q, Reserve(now)), from, bound)
  {
    var u := Step(gap, q, Reserve(now));
    forall k: nat | from <= k < |u.held| ensures LowAt(gap, u.held, from, bound, k) {
      assert k < |q.held| ==> LowAt(gap, q.held, from, bound, k);
    }
  }

  lemma LowReleasesOlder(gap: real, q: Pacer, from: nat, bound: real, i: nat)
    requires gap > 0.0 && Paced(gap, q) && Low(gap, q, from, bound) && i < from
    ensures Low(gap, Step(gap, q, Release(i)), from - 1, bound)
  {
    var u, moved := Step(gap, q, Release(i)), from - 1;
    forall k: nat | moved <= k < |u.held| ensures LowAt(gap, u.held, moved, bound, k) {
      assert LowAt(gap, q.held, from, bound, k + 1);
    }
    OlderIsNotNewest(gap, q, i);
  }

  lemma LowReleasesLast(gap: real, q: Pacer, from: nat, bound: real)
    requires Low(gap, q, from, bound) && from < |q.held|
    ensures Low(gap, Step(gap, q, Release(|q.held| - 1)), from, bound)
  {
    var last := |q.held| - 1;
    var u := Step(gap, q, Release(last));
    assert u.held == q.held[..last];
    forall k: nat | from <= k < |u.held| ensures LowAt(gap, u.held, from, bound, k) {
      assert LowAt(gap, q.held, from, bound, k);
    }
    assert LowAt(gap, q.held, from, bound, last);
  }

  lemma ShiftedSteps(gap: real, p: Pacer, q: Pacer, at: nat, op: Op)
    requires gap > 0.0 && Paced(gap, p) && Paced(gap, q) && op != Release(at)
    requires Tight(gap, p, at) && Shifted(gap, p, q, at) && !FreesPredecessor(gap, p, at, op)
    requires op.Reserve? ==> op.now <= p.held[at].slot
    requires op.Release? && at < op.index < |p.held| ==> op.index == |p.held| - 1
    ensures Shifted(gap, Step(gap, p, op), Step(gap, q, WithoutHold(at, op)), Moved(at, op))
  {
    BesideSteps(gap, p, q, at, op);
    var u, v := Step(gap, p, op), Step(gap, q, WithoutHold(at, op));
    if op.Release? && op.index < at {
      forall k: nat | at - 1 < k < |u.held| ensures Earlier(gap, u, v, k) {
        assert Earlier(gap, p, q, k + 1);
      }
      OlderKeepsShift(gap, p, q, at, op.index);
    } else {
      assert InTime(gap, p, at);
      assert at < |p.held| - 1 ==> Earlier(gap, p, q, |p.held| - 1);
      forall k: nat | at < k < |u.held| ensures Earlier(gap, u, v, k) {
        assert k < |p.held| ==> Earlier(gap, p, q, k);
        assert op.Reserve? ==> SlotAt(p.nextAt, op.now) == p.nextAt && SlotAt(q.nextAt, op.now) == q.nextAt;
      }
    }
  }

  lemma OlderKeepsShift(gap: real, p: Pacer, q: Pacer, at: nat, i: nat)
    requires gap > 0.0 && Paced(gap, p) && Paced(gap, q) && i < at
    requires Tight(gap, p, at) && Shifted(gap, p, q, at) && !FreesPredecessor(gap, p, at, Release(i))
    ensures Step(gap, p, Release(i)).nextAt == p.nextAt && Step(gap, q, Release(i)).nextAt == q.nextAt
  {
    assert p.held[i] == p.held[..at][i] == q.held[i];
    assert i < at - 1 ==> Apart(gap, p.held, i, at - 1) && Apart(gap, p.held, at - 1, at);
    assert Apart(gap, p.held, i, at);
    OlderIsNotNewest(gap, p, i);
    OlderIsNotNewest(gap, q, i);
  }

  /** Once the predecessor is freed, the pacer without the slot falls behind for good. */
  lemma FreedIsLow(gap: real, p: Pacer, q: Pacer, at: nat, op: Op, bound: real)
    requires gap > 0.0 && Tight(gap, p, at) && Shifted(gap, p, q, at)
    requires FreesPredecessor(gap, p, at, op) && p.held[at].slot - gap <= bound
    ensures Low(gap, Step(gap, q, op), at - 1, bound)
  {
    assert p.held[at - 1] == p.held[..at][at - 1] == q.held[at - 1];
  }

  /** How the pacers with and without the slot at `at` compare by the time `t`; `freed` tells whether the slot's
      predecessor was freed. */
  ghost predicate Compares(gap: real, u: Pacer, v: Pacer, at: nat, t: real, freed: bool)
    requires at < |u.held|
  {
    var slot := u.held[at].slot;
    if slot <= t then Low(gap, v, at, t)
    else if freed then Low(gap, v, at, MaxReal(t, slot - gap))
    else Shifted(gap, u, v, at)
  }

  lemma OthersSteps(gap: real, q: Pacer, at: nat, ops: seq<Op>)
    requires ops != []
    ensures var n := |ops| - 1;
            && Position(at, ops) == Moved(Position(at, ops[..n]), ops[n])
            && Run(gap, q, Others(at, ops))
               == Step(gap, Run(gap, q, Others(at, ops[..n])), WithoutHold(Position(at, ops[..n]), ops[n]))
  {
    var n := |ops| - 1;
    var before := Others(at, ops[..n]);
    var op := WithoutHold(Position(at, ops[..n]), ops[n]);
    assert (before + [op])[..|before|] == before;
  }

  lemma SparesPrefix(at: nat, ops: seq<Op>)
    requires ops != [] && Spares(at, ops)
    ensures Spares(at, ops[..|ops| - 1]) && ops[|ops| - 1] != Release(Position(at, ops[..|ops| - 1]))
  {
    var before := ops[..|ops| - 1];
    forall m | 0 <= m < |before| ensures before[m] != Release(Position(at, before[..m])) {
      assert before[..m] == ops[..m];
    }
  }

  lemma {:induction false} StaysBeside(gap: real, p: Pacer, q: Pacer, at: nat, ops: seq<Op>)
    requires gap >= 0.0 && Paced(gap, p) && Paced(gap, q) && Beside(p, q, at) && Spares(at, ops)
    ensures var u, v, next := Run(gap, p, ops), Run(gap, q, Others(at, ops)), Position(at, ops);
            Paced(gap, u) && Paced(gap, v) && Beside(u, v, next) && u.held[next] == p.held[at]
  {
    if ops != [] {
      var n := |ops| - 1;
      SparesPrefix(at, ops);
      StaysBeside(gap, p, q, at, ops[..n]);
      OthersSteps(gap, q, at, ops);
      var u, v, next := Run(gap, p, ops[..n]), Run(gap, q, Others(at, ops[..n])), Position(at, ops[..n]);
      BesideSteps(gap, u, v, next, ops[n]);
      StepKeepsPace(gap, u, ops[n]);
      StepKeepsPace(gap, v, WithoutHold(next, ops[n]));
    }
  }

  lemma FreedSteps(gap: real, p: Pacer, at: nat, ops: seq<Op>)
    requires ops != []
    ensures var n := |ops| - 1;
            FreedPredecessor(gap, p, at, ops)
            <==> || FreedPredecessor(gap, p, at, ops[..n])
                 || FreesPredecessor(gap, Run(gap, p, ops[..n]), Position(at, ops[..n]), ops[n])
  {
    var n := |ops| - 1;
    assert forall m | 0 <= m < n :: ops[..n][..m] == ops[..m] && ops[..n][m] == ops[m];
  }

  lemma {:induction false} ComparesOn(gap: real, p: Pacer, q: Pacer, at: nat, between: seq<Op>, t: real)
    requires gap > 0.0 && Paced(gap, p) && Paced(gap, q) && Beside(p, q, at) && Spares(at, between)
    requires ClockUpTo(t, between) && Compares(gap, p, q, at, t, false)
    requires Tight(gap, Run(gap, p, between), Position(at, between))
    ensures Compares(gap, Run(gap, p, between), Run(gap, q, Others(at, between)), Position(at, between), t,
                     FreedPredecessor(gap, p, at, between))
  {
    if between != [] {
      var n := |between| - 1;
      var u, v, next := Run(gap, p, between[..n]), Run(gap, q, Others(at, between[..n])), Position(at, between[..n]);
      var freed := FreedPredecessor(gap, p, at, between[..n]);
      SparesPrefix(at, between);
      StaysBeside(gap, p, q, at, between[..n]);
      TightBefore(gap, u, next, between[n]);
      ComparesOn(gap, p, q, at, between[..n], t);
      ComparesSteps(gap, u, v, next, between[n], t, freed);
      OthersSteps(gap, q, at, between);
      FreedSteps(gap, p, at, between);
    }
  }

  lemma LowStepsWithout(gap: real, u: Pacer, v: Pacer, at: nat, op: Op, bound: real)
    requires gap > 0.0 && Paced(gap, v) && Beside(u, v, at) && op != Release(at)
    requires Low(gap, v, at, bound) && (op.Reserve? ==> op.now <= bound)
    requires op.Release? && at < op.index < |u.held| ==> op.index == |u.held| - 1
    ensures Low(gap, Step(gap, v, WithoutHold(at, op)), Moved(at, op), bound)
  {
    LowSteps(gap, v, at, bound, WithoutHold(at, op));
  }

  lemma ComparesSteps(gap: real, u: Pacer, v: Pacer, at: nat, op: Op, t: real, freed: bool)
    requires gap > 0.0 && Paced(gap, u) && Paced(gap, v) && Beside(u, v, at) && op != Release(at)
    requires Tight(gap, u, at) && (op.Reserve? ==> op.now <= t)
    requires op.Release? && at < op.index < |u.held| ==> op.index == |u.held| - 1
    requires Compares(gap, u, v, at, t, freed)
    ensures Moved(at, op) < |Step(gap, u, op).held|
    ensures Compares(gap, Step(gap, u, op), Step(gap, v, WithoutHold(at, op)), Moved(at, op), t,
                     freed || FreesPredecessor(gap, u, at, op))
  {
    SlotStays(gap, u, v, at, op);
    var slot := u.held[at].slot;
    if slot <= t {
      LowStepsWithout(gap, u, v, at, op, t);
    } else if freed {
      LowStepsWithout(gap, u, v, at, op, MaxReal(t, slot - gap));
    } else {
      ShiftedCompares(gap, u, v, at, op, t);
    }
  }

  lemma SlotStays(gap: real, u: Pacer, v: Pacer, at: nat, op: Op)
    requires Beside(u, v, at) && op != Release(at)
    ensures Moved(at, op) < |Step(gap, u, op).held| && Step(gap, u, op).held[Moved(at, op)] == u.held[at]
  {
    BesideSteps(gap, u, v, at, op);
  }

  lemma ShiftedCompares(gap: real, u: Pacer, v: Pacer, at: nat, op: Op, t: real)
    requires gap > 0.0 && Paced(gap, u) && Paced(gap, v) && op != Release(at)
    requires Tight(gap, u, at) && Shifted(gap, u, v, at) && t < u.held[at].slot && (op.Reserve? ==> op.now <= t)
    requires op.Release? && at < op.index < |u.held| ==> op.index == |u.held| - 1
    ensures if FreesPredecessor(gap, u, at, op)
            then Low(gap, Step(gap, v, WithoutHold(at, op)), Moved(at, op), MaxReal(t, u.held[at].slot - gap))
            else Shifted(gap, Step(gap, u, op), Step(gap, v, WithoutHold(at, op)), Moved(at, op))
  {
    if FreesPredecessor(gap, u, at, op) {
      FreedIsLow(gap, u, v, at, op, MaxReal(t, u.held[at].slot - gap));
    } else {
      ShiftedSteps(gap, u, v, at, op);
    }
  }

  lemma ComparedAlike(gap: real, u: Pacer, v: Pacer, at: nat, t: real, freed: bool)
    requires gap > 0.0 && Beside(u, v, at) && TakesBack(gap, u, at) && Compares(gap, u, v, at, t, freed)
    ensures Step(gap, u, Release(at)).held == v.held
    ensures Alike(Step(gap, u, Release(at)), v, t) <==> !(t < u.held[at].slot && freed)
  {
    assert v.held[..at] == v.held;
  }

  /** With no gap a release changes nothing, and the next slot is at the latest time there was. */
  lemma {:induction false} NoGapNoTrace(p: Pacer, q: Pacer, at: nat, ops: seq<Op>, slot: real)
    requires p.nextAt == MaxReal(slot, q.nextAt)
    ensures Run(0.0, p, ops).nextAt == MaxReal(slot, Run(0.0, q, Others(at, ops)).nextAt)
    ensures q.nextAt <= Run(0.0, q, Others(at, ops)).nextAt
  {
    if ops != [] {
      NoGapNoTrace(p, q, at, ops[..|ops| - 1], slot);
      OthersSteps(0.0, q, at, ops);
    }
  }

  /** Pacers with the same holds answer all later reserves alike exactly when they are alike. */
  lemma LikeAnswers(gap: real, p: Pacer, q: Pacer, t: real)
    requires gap >= 0.0 && Paced(gap, p) && Paced(gap, q) && p.held == q.held
    ensures (forall after | ClockFrom(t, after) :: Run(gap, p, after).held == Run(gap, q, after).held)
            <==> Alike(p, q, t)
  {
    if Alike(p, q, t) {
      forall after | ClockFrom(t, after) ensures Run(gap, p, after).held == Run(gap, q, after).held {
        RunKeepsAlike(gap, p, q, after, t);
      }
    } else {
      var after := [Reserve(t)];
      assert after[..0] == [] && ClockFrom(t, after);
      assert Run(gap, p, after) == Step(gap, p, Reserve(t)) && Run(gap, q, after) == Step(gap, q, Reserve(t));
      assert Run(gap, p, after).held[|p.held|] != Run(gap, q, after).held[|p.held|];
    }
  }

  // ----- when the pacer cannot take the slot back

  /** Slot `k` and the one in its place without the hold are the same, or both a gap or more in the past. */
  predicate SlotMet(gap: real, p: Pacer, q: Pacer, k: nat, c: real) {
    && 0 < k < |p.held| && k - 1 < |q.held|
    && (|| p.held[k].slot == q.held[k - 1].slot
        || (p.held[k].slot + gap <= c && q.held[k - 1].slot + gap <= c))
  }

  /** From time `c` on the pacers with and without the slot at `at` offer the same. */
  ghost predicate Met(gap: real, p: Pacer, q: Pacer, at: nat, c: real) {
    && Beside(p, q, at)
    && (p.nextAt == q.nextAt || (p.nextAt <= c && q.nextAt <= c))
    && forall k: nat | at < k < |p.held| :: SlotMet(gap, p, q, k, c)
  }

  /** The clock after the operations, when it was at `c` before. */
  function ClockAfter(c: real, ops: seq<Op>): real {
    if ops == [] then c
    else if ops[|ops| - 1].Reserve? then ops[|ops| - 1].now
    else ClockAfter(c, ops[..|ops| - 1])
  }

  lemma MetSteps(gap: real, p: Pacer, q: Pacer, at: nat, op: Op, c: real)
    requires gap >= 0.0 && Met(gap, p, q, at, c) && op != Release(at) && c <= ClockAfter(c, [op])
    ensures Met(gap, Step(gap, p, op), Step(gap, q, WithoutHold(at, op)), Moved(at, op), ClockAfter(c, [op]))
  {
    BesideSteps(gap, p, q, at, op);
    var u, v, next := Step(gap, p, op), Step(gap, q, WithoutHold(at, op)), Moved(at, op);
    MetOffers(gap, p, q, at, op, c);
    forall k: nat | next < k < |u.held| ensures SlotMet(gap, u, v, k, ClockAfter(c, [op])) {
      if op.Reserve? && k == |p.held| {
        MetReserves(gap, p, q, op.now, c);
      } else {
        var was := if op.Release? then Original(p, op, k) else k;
        assert SlotMet(gap, p, q, was, c);
        SlotStaysMet(gap, p, q, at, op, was, c);
      }
    }
  }

  lemma MetReserves(gap: real, p: Pacer, q: Pacer, now: real, c: real)
    requires |p.held| == |q.held| + 1 && c <= now
    requires p.nextAt == q.nextAt || (p.nextAt <= c && q.nextAt <= c)
    ensures SlotMet(gap, Step(gap, p, Reserve(now)), Step(gap, q, Reserve(now)), |p.held|, now)
  {
  }

  lemma SlotStaysMet(gap: real, p: Pacer, q: Pacer, at: nat, op: Op, k: nat, c: real)
    requires |p.held| == |q.held| + 1 && at < k && SlotMet(gap, p, q, k, c) && op != Release(at) && op != Release(k)
    requires c <= ClockAfter(c, [op])
    ensures SlotMet(gap, Step(gap, p, op), Step(gap, q, WithoutHold(at, op)), Moved(k, op), ClockAfter(c, [op]))
  {
    if op.Release? && op.index == at {
      assert false;
    }
  }

  lemma MetOffers(gap: real, p: Pacer, q: Pacer, at: nat, op: Op, c: real)
    requires gap >= 0.0 && Met(gap, p, q, at, c) && op != Release(at) && c <= ClockAfter(c, [op])
    ensures var u, v := Step(gap, p, op), Step(gap, q, WithoutHold(at, op));
            u.nextAt == v.nextAt || (u.nextAt <= ClockAfter(c, [op]) && v.nextAt <= ClockAfter(c, [op]))
  {
    assert [op][..0] == [];
    if op.Release? && op.index < at {
      assert p.held[op.index] == p.held[..at][op.index] == q.held[op.index];
    } else if op.Release? && op.index < |p.held| {
      assert SlotMet(gap, p, q, op.index, c);
    }
  }

  /** Slot `k` is later than the one in its place without the hold. */
  predicate SlotBehind(p: Pacer, q: Pacer, k: nat) {
    0 < k < |p.held| && k - 1 < |q.held| && q.held[k - 1].slot < p.held[k].slot
  }

  /** If slot `k` comes right after its predecessor then so does, without the hold, the one in its place, or that
      one is in the past. */
  predicate SlotKeepsUp(gap: real, p: Pacer, q: Pacer, k: nat, c: real) {
    && 1 < k < |p.held| && k - 1 < |q.held|
    && (Follows(gap, p.held, k) ==> Follows(gap, q.held, k - 1) || q.held[k - 1].slot <= c)
  }

  predicate NextKeepsUp(gap: real, p: Pacer, q: Pacer, c: real)
    requires p.held != [] && q.held != []
  {
    p.nextAt == p.held[|p.held| - 1].slot + gap ==>
      q.nextAt == q.held[|q.held| - 1].slot + gap || q.nextAt <= c
  }

  /** The pacer with the slot at `at` has not met the one without yet: it offers a later slot, unless both offer
      one in the past. */
  ghost predicate Behind(gap: real, p: Pacer, q: Pacer, at: nat, c: real) {
    && Beside(p, q, at)
    && (q.nextAt < p.nextAt || (p.nextAt <= c && q.nextAt <= c))
    && (forall k: nat | at < k < |p.held| :: SlotBehind(p, q, k))
    && (forall k: nat | at + 1 < k < |p.held| :: SlotKeepsUp(gap, p, q, k, c))
    && (at + 1 < |p.held| ==> NextKeepsUp(gap, p, q, c))
  }

  lemma BehindMeets(gap: real, p: Pacer, q: Pacer, at: nat, now: real, c: real)
    requires Paced(gap, p) && Paced(gap, q) && Behind(gap, p, q, at, c) && c <= now && p.nextAt <= now
    ensures Met(gap, Step(gap, p, Reserve(now)), Step(gap, q, Reserve(now)), at, now)
  {
    var u, v := Step(gap, p, Reserve(now)), Step(gap, q, Reserve(now));
    BesideSteps(gap, p, q, at, Reserve(now));
    forall k: nat | at < k < |u.held| ensures SlotMet(gap, u, v, k, now) {
      if k < |p.held| {
        assert InTime(gap, p, k) && InTime(gap, q, k - 1);
      }
    }
  }

  lemma BehindReserves(gap: real, p: Pacer, q: Pacer, at: nat, now: real, c: real)
    requires Behind(gap, p, q, at, c) && c <= now < p.nextAt
    ensures Behind(gap, Step(gap, p, Reserve(now)), Step(gap, q, Reserve(now)), at, now)
  {
    var u, v := Step(gap, p, Reserve(now)), Step(gap, q, Reserve(now));
    BesideSteps(gap, p, q, at, Reserve(now));
    forall k: nat | at < k < |u.held| ensures SlotBehind(u, v, k) {
      assert k < |p.held| ==> SlotBehind(p, q, k);
    }
    forall k: nat | at + 1 < k < |u.held| ensures SlotKeepsUp(gap, u, v, k, now) {
      assert k < |p.held| ==> SlotKeepsUp(gap, p, q, k, c);
    }
  }

  lemma SlotStaysBehind(gap: real, p: Pacer, q: Pacer, at: nat, op: Op, k: nat)
    requires |p.held| == |q.held| + 1 && at < k && SlotBehind(p, q, k)
    requires op.Release? && op.index != at && op.index != k
    ensures SlotBehind(Step(gap, p, op), Step(gap, q, WithoutHold(at, op)), Moved(k, op))
  {
  }

  lemma SlotsStayBehind(gap: real, p: Pacer, q: Pacer, at: nat, op: Op)
    requires |p.held| == |q.held| + 1 && op.Release? && op.index != at
    requires forall k: nat | at < k < |p.held| :: SlotBehind(p, q, k)
    ensures forall k: nat | Moved(at, op) < k < |Step(gap, p, op).held| ::
              SlotBehind(Step(gap, p, op), Step(gap, q, WithoutHold(at, op)), k)
  {
    forall k: nat | Moved(at, op) < k < |Step(gap, p, op).held|
      ensures SlotBehind(Step(gap, p, op), Step(gap, q, WithoutHold(at, op)), k)
    {
      var was := Original(p, op, k);
      assert SlotBehind(p, q, was);
      SlotStaysBehind(gap, p, q, at, op, was);
    }
  }

  lemma SlotStillKeepsUp(gap: real, p: Pacer, q: Pacer, at: nat, op: Op, k: nat, c: real)
    requires |p.held| == |q.held| + 1 && at + 1 < k && SlotKeepsUp(gap, p, q, k, c)
    requires op.Release? && op.index != at && op.index != k && op.index != k - 1
    ensures SlotKeepsUp(gap, Step(gap, p, op), Step(gap, q, WithoutHold(at, op)), Moved(k, op), c)
  {
  }

  /** A release of a slot that is not the last leaves room, so no other slot newly comes right after one. */
  lemma SlotsStillKeepUp(gap: real, p: Pacer, q: Pacer, at: nat, op: Op, c: real)
    requires gap > 0.0 && Paced(gap, p) && |p.held| == |q.held| + 1 && op.Release? && op.index != at
    requires forall k: nat | at + 1 < k < |p.held| :: SlotKeepsUp(gap, p, q, k, c)
    ensures forall k: nat | Moved(at, op) + 1 < k < |Step(gap, p, op).held| ::
              SlotKeepsUp(gap, Step(gap, p, op), Step(gap, q, WithoutHold(at, op)), k, c)
  {
    forall k: nat | Moved(at, op) + 1 < k < |Step(gap, p, op).held|
      ensures SlotKeepsUp(gap, Step(gap, p, op), Step(gap, q, WithoutHold(at, op)), k, c)
    {
      if at < op.index && k == op.index {
        MiddleLeavesRoom(gap, p, k);
      } else {
        var was := Original(p, op, k);
        assert SlotKeepsUp(gap, p, q, was, c);
        SlotStillKeepsUp(gap, p, q, at, op, was, c);
      }
    }
  }

  lemma BehindReleasesOlder(gap: real, p: Pacer, q: Pacer, at: nat, i: nat, c: real)
    requires gap > 0.0 && Paced(gap, p) && Paced(gap, q) && Behind(gap, p, q, at, c) && i < at
    ensures Behind(gap, Step(gap, p, Release(i)), Step(gap, q, Release(i)), at - 1, c)
  {
    BesideSteps(gap, p, q, at, Release(i));
    OlderIsNotNewest(gap, p, i);
    OlderIsNotNewest(gap, q, i);
    SlotsStayBehind(gap, p, q, at, Release(i));
    SlotsStillKeepUp(gap, p, q, at, Release(i), c);
  }

  lemma BehindReleasesMiddle(gap: real, p: Pacer, q: Pacer, at: nat, i: nat, c: real)
    requires gap > 0.0 && Paced(gap, p) && Paced(gap, q) && Behind(gap, p, q, at, c) && at < i < |p.held| - 1
    ensures Behind(gap, Step(gap, p, Release(i)), Step(gap, q, Release(i - 1)), at, c)
  {
    BesideSteps(gap, p, q, at, Release(i));
    OlderIsNotNewest(gap, p, i);
    OlderIsNotNewest(gap, q, i - 1);
    SlotsStayBehind(gap, p, q, at, Release(i));
    SlotsStillKeepUp(gap, p, q, at, Release(i), c);
  }

  lemma BehindReleasesLast(gap: real, p: Pacer, q: Pacer, at: nat, c: real)
    requires gap > 0.0 && Paced(gap, p) && Paced(gap, q) && Behind(gap, p, q, at, c) && at < |p.held| - 1
    ensures Behind(gap, Step(gap, p, Release(|p.held| - 1)), Step(gap, q, Release(|q.held| - 1)), at, c)
  {
    var last := |p.held| - 1;
    var u, v := Step(gap, p, Release(last)), Step(gap, q, Release(last - 1));
    BesideSteps(gap, p, q, at, Release(last));
    assert u.held == p.held[..last] && v.held == q.held[..last - 1];
    assert SlotBehind(p, q, last) && InTime(gap, p, last) && InTime(gap, q, last - 1);
    forall k: nat | at < k < |u.held| ensures SlotBehind(u, v, k) {
      assert SlotBehind(p, q, k);
    }
    forall k: nat | at + 1 < k < |u.held| ensures SlotKeepsUp(gap, u, v, k, c) {
      assert SlotKeepsUp(gap, p, q, k, c);
    }
    if at + 1 < last {
      assert SlotKeepsUp(gap, p, q, last, c) && Apart(gap, p.held, last - 1, last);
    }
  }

  /** A reserve comes when the pacer has a slot for it at once. */
  ghost predicate CatchesUp(p: Pacer, op: Op) {
    op.Reserve? && p.nextAt <= op.now
  }

  ghost predicate CaughtUp(gap: real, p: Pacer, ops: seq<Op>) {
    exists m | 0 <= m < |ops| :: CatchesUp(Run(gap, p, ops[..m]), ops[m])
  }

  lemma CaughtUpSteps(gap: real, p: Pacer, ops: seq<Op>)
    requires ops != []
    ensures var n := |ops| - 1;
            CaughtUp(gap, p, ops) <==> CaughtUp(gap, p, ops[..n]) || CatchesUp(Run(gap, p, ops[..n]), ops[n])
  {
    var n := |ops| - 1;
    assert forall m | 0 <= m < n :: ops[..n][..m] == ops[..m] && ops[..n][m] == ops[m];
  }

  lemma BehindSteps(gap: real, p: Pacer, q: Pacer, at: nat, op: Op, c: real)
    requires gap > 0.0 && Paced(gap, p) && Paced(gap, q) && Behind(gap, p, q, at, c)
    requires op != Release(at) && c <= ClockAfter(c, [op])
    ensures var u, v, next := Step(gap, p, op), Step(gap, q, WithoutHold(at, op)), Moved(at, op);
            if CatchesUp(p, op) then Met(gap, u, v, next, ClockAfter(c, [op]))
            else Behind(gap, u, v, next, ClockAfter(c, [op]))
  {
    assert [op][..0] == [];
    if op.Reserve? {
      if CatchesUp(p, op) {
        BehindMeets(gap, p, q, at, op.now, c);
      } else {
        BehindReserves(gap, p, q, at, op.now, c);
      }
    } else if op.index == at {
      assert false;
    } else if op.index < at {
      BehindReleasesOlder(gap, p, q, at, op.index, c);
    } else if op.index < |p.held| - 1 {
      BehindReleasesMiddle(gap, p, q, at, op.index, c);
    } else if op.index == |p.held| - 1 {
      BehindReleasesLast(gap, p, q, at, c);
    }
  }

  lemma {:induction false} ClockGoesOn(c: real, ops: seq<Op>)
    requires ClockFrom(c, ops)
    ensures c <= ClockAfter(c, ops)
    ensures ops == [] || (ClockFrom(c, ops[..|ops| - 1])
                          && ClockAfter(c, ops[..|ops| - 1]) <= ClockAfter(c, ops)
                          && ClockAfter(c, ops) == ClockAfter(ClockAfter(c, ops[..|ops| - 1]), [ops[|ops| - 1]]))
  {
    if ops != [] {
      var n := |ops| - 1;
      assert [ops[n]][..0] == [];
      ClockGoesOn(c, ops[..n]);
      ClockIsReading(c, ops[..n]);
    }
  }

  lemma {:induction false} ClockIsReading(c: real, ops: seq<Op>)
    ensures ClockAfter(c, ops) == c || exists i | 0 <= i < |ops| :: ops[i].Reserve? && ops[i].now == ClockAfter(c, ops)
  {
    if ops != [] && !ops[|ops| - 1].Reserve? {
      ClockIsReading(c, ops[..|ops| - 1]);
    }
  }

  /** With and without the slot at `at`: behind until some reserve catches up, the same from then on. */
  lemma {:induction false} BehindUntilCaughtUp(gap: real, p: Pacer, q: Pacer, at: nat, ops: seq<Op>, c: real)
    requires gap > 0.0 && Paced(gap, p) && Paced(gap, q) && Behind(gap, p, q, at, c)
    requires Spares(at, ops) && ClockFrom(c, ops)
    ensures var u, v, next := Run(gap, p, ops), Run(gap, q, Others(at, ops)), Position(at, ops);
            if CaughtUp(gap, p, ops) then Met(gap, u, v, next, ClockAfter(c, ops))
            else Behind(gap, u, v, next, ClockAfter(c, ops))
  {
    if ops != [] {
      var n := |ops| - 1;
      var u, v, next := Run(gap, p, ops[..n]), Run(gap, q, Others(at, ops[..n])), Position(at, ops[..n]);
      SparesPrefix(at, ops);
      ClockGoesOn(c, ops);
      BehindUntilCaughtUp(gap, p, q, at, ops[..n], c);
      StaysBeside(gap, p, q, at, ops[..n]);
      OthersSteps(gap, q, at, ops);
      CaughtUpSteps(gap, p, ops);
      if CaughtUp(gap, p, ops[..n]) {
        MetSteps(gap, u, v, next, ops[n], ClockAfter(c, ops[..n]));
      } else {
        BehindSteps(gap, u, v, next, ops[n], ClockAfter(c, ops[..n]));
      }
    }
  }

  // ----- exactly when a released slot leaves no trace

  /** Whether releasing the slot at `at`, by now the newest held, lets all later reserves from time `t` on get what
      they would have got without it. When the pacer takes the slot back: it is not ahead of the clock, or its
      predecessor, right before it, was not released while it was the newest. When it does not: by now its next
      slot is not ahead of the clock, or some reserve found it so. */
  ghost predicate Traceless(gap: real, p: Pacer, at: nat, between: seq<Op>, t: real)
    requires at < |p.held|
  {
    var taken := Run(gap, p, between);
    || gap == 0.0
    || if TakesBack(gap, taken, Position(at, between))
       then p.held[at].slot <= t || !FreedPredecessor(gap, p, at, between)
       else taken.nextAt <= t || CaughtUp(gap, p, between)
  }

  /** A slot is reserved at `now`; others are reserved and released, while the clock comes to `t`; the slot is the
      newest held again, and is released. All later reserves get what they would have got had it never been
      taken exactly when the release is traceless. The clock may read anything up to `t` in between when the pacer
      takes the slot back, and does not go back when it does not. */
  lemma ReleasedSlotLeavesNoTrace(gap: real, before: seq<Op>, now: real, between: seq<Op>, t: real)
    requires gap >= 0.0 && now <= t && ClockUpTo(t, between)
    requires var p := Run(gap, Pacer(0.0, []), before);
             var taken, at := Run(gap, Step(gap, p, Reserve(now)), between), Position(|p.held|, between);
             && Spares(|p.held|, between) && NewestHeld(taken, at)
             && (TakesBack(gap, taken, at) || ClockFrom(now, between))
    ensures var p := Run(gap, Pacer(0.0, []), before);
            var reserved := Step(gap, p, Reserve(now));
            var released := Step(gap, Run(gap, reserved, between), Release(Position(|p.held|, between)));
            var untaken := Run(gap, p, Others(|p.held|, between));
            (forall after | ClockFrom(t, after) :: Run(gap, released, after).held == Run(gap, untaken, after).held)
            <==> Traceless(gap, reserved, |p.held|, between, t)
  {
    HeldSlotsArePaced(gap, before);
    var p := Run(gap, Pacer(0.0, []), before);
    var reserved := Step(gap, p, Reserve(now));
    StepKeepsPace(gap, p, Reserve(now));
    TraceOfRelease(gap, p, reserved, |p.held|, now, between, t);
  }

  lemma TraceOfRelease(gap: real, p: Pacer, reserved: Pacer, h: nat, now: real, between: seq<Op>, t: real)
    requires gap >= 0.0 && now <= t && ClockUpTo(t, between) && Paced(gap, p) && Paced(gap, reserved)
    requires reserved == Step(gap, p, Reserve(now)) && h == |p.held| && Spares(h, between)
    requires var taken, at := Run(gap, reserved, between), Position(h, between);
             NewestHeld(taken, at) && (TakesBack(gap, taken, at) || ClockFrom(now, between))
    ensures var released := Step(gap, Run(gap, reserved, between), Release(Position(h, between)));
            var untaken := Run(gap, p, Others(h, between));
            (forall after | ClockFrom(t, after) :: Run(gap, released, after).held == Run(gap, untaken, after).held)
            <==> Traceless(gap, reserved, h, between, t)
  {
    assert reserved.held[..h] == p.held == p.held[..h];
    StaysBeside(gap, reserved, p, h, between);
    var taken, untaken, at := Run(gap, reserved, between), Run(gap, p, Others(h, between)), Position(h, between);
    if gap == 0.0 {
      NoGapAlike(p, reserved, h, now, between, t);
    } else if TakesBack(gap, taken, at) {
      ComparesOn(gap, reserved, p, h, between, t);
      ComparedAlike(gap, taken, untaken, at, t, FreedPredecessor(gap, reserved, h, between));
    } else {
      BehindUntilCaughtUp(gap, reserved, p, h, between, now);
      ClockStaysUpTo(now, between, t);
      KeptAlike(gap, taken, untaken, at, ClockAfter(now, between), t, CaughtUp(gap, reserved, between));
    }
    StepKeepsPace(gap, taken, Release(at));
    LikeAnswers(gap, Step(gap, taken, Release(at)), untaken, t);
  }

  lemma {:induction false} ClockStaysUpTo(c: real, ops: seq<Op>, t: real)
    requires c <= t && ClockUpTo(t, ops)
    ensures ClockAfter(c, ops) <= t
  {
    ClockIsReading(c, ops);
  }

  lemma KeptAlike(gap: real, u: Pacer, v: Pacer, at: nat, c: real, t: real, met: bool)
    requires Beside(u, v, at) && NewestHeld(u, at) && !TakesBack(gap, u, at) && c <= t
    requires if met then Met(gap, u, v, at, c) else Behind(gap, u, v, at, c)
    ensures Step(gap, u, Release(at)).held == v.held
    ensures Alike(Step(gap, u, Release(at)), v, t) <==> u.nextAt <= t || met
  {
    assert v.held[..at] == v.held;
  }

  lemma NoGapAlike(p: Pacer, reserved: Pacer, h: nat, now: real, between: seq<Op>, t: real)
    requires reserved == Step(0.0, p, Reserve(now)) && now <= t && h == |p.held|
    requires var u, v, at := Run(0.0, reserved, between), Run(0.0, p, Others(h, between)), Position(h, between);
             Beside(u, v, at) && NewestHeld(u, at) && u.held[at] == reserved.held[h]
    ensures var u, v, at := Run(0.0, reserved, between), Run(0.0, p, Others(h, between)), Position(h, between);
            Step(0.0, u, Release(at)).held == v.held && Alike(Step(0.0, u, Release(at)), v, t)
  {
    NoGapNoTrace(reserved, p, h, between, reserved.held[h].slot);
    var v, at := Run(0.0, p, Others(h, between)), Position(h, between);
    assert v.held[..at] == v.held;
  }

  /** The operation reserves a slot that comes right after the last one, or, if it releases one after the slot at
      `at`, the last. */
  predicate KeepsTight(p: Pacer, at: nat, op: Op) {
    && (op.Reserve? ==> op.now <= p.nextAt)
    && (op.Release? && at < op.index < |p.held| ==> op.index == |p.held| - 1)
  }

  lemma TightSteps(gap: real, p: Pacer, at: nat, op: Op)
    requires gap > 0.0 && Paced(gap, p) && at < |p.held| && op != Release(at)
    ensures Tight(gap, Step(gap, p, op), Moved(at, op)) <==> Tight(gap, p, at) && KeepsTight(p, at, op)
  {
    if Tight(gap, Step(gap, p, op), Moved(at, op)) {
      TightBefore(gap, p, at, op);
      if op.Reserve? {
        assert Follows(gap, Step(gap, p, op).held, |p.held|);
      }
    }
    if Tight(gap, p, at) && KeepsTight(p, at, op) {
      TightAfter(gap, p, at, op);
    }
  }

  lemma TightAfter(gap: real, p: Pacer, at: nat, op: Op)
    requires gap > 0.0 && Paced(gap, p) && op != Release(at) && Tight(gap, p, at) && KeepsTight(p, at, op)
    ensures Tight(gap, Step(gap, p, op), Moved(at, op))
  {
    var u, next := Step(gap, p, op), Moved(at, op);
    if op.Release? && op.index < at {
      OlderIsNotNewest(gap, p, op.index);
    }
    forall k: nat | next < k < |u.held| ensures Follows(gap, u.held, k) {
      var was := if op.Release? then Original(p, op, k) else k;
      assert was < |p.held| ==> Follows(gap, p.held, was);
    }
    assert at < |p.held| - 1 ==> Follows(gap, p.held, |p.held| - 1);
  }

  ghost predicate KeptTight(gap: real, p: Pacer, at: nat, ops: seq<Op>) {
    forall m | 0 <= m < |ops| :: KeepsTight(Run(gap, p, ops[..m]), Position(at, ops[..m]), ops[m])
  }

  lemma KeptTightSteps(gap: real, p: Pacer, at: nat, ops: seq<Op>)
    requires ops != []
    ensures var n := |ops| - 1;
            KeptTight(gap, p, at, ops)
            <==> KeptTight(gap, p, at, ops[..n]) && KeepsTight(Run(gap, p, ops[..n]), Position(at, ops[..n]), ops[n])
  {
    var n := |ops| - 1;
    assert forall m | 0 <= m < n :: ops[..n][..m] == ops[..m] && ops[..n][m] == ops[m];
  }

  lemma {:induction false} StaysHeld(gap: real, p: Pacer, at: nat, ops: seq<Op>)
    requires gap >= 0.0 && Paced(gap, p) && at < |p.held| && Spares(at, ops)
    ensures Paced(gap, Run(gap, p, ops)) && Position(at, ops) < |Run(gap, p, ops).held|
  {
    if ops != [] {
      SparesPrefix(at, ops);
      StaysHeld(gap, p, at, ops[..|ops| - 1]);
      StepKeepsPace(gap, Run(gap, p, ops[..|ops| - 1]), ops[|ops| - 1]);
    }
  }

  lemma {:induction false} TightExactly(gap: real, p: Pacer, at: nat, ops: seq<Op>)
    requires gap > 0.0 && Paced(gap, p) && TakesBack(gap, p, at) && Spares(at, ops)
    ensures Tight(gap, Run(gap, p, ops), Position(at, ops)) <==> KeptTight(gap, p, at, ops)
  {
    if ops != [] {
      var n := |ops| - 1;
      SparesPrefix(at, ops);
      TightExactly(gap, p, at, ops[..n]);
      StaysHeld(gap, p, at, ops[..n]);
      TightSteps(gap, Run(gap, p, ops[..n]), Position(at, ops[..n]), ops[n]);
      KeptTightSteps(gap, p, at, ops);
    }
  }

  /** A slot just reserved, by now the newest held again, is taken back when it is released exactly when, in
      between, every reserve had to wait for its slot or got it just then, and later slots were released newest
      first. */
  lemma TakesBackExactly(gap: real, before: seq<Op>, now: real, between: seq<Op>)
    requires gap > 0.0
    requires var p := Run(gap, Pacer(0.0, []), before);
             Spares(|p.held|, between)
             && NewestHeld(Run(gap, Step(gap, p, Reserve(now)), between), Position(|p.held|, between))
    ensures var p := Run(gap, Pacer(0.0, []), before);
            var reserved := Step(gap, p, Reserve(now));
            TakesBack(gap, Run(gap, reserved, between), Position(|p.held|, between))
            <==> KeptTight(gap, reserved, |p.held|, between)
  {
    var p := Run(gap, Pacer(0.0, []), before);
    HeldSlotsArePaced(gap, before);
    StepKeepsPace(gap, p, Reserve(now));
    TightExactly(gap, Step(gap, p, Reserve(now)), |p.held|, between);
  }

  /** A slot whose predecessor was released first: the next reserve gets slot 1, and would get slot 0 had the slot
      never been taken. */
  lemma ReleasedOldestFirst()
    ensures Run(1.0, Pacer(0.0, []), [Reserve(0.0), Reserve(0.0)] + [Release(0)] + [Release(0)] + [Reserve(0.0)]).held
            == [Hold(1.0, 0.0)]
    ensures Run(1.0, Pacer(0.0, []), [Reserve(0.0)] + [Release(0)] + [Reserve(0.0)]).held == [Hold(0.0, 0.0)]
  {
    var p, r := Pacer(0.0, []), Reserve(0.0);
    TwoReserved();
    RunThen(1.0, p, [r, r], Release(0));
    RunThen(1.0, p, [r, r] + [Release(0)], Release(0));
    RunThen(1.0, p, [r, r] + [Release(0)] + [Release(0)], r);
    ReleasedAlone();
  }

  lemma ReleasedAlone()
    ensures Run(1.0, Pacer(0.0, []), [Reserve(0.0)] + [Release(0)] + [Reserve(0.0)]).held == [Hold(0.0, 0.0)]
  {
    var p, r := Pacer(0.0, []), Reserve(0.0);
    RunThen(1.0, p, [], r);
    assert [] + [r] == [r];
    RunThen(1.0, p, [r], Release(0));
    RunThen(1.0, p, [r] + [Release(0)], r);
  }

  /** The newest slot held, which the pacer does not take back since the middle one of three was released first:
      the next reserve gets slot 2, and would get slot 1 had the slot never been taken. */
  lemma ReleasedMiddleFirst()
    ensures var three := [Reserve(0.0), Reserve(0.0), Reserve(0.0), Release(1), Release(1)];
            && Run(1.0, Pacer(0.0, []), three) == Pacer(2.0, [Hold(0.0, 0.0)])
            && Run(1.0, Pacer(0.0, []), three + [Release(0)] + [Reserve(0.0)]).held == [Hold(2.0, 0.0)]
    ensures var two := [Reserve(0.0), Reserve(0.0), Release(0), Release(0)];
            Run(1.0, Pacer(0.0, []), two + [Reserve(0.0)]).held == [Hold(1.0, 0.0)]
  {
    var p, r := Pacer(0.0, []), Reserve(0.0);
    TwoReserved();
    RunThen(1.0, p, [r, r], r);
    assert [r, r] + [r] == [r, r, r];
    assert Run(1.0, p, [r, r, r]) == Pacer(3.0, [Hold(0.0, 0.0), Hold(1.0, 0.0), Hold(2.0, 0.0)]);
    RunThen(1.0, p, [r, r, r], Release(1));
    RunThen(1.0, p, [r, r, r] + [Release(1)], Release(1));
    assert [r, r, r] + [Release(1)] + [Release(1)] == [r, r, r, Release(1), Release(1)];
    RunThen(1.0, p, [r, r, r, Release(1), Release(1)], Release(0));
    RunThen(1.0, p, [r, r, r, Release(1), Release(1)] + [Release(0)], r);
    ReleasedTwo();
  }

  lemma TwoReserved()
    ensures Run(1.0, Pacer(0.0, []), [Reserve(0.0), Reserve(0.0)]) == Pacer(2.0, [Hold(0.0, 0.0), Hold(1.0, 0.0)])
  {
    var p, r := Pacer(0.0, []), Reserve(0.0);
    RunThen(1.0, p, [], r);
    RunThen(1.0, p, [r], r);
    assert [] + [r] == [r] && [r] + [r] == [r, r];
  }

  lemma ReleasedTwo()
    ensures Run(1.0, Pacer(0.0, []), [Reserve(0.0), Reserve(0.0), Release(0), Release(0)] + [Reserve(0.0)]).held
            == [Hold(1.0, 0.0)]
  {
    var p, r := Pacer(0.0, []), Reserve(0.0);
    TwoReserved();
    RunThen(1.0, p, [r, r], Release(0));
    RunThen(1.0, p, [r, r] + [Release(0)], Release(0));
    assert [r, r] + [Release(0)] + [Release(0)] == [r, r, Release(0), Release(0)];
    RunThen(1.0, p, [r, r, Release(0), Release(0)], r);
  }

  lemma RunThen(gap: real, p: Pacer, ops: seq<Op>, op: Op)
    ensures Run(gap, p, ops + [op]) == Step(gap, Run(gap, p, ops), op)
  {
    assert (ops + [op])[..|ops|] == ops;
  }
}

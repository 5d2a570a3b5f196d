/** Guest join pacing: GuestPacer in src/twin/worker.py, over exact times. */
module Pacing {
  import opened Common

  /** Slots reserved and not released, oldest first, each with the time it was asked for. */
  datatype Hold = Hold(slot: real, asked: real)

  datatype Pacer = Pacer(nextAt: real, held: seq<Hold>)

  datatype Op = Reserve(now: real) | Release(index: nat)

  function SlotAt(nextAt: real, now: real): real {
    MaxReal(now, nextAt)
  }

  function AfterRelease(gap: real, nextAt: real, slot: real): real {
    if nextAt == slot + gap then slot else nextAt
  }

  function Step(gap: real, p: Pacer, op: Op): Pacer {
    match op
    case Reserve(now) =>
      var slot := SlotAt(p.nextAt, now);
      Pacer(slot + gap, p.held + [Hold(slot, now)])
    case Release(i) =>
      if i < |p.held| then Pacer(AfterRelease(gap, p.nextAt, p.held[i].slot), p.held[..i] + p.held[i + 1..]) else p
  }

  function Run(gap: real, p: Pacer, ops: seq<Op>): Pacer {
    if ops == [] then p else Step(gap, Run(gap, p, ops[..|ops| - 1]), ops[|ops| - 1])
  }

  predicate Apart(gap: real, held: seq<Hold>, i: nat, j: nat) {
    i < j < |held| && held[i].slot + gap <= held[j].slot
  }

  /** The hold is not before its request, and the next slot is a gap after it. */
  predicate InTime(gap: real, p: Pacer, i: nat) {
    i < |p.held| && p.held[i].asked <= p.held[i].slot && p.held[i].slot + gap <= p.nextAt
  }

  ghost predicate Paced(gap: real, p: Pacer) {
    && (forall i: nat, j: nat | i < j < |p.held| :: Apart(gap, p.held, i, j))
    && (forall i: nat | i < |p.held| :: InTime(gap, p, i))
  }

  lemma StepKeepsPace(gap: real, p: Pacer, op: Op)
    requires gap >= 0.0 && Paced(gap, p)
    ensures Paced(gap, Step(gap, p, op))
  {
    var u := Step(gap, p, op);
    forall i: nat, j: nat | i < j < |u.held| ensures Apart(gap, u.held, i, j) {
      if op.Reserve? {
        assert InTime(gap, p, i);
        assert j < |p.held| ==> Apart(gap, p.held, i, j);
      } else {
        assert Apart(gap, p.held, Original(p, op, i), Original(p, op, j));
      }
    }
    forall i: nat | i < |u.held| ensures InTime(gap, u, i) {
      if op.Reserve? {
        assert i < |p.held| ==> InTime(gap, p, i);
      } else {
        var x := Original(p, op, i);
        assert InTime(gap, p, x);
        if op.index < |p.held| && p.nextAt == p.held[op.index].slot + gap {
          assert x < op.index ==> Apart(gap, p.held, x, op.index);
          assert op.index < x ==> Apart(gap, p.held, op.index, x);
        }
      }
    }
  }

  /** Where the hold at `i` after a release was before it. */
  function Original(p: Pacer, op: Op, i: nat): nat
    requires op.Release?
  {
    if i < op.index || |p.held| <= op.index then i else i + 1
  }

  /** Over any run of reserves, under any clock, and releases of slots still held: all slots still held are at or
      after the time they were asked for and pairwise at least the gap apart. */
  lemma {:induction false} HeldSlotsArePaced(gap: real, ops: seq<Op>)
    requires gap >= 0.0
    ensures Paced(gap, Run(gap, Pacer(0.0, []), ops))
  {
    if ops != [] {
      HeldSlotsArePaced(gap, ops[..|ops| - 1]);
      StepKeepsPace(gap, Run(gap, Pacer(0.0, []), ops[..|ops| - 1]), ops[|ops| - 1]);
    }
  }

  /** A reserve gets the earliest slot it can: the time it asks at, or, if that is too soon, a gap after the last slot
      given, as long as no slot was released. */
  lemma {:induction false} SlotsComeEarliest(gap: real, times: seq<real>)
    requires gap >= 0.0 && forall i | 0 <= i < |times| :: 0.0 <= times[i]
    ensures var held := Run(gap, Pacer(0.0, []), Reserves(times)).held;
            && |held| == |times|
            && forall i | 0 <= i < |times| ::
                 && held[i].asked == times[i]
                 && held[i].slot == if i == 0 then times[0] else MaxReal(times[i], held[i - 1].slot + gap)
    ensures times != [] ==> var p := Run(gap, Pacer(0.0, []), Reserves(times));
                            p.held != [] && p.nextAt == p.held[|p.held| - 1].slot + gap
  {
    if times != [] {
      var n := |times| - 1;
      SlotsComeEarliest(gap, times[..n]);
      var before := Run(gap, Pacer(0.0, []), Reserves(times[..n]));
      assert Reserves(times)[..n] == Reserves(times[..n]);
      assert Run(gap, Pacer(0.0, []), Reserves(times)) == Step(gap, before, Reserve(times[n]));
      assert times[..n] == [] ==> before == Pacer(0.0, []);
    }
  }

  function Reserves(times: seq<real>): seq<Op> {
    seq(|times|, i requires 0 <= i < |times| => Reserve(times[i]))
  }

  predicate NewestHeld(p: Pacer, at: nat) {
    at + 1 == |p.held|
  }

  /** The newest slot held, which the pacer takes back when it is released: its next slot is right behind it. */
  predicate TakesBack(gap: real, p: Pacer, at: nat) {
    NewestHeld(p, at) && p.nextAt == p.held[at].slot + gap
  }

  lemma OlderIsNotNewest(gap: real, p: Pacer, i: nat)
    requires gap > 0.0 && Paced(gap, p) && i < |p.held|
    ensures p.nextAt == p.held[i].slot + gap ==> i == |p.held| - 1
  {
    var last := |p.held| - 1;
    assert i < last ==> Apart(gap, p.held, i, last);
    assert InTime(gap, p, last);
  }

  predicate Holds(p: Pacer, i: nat, slot: real) {
    i < |p.held| && p.held[i].slot == slot
  }

  class GuestPacer {
    const gap: real
    var nextAt: real

    constructor (gap: real)
      ensures this.gap == gap && nextAt == 0.0
    {
      this.gap, nextAt := gap, 0.0;
    }

    method ReserveSlot(now: real) returns (wait: real, slot: real)
      modifies this
      ensures slot == SlotAt(old(nextAt), now) && wait == slot - now && wait >= 0.0
      ensures forall held ::
                Pacer(nextAt, held + [Hold(slot, now)]) == Step(gap, Pacer(old(nextAt), held), Reserve(now))
    {
      slot := MaxReal(now, nextAt);
      nextAt := slot + gap;
      wait := slot - now;
    }

    /** Whoever holds the slot gives it up. It is offered again exactly when it was the newest held and the next
        one was right behind it; any slots still held stay a gap apart from each other and from the next one. */
    method ReleaseSlot(slot: real)
      modifies this
      ensures nextAt == if old(nextAt) == slot + gap then slot else old(nextAt)
      ensures forall held, i | Holds(Pacer(old(nextAt), held), i, slot) ::
                Step(gap, Pacer(old(nextAt), held), Release(i)) == Pacer(nextAt, held[..i] + held[i + 1..])
      ensures forall held, i | gap > 0.0 && Holds(Pacer(old(nextAt), held), i, slot) ::
                Paced(gap, Pacer(old(nextAt), held)) ==>
                  (nextAt != old(nextAt) <==> TakesBack(gap, Pacer(old(nextAt), held), i))
      ensures forall held, i | gap >= 0.0 && Holds(Pacer(old(nextAt), held), i, slot) ::
                Paced(gap, Pacer(old(nextAt), held)) ==> Paced(gap, Pacer(nextAt, held[..i] + held[i + 1..]))
    {
      if nextAt == slot + gap {
        nextAt := slot;
      }
      ghost var was := old(nextAt);
      forall held, i | gap >= 0.0 && Holds(Pacer(was, held), i, slot) && Paced(gap, Pacer(was, held))
        ensures Paced(gap, Pacer(nextAt, held[..i] + held[i + 1..]))
        ensures gap > 0.0 ==> (nextAt != was <==> TakesBack(gap, Pacer(was, held), i))
      {
        StepKeepsPace(gap, Pacer(was, held), Release(i));
        if gap > 0.0 {
          OlderIsNotNewest(gap, Pacer(was, held), i);
          assert nextAt != was <==> TakesBack(gap, Pacer(was, held), i);
        }
      }
    }
  }
}

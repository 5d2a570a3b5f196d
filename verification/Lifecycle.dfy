/** The status graph of a bot run: src/twin/bots/state.py. */
module Lifecycle {

  datatype Status = Queued | Joining | Joined | Recording | Processing | Completed | Failed

  predicate Live(s: Status) {
    s in {Joining, Joined, Recording, Processing}
  }

  predicate Terminal(s: Status) {
    s in {Completed, Failed}
  }

  function Allowed(s: Status): set<Status> {
    match s
    case Queued => {Joining, Failed}
    case Joining => {Joined, Failed}
    case Joined => {Recording, Failed}
    case Recording => {Processing, Failed}
    case Processing => {Completed, Failed}
    case Completed => {}
    case Failed => {}
  }

  predicate CanTransition(current: Status, target: Status) {
    target in Allowed(current)
  }

  function Rank(s: Status): nat {
    match s
    case Queued => 0
    case Joining => 1
    case Joined => 2
    case Recording => 3
    case Processing => 4
    case Completed => 5
    case Failed => 5
  }

  /** What a run may have been through: it starts queued and follows the table of transitions. */
  ghost predicate ValidHistory(h: seq<Status>) {
    && |h| > 0
    && h[0] == Queued
    && forall i | 0 < i < |h| :: CanTransition(h[i - 1], h[i])
  }

  lemma {:induction false} RankIncreases(h: seq<Status>, i: nat, j: nat)
    requires ValidHistory(h)
    requires i < j < |h|
    ensures Rank(h[i]) + (j - i) <= Rank(h[j])
    decreases j
  {
    assert CanTransition(h[j - 1], h[j]);
    if i < j - 1 {
      RankIncreases(h, i, j - 1);
    }
  }

  /** Histories are short, never repeat a status, join at most once (right after the queue) and end at a
      terminal status. */
  lemma HistoryShape(h: seq<Status>)
    requires ValidHistory(h)
    ensures |h| <= 6
    ensures forall i, j | 0 <= i < j < |h| :: h[i] != h[j]
    ensures forall i | 0 <= i < |h| && Terminal(h[i]) :: i == |h| - 1
    ensures forall i | 0 <= i < |h| && h[i] == Joining :: i == 1
  {
    forall i, j | 0 <= i < j < |h| ensures Rank(h[i]) + (j - i) <= Rank(h[j]) {
      RankIncreases(h, i, j);
    }
    assert Rank(h[0]) + (|h| - 1) <= Rank(h[|h| - 1]) <= 5;
    forall i | 0 <= i < |h| && h[i] == Joining ensures i == 1 {
      if i > 0 {
        assert CanTransition(h[i - 1], h[i]);
      }
    }
  }

  // ----- the way through

  /** The statuses of a run that goes well. */
  const PATH := [Queued, Joining, Joined, Recording, Processing, Completed]

  lemma {:induction false} HistoryFollowsPath(h: seq<Status>)
    requires ValidHistory(h)
    ensures h <= PATH || exists n | 1 <= n <= 5 :: h == PATH[..n] + [Failed]
  {
    var n := |h| - 1;
    if n == 0 {
      assert h == PATH[..1];
    } else {
      HistoryFollowsPath(h[..n]);
      assert CanTransition(h[n - 1], h[n]) && h == h[..n] + [h[n]];
      assert h[n - 1] == h[..n][n - 1];
      if h[..n] <= PATH {
        assert h[n - 1] == PATH[n - 1];
        AllowedOnPath(n - 1);
        assert h[n] == Failed ==> h == PATH[..n] + [Failed];
        assert h[n] != Failed ==> h == PATH[..n + 1];
      }
    }
  }

  lemma AllowedOnPath(i: nat)
    requires i <= 5
    ensures Allowed(PATH[i]) == if i < 5 then {PATH[i + 1], Failed} else {}
  {
    assert i == 0 || i == 1 || i == 2 || i == 3 || i == 4 || i == 5;
  }

  lemma PathIsHistory(h: seq<Status>)
    requires h != [] && (h <= PATH || exists n | 1 <= n <= 5 :: h == PATH[..n] + [Failed])
    ensures ValidHistory(h)
  {
    forall i | 0 < i < |h| ensures CanTransition(h[i - 1], h[i]) {
      if h <= PATH {
        assert h[i - 1] == PATH[i - 1] && h[i] == PATH[i];
      } else {
        var n :| 1 <= n <= 5 && h == PATH[..n] + [Failed];
        assert h[i - 1] == PATH[i - 1] && (i < n ==> h[i] == PATH[i]);
      }
    }
  }

  /** What runs may go through, exactly: part of the way or all of it, in order, or part of it and then failure. */
  lemma HistoriesExactly(h: seq<Status>)
    ensures ValidHistory(h) <==> h != [] && (h <= PATH || exists n | 1 <= n <= 5 :: h == PATH[..n] + [Failed])
    ensures ValidHistory(h) && h[|h| - 1] == Completed ==> h == PATH
  {
    if ValidHistory(h) {
      HistoryFollowsPath(h);
    }
    if h != [] && (h <= PATH || exists n | 1 <= n <= 5 :: h == PATH[..n] + [Failed]) {
      PathIsHistory(h);
    }
  }
}

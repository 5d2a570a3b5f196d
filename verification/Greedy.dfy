/** Greedy splitting of a list into batches of bounded size, for any cost of an item: the loop of split_segments
    in src/twin/notes/summarizer.py without its strings, and why no other split has fewer batches. */
module Greedy {

  /** What an item costs, what an empty batch costs, and the most a batch of several items may cost. */
  datatype Budget<!T> = Budget(cost: T -> nat, base: nat, limit: nat)

  function Size<T>(g: Budget<T>, batch: seq<T>): nat {
    if batch == [] then g.base else Size(g, batch[..|batch| - 1]) + g.cost(batch[|batch| - 1])
  }

  predicate Fits<T>(g: Budget<T>, batch: seq<T>) {
    |batch| == 1 || (|batch| > 1 && Size(g, batch) <= g.limit)
  }

  /** The splitter closes the batch in the making rather than add the next item. */
  predicate Closes<T>(g: Budget<T>, current: seq<T>, next: T) {
    |current| > 0 && Size(g, current) + g.cost(next) > g.limit
  }

  /** The splitter from a batch in the making and the items still to come. */
  function SplitFrom<T>(g: Budget<T>, current: seq<T>, rest: seq<T>): seq<seq<T>>
    decreases |rest|
  {
    if |rest| == 0 then (if |current| == 0 then [] else [current])
    else if Closes(g, current, rest[0]) then [current] + SplitFrom(g, [rest[0]], rest[1..])
    else SplitFrom(g, current + [rest[0]], rest[1..])
  }

  function Flatten<T>(batches: seq<seq<T>>): seq<T> {
    if |batches| == 0 then [] else batches[0] + Flatten(batches[1..])
  }

  ghost predicate AllFit<T(!new)>(g: Budget<T>, batches: seq<seq<T>>) {
    forall i | 0 <= i < |batches| :: Fits(g, batches[i])
  }

  lemma SizeGrows<T>(g: Budget<T>, batch: seq<T>, item: T)
    ensures Size(g, batch + [item]) == Size(g, batch) + g.cost(item)
  {
    assert (batch + [item])[..|batch|] == batch;
  }

  /** Every batch fits and together they are the items, in order. */
  lemma {:induction false} SplitPartitions<T(!new)>(g: Budget<T>, current: seq<T>, rest: seq<T>)
    requires |current| > 0 ==> Fits(g, current)
    ensures Flatten(SplitFrom(g, current, rest)) == current + rest
    ensures AllFit(g, SplitFrom(g, current, rest))
    decreases |rest|
  {
    if |rest| > 0 {
      if Closes(g, current, rest[0]) {
        SplitPartitions(g, [rest[0]], rest[1..]);
        var later := SplitFrom(g, [rest[0]], rest[1..]);
        assert ([current] + later)[1..] == later;
      } else {
        SizeGrows(g, current, rest[0]);
        SplitPartitions(g, current + [rest[0]], rest[1..]);
      }
    } else if |current| > 0 {
      assert [current][1..] == [];
    }
  }

  lemma {:induction false} SizeOfPart<T>(g: Budget<T>, batch: seq<T>, i: nat, j: nat)
    requires i <= j <= |batch|
    ensures Size(g, batch[i..j]) <= Size(g, batch)
    decreases |batch|
  {
    if j < |batch| {
      SizeOfPart(g, batch[..|batch| - 1], i, j);
      assert batch[..|batch| - 1][i..j] == batch[i..j];
    } else if i < j {
      SizeOfPart(g, batch[..|batch| - 1], i, j - 1);
      assert batch[i..j][..j - i - 1] == batch[i..j - 1];
      assert batch[..|batch| - 1][i..j - 1] == batch[i..j - 1];
    } else if batch != [] {
      SizeOfPart(g, batch[..|batch| - 1], 0, 0);
    }
  }

  ghost predicate Suffix<T(!new)>(part: seq<T>, whole: seq<T>) {
    |part| <= |whole| && whole[|whole| - |part|..] == part
  }

  /** A suffix short enough to lie in the second of two sequences does. */
  lemma SuffixOfSecond<T(!new)>(a: seq<T>, b: seq<T>, first: seq<T>, second: seq<T>)
    requires Suffix(a + b, first + second) && |b| <= |second|
    ensures Suffix(b, second)
  {
    var all := first + second;
    assert second[|second| - |b|..] == all[|all| - |b|..] == all[|all| - |a + b|..][|a|..] == b;
  }

  /** A longer one reaches into the first, which then holds `a` and the head of `b`. */
  lemma SuffixIntoFirst<T(!new)>(a: seq<T>, b: seq<T>, first: seq<T>, second: seq<T>) returns (i: nat)
    requires Suffix(a + b, first + second) && |second| < |b|
    ensures i + |a| + 1 <= |first| && first[i..i + |a| + 1] == a + [b[0]]
  {
    var all, n := first + second, |a| + 1;
    i := |all| - |a + b|;
    assert first[i..i + n] == all[i..][..n] == (a + b)[..n] == a + [b[0]];
  }

  /** A batch that fits never holds the items of a closed batch and the one that closed it. */
  lemma ClosedIsNotInside<T(!new)>(g: Budget<T>, current: seq<T>, next: T, batch: seq<T>, i: nat)
    requires Closes(g, current, next) && Fits(g, batch) && i + |current| + 1 <= |batch|
    ensures batch[i..i + |current| + 1] != current + [next]
  {
    SizeOfPart(g, batch, i, i + |current| + 1);
    SizeGrows(g, current, next);
  }

  /** When the splitter closes a batch, the first of any other batches ends no later than it does. */
  lemma FirstEndsBeforeClose<T(!new)>(g: Budget<T>, current: seq<T>, rest: seq<T>, first: seq<T>, later: seq<T>)
    requires |rest| > 0 && Closes(g, current, rest[0]) && Fits(g, first)
    requires Suffix(current + rest, first + later)
    ensures Suffix(rest, later)
  {
    if |rest| <= |later| {
      SuffixOfSecond(current, rest, first, later);
    } else {
      var i := SuffixIntoFirst(current, rest, first, later);
      ClosedIsNotInside(g, current, rest[0], first, i);
    }
  }

  /** Greedy stays ahead: if what the splitter has left is a suffix of what other batches hold, it needs no more
      batches than they are. */
  lemma {:induction false} GreedyStaysAhead<T(!new)>(g: Budget<T>, current: seq<T>, rest: seq<T>, others: seq<seq<T>>)
    requires |current| > 0 && AllFit(g, others) && Suffix(current + rest, Flatten(others))
    ensures |SplitFrom(g, current, rest)| <= |others|
    decreases |rest|
  {
    if |rest| > 0 {
      if Closes(g, current, rest[0]) {
        FirstEndsBeforeClose(g, current, rest, others[0], Flatten(others[1..]));
        assert [rest[0]] + rest[1..] == rest;
        GreedyStaysAhead(g, [rest[0]], rest[1..], others[1..]);
      } else {
        assert current + [rest[0]] + rest[1..] == current + rest;
        GreedyStaysAhead(g, current + [rest[0]], rest[1..], others);
      }
    }
  }

  lemma GreedyIsOptimal<T(!new)>(g: Budget<T>, items: seq<T>, others: seq<seq<T>>)
    requires Flatten(others) == items && AllFit(g, others)
    ensures |SplitFrom(g, [], items)| <= |others|
  {
    if |items| > 0 {
      assert [] + [items[0]] == [items[0]];
      assert [items[0]] + items[1..] == items == items[0..];
      GreedyStaysAhead(g, [items[0]], items[1..], others);
    }
  }

  method Split<T>(g: Budget<T>, items: seq<T>) returns (batches: seq<seq<T>>)
    ensures batches == SplitFrom(g, [], items)
  {
    batches := [];
    var current: seq<T> := [];
    var size := g.base;
    for i := 0 to |items|
      invariant size == Size(g, current)
      invariant SplitFrom(g, [], items) == batches + SplitFrom(g, current, items[i..])
    {
      var cost := g.cost(items[i]);
      assert items[i..][1..] == items[i + 1..];
      if |current| > 0 && size + cost > g.limit {
        assert batches + ([current] + SplitFrom(g, [items[i]], items[i + 1..]))
            == batches + [current] + SplitFrom(g, [items[i]], items[i + 1..]);
        batches := batches + [current];
        current := [];
        size := g.base;
        assert [] + [items[i]] == [items[i]];
      }
      SizeGrows(g, current, items[i]);
      current := current + [items[i]];
      size := size + cost;
    }
    if |current| > 0 {
      batches := batches + [current];
    }
  }
}

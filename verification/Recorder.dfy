/** The Python side of MeetingRecorder in src/twin/meet/recorder.py: chunks go to the spool and to a buffer
    that is handed to the checkpoint sink window by window. */
module Recorder {
  import opened Common
  import opened Checkpoints

  const CHECKPOINT_CHUNKS: nat := 5

  /** How the sink's call number `n` goes: its two puts, and the note of the manifest on the run. */
  datatype Weather = Weather(chunkPut: PutOutcome, manifestPut: PutOutcome, noted: bool)

  /** What the recorder is given: the checksum, and how storage will behave. */
  datatype Env = Env(sha: Bytes -> Digest, weather: nat -> Weather)

  /** The recorder's fields with the checkpoint writer behind its sink, and history: the sink's calls, the
      chunks each window was made of and the nonempty chunks now in the buffer. */
  datatype Recorder = Recorder(
    spool: Bytes,
    buffer: Bytes,
    count: nat,
    sequence: nat,
    failed: bool,
    writer: Writer,
    calls: seq<Attempt>,
    parts: seq<seq<Bytes>>,
    pending: seq<Bytes>)

  const BLANK := Recorder([], [], 0, 0, false, FRESH, [], [], [])

  function Call(data: Bytes, w: Weather): Attempt {
    Attempt(data, w.chunkPut, w.manifestPut)
  }

  predicate Fine(a: Attempt, w: Weather) {
    Succeeds(a) && w.noted
  }

  function Flush(r: Recorder, env: Env): Recorder {
    if r.buffer == [] then r
    else
      var w := env.weather(r.sequence);
      var a := Call(r.buffer, w);
      r.(buffer := [], count := 0, sequence := r.sequence + 1, failed := r.failed || !Fine(a, w),
         writer := Append(env.sha, r.writer, a),
         calls := r.calls + [a], parts := r.parts + [r.pending], pending := [])
  }

  /** The recorder after a chunk came in and before it may flush. */
  function Received(r: Recorder, data: Bytes): Recorder {
    r.(spool := r.spool + data, buffer := r.buffer + data, count := r.count + 1,
       pending := if data == [] then r.pending else r.pending + [data])
  }

  function Collect(r: Recorder, data: Bytes, env: Env): Recorder {
    var more := Received(r, data);
    if more.count >= CHECKPOINT_CHUNKS then Flush(more, env) else more
  }

  /** One drain: the chunks the page had, or nothing when asking it failed. */
  function Drain(r: Recorder, chunks: seq<Bytes>, env: Env): Recorder {
    if chunks == [] then r else Collect(Drain(r, chunks[..|chunks| - 1], env), chunks[|chunks| - 1], env)
  }

  function DrainAll(drains: seq<seq<Bytes>>, env: Env): Recorder {
    if drains == [] then BLANK else Drain(DrainAll(drains[..|drains| - 1], env), drains[|drains| - 1], env)
  }

  function Windows(calls: seq<Attempt>): seq<Bytes> {
    if calls == [] then [] else Windows(calls[..|calls| - 1]) + [calls[|calls| - 1].data]
  }

  // ----- what every drain keeps

  ghost predicate Nonempty(parts: seq<Bytes>) {
    forall p | p in parts :: p != []
  }

  /** Each window is made of one to five nonempty chunks. */
  ghost predicate WindowsFine(calls: seq<Attempt>, parts: seq<seq<Bytes>>) {
    && |parts| == |calls|
    && forall i | 0 <= i < |calls| ::
         Concat(parts[i]) == calls[i].data != [] && 1 <= |parts[i]| <= CHECKPOINT_CHUNKS && Nonempty(parts[i])
  }

  /** Nothing is lost or reordered between the spool, the windows handed over and the buffer, and while nothing
      failed every call went through. */
  ghost predicate Accounted(r: Recorder) {
    && Concat(Windows(r.calls)) + r.buffer == r.spool
    && Concat(r.pending) == r.buffer && Nonempty(r.pending)
    && WindowsFine(r.calls, r.parts)
    && (!r.failed ==> forall a | a in r.calls :: Succeeds(a))
    && |r.pending| <= r.count
  }

  ghost predicate Conserves(r: Recorder) {
    Accounted(r) && (r.count < CHECKPOINT_CHUNKS || r.pending == [])
  }

  lemma WindowsAppend(calls: seq<Attempt>, a: Attempt)
    ensures Concat(Windows(calls + [a])) == Concat(Windows(calls)) + a.data
  {
    assert (calls + [a])[..|calls|] == calls;
    assert (Windows(calls) + [a.data])[..|Windows(calls)|] == Windows(calls);
  }

  lemma FlushConserves(r: Recorder, env: Env)
    requires Accounted(r) && |r.pending| <= CHECKPOINT_CHUNKS
    ensures Conserves(Flush(r, env))
    ensures Flush(r, env).buffer == [] && Flush(r, env).spool == r.spool
  {
    if r.buffer != [] {
      WindowsAppend(r.calls, Call(r.buffer, env.weather(r.sequence)));
    } else {
      ConcatEmpty(r.pending);
    }
  }

  lemma ConcatEmpty(parts: seq<Bytes>)
    requires Nonempty(parts)
    ensures parts != [] ==> Concat(parts) != []
  {
    if parts != [] {
      assert parts[|parts| - 1] in parts;
    }
  }

  lemma ReceivedAccounted(r: Recorder, data: Bytes)
    requires Conserves(r)
    ensures Accounted(Received(r, data)) && |Received(r, data).pending| <= CHECKPOINT_CHUNKS
  {
    assert (r.pending + [data])[..|r.pending|] == r.pending;
    assert Concat(Windows(r.calls)) + (r.buffer + data) == Concat(Windows(r.calls)) + r.buffer + data;
  }

  lemma CollectConserves(r: Recorder, data: Bytes, env: Env)
    requires Conserves(r)
    ensures Conserves(Collect(r, data, env))
  {
    ReceivedAccounted(r, data);
    if Received(r, data).count >= CHECKPOINT_CHUNKS {
      FlushConserves(Received(r, data), env);
    }
  }

  lemma {:induction false} DrainConserves(r: Recorder, chunks: seq<Bytes>, env: Env)
    requires Conserves(r)
    ensures Conserves(Drain(r, chunks, env))
  {
    if chunks != [] {
      var before := Drain(r, chunks[..|chunks| - 1], env);
      DrainConserves(r, chunks[..|chunks| - 1], env);
      CollectConserves(before, chunks[|chunks| - 1], env);
    }
  }

  lemma {:induction false} DrainSpools(r: Recorder, chunks: seq<Bytes>, env: Env)
    ensures Drain(r, chunks, env).spool == r.spool + Concat(chunks)
  {
    if chunks == [] {
      assert r.spool + [] == r.spool;
    } else {
      var n := |chunks| - 1;
      DrainSpools(r, chunks[..n], env);
      assert r.spool + Concat(chunks[..n]) + chunks[n] == r.spool + (Concat(chunks[..n]) + chunks[n]);
    }
  }

  /** Over any drains and any storage weather the recorder conserves the audio. */
  lemma {:induction false} RecorderConserves(drains: seq<seq<Bytes>>, env: Env)
    ensures Conserves(DrainAll(drains, env))
  {
    if drains != [] {
      RecorderConserves(drains[..|drains| - 1], env);
      DrainConserves(DrainAll(drains[..|drains| - 1], env), drains[|drains| - 1], env);
    }
  }

  lemma {:induction false} AllSucceedAllDurable(calls: seq<Attempt>)
    requires forall a | a in calls :: Succeeds(a) && a.data != []
    ensures Accepted(calls) == Windows(calls)
    ensures Durable(calls) == if calls == [] then None else Some(Windows(calls))
  {
    if calls != [] {
      var n := |calls| - 1;
      assert forall a | a in calls[..n] :: a in calls;
      AllSucceedAllDurable(calls[..n]);
      assert calls[n] in calls;
    }
  }

  /** A hard kill loses at most the current window: while no checkpoint failed, what can be restored followed by
      the buffer is all the audio taken from the page. */
  lemma KillLosesOnlyTheBuffer(drains: seq<seq<Bytes>>, env: Env)
    requires !DrainAll(drains, env).failed
    ensures var r := DrainAll(drains, env);
            var restored := Restore(env.sha, r.writer.store);
            && (r.calls == [] ==> restored == Missing && r.buffer == r.spool)
            && (r.calls != [] ==> restored.Restored? && !restored.partial && restored.data + r.buffer == r.spool)
  {
    RecorderConserves(drains, env);
    DrainAllInStep(drains, env);
    CallsRestore(DrainAll(drains, env), env);
  }

  /** The writer is where the sink's calls have brought it. */
  ghost predicate InStep(r: Recorder, env: Env) {
    r.writer == Run(env.sha, r.calls)
  }

  lemma FlushInStep(r: Recorder, env: Env)
    requires InStep(r, env)
    ensures InStep(Flush(r, env), env)
  {
    RunThen(env.sha, r.calls, Call(r.buffer, env.weather(r.sequence)));
  }

  lemma {:induction false} DrainInStep(r: Recorder, chunks: seq<Bytes>, env: Env)
    requires InStep(r, env)
    ensures InStep(Drain(r, chunks, env), env)
  {
    if chunks != [] {
      var n := |chunks| - 1;
      DrainInStep(r, chunks[..n], env);
      FlushInStep(Received(Drain(r, chunks[..n], env), chunks[n]), env);
    }
  }

  lemma {:induction false} DrainAllInStep(drains: seq<seq<Bytes>>, env: Env)
    ensures InStep(DrainAll(drains, env), env)
  {
    if drains != [] {
      DrainAllInStep(drains[..|drains| - 1], env);
      DrainInStep(DrainAll(drains[..|drains| - 1], env), drains[|drains| - 1], env);
    }
  }

  lemma CallsRestore(r: Recorder, env: Env)
    requires Conserves(r) && !r.failed && InStep(r, env)
    ensures Restore(env.sha, r.writer.store)
            == if r.calls == [] then Missing
               else Restored(Concat(Windows(r.calls)), false, env.sha(Concat(Windows(r.calls))))
  {
    forall a | a in r.calls ensures Succeeds(a) && a.data != [] {
      var i :| 0 <= i < |r.calls| && r.calls[i] == a;
    }
    AllSucceedAllDurable(r.calls);
    RestoreIsDurable(env.sha, r.calls);
  }

  // ----- after a failed checkpoint

  /** No window was accepted after a rejected one. */
  ghost predicate NoHole(calls: seq<Attempt>) {
    forall i, j | 0 <= i < j < |calls| && ChunkAccepted(calls[j]) :: ChunkAccepted(calls[i])
  }

  /** The windows are the first ones, none left out. */
  ghost predicate FirstOnes(places: seq<nat>) {
    forall m | 0 <= m < |places| :: places[m] == m
  }

  lemma {:induction false} AllAcceptedAt(calls: seq<Attempt>)
    requires forall i | 0 <= i < |calls| :: ChunkAccepted(calls[i])
    ensures |AcceptedAt(calls)| == |calls| && FirstOnes(AcceptedAt(calls))
    ensures Accepted(calls) == Windows(calls)
  {
    if calls != [] {
      AllAcceptedAt(calls[..|calls| - 1]);
    }
  }

  /** Of calls whose last one was accepted: the accepted ones are the first ones exactly when none of them follows a
      rejected one, and then they are all. */
  lemma AcceptedAreFirstExactly(calls: seq<Attempt>)
    requires calls != [] && ChunkAccepted(calls[|calls| - 1])
    ensures FirstOnes(AcceptedAt(calls)) <==> NoHole(calls)
    ensures NoHole(calls) ==> Accepted(calls) == Windows(calls)
  {
    if FirstOnes(AcceptedAt(calls)) {
      FirstOnesAreAll(calls);
    }
    if NoHole(calls) {
      assert forall i | 0 <= i < |calls| - 1 :: ChunkAccepted(calls[i]);
      AllAcceptedAt(calls);
    }
  }

  lemma FirstOnesAreAll(calls: seq<Attempt>)
    requires calls != [] && ChunkAccepted(calls[|calls| - 1]) && FirstOnes(AcceptedAt(calls))
    ensures forall i | 0 <= i < |calls| :: ChunkAccepted(calls[i])
  {
    AcceptedPlaces(calls);
    var places, last: nat := AcceptedAt(calls), |calls| - 1;
    assert last in places;
    var m: nat :| m < |places| && places[m] == last;
    forall i: nat | i < |calls| ensures ChunkAccepted(calls[i]) {
      assert places[i] == i && places[i] in places;
    }
  }

  lemma {:induction false} ConcatJoin(a: seq<Bytes>, b: seq<Bytes>)
    ensures Concat(a + b) == Concat(a) + Concat(b)
  {
    if b == [] {
      assert a + b == a && Concat(a) + [] == Concat(a);
    } else {
      var n := |b| - 1;
      ConcatJoin(a, b[..n]);
      assert (a + b)[..|a| + n] == a + b[..n];
      assert Concat(a) + Concat(b[..n]) + b[n] == Concat(a) + (Concat(b[..n]) + b[n]);
    }
  }

  lemma {:induction false} WindowsPrefix(calls: seq<Attempt>, n: nat)
    requires n <= |calls|
    ensures Windows(calls[..n]) <= Windows(calls)
  {
    if n < |calls| {
      WindowsPrefix(calls[..|calls| - 1], n);
      assert calls[..|calls| - 1][..n] == calls[..n];
    } else {
      assert calls[..n] == calls;
    }
  }

  /** What can be restored at any time, failed checkpoints or not: the windows accepted until the manifest was last
      stored, never marked partial. They are the first windows handed over, with none left out, exactly when none of
      them was accepted after a rejected one; and then what can be restored is the beginning of the audio taken. */
  lemma RestoredLeavesHoleExactly(drains: seq<seq<Bytes>>, env: Env)
    ensures var r := DrainAll(drains, env);
            var durable := r.calls[..DurableUntil(r.calls)];
            var restored := Restore(env.sha, r.writer.store);
            if durable == [] then restored == Missing
            else
              && restored.Restored? && !restored.partial
              && restored.data == Concat(DataAt(durable, AcceptedAt(durable)))
              && (FirstOnes(AcceptedAt(durable)) <==> NoHole(durable))
              && (NoHole(durable) ==> restored.data <= r.spool)
  {
    RecorderConserves(drains, env);
    DrainAllInStep(drains, env);
    var r := DrainAll(drains, env);
    var n := DurableUntil(r.calls);
    RestoreIsDurable(env.sha, r.calls);
    DurableUntilTells(r.calls);
    if n > 0 {
      var durable := r.calls[..n];
      AcceptedAtTells(durable);
      AcceptedAreFirstExactly(durable);
      WindowsBeginSpool(r, n);
    }
  }

  lemma WindowsBeginSpool(r: Recorder, n: nat)
    requires Conserves(r) && n <= |r.calls|
    ensures Concat(Windows(r.calls[..n])) <= r.spool
  {
    WindowsPrefix(r.calls, n);
    var begun := Windows(r.calls[..n]);
    var rest := Windows(r.calls)[|begun|..];
    assert Windows(r.calls) == begun + rest;
    ConcatJoin(begun, rest);
    assert r.spool == Concat(begun) + (Concat(rest) + r.buffer);
  }

  /** The first window is lost and the second accepted: the second alone is restored, as if it were the whole. */
  lemma HoleIsNotMarked(a: Byte, b: Byte, env: Env)
    requires a != b && env.weather(0).chunkPut == Lost
    requires env.weather(1).chunkPut == Returned && env.weather(1).manifestPut == Returned
    ensures var r := DrainAll([[[a], [a], [a], [a], [a]], [[b], [b], [b], [b], [b]]], env);
            var restored := Restore(env.sha, r.writer.store);
            && restored.Restored? && !restored.partial && restored.data == [b, b, b, b, b]
            && r.spool == [a, a, a, a, a, b, b, b, b, b]
  {
    var drains := [[[a], [a], [a], [a], [a]], [[b], [b], [b], [b], [b]]];
    TwoWindows(a, b, env);
    DrainAllInStep(drains, env);
    OnlySecondRestored(Call([a, a, a, a, a], env.weather(0)), Call([b, b, b, b, b], env.weather(1)), env);
  }

  lemma TwoWindows(a: Byte, b: Byte, env: Env)
    ensures var r := DrainAll([[[a], [a], [a], [a], [a]], [[b], [b], [b], [b], [b]]], env);
            && r.calls == [Call([a, a, a, a, a], env.weather(0)), Call([b, b, b, b, b], env.weather(1))]
            && r.spool == [a, a, a, a, a, b, b, b, b, b]
  {
    var first, second := [[a], [a], [a], [a], [a]], [[b], [b], [b], [b], [b]];
    var one := Drain(BLANK, first, env);
    FiveChunks(BLANK, a, env);
    FiveChunks(one, b, env);
    DrainedTwice(first, second, env);
    assert [] + [a, a, a, a, a] + [b, b, b, b, b] == [a, a, a, a, a, b, b, b, b, b];
  }

  lemma DrainedTwice(first: seq<Bytes>, second: seq<Bytes>, env: Env)
    ensures DrainAll([first, second], env) == Drain(Drain(BLANK, first, env), second, env)
  {
    assert [first, second][..1] == [first] && [first][..0] == [];
    assert DrainAll([first], env) == Drain(BLANK, first, env);
  }

  lemma OnlySecondRestored(lost: Attempt, kept: Attempt, env: Env)
    requires lost.chunkPut == Lost && kept.data != [] && kept.chunkPut == Returned && kept.manifestPut == Returned
    ensures Restore(env.sha, Run(env.sha, [lost, kept]).store) == Restored(kept.data, false, env.sha(kept.data))
  {
    var calls := [lost, kept];
    assert calls[..1] == [lost] && calls[..1][..0] == [];
    assert Accepted(calls[..1]) == [] by {
      assert !ChunkAccepted(calls[..1][0]);
    }
    assert ChunkAccepted(calls[1]) && Accepted(calls) == Accepted(calls[..1]) + [kept.data];
    assert Accepted(calls) == [kept.data];
    assert Durable(calls) == Some([kept.data]);
    RestoreIsDurable(env.sha, calls);
    assert [kept.data][..0] == [] && [] + kept.data == kept.data;
  }

  /** Fewer than five chunks of one byte stay in the buffer. */
  lemma {:induction false} FewChunks(r: Recorder, x: Byte, n: nat, env: Env)
    requires r.buffer == [] && r.count == 0 && r.pending == [] && n < CHECKPOINT_CHUNKS
    ensures Drain(r, seq(n, _ => [x]), env)
            == r.(spool := r.spool + seq(n, _ => x), buffer := seq(n, _ => x), count := n, pending := seq(n, _ => [x]))
  {
    if n == 0 {
      assert r.spool + [] == r.spool;
    } else {
      FewChunks(r, x, n - 1, env);
      assert Drain(r, seq(n, _ => [x]), env) == Collect(Drain(r, seq(n - 1, _ => [x]), env), [x], env) by {
        assert seq(n, _ => [x])[..n - 1] == seq(n - 1, _ => [x]);
      }
      AnotherChunk(r, x, n);
    }
  }

  lemma AnotherChunk(r: Recorder, x: Byte, n: nat)
    requires 0 < n
    ensures Received(r.(spool := r.spool + seq(n - 1, _ => x), buffer := seq(n - 1, _ => x), count := n - 1,
                        pending := seq(n - 1, _ => [x])), [x])
            == r.(spool := r.spool + seq(n, _ => x), buffer := seq(n, _ => x), count := n, pending := seq(n, _ => [x]))
  {
    assert seq(n, _ => x) == seq(n - 1, _ => x) + [x];
    assert seq(n, _ => [x]) == seq(n - 1, _ => [x]) + [[x]];
    assert r.spool + seq(n, _ => x) == r.spool + seq(n - 1, _ => x) + [x];
  }

  /** Five chunks of one byte fill a window. */
  lemma FiveChunks(r: Recorder, x: Byte, env: Env)
    requires r.buffer == [] && r.count == 0 && r.pending == []
    ensures var u := Drain(r, [[x], [x], [x], [x], [x]], env);
            && u.buffer == [] && u.count == 0 && u.pending == [] && u.sequence == r.sequence + 1
            && u.spool == r.spool + [x, x, x, x, x]
            && u.calls == r.calls + [Call([x, x, x, x, x], env.weather(r.sequence))]
  {
    FewChunks(r, x, 4, env);
    var four := Drain(r, seq(4, _ => [x]), env);
    assert [[x], [x], [x], [x], [x]][..4] == seq(4, _ => [x]);
    assert four.buffer + [x] == [x, x, x, x, x];
    assert four.spool + [x] == r.spool + [x, x, x, x, x];
    assert Drain(r, [[x], [x], [x], [x], [x]], env) == Flush(Received(four, [x]), env);
  }

  /** The recording stop returns, and the recorder it leaves. */
  function Stop(r: Recorder, lastChunks: seq<Bytes>, env: Env): Recorder {
    Flush(Drain(r, lastChunks, env), env)
  }

  /** If no checkpoint failed by the end of stop, a nonempty recording is restored byte for byte from the final
      manifest. */
  lemma StoppedRecordingIsRestored(drains: seq<seq<Bytes>>, lastChunks: seq<Bytes>, env: Env)
    requires var r := Stop(DrainAll(drains, env), lastChunks, env);
             !r.failed && r.spool != []
    ensures var r := Stop(DrainAll(drains, env), lastChunks, env);
            && Restore(env.sha, r.writer.store) == Restored(r.spool, false, env.sha(r.spool))
            && r.spool == DrainAll(drains, env).spool + Concat(lastChunks)
  {
    RecorderConserves(drains, env);
    var before := DrainAll(drains, env);
    DrainConserves(before, lastChunks, env);
    DrainSpools(before, lastChunks, env);
    FlushEmpties(Drain(before, lastChunks, env), env);
    DrainAllInStep(drains, env);
    DrainInStep(before, lastChunks, env);
    FlushInStep(Drain(before, lastChunks, env), env);
    CallsRestore(Stop(before, lastChunks, env), env);
  }

  lemma FlushEmpties(r: Recorder, env: Env)
    requires Conserves(r)
    ensures var f := Flush(r, env);
            Conserves(f) && f.buffer == [] && f.spool == r.spool == Concat(Windows(f.calls))
  {
    FlushConserves(r, env);
    var w := Concat(Windows(Flush(r, env).calls));
    assert w + [] == w;
  }

  // ----- when a checkpoint counts as failed, and how large windows are

  /** Something goes wrong with the call: a put that does not return, or the note on the run. */
  predicate Rough(w: Weather) {
    w.chunkPut != Returned || w.manifestPut != Returned || !w.noted
  }

  /** The flag is set exactly when something went wrong with some call made so far. */
  ghost predicate FlagTells(r: Recorder, env: Env) {
    && r.sequence == |r.calls|
    && (r.failed <==> exists i: nat | i < r.sequence :: Rough(env.weather(i)))
  }

  lemma FlushFlags(r: Recorder, env: Env)
    requires FlagTells(r, env)
    ensures FlagTells(Flush(r, env), env)
  {
    var u := Flush(r, env);
    if r.buffer != [] {
      var w := env.weather(r.sequence);
      assert Rough(w) <==> !Fine(Call(r.buffer, w), w);
    }
  }

  lemma {:induction false} DrainFlags(r: Recorder, chunks: seq<Bytes>, env: Env)
    requires FlagTells(r, env)
    ensures FlagTells(Drain(r, chunks, env), env)
  {
    if chunks != [] {
      var n := |chunks| - 1;
      DrainFlags(r, chunks[..n], env);
      FlushFlags(Received(Drain(r, chunks[..n], env), chunks[n]), env);
    }
  }

  lemma {:induction false} DrainAllFlags(drains: seq<seq<Bytes>>, env: Env)
    ensures FlagTells(DrainAll(drains, env), env)
  {
    if drains != [] {
      DrainAllFlags(drains[..|drains| - 1], env);
      DrainFlags(DrainAll(drains[..|drains| - 1], env), drains[|drains| - 1], env);
    }
  }

  /** The flag tells the truth: at any time, and after stop, it is set exactly when a put of some call made so far
      did not return, or the manifest was not noted. */
  lemma FlagTellsAlways(drains: seq<seq<Bytes>>, lastChunks: seq<Bytes>, env: Env)
    ensures FlagTells(DrainAll(drains, env), env)
    ensures FlagTells(Stop(DrainAll(drains, env), lastChunks, env), env)
  {
    DrainAllFlags(drains, env);
    DrainFlags(DrainAll(drains, env), lastChunks, env);
    FlushFlags(Drain(DrainAll(drains, env), lastChunks, env), env);
  }

  /** When storage never fails, no recording counts as failed, everything but the buffer can be restored at any time,
      and after stop everything can. */
  lemma FairWeatherKeepsAll(drains: seq<seq<Bytes>>, lastChunks: seq<Bytes>, env: Env)
    requires forall i :: !Rough(env.weather(i))
    ensures var r := DrainAll(drains, env);
            var restored := Restore(env.sha, r.writer.store);
            && !r.failed
            && (restored == Missing ==> r.buffer == r.spool)
            && (restored != Missing ==> !restored.partial && restored.data + r.buffer == r.spool)
    ensures var r := Stop(DrainAll(drains, env), lastChunks, env);
            && !r.failed
            && r.spool == DrainAll(drains, env).spool + Concat(lastChunks)
            && (r.spool != [] ==> Restore(env.sha, r.writer.store) == Restored(r.spool, false, env.sha(r.spool)))
  {
    FlagTellsAlways(drains, lastChunks, env);
    KillLosesOnlyTheBuffer(drains, env);
    DrainSpools(DrainAll(drains, env), lastChunks, env);
    if Stop(DrainAll(drains, env), lastChunks, env).spool != [] {
      StoppedRecordingIsRestored(drains, lastChunks, env);
    }
  }

  /** Windows of five: as many as there are fives among the chunks so far, the rest in the buffer. */
  ghost predicate InFives(r: Recorder, chunks: nat) {
    && chunks == CHECKPOINT_CHUNKS * |r.calls| + |r.pending|
    && r.count == |r.pending| < CHECKPOINT_CHUNKS
    && |r.parts| == |r.calls| && forall i | 0 <= i < |r.parts| :: |r.parts[i]| == CHECKPOINT_CHUNKS
  }

  lemma CollectInFives(r: Recorder, data: Bytes, env: Env, chunks: nat)
    requires InFives(r, chunks) && data != []
    ensures InFives(Collect(r, data, env), chunks + 1)
  {
  }

  lemma {:induction false} DrainInFives(r: Recorder, chunks: seq<Bytes>, env: Env, before: nat)
    requires InFives(r, before) && Nonempty(chunks)
    ensures InFives(Drain(r, chunks, env), before + |chunks|)
  {
    if chunks != [] {
      var n := |chunks| - 1;
      assert chunks[n] in chunks && forall c | c in chunks[..n] :: c in chunks;
      DrainInFives(r, chunks[..n], env, before);
      CollectInFives(Drain(r, chunks[..n], env), chunks[n], env, before + n);
    }
  }

  function Total(drains: seq<seq<Bytes>>): nat {
    if drains == [] then 0 else Total(drains[..|drains| - 1]) + |drains[|drains| - 1]|
  }

  /** However nonempty chunks are spread over drains and whatever fails, a window is handed over at every fifth chunk,
      no sooner and no later, made of those five. */
  lemma {:induction false} WindowsOfFive(drains: seq<seq<Bytes>>, env: Env)
    requires forall d | d in drains :: Nonempty(d)
    ensures InFives(DrainAll(drains, env), Total(drains))
  {
    if drains != [] {
      var n := |drains| - 1;
      assert drains[n] in drains && forall d | d in drains[..n] :: d in drains;
      WindowsOfFive(drains[..n], env);
      DrainInFives(DrainAll(drains[..n], env), drains[n], env, Total(drains[..n]));
    }
  }

  // ----- the recorder as the source updates it

  class MeetingRecorder {
    var spool: Bytes
    var buffer: Bytes
    var count: nat
    var sequence: nat
    var checkpointFailed: bool
    const writer: CheckpointWriter
    const weather: nat -> Weather
    ghost var calls: seq<Attempt>
    ghost var parts: seq<seq<Bytes>>
    ghost var pending: seq<Bytes>

    ghost function View(): Recorder
      reads this, writer
    {
      Recorder(spool, buffer, count, sequence, checkpointFailed, writer.View(), calls, parts, pending)
    }

    ghost function Given(): Env {
      Env(writer.sha, weather)
    }

    constructor (writer: CheckpointWriter, weather: nat -> Weather)
      requires writer.View() == FRESH
      ensures View() == BLANK && this.writer == writer && this.weather == weather
    {
      spool, buffer, count, sequence, checkpointFailed := [], [], 0, 0, false;
      calls, parts, pending := [], [], [];
      this.writer, this.weather := writer, weather;
    }

    method FlushCheckpoint()
      modifies this, writer
      ensures View() == Flush(old(View()), Given())
    {
      if buffer == [] {
        return;
      }
      var data, how := buffer, weather(sequence);
      buffer, count := [], 0;
      var ok := writer.AppendWindow(Call(data, how));
      if !ok || !how.noted {
        checkpointFailed := true;
      }
      sequence := sequence + 1;
      calls, parts, pending := calls + [Call(data, how)], parts + [pending], [];
    }

    method DrainPage(chunks: Option<seq<Bytes>>)
      modifies this, writer
      ensures View() == Drain(old(View()), if chunks.Some? then chunks.value else [], Given())
    {
      if chunks.None? {
        return;
      }
      for i := 0 to |chunks.value|
        invariant View() == Drain(old(View()), chunks.value[..i], Given())
      {
        assert chunks.value[..i + 1][..i] == chunks.value[..i];
        CollectChunk(chunks.value[i]);
      }
      assert chunks.value[..|chunks.value|] == chunks.value;
    }

    method CollectChunk(data: Bytes)
      modifies this, writer
      ensures View() == Collect(old(View()), data, Given())
    {
      spool := spool + data;
      buffer := buffer + data;
      count := count + 1;
      pending := if data == [] then pending else pending + [data];
      if count >= CHECKPOINT_CHUNKS {
        FlushCheckpoint();
      }
    }

    method StopRecording(lastChunks: Option<seq<Bytes>>) returns (recording: Bytes)
      modifies this, writer
      ensures View() == Stop(old(View()), if lastChunks.Some? then lastChunks.value else [], Given())
      ensures recording == spool
    {
      DrainPage(lastChunks);
      FlushCheckpoint();
      recording := spool;
    }
  }
}

/** Checkpointed recording: src/twin/storage/checkpoints.py. A blob put may store its object and return, raise
    without storing, or store and then raise; the process may die after any put, which is a run that stops. */
module Checkpoints {
  import opened Common

  type Byte = bv8
  type Bytes = seq<Byte>
  type Digest = string

  datatype ChunkRef = ChunkRef(sequence: nat, size: nat, sha256: Digest)

  /** The objects under one run's checkpoint prefix: chunks by number, and the manifest. */
  datatype Store = Store(chunks: map<nat, Bytes>, manifest: Option<seq<ChunkRef>>)

  datatype PutOutcome = Returned | Lost | StoredThenRaised

  datatype Writer = Writer(store: Store, chunks: seq<ChunkRef>, published: bool)

  /** One call of append and how its two puts go. */
  datatype Attempt = Attempt(data: Bytes, chunkPut: PutOutcome, manifestPut: PutOutcome)

  const FRESH := Writer(Store(map[], None), [], false)

  function Concat(windows: seq<Bytes>): Bytes {
    if windows == [] then [] else Concat(windows[..|windows| - 1]) + windows[|windows| - 1]
  }

  function PutChunk(s: Store, n: nat, data: Bytes, o: PutOutcome): Store {
    if o == Lost then s else s.(chunks := s.chunks[n := data])
  }

  function PutManifest(s: Store, refs: seq<ChunkRef>, o: PutOutcome): Store {
    if o == Lost then s else s.(manifest := Some(refs))
  }

  function Append(sha: Bytes -> Digest, w: Writer, a: Attempt): Writer {
    if a.data == [] then w
    else
      var n := |w.chunks|;
      var stored := PutChunk(w.store, n, a.data, a.chunkPut);
      if a.chunkPut != Returned then w.(store := stored)
      else
        var chunks := w.chunks + [ChunkRef(n, |a.data|, sha(a.data))];
        Writer(PutManifest(stored, chunks, a.manifestPut), chunks, w.published || a.manifestPut == Returned)
  }

  /** Whether append returned instead of raising. */
  predicate Succeeds(a: Attempt) {
    a.data == [] || (a.chunkPut == Returned && a.manifestPut == Returned)
  }

  function Run(sha: Bytes -> Digest, attempts: seq<Attempt>): Writer {
    if attempts == [] then FRESH else Append(sha, Run(sha, attempts[..|attempts| - 1]), attempts[|attempts| - 1])
  }

  lemma RunThen(sha: Bytes -> Digest, attempts: seq<Attempt>, a: Attempt)
    ensures Run(sha, attempts + [a]) == Append(sha, Run(sha, attempts), a)
  {
    assert (attempts + [a])[..|attempts|] == attempts;
  }

  // ----- what a run leaves behind, from its attempts alone

  predicate ChunkAccepted(a: Attempt) {
    a.data != [] && a.chunkPut == Returned
  }

  /** The windows whose chunk put returned, in order. */
  function Accepted(attempts: seq<Attempt>): seq<Bytes> {
    if attempts == [] then []
    else
      var n := |attempts| - 1;
      Accepted(attempts[..n]) + if ChunkAccepted(attempts[n]) then [attempts[n].data] else []
  }

  /** Those of them accepted by the time the manifest was last stored, if it ever was. */
  function Durable(attempts: seq<Attempt>): Option<seq<Bytes>> {
    if attempts == [] then None
    else
      var n := |attempts| - 1;
      if ChunkAccepted(attempts[n]) && attempts[n].manifestPut != Lost then Some(Accepted(attempts))
      else Durable(attempts[..n])
  }

  /** How many attempts there had been when the manifest was last stored, none when it never was. */
  function DurableUntil(attempts: seq<Attempt>): (n: nat)
    ensures n <= |attempts|
    ensures 0 < n ==> ChunkAccepted(attempts[n - 1])
  {
    if attempts == [] then 0
    else
      var n := |attempts| - 1;
      if ChunkAccepted(attempts[n]) && attempts[n].manifestPut != Lost then |attempts| else DurableUntil(attempts[..n])
  }

  /** The places of the attempts whose chunk put returned. */
  function AcceptedAt(attempts: seq<Attempt>): seq<nat> {
    if attempts == [] then []
    else
      var n := |attempts| - 1;
      AcceptedAt(attempts[..n]) + if ChunkAccepted(attempts[n]) then [n] else []
  }

  /** The windows at the given places. */
  function DataAt(attempts: seq<Attempt>, places: seq<nat>): seq<Bytes> {
    if places == [] then []
    else
      var place := places[|places| - 1];
      DataAt(attempts, places[..|places| - 1]) + if place < |attempts| then [attempts[place].data] else []
  }

  lemma {:induction false} AcceptedPlaces(attempts: seq<Attempt>)
    ensures forall p: nat :: p in AcceptedAt(attempts) <==> p < |attempts| && ChunkAccepted(attempts[p])
    ensures forall i, j | 0 <= i < j < |AcceptedAt(attempts)| :: AcceptedAt(attempts)[i] < AcceptedAt(attempts)[j]
  {
    if attempts != [] {
      var n := |attempts| - 1;
      AcceptedPlaces(attempts[..n]);
      var places := AcceptedAt(attempts[..n]);
      assert forall i | 0 <= i < |places| :: places[i] in places;
      assert AcceptedAt(attempts) == places + if ChunkAccepted(attempts[n]) then [n] else [];
    }
  }

  lemma {:induction false} DataAtStable(attempts: seq<Attempt>, more: seq<Attempt>, places: seq<nat>)
    requires attempts <= more && forall p | p in places :: p < |attempts|
    ensures DataAt(attempts, places) == DataAt(more, places)
  {
    if places != [] {
      var n := |places| - 1;
      assert forall p | p in places[..n] :: p in places;
      assert places[n] in places;
      DataAtStable(attempts, more, places[..n]);
    }
  }

  lemma DataAtAppend(attempts: seq<Attempt>, places: seq<nat>, place: nat)
    requires place < |attempts|
    ensures DataAt(attempts, places + [place]) == DataAt(attempts, places) + [attempts[place].data]
  {
    assert (places + [place])[..|places|] == places;
  }

  lemma {:induction false} AcceptedAtTells(attempts: seq<Attempt>)
    ensures Accepted(attempts) == DataAt(attempts, AcceptedAt(attempts))
  {
    if attempts != [] {
      var n := |attempts| - 1;
      AcceptedPlaces(attempts[..n]);
      var places := AcceptedAt(attempts[..n]);
      AcceptedAtTells(attempts[..n]);
      DataAtStable(attempts[..n], attempts, places);
      if ChunkAccepted(attempts[n]) {
        DataAtAppend(attempts, places, n);
      } else {
        assert AcceptedAt(attempts) == places;
      }
    }
  }

  lemma {:induction false} DurableUntilTells(attempts: seq<Attempt>)
    ensures Durable(attempts)
            == if DurableUntil(attempts) == 0 then None else Some(Accepted(attempts[..DurableUntil(attempts)]))
  {
    if attempts != [] {
      var n := |attempts| - 1;
      DurableUntilTells(attempts[..n]);
      if ChunkAccepted(attempts[n]) && attempts[n].manifestPut != Lost {
        assert attempts[..|attempts|] == attempts;
      } else {
        assert attempts[..n][..DurableUntil(attempts[..n])] == attempts[..DurableUntil(attempts)];
      }
    }
  }

  // ----- restoring

  datatype Restored = Restored(data: Bytes, partial: bool, sha256: Digest) | Missing

  /** Reads the named chunks in order until one does not match its checksum; a chunk that is not there raises. */
  function RestoreFrom(sha: Bytes -> Digest, chunks: map<nat, Bytes>, refs: seq<ChunkRef>, prefix: Bytes): Restored {
    if refs == [] then Restored(prefix, false, sha(prefix))
    else if refs[0].sequence !in chunks then Missing
    else if sha(chunks[refs[0].sequence]) != refs[0].sha256 then Restored(prefix, true, sha(prefix))
    else RestoreFrom(sha, chunks, refs[1..], prefix + chunks[refs[0].sequence])
  }

  function Restore(sha: Bytes -> Digest, s: Store): Restored {
    if s.manifest.None? then Missing else RestoreFrom(sha, s.chunks, s.manifest.value, [])
  }

  // ----- what every run keeps

  ghost predicate Refers(sha: Bytes -> Digest, refs: seq<ChunkRef>, windows: seq<Bytes>) {
    && |refs| == |windows|
    && forall i | 0 <= i < |refs| :: refs[i] == ChunkRef(i, |windows[i]|, sha(windows[i]))
  }

  ghost predicate Holds(chunks: map<nat, Bytes>, windows: seq<Bytes>) {
    forall i | 0 <= i < |windows| :: i in chunks && chunks[i] == windows[i]
  }

  lemma {:induction false} DurableIsAccepted(attempts: seq<Attempt>)
    ensures Durable(attempts).Some? ==> Durable(attempts).value <= Accepted(attempts)
  {
    if attempts != [] {
      DurableIsAccepted(attempts[..|attempts| - 1]);
    }
  }

  /** The writer remembers exactly the accepted windows, storage holds them, and the stored manifest names
      exactly the durable ones. */
  lemma {:induction false} WriterKeepsBooks(sha: Bytes -> Digest, attempts: seq<Attempt>)
    ensures var w := Run(sha, attempts);
            && Refers(sha, w.chunks, Accepted(attempts))
            && Holds(w.store.chunks, Accepted(attempts))
            && (w.store.manifest.Some? <==> Durable(attempts).Some?)
            && (w.store.manifest.Some? ==> Refers(sha, w.store.manifest.value, Durable(attempts).value))
            && (w.published ==> w.store.manifest.Some?)
  {
    if attempts != [] {
      WriterKeepsBooks(sha, attempts[..|attempts| - 1]);
    }
  }

  lemma {:induction false} ConcatFront(window: Bytes, windows: seq<Bytes>)
    ensures Concat([window] + windows) == window + Concat(windows)
  {
    if windows == [] {
      assert [window] + [] == [window] && [window][..0] == [];
    } else {
      var n := |windows| - 1;
      ConcatFront(window, windows[..n]);
      assert ([window] + windows)[..n + 1] == [window] + windows[..n];
      assert window + Concat(windows[..n]) + windows[n] == window + (Concat(windows[..n]) + windows[n]);
    }
  }

  lemma ConcatNext(prefix: Bytes, windows: seq<Bytes>, from: nat, to: nat)
    requires from < to <= |windows|
    ensures prefix + windows[from] + Concat(windows[from + 1..to]) == prefix + Concat(windows[from..to])
  {
    assert windows[from..to] == [windows[from]] + windows[from + 1..to];
    ConcatFront(windows[from], windows[from + 1..to]);
  }

  /** The first window that storage no longer holds as it was written. */
  function Intact(chunks: map<nat, Bytes>, windows: seq<Bytes>, from: nat): (m: nat)
    requires from <= |windows|
    ensures from <= m <= |windows|
    ensures forall i | from <= i < m :: i in chunks && chunks[i] == windows[i]
    ensures m < |windows| ==> m !in chunks || chunks[m] != windows[m]
    decreases |windows| - from
  {
    if from < |windows| && from in chunks && chunks[from] == windows[from] then Intact(chunks, windows, from + 1)
    else from
  }

  ghost predicate CollisionFree(sha: Bytes -> Digest) {
    forall a, b :: sha(a) == sha(b) ==> a == b
  }

  lemma {:induction false} RestoreFromIntact(
    sha: Bytes -> Digest, chunks: map<nat, Bytes>, refs: seq<ChunkRef>, windows: seq<Bytes>, from: nat, prefix: Bytes)
    requires CollisionFree(sha) && Refers(sha, refs, windows) && from <= |windows|
    ensures var m := Intact(chunks, windows, from);
            var data := prefix + Concat(windows[from..m]);
            RestoreFrom(sha, chunks, refs[from..], prefix)
            == if m < |windows| && m !in chunks then Missing else Restored(data, m < |windows|, sha(data))
    decreases |windows| - from
  {
    var m := Intact(chunks, windows, from);
    if from < m {
      RestoreFromIntact(sha, chunks, refs, windows, from + 1, prefix + windows[from]);
      assert refs[from..][1..] == refs[from + 1..];
      ConcatNext(prefix, windows, from, m);
    } else {
      assert windows[from..m] == [];
      assert prefix + [] == prefix;
    }
  }

  /** Longest valid prefix: however the stored chunks are damaged after a run, restoring yields exactly the
      durable windows before the first damaged one, marked partial iff there is one, and raises when that one
      is gone altogether. */
  lemma RestoreIsLongestPrefix(sha: Bytes -> Digest, attempts: seq<Attempt>, damaged: map<nat, Bytes>)
    requires CollisionFree(sha) && Durable(attempts).Some?
    ensures var windows := Durable(attempts).value;
            var m := Intact(damaged, windows, 0);
            Restore(sha, Run(sha, attempts).store.(chunks := damaged))
            == if m < |windows| && m !in damaged then Missing
               else Restored(Concat(windows[..m]), m < |windows|, sha(Concat(windows[..m])))
  {
    WriterKeepsBooks(sha, attempts);
    var refs, windows := Run(sha, attempts).store.manifest.value, Durable(attempts).value;
    RestoreFromIntact(sha, damaged, refs, windows, 0, []);
    var m := Intact(damaged, windows, 0);
    assert refs[0..] == refs;
    assert windows[0..m] == windows[..m];
    assert [] + Concat(windows[..m]) == Concat(windows[..m]);
    assert Run(sha, attempts).store.(chunks := damaged).manifest == Some(refs);
  }

  lemma {:induction false} RestoreFromAll(
    sha: Bytes -> Digest, chunks: map<nat, Bytes>, refs: seq<ChunkRef>, windows: seq<Bytes>, from: nat, prefix: Bytes)
    requires Refers(sha, refs, windows) && Holds(chunks, windows) && from <= |windows|
    ensures var data := prefix + Concat(windows[from..|windows|]);
            RestoreFrom(sha, chunks, refs[from..], prefix) == Restored(data, false, sha(data))
    decreases |windows| - from
  {
    if from < |windows| {
      RestoreFromAll(sha, chunks, refs, windows, from + 1, prefix + windows[from]);
      assert refs[from..][1..] == refs[from + 1..];
      ConcatNext(prefix, windows, from, |windows|);
    } else {
      assert prefix + [] == prefix;
    }
  }

  /** Crash consistency: at every point of every run, whatever puts failed before, restoring yields exactly the
      windows accepted by the time the manifest was last stored, whole and in order. */
  lemma RestoreIsDurable(sha: Bytes -> Digest, attempts: seq<Attempt>)
    ensures Restore(sha, Run(sha, attempts).store)
            == match Durable(attempts)
               case None => Missing
               case Some(windows) => Restored(Concat(windows), false, sha(Concat(windows)))
  {
    WriterKeepsBooks(sha, attempts);
    if Durable(attempts).Some? {
      DurableIsAccepted(attempts);
      var refs, windows := Run(sha, attempts).store.manifest.value, Durable(attempts).value;
      assert forall i | 0 <= i < |windows| :: windows[i] == Accepted(attempts)[i];
      RestoreFromAll(sha, Run(sha, attempts).store.chunks, refs, windows, 0, []);
      assert refs[0..] == refs && windows[0..|windows|] == windows && [] + Concat(windows) == Concat(windows);
    }
  }

  /** The writer can tell a manifest's place exactly when some append with data went through. */
  lemma {:induction false} PublishedExactly(sha: Bytes -> Digest, attempts: seq<Attempt>)
    ensures Run(sha, attempts).published
            <==> exists i | 0 <= i < |attempts| ::
                   attempts[i].data != [] && attempts[i].chunkPut == Returned && attempts[i].manifestPut == Returned
  {
    if attempts != [] {
      var n := |attempts| - 1;
      PublishedExactly(sha, attempts[..n]);
      assert forall i | 0 <= i < n :: attempts[..n][i] == attempts[i];
    }
  }

  /** No later append, failed or not, changes a chunk the stored manifest names. */
  lemma NamedChunksStay(sha: Bytes -> Digest, attempts: seq<Attempt>, later: seq<Attempt>, i: nat)
    requires Durable(attempts).Some? && i < |Durable(attempts).value|
    ensures i in Run(sha, attempts).store.chunks && i in Run(sha, attempts + later).store.chunks
    ensures Run(sha, attempts + later).store.chunks[i] == Run(sha, attempts).store.chunks[i]
  {
    WriterKeepsBooks(sha, attempts);
    DurableIsAccepted(attempts);
    AcceptedGrows(attempts, later);
    WriterKeepsBooks(sha, attempts + later);
  }

  lemma {:induction false} AcceptedGrows(attempts: seq<Attempt>, later: seq<Attempt>)
    ensures Accepted(attempts) <= Accepted(attempts + later)
  {
    if later == [] {
      assert attempts + later == attempts;
    } else {
      var n := |later| - 1;
      AcceptedGrows(attempts, later[..n]);
      assert (attempts + later)[..|attempts| + n] == attempts + later[..n];
    }
  }

  // ----- the objects as the source updates them

  class CheckpointWriter {
    var store: Store
    var chunks: seq<ChunkRef>
    var published: bool
    const sha: Bytes -> Digest

    ghost function View(): Writer
      reads this
    {
      Writer(store, chunks, published)
    }

    constructor (sha: Bytes -> Digest)
      ensures View() == FRESH && this.sha == sha
    {
      store, chunks, published := Store(map[], None), [], false;
      this.sha := sha;
    }

    /** False stands for the exception of the put that raised. */
    method AppendWindow(a: Attempt) returns (ok: bool)
      modifies this
      ensures View() == Append(sha, old(View()), a)
      ensures ok <==> a.data == [] || (a.chunkPut == Returned && a.manifestPut == Returned)
    {
      if a.data == [] {
        return true;
      }
      var sequence := |chunks|;
      store := PutChunk(store, sequence, a.data, a.chunkPut);
      if a.chunkPut != Returned {
        return false;
      }
      chunks := chunks + [ChunkRef(sequence, |a.data|, sha(a.data))];
      store := PutManifest(store, chunks, a.manifestPut);
      if a.manifestPut != Returned {
        return false;
      }
      published := true;
      return true;
    }

    method RestorePrefix() returns (r: Restored)
      ensures r == Restore(sha, store)
    {
      if store.manifest.None? {
        return Missing;
      }
      var refs := store.manifest.value;
      var prefix: Bytes := [];
      var complete := true;
      var i := 0;
      while i < |refs|
        invariant 0 <= i <= |refs| && complete
        invariant Restore(sha, store) == RestoreFrom(sha, store.chunks, refs[i..], prefix)
      {
        if refs[i].sequence !in store.chunks {
          return Missing;
        }
        var data := store.chunks[refs[i].sequence];
        if sha(data) != refs[i].sha256 {
          complete := false;
          break;
        }
        assert refs[i..][1..] == refs[i + 1..];
        prefix := prefix + data;
        i := i + 1;
      }
      return Restored(prefix, !complete, sha(prefix));
    }
  }
}

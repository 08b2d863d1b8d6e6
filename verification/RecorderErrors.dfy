/** When stop and export of the recorder fail, and when they should have. */
module RecorderErrors {
  import opened Numbers
  import opened Text
  import opened Tlog
  import opened Recorder
  import opened RecorderRuns

  /** The n-th step of the run is a chunk write that fails. */
  predicate FailsAt(run: seq<Label>, chunkBytes: int, n: nat) {
    && n < |run| && run[n].Writes? && !run[n].ok
    && Ready(After(run[..n], chunkBytes).queued, run[n].i)
  }

  /** The n-th step starts a recording. */
  predicate StartsAt(run: seq<Label>, chunkBytes: int, n: nat) {
    && n < |run| && run[n].Starts?
    && var r := After(run[..n], chunkBytes).rec; !r.disposed && !r.recording
  }

  /** The n-th step fails to write the chunk with this key. */
  predicate FailsKeyAt(run: seq<Label>, chunkBytes: int, n: nat, key: ChunkKey) {
    FailsAt(run, chunkBytes, n) && After(run[..n], chunkBytes).queued[run[n].i].key == key
  }

  ghost predicate WriteFailed(run: seq<Label>, chunkBytes: int, key: ChunkKey) {
    exists n :: 0 <= n < |run| && FailsKeyAt(run, chunkBytes, n, key)
  }

  ghost predicate StartedAfter(run: seq<Label>, chunkBytes: int, n: nat) {
    exists m :: n < m < |run| && StartsAt(run, chunkBytes, m)
  }

  /** Some write has failed since the last start. */
  ghost predicate FreshFailure(run: seq<Label>, chunkBytes: int) {
    exists n :: 0 <= n < |run| && FailsAt(run, chunkBytes, n) && !StartedAfter(run, chunkBytes, n)
  }

  /** Earlier steps are those of the shorter run. */
  lemma EarlierSteps(run: seq<Label>, chunkBytes: int, n: nat)
    requires n + 1 < |run|
    ensures var front := run[..|run| - 1];
            && FailsAt(run, chunkBytes, n) == FailsAt(front, chunkBytes, n)
            && StartsAt(run, chunkBytes, n) == StartsAt(front, chunkBytes, n)
            && forall key :: FailsKeyAt(run, chunkBytes, n, key) == FailsKeyAt(front, chunkBytes, n, key)
  {
    hide Ready, After;
    assert run[..|run| - 1][..n] == run[..n];
  }

  // -------------------------------------------------------------------- disposal

  lemma DisposedStep(s: System, l: Label, chunkBytes: int)
    requires s.rec.disposed ==> !s.rec.recording
    ensures var t := Next(s, l, chunkBytes);
            && (t.rec.disposed ==> !t.rec.recording)
            && (t.rec.disposed <==> s.rec.disposed || l.Disposes?)
            && (s.rec.disposed ==> t.received == s.received && t.chunks == s.chunks && t.given == s.given)
  {
    hide Ready, Concat, Entry, Resume;
  }

  /** Once disposed a recorder never records again: whatever happens, it starts no
      recording, takes no frame and hands over no chunk. */
  lemma {:induction false} DisposedIsOver(run: seq<Label>, more: seq<Label>, chunkBytes: int)
    requires After(run, chunkBytes).rec.disposed
    ensures var s, t := After(run, chunkBytes), After(run + more, chunkBytes);
            && t.rec.disposed && !t.rec.recording
            && t.received == s.received && t.chunks == s.chunks && t.given == s.given
    decreases |more|
  {
    hide After, Next;
    if more == [] {
      assert run + more == run;
      DisposedIsIdle(run, chunkBytes);
    } else {
      var front, all := more[..|more| - 1], run + more;
      DisposedIsOver(run, front, chunkBytes);
      assert all[..|all| - 1] == run + front;
      LastLabel(all, chunkBytes);
      DisposedStep(After(run + front, chunkBytes), all[|all| - 1], chunkBytes);
    }
  }

  lemma LastLabel(run: seq<Label>, chunkBytes: int)
    requires run != []
    ensures After(run, chunkBytes) == Next(After(run[..|run| - 1], chunkBytes), run[|run| - 1], chunkBytes)
  {
    hide Next;
  }

  lemma {:induction false} DisposedIsIdle(run: seq<Label>, chunkBytes: int)
    ensures After(run, chunkBytes).rec.disposed ==> !After(run, chunkBytes).rec.recording
  {
    hide Next;
    if run != [] {
      DisposedIsIdle(run[..|run| - 1], chunkBytes);
      DisposedStep(After(run[..|run| - 1], chunkBytes), run[|run| - 1], chunkBytes);
    }
  }

  // -------------------------------------------------------------------- the flag

  lemma ErrorStep(s: System, l: Label, chunkBytes: int)
    ensures Next(s, l, chunkBytes).rec.flushError
            == if l.Writes? && !l.ok && Ready(s.queued, l.i) then true
               else if l.Starts? && !s.rec.disposed && !s.rec.recording then false
               else s.rec.flushError
  {
    hide Ready, Concat, Entry, Resume;
  }

  /** The error flag is up exactly when a write has failed since the last start,
      whichever recording the write belonged to. */
  lemma {:induction false} ErrorIsFreshFailure(run: seq<Label>, chunkBytes: int)
    ensures After(run, chunkBytes).rec.flushError <==> FreshFailure(run, chunkBytes)
  {
    hide Next, FailsAt, StartsAt;
    if run != [] {
      var front, last := run[..|run| - 1], |run| - 1;
      ErrorIsFreshFailure(front, chunkBytes);
      ErrorStep(After(front, chunkBytes), run[last], chunkBytes);
      LastStep(run, chunkBytes);
      FreshStep(run, chunkBytes);
    }
  }

  lemma LastStep(run: seq<Label>, chunkBytes: int)
    requires run != []
    ensures var last, s := |run| - 1, After(run[..|run| - 1], chunkBytes);
            && FailsAt(run, chunkBytes, last) == (run[last].Writes? && !run[last].ok && Ready(s.queued, run[last].i))
            && StartsAt(run, chunkBytes, last) == (run[last].Starts? && !s.rec.disposed && !s.rec.recording)
  {
    hide Ready, After;
  }

  lemma FreshStep(run: seq<Label>, chunkBytes: int)
    requires run != []
    ensures var last := |run| - 1;
            FreshFailure(run, chunkBytes)
            <==> FailsAt(run, chunkBytes, last)
                 || (!StartsAt(run, chunkBytes, last) && FreshFailure(run[..last], chunkBytes))
  {
    hide FailsAt, StartsAt, After;
    var last, front := |run| - 1, run[..|run| - 1];
    forall n | 0 <= n < last
      ensures FailsAt(run, chunkBytes, n) == FailsAt(front, chunkBytes, n)
      ensures StartsAt(run, chunkBytes, n) == StartsAt(front, chunkBytes, n)
    {
      EarlierSteps(run, chunkBytes, n);
    }
    if FreshFailure(run, chunkBytes) && !FailsAt(run, chunkBytes, last) {
      var n :| 0 <= n < |run| && FailsAt(run, chunkBytes, n) && !StartedAfter(run, chunkBytes, n);
      assert n < last && FailsAt(front, chunkBytes, n);
      assert forall m :: n < m < last && StartsAt(front, chunkBytes, m) ==> StartsAt(run, chunkBytes, m);
      assert !StartedAfter(front, chunkBytes, n);
    }
    if FailsAt(run, chunkBytes, last) { assert !StartedAfter(run, chunkBytes, last); }
    if !StartsAt(run, chunkBytes, last) && FreshFailure(front, chunkBytes) {
      var n :| 0 <= n < |front| && FailsAt(front, chunkBytes, n) && !StartedAfter(front, chunkBytes, n);
      assert FailsAt(run, chunkBytes, n);
      assert forall m :: n < m < last && StartsAt(run, chunkBytes, m) ==> StartsAt(front, chunkBytes, m);
      assert !StartedAfter(run, chunkBytes, n);
    }
  }

  // ------------------------------------------------------------------ lost chunks

  predicate Queued(s: System, key: ChunkKey) {
    exists j :: 0 <= j < |s.queued| && s.queued[j].key == key
  }

  /** A chunk handed over that is neither stored nor still to be written. */
  predicate Lost(s: System, key: ChunkKey) {
    key in s.given && key !in s.blobs && !Queued(s, key)
  }

  lemma HandLoses(s: System, t: System, key: ChunkKey)
    requires Keyed(s) && Once(s) && Handing(s, t)
    ensures Lost(t, key) <==> Lost(s, key)
  {
    if t.queued != s.queued {
      assert Handed(s, t);
      var last := |s.queued|;
      assert t.queued[last].key !in s.given;
      assert forall j :: 0 <= j < last ==> t.queued[j] == s.queued[j];
      if Queued(s, key) {
        var j :| 0 <= j < |s.queued| && s.queued[j].key == key;
        assert t.queued[j].key == key;
      }
    }
  }

  lemma WriteLoses(s: System, i: nat, ok: bool, key: ChunkKey)
    requires i < |s.queued| && Once(s)
    ensures Lost(Write(s, i, ok), key) <==> Lost(s, key) || (!ok && s.queued[i].key == key)
  {
    var t, job := Write(s, i, ok), s.queued[i];
    assert forall j :: 0 <= j < |t.queued| ==> t.queued[j] == s.queued[if j < i then j else j + 1];
    if key == job.key {
      assert Queued(s, key) && !Queued(t, key);
    } else if Queued(s, key) {
      var j :| 0 <= j < |s.queued| && s.queued[j].key == key;
      assert t.queued[if j < i then j else j - 1] == s.queued[j];
      assert Queued(t, key);
    }
  }

  lemma SameLoses(s: System, t: System, key: ChunkKey)
    requires t.given == s.given && t.blobs == s.blobs && t.queued == s.queued
    ensures Lost(t, key) <==> Lost(s, key)
  {
  }

  lemma LossStep(s: System, l: Label, chunkBytes: int, key: ChunkKey)
    requires Keyed(s) && Once(s)
    ensures Lost(Next(s, l, chunkBytes), key)
            <==> Lost(s, key) || (l.Writes? && !l.ok && Ready(s.queued, l.i) && s.queued[l.i].key == key)
  {
    hide Lost, Ready, Keyed, Once, Resume, Handing, Write, Hand, OnFrame, Stop, Dispose;
    var t := Next(s, l, chunkBytes);
    match l
    case Frame(f) =>
      EffectHands(s, f, chunkBytes);
      HandLoses(s, Hand(s, OnFrame(s.rec, f, chunkBytes)), key);
      SameLoses(Hand(s, OnFrame(s.rec, f, chunkBytes)), t, key);
    case Stops =>
      EffectHands(s, RawFrame(NaN, []), chunkBytes);
      HandLoses(s, Hand(s, Stop(s.rec)), key);
      if s.rec.recording { SameLoses(Hand(s, Stop(s.rec)), t, key); }
    case Disposes =>
      EffectHands(s, RawFrame(NaN, []), chunkBytes);
      HandLoses(s, t, key);
    case Writes(i, ok) =>
      ReadyIndex(s.queued, i);
      if Ready(s.queued, i) { WriteLoses(s, i, ok, key); }
    case _ => SameLoses(s, t, key);
  }

  lemma ReadyIndex(queued: seq<Job>, i: nat)
    ensures Ready(queued, i) ==> i < |queued|
  {
  }

  /** The chunks that are lost are exactly those whose write has failed. */
  lemma {:induction false} LostIsFailed(run: seq<Label>, chunkBytes: int, key: ChunkKey)
    requires Run(run, chunkBytes)
    ensures Lost(After(run, chunkBytes), key) <==> WriteFailed(run, chunkBytes, key)
  {
    hide Next, FailsKeyAt, Lost, Ready;
    if run == [] {
      NothingLost(key, chunkBytes);
    } else {
      var front, last := run[..|run| - 1], |run| - 1;
      LostIsFailed(front, chunkBytes, key);
      Always(front, chunkBytes);
      LossStep(After(front, chunkBytes), run[last], chunkBytes, key);
      hide After;
      LastFailure(run, chunkBytes, key);
      forall n | 0 <= n < last ensures FailsKeyAt(run, chunkBytes, n, key) == FailsKeyAt(front, chunkBytes, n, key) {
        EarlierSteps(run, chunkBytes, n);
      }
      FailedStep(run, chunkBytes, key);
    }
  }

  lemma FailedStep(run: seq<Label>, chunkBytes: int, key: ChunkKey)
    requires run != []
    requires forall n :: 0 <= n < |run| - 1 ==>
               FailsKeyAt(run, chunkBytes, n, key) == FailsKeyAt(run[..|run| - 1], chunkBytes, n, key)
    ensures WriteFailed(run, chunkBytes, key)
            <==> WriteFailed(run[..|run| - 1], chunkBytes, key) || FailsKeyAt(run, chunkBytes, |run| - 1, key)
  {
    hide FailsKeyAt;
    if WriteFailed(run[..|run| - 1], chunkBytes, key) {
      var n :| 0 <= n < |run| - 1 && FailsKeyAt(run[..|run| - 1], chunkBytes, n, key);
      assert FailsKeyAt(run, chunkBytes, n, key);
    }
  }

  lemma NothingLost(key: ChunkKey, chunkBytes: int)
    ensures !Lost(After([], chunkBytes), key)
  {
  }

  lemma LastFailure(run: seq<Label>, chunkBytes: int, key: ChunkKey)
    requires run != []
    ensures var l, s := run[|run| - 1], After(run[..|run| - 1], chunkBytes);
            FailsKeyAt(run, chunkBytes, |run| - 1, key)
            <==> l.Writes? && !l.ok && Ready(s.queued, l.i) && s.queued[l.i].key == key
  {
    hide After;
  }

  // ---------------------------------------------------------------- main results

  ghost predicate AnyFailed(run: seq<Label>, chunkBytes: int, keys: seq<ChunkKey>) {
    exists i :: 0 <= i < |keys| && WriteFailed(run, chunkBytes, keys[i])
  }

  predicate AllStored(s: System, keys: seq<ChunkKey>) {
    forall i :: 0 <= i < |keys| ==> keys[i] in s.blobs
  }

  /** Past its wait, a call's chunks are stored unless their write failed. */
  lemma StoredUnlessFailed(run: seq<Label>, chunkBytes: int, k: nat)
    requires Run(run, chunkBytes) && k < |After(run, chunkBytes).calls|
    ensures var s := After(run, chunkBytes);
            var c := s.calls[k];
            !Blocked(s, c) ==>
              && (forall i :: 0 <= i < |c.keys| ==>
                                (c.keys[i] in s.blobs <==> !WriteFailed(run, chunkBytes, c.keys[i])))
              && (AllStored(s, c.keys) <==> !AnyFailed(run, chunkBytes, c.keys))
  {
    Always(run, chunkBytes);
    var s := After(run, chunkBytes);
    var c := s.calls[k];
    hide Counted, Keyed, Once, Chained, After, Run, WriteFailed;
    assert CallSound(s, c);
    hide Concat, Encoded;
    if !Blocked(s, c) {
      forall i | 0 <= i < |c.keys| ensures c.keys[i] in s.blobs <==> !WriteFailed(run, chunkBytes, c.keys[i]) {
        LostIsFailed(run, chunkBytes, c.keys[i]);
        assert c.keys[i] in c.keys;
      }
    }
  }

  /** Queued chunks of this recording are on this chain. */
  ghost predicate Owned(s: System) {
    forall j :: 0 <= j < |s.queued| && s.queued[j].chain != s.rec.chain ==> s.rec.id != Some(s.queued[j].key.id)
  }

  lemma HandOwns(s: System, t: System)
    requires Owned(s) && Handing(s, t)
    ensures Owned(t)
  {
    if t.queued != s.queued {
      assert forall j :: 0 <= j < |s.queued| ==> t.queued[j] == s.queued[j];
    }
  }

  lemma WriteOwns(s: System, i: nat, ok: bool)
    requires Owned(s) && i < |s.queued|
    ensures Owned(Write(s, i, ok))
  {
    var t := Write(s, i, ok);
    assert forall j :: 0 <= j < |t.queued| ==> t.queued[j] == s.queued[if j < i then j else j + 1];
  }

  lemma OwnedStep(s: System, l: Label, chunkBytes: int)
    requires Once(s) && Enabled(s, l) && Owned(s)
    ensures Owned(Next(s, l, chunkBytes))
  {
    hide Ready, Resume, Handing, Write, Hand, OnFrame, Stop, Dispose;
    match l
    case Frame(f) =>
      EffectHands(s, f, chunkBytes);
      HandOwns(s, Hand(s, OnFrame(s.rec, f, chunkBytes)));
    case Stops =>
      EffectHands(s, RawFrame(NaN, []), chunkBytes);
      HandOwns(s, Hand(s, Stop(s.rec)));
    case Disposes =>
      EffectHands(s, RawFrame(NaN, []), chunkBytes);
      HandOwns(s, Hand(s, Dispose(s.rec)));
    case Writes(i, ok) =>
      ReadyIndex(s.queued, i);
      if Ready(s.queued, i) { WriteOwns(s, i, ok); }
    case _ =>
  }

  lemma {:induction false} AlwaysOwned(run: seq<Label>, chunkBytes: int)
    requires Run(run, chunkBytes)
    ensures Owned(After(run, chunkBytes))
  {
    hide Next, Enabled, Owned;
    if run == [] {
      NothingQueued(chunkBytes);
    } else {
      var front := run[..|run| - 1];
      AlwaysOwned(front, chunkBytes);
      Always(front, chunkBytes);
      OwnedStep(After(front, chunkBytes), run[|run| - 1], chunkBytes);
    }
  }

  lemma NothingQueued(chunkBytes: int)
    ensures Owned(After([], chunkBytes))
  {
  }

  lemma {:induction false} OfChainMembers(queued: seq<Job>, chain: nat)
    ensures forall job :: job in OfChain(queued, chain) <==> job in queued && job.chain == chain
  {
    if queued != [] {
      OfChainMembers(queued[1..], chain);
      assert queued == [queued[0]] + queued[1..];
    }
  }

  /** A chunk of this recording is queued exactly while it has not left the chain. */
  lemma QueuedOrWritten(s: System, i: nat)
    requires Keyed(s) && Chained(s) && Owned(s) && i < |s.rec.chunkKeys|
    ensures Queued(s, s.rec.chunkKeys[i]) <==> i >= Written(s)
  {
    OfChainMembers(s.queued, s.rec.chain);
    if i >= Written(s) { StillQueued(s, i); }
    if Queued(s, s.rec.chunkKeys[i]) {
      var j :| 0 <= j < |s.queued| && s.queued[j].key == s.rec.chunkKeys[i];
      NotWritten(s, i, j);
    }
  }

  lemma StillQueued(s: System, i: nat)
    requires Chained(s) && Written(s) <= i < |s.rec.chunkKeys|
    requires forall job :: job in OfChain(s.queued, s.rec.chain) ==> job in s.queued
    ensures Queued(s, s.rec.chunkKeys[i])
  {
    hide OfChain;
    var job := OfChain(s.queued, s.rec.chain)[i - Written(s)];
    assert job in s.queued;
    var j :| 0 <= j < |s.queued| && s.queued[j] == job;
  }

  lemma NotWritten(s: System, i: nat, j: nat)
    requires Keyed(s) && Chained(s) && Owned(s) && i < |s.rec.chunkKeys| && j < |s.queued|
    requires s.queued[j].key == s.rec.chunkKeys[i]
    requires forall job :: job in s.queued && job.chain == s.rec.chain ==> job in OfChain(s.queued, s.rec.chain)
    ensures i >= Written(s)
  {
    hide OfChain;
    var jobs := JobsFrom(s.rec.chain, s.rec.chunkKeys, s.chunks, Written(s));
    assert s.rec.chunkKeys[i].id == s.rec.id.value;
    assert s.queued[j] in jobs;
    var k :| 0 <= k < |jobs| && jobs[k] == s.queued[j];
    assert jobs[k].key.index == Written(s) + k;
  }

  /** Exactly which chunks of the recording under way are stored: those that have left
      the chain and whose write did not fail, whatever became of other recordings. */
  lemma StoredWhen(run: seq<Label>, chunkBytes: int, i: nat)
    requires Run(run, chunkBytes) && i < |After(run, chunkBytes).rec.chunkKeys|
    ensures var s := After(run, chunkBytes);
            var key := s.rec.chunkKeys[i];
            && (key in s.blobs <==> i < Written(s) && !WriteFailed(run, chunkBytes, key))
            && (WriteFailed(run, chunkBytes, key) ==> i < Written(s))
  {
    Always(run, chunkBytes);
    AlwaysOwned(run, chunkBytes);
    var s := After(run, chunkBytes);
    hide After, Run, WriteFailed, Written, Owned, Counted, Keyed, Once, Chained, Agree, CallsSound, Lost;
    LostIsFailed(run, chunkBytes, s.rec.chunkKeys[i]);
    StoredOrLost(s, i);
  }

  /** While, and only while, no chunk of the recording under way failed to be written,
      those that have left the chain are stored; then stored chunks, queued ones and
      buffer are all it received. */
  lemma ConservedUnlessFailed(run: seq<Label>, chunkBytes: int)
    requires Run(run, chunkBytes)
    ensures var s := After(run, chunkBytes);
            var keys := s.rec.chunkKeys;
            && 0 <= Written(s) <= |keys|
            && (AllStored(s, keys[..Written(s)]) <==> !AnyFailed(run, chunkBytes, keys))
            && (AllStored(s, keys[..Written(s)]) ==>
                  Fetch(s.blobs, keys[..Written(s)])
                  + BytesOf(OfChain(s.queued, s.rec.chain)) + Concat(s.rec.pending)
                  == Encoded(s.received))
  {
    Always(run, chunkBytes);
    var s := After(run, chunkBytes);
    var keys, m := s.rec.chunkKeys, Written(s);
    WrittenRange(s);
    forall i | 0 <= i < |keys|
      ensures keys[i] in s.blobs <==> i < m && !WriteFailed(run, chunkBytes, keys[i])
      ensures WriteFailed(run, chunkBytes, keys[i]) ==> i < m
    {
      StoredWhen(run, chunkBytes, i);
    }
    hide After, Run, WriteFailed, OfChain, Written, Encoded, Concat, BytesOf, Fetch, Counted, Keyed, Once, Chained,
         Agree, CallsSound;
    AllOrAny(run, chunkBytes, s, keys, m);
    if AllStored(s, keys[..m]) { StoredAndQueued(s); }
  }

  lemma WrittenRange(s: System)
    requires Chained(s)
    ensures 0 <= Written(s) <= |s.rec.chunkKeys|
  {
  }

  lemma AllOrAny(run: seq<Label>, chunkBytes: int, s: System, keys: seq<ChunkKey>, m: nat)
    requires m <= |keys|
    requires forall i :: 0 <= i < |keys| ==> (keys[i] in s.blobs <==> i < m && !WriteFailed(run, chunkBytes, keys[i]))
    requires forall i :: 0 <= i < |keys| && WriteFailed(run, chunkBytes, keys[i]) ==> i < m
    ensures AllStored(s, keys[..m]) <==> !AnyFailed(run, chunkBytes, keys)
  {
    hide WriteFailed;
    if AnyFailed(run, chunkBytes, keys) {
      var i :| 0 <= i < |keys| && WriteFailed(run, chunkBytes, keys[i]);
      assert keys[..m][i] == keys[i];
    }
  }

  lemma StoredOrLost(s: System, i: nat)
    requires Keyed(s) && Once(s) && Chained(s) && Owned(s) && i < |s.rec.chunkKeys|
    ensures s.rec.chunkKeys[i] in s.blobs <==> i < Written(s) && !Lost(s, s.rec.chunkKeys[i])
    ensures Lost(s, s.rec.chunkKeys[i]) ==> i < Written(s)
  {
    QueuedOrWritten(s, i);
  }

  lemma StoredAndQueued(s: System)
    requires Counted(s) && Chained(s) && Agree(s, s.rec.chunkKeys, s.chunks)
    requires AllStored(s, s.rec.chunkKeys[..Written(s)])
    ensures Fetch(s.blobs, s.rec.chunkKeys[..Written(s)])
            + BytesOf(OfChain(s.queued, s.rec.chain)) + Concat(s.rec.pending)
            == Encoded(s.received)
  {
    hide OfChain, Encoded, Concat, BytesOf, Fetch;
    var m := Written(s);
    assert forall i :: 0 <= i < m ==> s.rec.chunkKeys[..m][i] == s.rec.chunkKeys[i];
    FetchIsConcat(s, s.rec.chunkKeys[..m], s.chunks[..m]);
    BytesOfJobs(s.rec.chain, s.rec.chunkKeys, s.chunks, m);
    ConcatParts(s.chunks[..m], s.chunks[m..]);
    assert s.chunks == s.chunks[..m] + s.chunks[m..];
  }

  /** Then the stored chunks and the tail are the frames received before the call,
      whatever recordings were started since. */
  lemma StoredIsRecorded(run: seq<Label>, chunkBytes: int, k: nat)
    requires Run(run, chunkBytes) && k < |After(run, chunkBytes).calls|
    ensures var s := After(run, chunkBytes);
            var c := s.calls[k];
            AllStored(s, c.keys) ==> Fetch(s.blobs, c.keys) + c.tail == Encoded(c.frames)
  {
    Always(run, chunkBytes);
    var s := After(run, chunkBytes);
    var c := s.calls[k];
    hide Counted, Keyed, Once, Chained, After, Run, Fetch, Concat, Encoded;
    assert CallSound(s, c);
    if AllStored(s, c.keys) { FetchIsConcat(s, c.keys, c.chunks); }
  }

  /** Exactly when a call that has waited for its chunks fails there: some write has
      failed since the last start, of whichever recording. */
  lemma WaitFailsWhen(run: seq<Label>, chunkBytes: int, k: nat)
    requires Run(run, chunkBytes) && k < |After(run, chunkBytes).calls|
    ensures var s := After(run, chunkBytes);
            var c := s.calls[k];
            c.progress.Waiting? && !Blocked(s, c) ==> (Resume(s, c).Failed? <==> FreshFailure(run, chunkBytes))
  {
    hide After, Run, FreshFailure, Blocked;
    ErrorIsFreshFailure(run, chunkBytes);
  }

  /** Exactly when a loss is silent: stop resolves, or export goes on, although a chunk
      of the recording was lost. Some chunk of it failed to be written, and after every
      failed write of any recording there has been a start. */
  lemma SilentLoss(run: seq<Label>, chunkBytes: int, k: nat)
    requires Run(run, chunkBytes) && k < |After(run, chunkBytes).calls|
    ensures var s := After(run, chunkBytes);
            var c := s.calls[k];
            c.progress.Waiting? && !Blocked(s, c) ==>
              (!Resume(s, c).Failed? && !AllStored(s, c.keys)
               <==> AnyFailed(run, chunkBytes, c.keys)
                    && forall n :: 0 <= n < |run| && FailsAt(run, chunkBytes, n) ==> StartedAfter(run, chunkBytes, n))
  {
    hide After, Run, FailsAt, StartedAfter, Blocked, AllStored, AnyFailed, Resume;
    WaitFailsWhen(run, chunkBytes, k);
    StoredUnlessFailed(run, chunkBytes, k);
  }

  /** Exactly when a failure is false: the call fails although all its chunks are
      stored. None of them failed, but some other write has since the last start. */
  lemma FalseAlarm(run: seq<Label>, chunkBytes: int, k: nat)
    requires Run(run, chunkBytes) && k < |After(run, chunkBytes).calls|
    ensures var s := After(run, chunkBytes);
            var c := s.calls[k];
            c.progress.Waiting? && !Blocked(s, c) ==>
              (Resume(s, c).Failed? && AllStored(s, c.keys)
               <==> FreshFailure(run, chunkBytes) && !AnyFailed(run, chunkBytes, c.keys))
  {
    hide After, Run, FreshFailure, Blocked, AllStored, AnyFailed, Resume;
    WaitFailsWhen(run, chunkBytes, k);
    StoredUnlessFailed(run, chunkBytes, k);
  }

  /** An export that has gone on fails at a chunk exactly when that one's write failed;
      so it never returns wrong bytes, and completes when none failed. */
  lemma ReadFailsWhen(run: seq<Label>, chunkBytes: int, k: nat)
    requires Run(run, chunkBytes) && k < |After(run, chunkBytes).calls|
    ensures var s := After(run, chunkBytes);
            var c := s.calls[k];
            c.progress.Reading? ==>
              (Resume(s, c).Failed?
               <==> c.progress.read < |c.keys| && WriteFailed(run, chunkBytes, c.keys[c.progress.read]))
  {
    Always(run, chunkBytes);
    StoredUnlessFailed(run, chunkBytes, k);
    var s := After(run, chunkBytes);
    hide Counted, Keyed, Once, Chained, Agree, After, Run, WriteFailed, Blocked, AnyFailed, AllStored;
    assert CallSound(s, s.calls[k]);
  }

  /** A frame that fills the buffer at once becomes a chunk. */
  lemma FrameIsChunk(s: System, f: RawFrame)
    requires s.rec.recording && s.rec.id.Some? && s.rec.pending == [] && s.rec.pendingBytes == 0
    ensures var t, key := Next(s, Frame(f), 1), ChunkKey(s.rec.id.value, s.rec.chunkIndex);
            && t.queued == s.queued + [Job(s.rec.chain, key, Entry(f))] && t.rec.chunkKeys == s.rec.chunkKeys + [key]
            && t.blobs == s.blobs && t.calls == s.calls && t.rec.flushError == s.rec.flushError
  {
    hide Entry, Concat, Encoded;
    assert s.rec.pending + [Entry(f)] == [Entry(f)];
    ConcatOne(Entry(f));
  }

  /** The recording after the first: its only chunk is queued behind one of the first
      whose other chunk could not be written. */
  lemma LateFailure(f: RawFrame) returns (run: seq<Label>)
    ensures Run(run, 1)
    ensures var s := After(run, 1);
            && |s.queued| == 2 && s.queued[0].chain == 1 && s.queued[0].key == ChunkKey("a", 1)
            && s.queued[1] == Job(2, ChunkKey("b", 0), Entry(f)) && s.rec.chunkKeys == [ChunkKey("b", 0)]
            && s.blobs == map[] && |s.calls| == 1 && s.rec.flushError
  {
    hide Entry, Run, After, Encoded, Concat;
    var run0, call := TwoQueued(f);
    RunStep(run0, Starts("b"), 1);
    var run1 := run0 + [Starts("b")];
    RunStep(run1, Writes(0, false), 1);
    var run2 := run1 + [Writes(0, false)];
    var s2 := After(run2, 1);
    assert s2.queued == [After(run0, 1).queued[1]];
    FrameIsChunk(s2, f);
    RunStep(run2, Frame(f), 1);
    run := run2 + [Frame(f)];
  }

  /** A run in which a late failed write of a stopped recording makes the export of the
      next one fail, although its only chunk is stored. */
  lemma OldFailureFailsNew(f: RawFrame)
    ensures exists run :: Run(run, 1) && var s := After(run, 1);
              && |s.calls| == 2 && s.calls[1].exporting && s.calls[1].progress == Failed
              && s.calls[1].keys == [ChunkKey("b", 0)] && s.blobs == map[ChunkKey("b", 0) := Entry(f)]
  {
    hide Entry, Run, After, Encoded, Concat;
    var run0 := LateFailure(f);
    var s0 := After(run0, 1);
    RunStep(run0, Writes(1, true), 1);
    var run1 := run0 + [Writes(1, true)];
    var s1 := After(run1, 1);
    assert s1.queued == [s0.queued[0]] && s1.rec.flushError && s1.blobs == map[ChunkKey("b", 0) := Entry(f)];
    RunStep(run1, Exports, 1);
    var run2 := run1 + [Exports];
    RunStep(run2, Resumes(1), 1);
    var run3 := run2 + [Resumes(1)];
    assert After(run3, 1).calls[1].progress == Failed;
  }
}

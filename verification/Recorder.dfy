/** The tlog recorder (src/data/tlog/recorder.ts).

    Recorder is the state of a TlogRecorder as a value. Each operation is a
    function to an Effect: the new state and the chunk writes it puts on the flush
    chain. The class does the same in place. */
module Recorder {
  import opened Text
  import opened Tlog

  /** A chunk key is the text "id/index". */
  datatype ChunkKey = ChunkKey(id: string, index: nat)

  function KeyText(k: ChunkKey): string { k.id + "/" + NatToString(k.index) }

  lemma LaterSlash(a: string, x: string, b: string, y: string)
    requires a + "/" + x == b + "/" + y && |a| < |b|
    ensures '/' in x
  {
    var s := a + "/" + x;
    assert s[|b|] == '/' && s[|b|] == x[|b| - |a| - 1];
  }

  /** The text identifies the pair, whatever the id holds. */
  lemma KeyTextIsKey(a: ChunkKey, b: ChunkKey)
    requires KeyText(a) == KeyText(b)
    ensures a == b
  {
    var s, x, y := KeyText(a), NatToString(a.index), NatToString(b.index);
    if |a.id| < |b.id| { LaterSlash(a.id, x, b.id, y); }
    if |b.id| < |a.id| { LaterSlash(b.id, y, a.id, x); }
    assert a.id == s[..|a.id|] && b.id == s[..|b.id|];
    assert x == s[|a.id| + 1..] && y == s[|b.id| + 1..];
    NatToStringInjective(a.index, b.index);
  }

  /** A write on the flush chain with the given number. */
  datatype Job = Job(chain: nat, key: ChunkKey, bytes: seq<Byte>)

  datatype Recorder = Recorder(
    recording: bool,
    id: Option<string>,
    chunkIndex: nat,
    chunkKeys: seq<ChunkKey>,
    pending: seq<seq<Byte>>,
    pendingBytes: nat,
    chain: nat,
    flushError: bool,
    frameCount: nat,
    sizeBytes: nat,
    disposed: bool)

  const FRESH := Recorder(false, None, 0, [], [], 0, 0, false, 0, 0, false)

  datatype Effect = Effect(rec: Recorder, jobs: seq<Job>)

  /** The buffer becomes one chunk at the end of the chain. */
  function Flush(r: Recorder): Effect {
    if r.pending == [] then Effect(r, [])
    else
      var empty := r.(pending := [], pendingBytes := 0);
      if r.id.None? then Effect(empty, [])
      else
        var key := ChunkKey(r.id.value, r.chunkIndex);
        Effect(empty.(chunkIndex := r.chunkIndex + 1, chunkKeys := r.chunkKeys + [key]),
               [Job(r.chain, key, Concat(r.pending))])
  }

  function OnFrame(r: Recorder, f: RawFrame, chunkBytes: int): Effect {
    if !r.recording then Effect(r, [])
    else
      var entry := Entry(f);
      var next := r.(pending := r.pending + [entry], pendingBytes := r.pendingBytes + |entry|,
                     frameCount := r.frameCount + 1, sizeBytes := r.sizeBytes + |entry|);
      if next.pendingBytes >= chunkBytes then Flush(next) else Effect(next, [])
  }

  /** start throws when disposed or already recording. */
  function Start(r: Recorder, id: string): Recorder {
    if r.disposed || r.recording then r
    else Recorder(true, Some(id), 0, [], [], 0, r.chain + 1, false, 0, 0, false)
  }

  /** The part of stop before it waits for the chain. */
  function Stop(r: Recorder): Effect {
    if !r.recording then Effect(r, []) else Flush(r.(recording := false))
  }

  function Dispose(r: Recorder): Effect {
    if r.disposed then Effect(r, []) else Stop(r.(disposed := true))
  }

  class TlogRecorder {
    const chunkBytes: int
    var recording: bool
    var recordingId: Option<string>
    var chunkIndex: nat
    var chunkKeys: seq<ChunkKey>
    var pending: seq<seq<Byte>>
    var pendingBytes: nat
    var flushChain: nat
    var flushError: bool
    var frameCount: nat
    var sizeBytes: nat
    var disposed: bool

    ghost function State(): Recorder
      reads this
    {
      Recorder(recording, recordingId, chunkIndex, chunkKeys, pending, pendingBytes, flushChain, flushError,
               frameCount, sizeBytes, disposed)
    }

    constructor (chunkBytes: int)
      ensures State() == FRESH && this.chunkBytes == chunkBytes
    {
      this.chunkBytes := chunkBytes;
      recording, recordingId, chunkIndex, chunkKeys, pending, pendingBytes := false, None, 0, [], [], 0;
      flushChain, flushError, frameCount, sizeBytes, disposed := 0, false, 0, 0, false;
    }

    method FlushPending() returns (jobs: seq<Job>)
      modifies this
      ensures Effect(State(), jobs) == Flush(old(State()))
    {
      if pending == [] { return []; }
      var chunk := ConcatChunks(pending);
      pending := [];
      pendingBytes := 0;
      if recordingId.None? { return []; }
      var key := ChunkKey(recordingId.value, chunkIndex);
      chunkIndex := chunkIndex + 1;
      chunkKeys := chunkKeys + [key];
      jobs := [Job(flushChain, key, chunk[..])];
    }

    method Receive(f: RawFrame) returns (jobs: seq<Job>)
      modifies this
      ensures Effect(State(), jobs) == OnFrame(old(State()), f, chunkBytes)
    {
      if !recording { return []; }
      var entry := EncodeTlogEntry(f);
      pending := pending + [entry[..]];
      pendingBytes := pendingBytes + entry.Length;
      frameCount := frameCount + 1;
      sizeBytes := sizeBytes + entry.Length;
      jobs := [];
      if pendingBytes >= chunkBytes { jobs := FlushPending(); }
    }

    method StartRecording(id: string) returns (ok: bool)
      modifies this
      ensures State() == Start(old(State()), id) && ok == !old(disposed || recording)
    {
      if disposed || recording { return false; }
      recordingId := Some(id);
      chunkIndex, chunkKeys := 0, [];
      pending, pendingBytes := [], 0;
      frameCount, sizeBytes := 0, 0;
      flushError, flushChain := false, flushChain + 1;
      recording := true;
      ok := true;
    }

    method StopRecording() returns (jobs: seq<Job>)
      modifies this
      ensures Effect(State(), jobs) == Stop(old(State()))
    {
      if !recording { return []; }
      recording := false;
      jobs := FlushPending();
    }

    method TearDown() returns (jobs: seq<Job>)
      modifies this
      ensures Effect(State(), jobs) == Dispose(old(State()))
    {
      if disposed { return []; }
      disposed := true;
      jobs := StopRecording();
    }
  }
}

/** A recorder, its blob store and the calls awaiting it, step by step. */
module RecorderRuns {
  import opened Text
  import opened Tlog
  import opened Recorder

  datatype Progress =
    | Waiting                                  // for the flush chain
    | Reading(read: nat, bytes: seq<Byte>)     // that many chunks, these bytes
    | Exported(bytes: seq<Byte>)
    | Stopped
    | Failed

  /** A call of export or stop: what it took from the recorder when it was made, how
      far it has come, and what the chunks and the frames were then. */
  datatype Call = Call(
    exporting: bool,
    keys: seq<ChunkKey>,
    tail: seq<Byte>,
    progress: Progress,
    chain: nat,
    chunks: seq<seq<Byte>>,
    frames: seq<RawFrame>)

  /** received and chunks are what came and was handed over since start, given the
      keys of all chunks so far. */
  datatype System = System(
    rec: Recorder,
    queued: seq<Job>,
    blobs: map<ChunkKey, seq<Byte>>,
    calls: seq<Call>,
    received: seq<RawFrame>,
    chunks: seq<seq<Byte>>,
    given: set<ChunkKey>)

  const INITIAL := System(FRESH, [], map[], [], [], [], {})

  datatype Label =
    | Frame(f: RawFrame)
    | Starts(id: string)
    | Stops
    | Disposes
    | Exports
    | Writes(i: nat, ok: bool)     // the i-th queued write ends
    | Resumes(k: nat)              // the k-th call goes on after an await

  // ------------------------------------------------------------------------ steps

  function Hand(s: System, e: Effect): System {
    var t := s.(rec := e.rec);
    if e.jobs == [] then t
    else
      var job := e.jobs[0];
      t.(queued := s.queued + [job], chunks := s.chunks + [job.bytes], given := s.given + {job.key})
  }

  /** Writes of one chain happen in turn. */
  predicate Ready(queued: seq<Job>, i: nat) {
    i < |queued| && forall j :: 0 <= j < i ==> queued[j].chain != queued[i].chain
  }

  function Write(s: System, i: nat, ok: bool): System
    requires i < |s.queued|
  {
    var job := s.queued[i];
    var t := s.(queued := s.queued[..i] + s.queued[i + 1..]);
    if ok then t.(blobs := s.blobs[job.key := job.bytes]) else t.(rec := s.rec.(flushError := true))
  }

  /** The chain as it was at the call has not come to its end. */
  predicate Blocked(s: System, c: Call) {
    exists j :: 0 <= j < |s.queued| && s.queued[j].key in c.keys
  }

  function Resume(s: System, c: Call): Progress {
    match c.progress
    case Waiting =>
      if Blocked(s, c) then Waiting
      else if s.rec.flushError then Failed
      else if c.exporting then Reading(0, [])
      else Stopped
    case Reading(read, bytes) =>
      if read >= |c.keys| then Exported(bytes + c.tail)
      else if c.keys[read] in s.blobs then Reading(read + 1, bytes + s.blobs[c.keys[read]])
      else Failed
    case done => done
  }

  function MakeCall(s: System, exporting: bool): System {
    s.(calls := s.calls + [Call(exporting, s.rec.chunkKeys, Concat(s.rec.pending), Waiting,
                                s.rec.chain, s.chunks, s.received)])
  }

  function Next(s: System, l: Label, chunkBytes: int): System {
    match l
    case Frame(f) =>
      var t := Hand(s, OnFrame(s.rec, f, chunkBytes));
      if s.rec.recording then t.(received := s.received + [f]) else t
    case Starts(id) =>
      var started := Start(s.rec, id);
      if started == s.rec then s else s.(rec := started, received := [], chunks := [])
    case Stops => if s.rec.recording then MakeCall(Hand(s, Stop(s.rec)), false) else s
    case Disposes => Hand(s, Dispose(s.rec))
    case Exports => MakeCall(s, true)
    case Writes(i, ok) => if Ready(s.queued, i) then Write(s, i, ok) else s
    case Resumes(k) =>
      if k < |s.calls| then s.(calls := s.calls[k := s.calls[k].(progress := Resume(s, s.calls[k]))]) else s
  }

  /** Recording ids are fresh. */
  predicate Enabled(s: System, l: Label) {
    l.Starts? ==> forall k :: k in s.given ==> k.id != l.id
  }

  ghost predicate Run(run: seq<Label>, chunkBytes: int) {
    run == [] || (Run(run[..|run| - 1], chunkBytes) && Enabled(After(run[..|run| - 1], chunkBytes), run[|run| - 1]))
  }

  function After(run: seq<Label>, chunkBytes: int): System {
    if run == [] then INITIAL else Next(After(run[..|run| - 1], chunkBytes), run[|run| - 1], chunkBytes)
  }

  // ------------------------------------------------------------------- invariants

  /** Every byte received is in a chunk handed over or in the buffer, in order. */
  ghost predicate Counted(s: System) {
    var r := s.rec;
    && Concat(s.chunks) + Concat(r.pending) == Encoded(s.received)
    && r.pendingBytes == |Concat(r.pending)|
    && r.sizeBytes == |Encoded(s.received)|
    && r.frameCount == |s.received|
  }

  ghost predicate Keyed(s: System) {
    var r := s.rec;
    && |r.chunkKeys| == |s.chunks| == r.chunkIndex
    && (r.recording ==> r.id.Some?) && (!r.recording ==> r.pending == [])
    && (s.chunks != [] ==> r.id.Some?)
    && (forall i :: 0 <= i < |r.chunkKeys| ==> r.chunkKeys[i] == ChunkKey(r.id.value, i) && r.chunkKeys[i] in s.given)
    && (forall k :: k in s.given && r.id == Some(k.id) ==> k.index < r.chunkIndex)
  }

  /** No key is written twice. */
  ghost predicate Once(s: System) {
    && (forall i :: 0 <= i < |s.queued| ==> s.queued[i].key in s.given && s.queued[i].key !in s.blobs)
    && (forall i, j :: 0 <= i < j < |s.queued| ==> s.queued[i].key != s.queued[j].key)
    && (forall k :: k in s.blobs ==> k in s.given)
  }

  function OfChain(queued: seq<Job>, chain: nat): seq<Job> {
    if queued == [] then []
    else (if queued[0].chain == chain then [queued[0]] else []) + OfChain(queued[1..], chain)
  }

  function JobsFrom(chain: nat, keys: seq<ChunkKey>, chunks: seq<seq<Byte>>, m: nat): (jobs: seq<Job>)
    requires m <= |keys| == |chunks|
    ensures |jobs| == |keys| - m
  {
    seq(|keys| - m, i requires 0 <= i < |keys| - m => Job(chain, keys[m + i], chunks[m + i]))
  }

  /** How many chunks of this recording have left the chain. */
  function Written(s: System): int { |s.chunks| - |OfChain(s.queued, s.rec.chain)| }

  /** The chain holds the last chunks in order; those before are stored, unless a
      write failed and the recorder knows. */
  ghost predicate Chained(s: System) {
    && |s.rec.chunkKeys| == |s.chunks|
    && (forall i :: 0 <= i < |s.queued| ==> s.queued[i].chain <= s.rec.chain)
    && 0 <= Written(s)
    && OfChain(s.queued, s.rec.chain) == JobsFrom(s.rec.chain, s.rec.chunkKeys, s.chunks, Written(s))
    && (!s.rec.flushError ==> forall i :: 0 <= i < Written(s) ==> s.rec.chunkKeys[i] in s.blobs)
  }

  /** Whatever is stored or queued under these keys is these chunks. */
  ghost predicate Agree(s: System, keys: seq<ChunkKey>, chunks: seq<seq<Byte>>) {
    && |keys| == |chunks|
    && (forall i :: 0 <= i < |keys| ==> keys[i] in s.given)
    && (forall i :: 0 <= i < |keys| && keys[i] in s.blobs ==> s.blobs[keys[i]] == chunks[i])
    && (forall i, j :: 0 <= i < |keys| && 0 <= j < |s.queued| && s.queued[j].key == keys[i] ==>
                         s.queued[j].bytes == chunks[i])
  }

  /** What a call has read is what was recorded when it was made. */
  ghost predicate CallSound(s: System, c: Call) {
    && Agree(s, c.keys, c.chunks)
    && Concat(c.chunks) + c.tail == Encoded(c.frames)
    && (c.progress.Reading? ==> c.progress.read <= |c.keys| && c.progress.bytes == Concat(c.chunks[..c.progress.read]))
    && (c.progress.Exported? ==> c.progress.bytes == Encoded(c.frames))
    && (c.progress.Reading? ==> !Blocked(s, c))
    && c.chain <= s.rec.chain
    && (c.chain == s.rec.chain ==> c.keys <= s.rec.chunkKeys && c.chunks <= s.chunks)
  }

  ghost predicate CallsSound(s: System) {
    forall k :: 0 <= k < |s.calls| ==> CallSound(s, s.calls[k])
  }

  ghost predicate Bounded(s: System, chunkBytes: int) {
    s.rec.pending == [] || s.rec.pendingBytes < chunkBytes
  }

  ghost predicate Inv(s: System, chunkBytes: int) {
    && Counted(s) && Keyed(s) && Once(s) && Chained(s) && Agree(s, s.rec.chunkKeys, s.chunks)
    && CallsSound(s) && Bounded(s, chunkBytes)
  }

  // ------------------------------------------------- the steps keep the invariants

  /** What putting the buffer on the chain does, whatever else of the recorder changes. */
  predicate Handing(s: System, t: System) {
    && t == s.(rec := t.rec, queued := t.queued, chunks := t.chunks, given := t.given)
    && t.rec.id == s.rec.id && t.rec.chain == s.rec.chain && t.rec.flushError == s.rec.flushError
    && (|| (t.queued == s.queued && t.chunks == s.chunks && t.given == s.given
            && t.rec.chunkKeys == s.rec.chunkKeys && t.rec.chunkIndex == s.rec.chunkIndex)
        || Handed(s, t))
  }

  predicate Handed(s: System, t: System) {
    && s.rec.id.Some? && t.chunks != []
    && var bytes := t.chunks[|t.chunks| - 1];
    && var key := ChunkKey(s.rec.id.value, s.rec.chunkIndex);
    && t.queued == s.queued + [Job(s.rec.chain, key, bytes)] && t.chunks == s.chunks + [bytes]
    && t.given == s.given + {key}
    && t.rec.chunkKeys == s.rec.chunkKeys + [key] && t.rec.chunkIndex == s.rec.chunkIndex + 1
  }

  lemma OfChainFirst(job: Job, rest: seq<Job>, chain: nat)
    ensures OfChain([job] + rest, chain) == (if job.chain == chain then [job] else []) + OfChain(rest, chain)
    ensures OfChain([job], chain) == if job.chain == chain then [job] else []
    ensures OfChain([], chain) == []
  {
    assert ([job] + rest)[1..] == rest;
    assert [job][1..] == [];
  }

  lemma {:induction false} OfChainAppend(queued: seq<Job>, job: Job, chain: nat)
    ensures OfChain(queued + [job], chain) == OfChain(queued, chain) + (if job.chain == chain then [job] else [])
  {
    hide OfChain;
    if queued == [] {
      OfChainFirst(job, [], chain);
      assert queued + [job] == [job];
    } else {
      var first, rest := queued[0], queued[1..];
      assert queued == [first] + rest && queued + [job] == [first] + (rest + [job]);
      OfChainAppend(rest, job, chain);
      OfChainFirst(first, rest, chain);
      OfChainFirst(first, rest + [job], chain);
    }
  }

  lemma {:induction false} OfChainRemove(queued: seq<Job>, i: nat, chain: nat)
    requires Ready(queued, i)
    ensures var rest := queued[..i] + queued[i + 1..];
            if queued[i].chain == chain then OfChain(queued, chain) == [queued[i]] + OfChain(rest, chain)
            else OfChain(rest, chain) == OfChain(queued, chain)
  {
    var rest := queued[..i] + queued[i + 1..];
    if i == 0 {
      assert rest == queued[1..];
    } else {
      var tail := queued[1..];
      forall j | 0 <= j < i - 1 ensures tail[j].chain != tail[i - 1].chain { assert tail[j] == queued[j + 1]; }
      OfChainRemove(tail, i - 1, chain);
      assert rest[1..] == tail[..i - 1] + tail[i..];
    }
  }

  lemma HandingKeepsChained(s: System, t: System)
    requires Chained(s) && Keyed(s) && Handing(s, t)
    ensures Chained(t)
  {
    hide OfChain;
    if t.queued != s.queued {
      assert Handed(s, t);
      OfChainAppend(s.queued, t.queued[|s.queued|], s.rec.chain);
      assert Written(t) == Written(s);
    }
  }

  lemma HandingKeepsAgree(s: System, t: System, keys: seq<ChunkKey>, chunks: seq<seq<Byte>>)
    requires Agree(s, keys, chunks) && Keyed(s) && Once(s) && Handing(s, t)
    ensures Agree(t, keys, chunks)
  {
  }

  lemma HandingKeepsOnce(s: System, t: System)
    requires Once(s) && Keyed(s) && Handing(s, t)
    ensures Once(t)
  {
  }

  lemma HandingGrows(s: System, t: System)
    requires Handing(s, t)
    ensures t.calls == s.calls && t.rec.chain == s.rec.chain && s.rec.chunkKeys <= t.rec.chunkKeys
    ensures s.chunks <= t.chunks
  {
  }

  lemma HandingKeepsCalls(s: System, t: System)
    requires CallsSound(s) && Keyed(s) && Once(s) && Handing(s, t)
    ensures CallsSound(t)
  {
    hide Agree, Concat, Encoded, Keyed, Once, Blocked, Handing;
    HandingGrows(s, t);
    forall k | 0 <= k < |t.calls| ensures CallSound(t, t.calls[k]) {
      assert CallSound(s, s.calls[k]);
      HandingKeepsAgree(s, t, s.calls[k].keys, s.calls[k].chunks);
      HandingBlocksNothing(s, t, s.calls[k]);
    }
  }

  lemma HandingBlocksNothing(s: System, t: System, c: Call)
    requires Agree(s, c.keys, c.chunks) && Keyed(s) && Handing(s, t)
    ensures Blocked(t, c) ==> Blocked(s, c)
  {
    if Blocked(t, c) {
      var j :| 0 <= j < |t.queued| && t.queued[j].key in c.keys;
      assert t.queued[j].key in s.given;
      assert j < |s.queued| && s.queued[j] == t.queued[j];
    }
  }

  lemma HandingKeepsChunks(s: System, t: System)
    requires Agree(s, s.rec.chunkKeys, s.chunks) && Keyed(s) && Once(s) && Handing(s, t)
    ensures Agree(t, t.rec.chunkKeys, t.chunks)
  {
    HandingKeepsAgree(s, t, s.rec.chunkKeys, s.chunks);
  }

  lemma FlushHands(s: System, r: Recorder)
    requires r == s.rec.(pending := r.pending, pendingBytes := r.pendingBytes, recording := r.recording,
                         disposed := r.disposed, frameCount := r.frameCount, sizeBytes := r.sizeBytes)
    ensures Handing(s, Hand(s, Flush(r)))
  {
  }

  lemma EffectHands(s: System, f: RawFrame, chunkBytes: int)
    ensures Handing(s, Hand(s, OnFrame(s.rec, f, chunkBytes)))
    ensures Handing(s, Hand(s, Stop(s.rec)))
    ensures Handing(s, Hand(s, Dispose(s.rec)))
  {
    hide Concat, Entry, Flush, Hand;
    var entry, r := Entry(f), s.rec;
    NoJobs(s, r);
    NoJobs(s, r.(disposed := true));
    FlushHands(s, r.(recording := false));
    FlushHands(s, r.(recording := false, disposed := true));
    var next := r.(pending := r.pending + [entry], pendingBytes := r.pendingBytes + |entry|,
                   frameCount := r.frameCount + 1, sizeBytes := r.sizeBytes + |entry|);
    NoJobs(s, next);
    FlushHands(s, next);
  }

  lemma NoJobs(s: System, r: Recorder)
    requires r == s.rec.(pending := r.pending, pendingBytes := r.pendingBytes, recording := r.recording,
                         disposed := r.disposed, frameCount := r.frameCount, sizeBytes := r.sizeBytes)
    ensures Handing(s, Hand(s, Effect(r, [])))
  {
  }

  /** The recorder's own part of what a flush keeps. */
  lemma FlushKeeps(s: System, chunkBytes: int)
    requires Counted(s) && s.rec.id.Some?
    ensures var t := Hand(s, Flush(s.rec)); Counted(t) && Bounded(t, chunkBytes) && t.rec.pending == []
  {
    hide Encoded;
    ConcatAppend(s.chunks, Concat(s.rec.pending));
  }

  /** The recorder with a frame appended, before it looks at the threshold. */
  function Buffered(r: Recorder, f: RawFrame): Recorder {
    var entry := Entry(f);
    r.(pending := r.pending + [entry], pendingBytes := r.pendingBytes + |entry|,
       frameCount := r.frameCount + 1, sizeBytes := r.sizeBytes + |entry|)
  }

  function Appended(s: System, f: RawFrame): System {
    s.(rec := Buffered(s.rec, f), received := s.received + [f])
  }

  lemma FrameSteps(s: System, f: RawFrame, chunkBytes: int)
    ensures var t := Next(s, Frame(f), chunkBytes);
            if !s.rec.recording then t == s
            else if Buffered(s.rec, f).pendingBytes >= chunkBytes
            then t == Hand(Appended(s, f), Flush(Buffered(s.rec, f)))
            else t == Appended(s, f)
  {
    hide Entry, Concat, Encoded;
  }

  lemma AppendedCounted(s: System, f: RawFrame)
    requires Counted(s)
    ensures Counted(Appended(s, f))
  {
    hide Entry;
    EncodedAppend(s.received, f);
    ConcatAppend(s.rec.pending, Entry(f));
    hide Concat, Encoded;
  }

  lemma FrameKeepsCounted(s: System, f: RawFrame, chunkBytes: int)
    requires Counted(s) && Keyed(s) && Bounded(s, chunkBytes)
    ensures var t := Next(s, Frame(f), chunkBytes); Counted(t) && Bounded(t, chunkBytes)
  {
    hide Entry, Encoded, Concat, Keyed, Counted, Next, Flush, Hand;
    FrameSteps(s, f, chunkBytes);
    if s.rec.recording {
      AppendedCounted(s, f);
      KeyedHasId(s);
      FlushKeeps(Appended(s, f), chunkBytes);
    }
  }

  lemma KeyedHasId(s: System)
    requires Keyed(s)
    ensures s.rec.recording || s.rec.pending != [] ==> s.rec.id.Some?
  {
  }

  lemma StopKeepsCounted(s: System, disposed: bool, chunkBytes: int)
    requires Counted(s) && Keyed(s) && Bounded(s, chunkBytes) && s.rec.recording
    ensures var t := Hand(s, Flush(s.rec.(recording := false, disposed := disposed)));
            Counted(t) && Bounded(t, chunkBytes) && t.rec.pending == []
  {
    hide Concat, Encoded;
    FlushKeeps(s.(rec := s.rec.(recording := false, disposed := disposed)), chunkBytes);
  }

  lemma FlushKeepsKeyed(s: System, r: Recorder)
    requires Keyed(s) && r.id.Some? && (r.recording ==> s.rec.recording || r.pending != [])
    requires r == s.rec.(pending := r.pending, pendingBytes := r.pendingBytes, recording := r.recording,
                         disposed := r.disposed, frameCount := r.frameCount, sizeBytes := r.sizeBytes)
    ensures Keyed(Hand(s, Flush(r)))
  {
    hide Concat;
  }

  lemma {:induction false} OfChainNone(queued: seq<Job>, chain: nat)
    requires forall i :: 0 <= i < |queued| ==> queued[i].chain != chain
    ensures OfChain(queued, chain) == []
  {
    if queued != [] { OfChainNone(queued[1..], chain); }
  }

  lemma StartIsClean(s: System, id: string)
    requires Chained(s) && Enabled(s, Starts(id))
    ensures var t := s.(rec := Start(s.rec, id), received := [], chunks := []);
            !s.rec.disposed && !s.rec.recording ==> Chained(t) && Counted(t) && Keyed(t)
  {
    OfChainNone(s.queued, s.rec.chain + 1);
    hide OfChain;
  }

  lemma StartKeeps(s: System, id: string, chunkBytes: int)
    requires Inv(s, chunkBytes) && Enabled(s, Starts(id))
    ensures Inv(Next(s, Starts(id), chunkBytes), chunkBytes)
  {
    hide OfChain, Counted, Keyed, Chained, Agree, Concat, Encoded, Enabled;
    var t := Next(s, Starts(id), chunkBytes);
    StartIsClean(s, id);
    if t != s {
      StartKeepsOnce(s, t);
      forall k | 0 <= k < |t.calls| ensures CallSound(t, t.calls[k]) {
        assert CallSound(s, s.calls[k]);
        AgreeFrame(s, t, s.calls[k].keys, s.calls[k].chunks);
      }
      AgreeNothing(t);
    }
  }

  lemma StartKeepsOnce(s: System, t: System)
    requires Once(s) && t.queued == s.queued && t.blobs == s.blobs && t.given == s.given
    ensures Once(t)
  {
  }

  lemma AgreeFrame(s: System, t: System, keys: seq<ChunkKey>, chunks: seq<seq<Byte>>)
    requires Agree(s, keys, chunks) && t.given == s.given && t.blobs == s.blobs && t.queued == s.queued
    ensures Agree(t, keys, chunks)
  {
  }

  lemma AgreeNothing(s: System)
    ensures Agree(s, [], [])
  {
  }

  lemma WriteKeepsAgree(s: System, i: nat, ok: bool, keys: seq<ChunkKey>, chunks: seq<seq<Byte>>)
    requires i < |s.queued| && Agree(s, keys, chunks)
    ensures Agree(Write(s, i, ok), keys, chunks)
  {
    var t := Write(s, i, ok);
    assert forall j :: 0 <= j < |t.queued| ==> t.queued[j] == s.queued[if j < i then j else j + 1];
  }

  lemma WriteKeepsOnce(s: System, i: nat, ok: bool)
    requires i < |s.queued| && Once(s)
    ensures Once(Write(s, i, ok))
  {
    var t := Write(s, i, ok);
    assert forall j :: 0 <= j < |t.queued| ==> t.queued[j] == s.queued[if j < i then j else j + 1];
  }

  lemma NextJob(chain: nat, keys: seq<ChunkKey>, chunks: seq<seq<Byte>>, m: nat, job: Job, rest: seq<Job>)
    requires m <= |keys| == |chunks| && [job] + rest == JobsFrom(chain, keys, chunks, m)
    ensures m < |keys| && job == Job(chain, keys[m], chunks[m]) && rest == JobsFrom(chain, keys, chunks, m + 1)
  {
    var jobs := JobsFrom(chain, keys, chunks, m);
    assert jobs[0] == job && jobs[1..] == rest;
  }

  lemma WriteKeepsChained(s: System, i: nat, ok: bool)
    requires Ready(s.queued, i) && Chained(s)
    ensures Chained(Write(s, i, ok))
  {
    hide OfChain, JobsFrom;
    var t, chain, m := Write(s, i, ok), s.rec.chain, Written(s);
    OfChainRemove(s.queued, i, chain);
    hide Ready;
    if s.queued[i].chain == chain {
      NextJob(chain, s.rec.chunkKeys, s.chunks, m, s.queued[i], OfChain(t.queued, chain));
    }
  }

  lemma WriteKeeps(s: System, i: nat, ok: bool, chunkBytes: int)
    requires Inv(s, chunkBytes) && Ready(s.queued, i)
    ensures Inv(Write(s, i, ok), chunkBytes)
  {
    WriteKeepsOnce(s, i, ok);
    WriteKeepsChained(s, i, ok);
    WriteKeepsAgree(s, i, ok, s.rec.chunkKeys, s.chunks);
    var t := Write(s, i, ok);
    assert Counted(t) && Keyed(t);
    hide Counted, Keyed, Chained, Agree, Once;
    forall k | 0 <= k < |t.calls| ensures CallSound(t, t.calls[k]) {
      assert CallSound(s, s.calls[k]);
      WriteKeepsAgree(s, i, ok, s.calls[k].keys, s.calls[k].chunks);
    }
  }

  lemma ResumeSound(s: System, c: Call)
    requires CallSound(s, c)
    ensures CallSound(s, c.(progress := Resume(s, c)))
  {
    hide Concat, Encoded, Blocked;
    SameKeysBlock(s, c, Resume(s, c));
    NothingRead(c.chunks);
    if c.progress.Reading? {
      var read := c.progress.read;
      if read < |c.keys| {
        assert c.chunks[..read + 1] == c.chunks[..read] + [c.chunks[read]];
        ConcatAppend(c.chunks[..read], c.chunks[read]);
      } else {
        assert c.chunks[..read] == c.chunks;
      }
    }
  }

  lemma SameKeysBlock(s: System, c: Call, p: Progress)
    ensures Blocked(s, c.(progress := p)) == Blocked(s, c)
  {
  }

  lemma NothingRead(chunks: seq<seq<Byte>>)
    ensures Concat(chunks[..0]) == []
  {
  }

  lemma ResumeKeeps(s: System, k: nat, chunkBytes: int)
    requires Inv(s, chunkBytes)
    ensures Inv(Next(s, Resumes(k), chunkBytes), chunkBytes)
  {
    if k < |s.calls| {
      assert CallSound(s, s.calls[k]);
      ResumeSound(s, s.calls[k]);
      CallsOnly(s, Next(s, Resumes(k), chunkBytes), chunkBytes);
      hide Counted, Keyed, Chained, Agree, Once, CallSound, Resume;
      var t := Next(s, Resumes(k), chunkBytes);
      forall j | 0 <= j < |t.calls| ensures CallSound(t, t.calls[j]) {
        if j != k { assert CallSound(s, s.calls[j]); }
        SoundFrame(s, t, t.calls[j]);
      }
    }
  }

  lemma SoundFrame(s: System, t: System, c: Call)
    requires CallSound(s, c) && t == s.(calls := t.calls)
    ensures CallSound(t, c)
  {
    hide Concat, Encoded;
  }

  lemma CallsOnly(s: System, t: System, chunkBytes: int)
    requires Inv(s, chunkBytes) && t == s.(calls := t.calls)
    ensures Counted(t) && Keyed(t) && Once(t) && Chained(t) && Agree(t, t.rec.chunkKeys, t.chunks)
    ensures Bounded(t, chunkBytes)
  {
  }

  lemma CallKeeps(s: System, exporting: bool, chunkBytes: int)
    requires Inv(s, chunkBytes)
    ensures Inv(MakeCall(s, exporting), chunkBytes)
  {
    var t := MakeCall(s, exporting);
    CallsOnly(s, t, chunkBytes);
    hide Concat, Encoded, Chained, Agree, Once, Keyed;
    var c := t.calls[|s.calls|];
    assert c.chunks[..0] == [];
    AgreeFrame(s, t, c.keys, c.chunks);
    assert CallSound(t, c);
    hide CallSound;
    forall j | 0 <= j < |t.calls| ensures CallSound(t, t.calls[j]) {
      if j < |s.calls| {
        assert CallSound(s, s.calls[j]);
        SoundFrame(s, t, s.calls[j]);
      }
    }
  }

  lemma HandKeeps(s: System, e: Effect, chunkBytes: int)
    requires Inv(s, chunkBytes) && Handing(s, Hand(s, e))
    ensures var t := Hand(s, e); Once(t) && Chained(t) && CallsSound(t) && Agree(t, t.rec.chunkKeys, t.chunks)
  {
    hide Hand, Handing, Once, Chained, CallsSound, Agree, Counted, Keyed;
    var t := Hand(s, e);
    HandingKeepsChained(s, t);
    HandingKeepsOnce(s, t);
    HandingKeepsCalls(s, t);
    HandingKeepsChunks(s, t);
  }

  lemma FrameKeeps(s: System, f: RawFrame, chunkBytes: int)
    requires Inv(s, chunkBytes)
    ensures Inv(Next(s, Frame(f), chunkBytes), chunkBytes)
  {
    var e := OnFrame(s.rec, f, chunkBytes);
    EffectHands(s, f, chunkBytes);
    HandKeeps(s, e, chunkBytes);
    FrameKeepsCounted(s, f, chunkBytes);
    FrameKeepsKeyed(s, f, chunkBytes);
    hide Hand, OnFrame, Once, Chained, CallSound, Agree, Counted, Keyed, Handing;
    var t, u := Hand(s, e), Next(s, Frame(f), chunkBytes);
    ReceivedOnly(t, u);
  }

  lemma ReceivedOnly(t: System, u: System)
    requires Once(t) && Chained(t) && CallsSound(t) && Agree(t, t.rec.chunkKeys, t.chunks)
    requires u == t.(received := u.received)
    ensures Once(u) && Chained(u) && CallsSound(u) && Agree(u, u.rec.chunkKeys, u.chunks)
  {
    hide OfChain, Concat, Encoded;
  }

  lemma FrameKeepsKeyed(s: System, f: RawFrame, chunkBytes: int)
    requires Keyed(s)
    ensures Keyed(Next(s, Frame(f), chunkBytes))
  {
    hide Concat, Entry, Keyed;
    KeyedHasId(s);
    if s.rec.recording {
      var entry, r := Entry(f), s.rec;
      var next := r.(pending := r.pending + [entry], pendingBytes := r.pendingBytes + |entry|,
                     frameCount := r.frameCount + 1, sizeBytes := r.sizeBytes + |entry|);
      FlushKeepsKeyed(s, next);
      StillKeyed(s, s.(rec := next, received := s.received + [f]));
      StillKeyed(Hand(s, Flush(next)), Hand(s, Flush(next)).(received := s.received + [f]));
    }
  }

  lemma StillKeyed(s: System, t: System)
    requires Keyed(s) && t.given == s.given && t.chunks == s.chunks
    requires s.rec.recording && t.rec == s.rec.(pending := t.rec.pending, pendingBytes := t.rec.pendingBytes,
                                                frameCount := t.rec.frameCount, sizeBytes := t.rec.sizeBytes)
    ensures Keyed(t)
  {
  }

  lemma StopKeeps(s: System, disposed: bool, chunkBytes: int)
    requires Inv(s, chunkBytes) && s.rec.recording
    ensures Inv(Hand(s, Flush(s.rec.(recording := false, disposed := disposed))), chunkBytes)
  {
    var r := s.rec.(recording := false, disposed := disposed);
    FlushHands(s, r);
    HandKeeps(s, Flush(r), chunkBytes);
    StopKeepsCounted(s, disposed, chunkBytes);
    KeyedHasId(s);
    hide Hand, Once, Chained, CallSound, Agree, Counted, Handing, Flush, Keyed;
    FlushKeepsKeyed(s, r);
  }

  lemma DisposedKeeps(s: System, chunkBytes: int)
    requires Inv(s, chunkBytes)
    ensures Inv(s.(rec := s.rec.(disposed := true)), chunkBytes)
  {
    hide OfChain, Concat, Encoded;
  }

  lemma NextKeeps(s: System, l: Label, chunkBytes: int)
    requires Inv(s, chunkBytes) && Enabled(s, l)
    ensures Inv(Next(s, l, chunkBytes), chunkBytes)
  {
    hide Inv, Flush, Hand, Resume, Write;
    match l
    case Frame(f) => FrameKeeps(s, f, chunkBytes);
    case Starts(id) => StartKeeps(s, id, chunkBytes);
    case Stops =>
      if s.rec.recording {
        StopKeeps(s, s.rec.disposed, chunkBytes);
        assert s.rec.(recording := false, disposed := s.rec.disposed) == s.rec.(recording := false);
        CallKeeps(Hand(s, Stop(s.rec)), false, chunkBytes);
      } else {
      }
    case Disposes =>
      if s.rec.disposed {
        NothingHanded(s, s.rec);
      } else if s.rec.recording {
        StopKeeps(s, true, chunkBytes);
      } else {
        NothingHanded(s, s.rec.(disposed := true));
        DisposedKeeps(s, chunkBytes);
      }
    case Exports => CallKeeps(s, true, chunkBytes);
    case Writes(i, ok) => if Ready(s.queued, i) { WriteKeeps(s, i, ok, chunkBytes); }
    case Resumes(k) => ResumeKeeps(s, k, chunkBytes);
  }

  lemma NothingHanded(s: System, r: Recorder)
    ensures Hand(s, Effect(r, [])) == s.(rec := r)
  {
  }

  /** The invariants hold in every run with fresh recording ids. */
  lemma {:induction false} Always(run: seq<Label>, chunkBytes: int)
    requires Run(run, chunkBytes)
    ensures Inv(After(run, chunkBytes), chunkBytes)
  {
    if run == [] {
      assert OfChain([], 0) == JobsFrom(0, [], [], 0);
    } else {
      Always(run[..|run| - 1], chunkBytes);
      NextKeeps(After(run[..|run| - 1], chunkBytes), run[|run| - 1], chunkBytes);
    }
  }

  // ----------------------------------------------------------------- main results

  /** The stored bytes of some chunks, in key order. */
  function Fetch(blobs: map<ChunkKey, seq<Byte>>, keys: seq<ChunkKey>): seq<Byte>
    requires forall i :: 0 <= i < |keys| ==> keys[i] in blobs
  {
    if keys == [] then [] else Fetch(blobs, keys[..|keys| - 1]) + blobs[keys[|keys| - 1]]
  }

  function BytesOf(jobs: seq<Job>): seq<Byte> {
    if jobs == [] then [] else jobs[0].bytes + BytesOf(jobs[1..])
  }

  lemma {:induction false} FetchIsConcat(s: System, keys: seq<ChunkKey>, chunks: seq<seq<Byte>>)
    requires |keys| == |chunks| && forall i :: 0 <= i < |keys| ==> keys[i] in s.blobs && s.blobs[keys[i]] == chunks[i]
    ensures Fetch(s.blobs, keys) == Concat(chunks)
  {
    if keys != [] { FetchIsConcat(s, keys[..|keys| - 1], chunks[..|chunks| - 1]); }
  }

  lemma {:induction false} BytesOfJobs(chain: nat, keys: seq<ChunkKey>, chunks: seq<seq<Byte>>, m: nat)
    requires m <= |keys| == |chunks|
    ensures BytesOf(JobsFrom(chain, keys, chunks, m)) == Concat(chunks[m..])
    decreases |keys| - m
  {
    var jobs := JobsFrom(chain, keys, chunks, m);
    if m < |keys| {
      BytesOfJobs(chain, keys, chunks, m + 1);
      assert jobs[1..] == JobsFrom(chain, keys, chunks, m + 1);
      assert chunks[m..] == [chunks[m]] + chunks[m + 1..];
      ConcatParts([chunks[m]], chunks[m + 1..]);
      assert Concat([chunks[m]]) == Concat([chunks[m]][..0]) + chunks[m];
    }
  }

  /** Under every interleaving of frames and chunk writes, while no write has failed,
      the stored chunks in key order, the queued ones and the buffer are the entries
      of all the frames since start; and the statistics count just those. */
  lemma BytesConserved(run: seq<Label>, chunkBytes: int)
    requires Run(run, chunkBytes)
    ensures var s := After(run, chunkBytes);
            && s.rec.sizeBytes == |Encoded(s.received)| && s.rec.frameCount == |s.received|
            && Concat(s.chunks) + Concat(s.rec.pending) == Encoded(s.received)
            && 0 <= Written(s) <= |s.rec.chunkKeys|
            && (!s.rec.flushError ==>
                  && (forall i :: 0 <= i < Written(s) ==> s.rec.chunkKeys[i] in s.blobs)
                  && Fetch(s.blobs, s.rec.chunkKeys[..Written(s)])
                     + BytesOf(OfChain(s.queued, s.rec.chain)) + Concat(s.rec.pending)
                     == Encoded(s.received))
  {
    hide OfChain, Encoded, Run, After, Concat, BytesOf, Fetch, CallSound, Keyed, Once, Bounded;
    Always(run, chunkBytes);
    var s := After(run, chunkBytes);
    var m := Written(s);
    if !s.rec.flushError {
      FetchIsConcat(s, s.rec.chunkKeys[..m], s.chunks[..m]);
      BytesOfJobs(s.rec.chain, s.rec.chunkKeys, s.chunks, m);
      ConcatParts(s.chunks[..m], s.chunks[m..]);
      assert s.chunks == s.chunks[..m] + s.chunks[m..];
    }
  }

  /** An export that completes gives exactly the entries of the frames received
      before it was called, whatever happened while it waited. */
  lemma ExportExact(run: seq<Label>, chunkBytes: int, k: nat)
    requires Run(run, chunkBytes) && k < |After(run, chunkBytes).calls|
    ensures var c := After(run, chunkBytes).calls[k];
            c.progress.Exported? ==> c.progress.bytes == Encoded(c.frames)
  {
    Always(run, chunkBytes);
    hide After, Run, Encoded, Concat, Agree;
    assert CallSound(After(run, chunkBytes), After(run, chunkBytes).calls[k]);
  }

  /** After each recorded frame the buffer is below the threshold, exactly when the
      threshold is positive. */
  lemma BufferBelowThreshold(run: seq<Label>, f: RawFrame, chunkBytes: int)
    requires Run(run, chunkBytes) && After(run, chunkBytes).rec.recording
    ensures After(run + [Frame(f)], chunkBytes).rec.pendingBytes < chunkBytes <==> chunkBytes > 0
  {
    assert (run + [Frame(f)])[..|run|] == run;
    Always(run + [Frame(f)], chunkBytes);
    hide Run, After, Once, Chained, Agree, CallSound, Keyed, Encoded;
    assert Concat([]) == [];
  }

  /** A call that gets past its wait without an error, no start having come between,
      finds every chunk stored: stop tells the truth, and export will not fail. */
  lemma NoErrorMeansStored(run: seq<Label>, chunkBytes: int, k: nat)
    requires Run(run, chunkBytes) && k < |After(run, chunkBytes).calls|
    ensures var s := After(run, chunkBytes);
            var c := s.calls[k];
            c.progress.Waiting? && c.chain == s.rec.chain && (Resume(s, c).Stopped? || Resume(s, c).Reading?) ==>
              && (forall i :: 0 <= i < |c.keys| ==> c.keys[i] in s.blobs)
              && Fetch(s.blobs, c.keys) + c.tail == Encoded(c.frames)
  {
    Always(run, chunkBytes);
    var s := After(run, chunkBytes);
    var c := s.calls[k];
    assert CallSound(s, c);
    hide After, Run, Encoded, Concat, OfChain, Fetch, Counted, Keyed, Once, CallsSound;
    if c.progress.Waiting? && c.chain == s.rec.chain && (Resume(s, c).Stopped? || Resume(s, c).Reading?) {
      forall i | 0 <= i < |c.keys| ensures c.keys[i] in s.blobs { KeyStored(s, c, i); }
      hide Chained, Blocked, Resume;
      FetchIsConcat(s, c.keys, c.chunks);
    }
  }

  lemma KeyStored(s: System, c: Call, i: nat)
    requires Chained(s) && !s.rec.flushError && !Blocked(s, c) && c.keys <= s.rec.chunkKeys && i < |c.keys|
    ensures c.keys[i] in s.blobs
  {
    hide OfChain;
    if i >= Written(s) {
      var jobs := OfChain(s.queued, s.rec.chain);
      assert jobs[i - Written(s)].key == c.keys[i];
      OfChainIsQueued(s.queued, s.rec.chain, i - Written(s));
    }
  }

  lemma {:induction false} OfChainIsQueued(queued: seq<Job>, chain: nat, i: nat)
    requires i < |OfChain(queued, chain)|
    ensures exists j :: 0 <= j < |queued| && queued[j] == OfChain(queued, chain)[i]
  {
    if queued[0].chain == chain && i == 0 {
      assert queued[0] == OfChain(queued, chain)[0];
    } else {
      var k := if queued[0].chain == chain then i - 1 else i;
      OfChainIsQueued(queued[1..], chain, k);
      var j :| 0 <= j < |queued| - 1 && queued[1..][j] == OfChain(queued[1..], chain)[k];
      assert queued[j + 1] == OfChain(queued, chain)[i];
    }
  }

  lemma RunStep(run: seq<Label>, l: Label, chunkBytes: int)
    ensures Run(run + [l], chunkBytes) <==> Run(run, chunkBytes) && Enabled(After(run, chunkBytes), l)
    ensures After(run + [l], chunkBytes) == Next(After(run, chunkBytes), l, chunkBytes)
  {
    assert (run + [l])[..|run|] == run;
  }

  /** Two frames recorded and stopped while both chunks are still queued. */
  lemma TwoQueued(f: RawFrame) returns (run: seq<Label>, call: Call)
    ensures Run(run, 1)
    ensures var s := After(run, 1);
            && s.queued == [Job(1, ChunkKey("a", 0), Entry(f)), Job(1, ChunkKey("a", 1), Entry(f))]
            && s.calls == [call] && call.progress == Waiting && !call.exporting
            && call.keys == [ChunkKey("a", 0), ChunkKey("a", 1)]
            && !s.rec.recording && !s.rec.disposed && s.rec.chain == 1 && s.blobs == map[]
            && s.given == {ChunkKey("a", 0), ChunkKey("a", 1)}
  {
    hide Entry, Run, After, Encoded;
    RunStart();
    assert Concat([Entry(f)]) == Concat([Entry(f)][..0]) + Entry(f) == Entry(f);
    RunStep([], Starts("a"), 1);
    var one := [] + [Starts("a")];
    RunStep(one, Frame(f), 1);
    var two := one + [Frame(f)];
    assert After(two, 1).queued == [Job(1, ChunkKey("a", 0), Entry(f))];
    RunStep(two, Frame(f), 1);
    var three := two + [Frame(f)];
    RunStep(three, Stops, 1);
    run := three + [Stops];
    call := After(run, 1).calls[0];
  }

  lemma RunStart()
    ensures Run([], 1) && After([], 1) == INITIAL
  {
  }

  /** A start while stop waits wipes the error of the recording being stopped: stop
      resolves, although a chunk was not stored. */
  lemma StartWipesError(f: RawFrame)
    ensures exists run :: Run(run, 1) && var s := After(run, 1);
              && |s.calls| == 1 && s.calls[0].progress == Stopped && !s.calls[0].exporting
              && |s.calls[0].keys| == 2 && s.calls[0].keys[0] !in s.blobs
  {
    hide Entry, Run, After, Encoded, Concat;
    var run, call := TwoQueued(f);
    var s0 := After(run, 1);
    RunStep(run, Writes(0, false), 1);
    var run1 := run + [Writes(0, false)];
    var s1 := After(run1, 1);
    assert s1.queued == [s0.queued[1]] && s1.rec.flushError;
    RunStep(run1, Starts("b"), 1);
    var run2 := run1 + [Starts("b")];
    var s2 := After(run2, 1);
    assert s2.queued == s1.queued && !s2.rec.flushError;
    RunStep(run2, Writes(0, true), 1);
    var run3 := run2 + [Writes(0, true)];
    var s3 := After(run3, 1);
    assert s3.queued == [] && ChunkKey("a", 0) !in s3.blobs;
    RunStep(run3, Resumes(0), 1);
    var run4 := run3 + [Resumes(0)];
    assert After(run4, 1).calls[0].progress == Stopped;
  }
}

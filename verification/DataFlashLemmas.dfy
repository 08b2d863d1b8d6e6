/** Chunk invariance and decode-after-encode for the DataFlash decoder. */
module DataFlashLemmas {
  import opened Text
  import opened DataFlash

  // ------------------------------------------------------------ one more chunk

  /** More bytes do not move a header already found; when none was found the
      search may restart at the kept byte. */
  lemma HeaderExtend(s: seq<Byte>, t: seq<Byte>, pos: nat)
    requires pos < |s|
    ensures FirstHeader(s, pos) >= 0 ==> FirstHeader(s + t, pos) == FirstHeader(s, pos)
    ensures FirstHeader(s, pos) < 0 ==> FirstHeader(s + t, pos) == FirstHeader(s + t, |s| - Keep(s))
  {
    var h := FirstHeader(s, pos);
    FirstHeaderIs(s, pos);
    assert forall i :: 0 <= i && i + 1 < |s| ==> (HeaderAt(s + t, i) <==> HeaderAt(s, i));
    if h >= 0 {
      FirstHeaderUnique(s + t, pos, h);
    } else {
      var k := |s| - Keep(s);
      FirstHeaderIs(s + t, k);
      assert forall i :: pos <= i < k ==> !HeaderAt(s, i) && !HeaderAt(s + t, i);
      FirstHeaderUnique(s + t, pos, FirstHeader(s + t, k));
    }
  }

  /** A packet that is complete in s reads the same in s + t. */
  lemma StepExtend(base: nat, s: seq<Byte>, t: seq<Byte>, h: nat, formats: Formats)
    requires HeaderAt(s, h)
    ensures HeaderAt(s + t, h)
    ensures !StepAt(base, s, h, formats).Wait? ==> StepAt(base, s + t, h, formats) == StepAt(base, s, h, formats)
  {
    hide ParseFmt, RecordOf;
    assert forall i :: 0 <= i < |s| ==> (s + t)[i] == s[i];
    assert forall i, j :: 0 <= i <= j <= |s| ==> (s + t)[i..j] == s[i..j];
  }

  /** What a decoder does with s it also does with s + t, and then goes on from
      where it stopped. */
  lemma {:induction false} DecodeExtend(base: nat, s: seq<Byte>, t: seq<Byte>, pos: nat, formats: Formats)
    requires pos <= |s|
    ensures var a := Decode(base, s, pos, formats);
            var b := Decode(base, s + t, pos, formats);
            if a.failed then b.failed && b.formats == a.formats
            else b == Prepend(a.records, Decode(base, s + t, a.resume, a.formats))
    decreases |s| - pos
  {
    hide StepAt, FirstHeader;
    var a := Decode(base, s, pos, formats);
    PrependAll([], [], Decode(base, s + t, a.resume, a.formats));
    if pos < |s| {
      HeaderExtend(s, t, pos);
      var h := FirstHeader(s, pos);
      if h >= 0 {
        FirstHeaderUnique(s + t, h, h);
        match StepAt(base, s, h, formats)
        case Wait =>
        case Throw => StepExtend(base, s, t, h, formats);
        case Move(length, next, records) =>
          StepExtend(base, s, t, h, formats);
          DecodeExtend(base, s, t, h + length, next);
          var rest := Decode(base, s, h + length, next);
          PrependAll(records, rest.records, Decode(base, s + t, rest.resume, rest.formats));
      }
    }
  }

  /** Only the position in the stream matters, not how much of it was dropped. */
  lemma HeaderShift(a: seq<Byte>, s: seq<Byte>, pos: nat)
    ensures FirstHeader(a + s, |a| + pos)
            == if FirstHeader(s, pos) < 0 then -1 else |a| + FirstHeader(s, pos)
  {
    var h := FirstHeader(s, pos);
    FirstHeaderIs(s, pos);
    assert forall i :: i >= |a| ==> (HeaderAt(a + s, i) <==> HeaderAt(s, i - |a|));
    FirstHeaderUnique(a + s, |a| + pos, if h < 0 then -1 else |a| + h);
  }

  lemma StepShift(base: nat, a: seq<Byte>, s: seq<Byte>, h: nat, formats: Formats)
    requires HeaderAt(s, h)
    ensures HeaderAt(a + s, |a| + h)
    ensures StepAt(base, a + s, |a| + h, formats) == StepAt(base + |a|, s, h, formats)
  {
    assert forall i :: 0 <= i < |s| ==> (a + s)[|a| + i] == s[i];
    assert forall i, j :: 0 <= i <= j <= |s| ==> (a + s)[|a| + i..|a| + j] == s[i..j];
  }

  lemma {:induction false} DecodeShift(base: nat, a: seq<Byte>, s: seq<Byte>, pos: nat, formats: Formats)
    requires pos <= |s|
    ensures var o := Decode(base + |a|, s, pos, formats);
            Decode(base, a + s, |a| + pos, formats) == o.(resume := |a| + o.resume)
    decreases |s| - pos
  {
    hide StepAt, FirstHeader, HeaderAt;
    if pos < |s| {
      HeaderShift(a, s, pos);
      var h := FirstHeader(s, pos);
      if h >= 0 {
        StepShift(base, a, s, h, formats);
        match StepAt(base + |a|, s, h, formats)
        case Wait =>
        case Throw =>
        case Move(length, next, records) =>
          DecodeShift(base, a, s, h + length, next);
      }
    }
  }

  /** An unfinished packet is shorter than the longest packet. */
  lemma {:induction false} CarryIsShort(base: nat, s: seq<Byte>, pos: nat, formats: Formats)
    requires pos <= |s|
    ensures var o := Decode(base, s, pos, formats);
            pos <= o.resume && (!o.failed ==> |s| - o.resume <= LONGEST_PARTIAL_PACKET)
    decreases |s| - pos
  {
    hide StepAt;
    if pos < |s| {
      var h := FirstHeader(s, pos);
      if h >= 0 {
        match StepAt(base, s, h, formats)
        case Wait =>
        case Throw =>
        case Move(length, next, records) => CarryIsShort(base, s, h + length, next);
      }
    }
  }

  // ----------------------------------------------------------- chunk invariance

  /** Feed the chunks one after another, up to the first throw. */
  function FeedAll(st: State, chunks: seq<seq<Byte>>, max: nat): Fed
    decreases |chunks|
  {
    if chunks == [] then Fed(Ok([]), st)
    else
      var first := FeedStep(st, chunks[0], max);
      if first.result.Err? then first
      else
        var rest := FeedAll(first.state, chunks[1..], max);
        if rest.result.Err? then rest
        else Fed(Ok(first.result.value + rest.result.value), rest.state)
  }

  /** A decoder that stopped where o stopped, having been given stream. */
  function StateAfter(stream: seq<Byte>, o: Outcome): State
    requires o.resume <= |stream|
  {
    State(stream[o.resume..], o.resume, o.formats)
  }

  /** The state holds exactly the suffix of the stream not consumed yet. */
  ghost predicate Holds(st: State, stream: seq<Byte>) {
    var o := Decode(0, stream, 0, map[]);
    !o.failed && st == StateAfter(stream, o)
  }

  /** One feed, in terms of the whole stream so far. */
  lemma FeedStepIsDecode(stream: seq<Byte>, st: State, chunk: seq<Byte>, max: nat)
    requires Holds(st, stream) && max >= LONGEST_PARTIAL_PACKET
    ensures var before, after := Decode(0, stream, 0, map[]), Decode(0, stream + chunk, 0, map[]);
            var fed := FeedStep(st, chunk, max);
            if after.failed then fed.result.Err? && fed.state.formats == after.formats
            else fed.result.Ok? && after.records == before.records + fed.result.value
                 && Holds(fed.state, stream + chunk)
  {
    hide Decode;
    var o := Decode(0, stream, 0, map[]);
    DecodeExtend(0, stream, chunk, 0, map[]);
    if chunk == [] {
      assert stream + chunk == stream && o.records + [] == o.records;
    } else {
      var head, s := stream[..o.resume], st.buffer + chunk;
      assert head + s == stream + chunk;
      DecodeShift(0, head, s, 0, o.formats);
      CarryIsShort(o.resume, s, 0, o.formats);
      var p := Decode(o.resume, s, 0, o.formats);
      assert s[p.resume..] == (stream + chunk)[o.resume + p.resume..];
    }
  }

  /** The buffer is the end of what has been fed, and the offset says where it begins. */
  predicate EndOf(st: State, stream: seq<Byte>) {
    st.offset + |st.buffer| == |stream| && st.buffer == stream[st.offset..]
  }

  /** Whatever the bound, a feed leaves the end of the stream in the buffer: no more than
      the bound, or all there was when it throws. */
  lemma FeedKeepsEnd(stream: seq<Byte>, st: State, chunk: seq<Byte>, max: nat)
    requires EndOf(st, stream)
    ensures var fed := FeedStep(st, chunk, max);
            && EndOf(fed.state, stream + chunk)
            && (fed.result.Err? ==> fed.state.buffer == st.buffer + chunk)
            && (fed.result.Ok? && chunk != [] ==> |fed.state.buffer| <= max)
  {
    hide Decode;
    assert (stream + chunk)[st.offset..] == st.buffer + chunk;
    assert stream + [] == stream;
  }

  /** So offsets stay true however little of a stream a small bound keeps. */
  lemma {:induction false} FeedAllKeepsEnd(stream: seq<Byte>, st: State, chunks: seq<seq<Byte>>, max: nat)
    requires EndOf(st, stream)
    ensures FeedAll(st, chunks, max).result.Ok? ==> EndOf(FeedAll(st, chunks, max).state, stream + Concat(chunks))
    decreases |chunks|
  {
    hide FeedStep, EndOf, Concat;
    ConcatFirst(chunks);
    if chunks == [] {
      assert stream + [] == stream;
    } else {
      var first := FeedStep(st, chunks[0], max);
      FeedKeepsEnd(stream, st, chunks[0], max);
      FeedAllKeepsEnd(stream + chunks[0], first.state, chunks[1..], max);
      assert stream + Concat(chunks) == (stream + chunks[0]) + Concat(chunks[1..]);
    }
  }

  lemma {:induction false} FeedAllIsDecode(stream: seq<Byte>, st: State, chunks: seq<seq<Byte>>, max: nat)
    requires Holds(st, stream) && max >= LONGEST_PARTIAL_PACKET
    ensures var before, after := Decode(0, stream, 0, map[]), Decode(0, stream + Concat(chunks), 0, map[]);
            var fed := FeedAll(st, chunks, max);
            if after.failed then fed.result.Err?
            else fed.result.Ok? && after.records == before.records + fed.result.value
                 && Holds(fed.state, stream + Concat(chunks))
    decreases |chunks|
  {
    hide FeedStep, Decode, Concat;
    var before := Decode(0, stream, 0, map[]);
    ConcatFirst(chunks);
    if chunks == [] {
      assert stream + [] == stream && before.records + [] == before.records;
    } else {
      FeedStepIsDecode(stream, st, chunks[0], max);
      var first := FeedStep(st, chunks[0], max);
      assert stream + Concat(chunks) == (stream + chunks[0]) + Concat(chunks[1..]);
      if first.result.Ok? {
        FeedAllIsDecode(stream + chunks[0], first.state, chunks[1..], max);
        var rest := FeedAll(first.state, chunks[1..], max);
        if rest.result.Ok? {
          assert before.records + (first.result.value + rest.result.value)
              == before.records + first.result.value + rest.result.value;
        }
      } else {
        DecodeExtend(0, stream + chunks[0], Concat(chunks[1..]), 0, map[]);
      }
    }
  }

  /** Feeding in chunks and feeding at once agree: both throw, or both return the
      same records with the same offsets and end in the same state. */
  ghost predicate SameAsWhole(chunks: seq<seq<Byte>>, max: nat) {
    var parts, whole := FeedAll(INITIAL, chunks, max), FeedAll(INITIAL, [Concat(chunks)], max);
    if whole.result.Err? then parts.result.Err? else parts == whole
  }

  lemma ChunkInvariance(chunks: seq<seq<Byte>>, max: nat)
    requires max >= LONGEST_PARTIAL_PACKET
    ensures SameAsWhole(chunks, max)
    ensures var o := Decode(0, Concat(chunks), 0, map[]);
            var fed := FeedAll(INITIAL, chunks, max);
            if o.failed then fed.result.Err? else fed == Fed(Ok(o.records), StateAfter(Concat(chunks), o))
  {
    hide FeedStep, FeedAll, Concat;
    var stream := Concat(chunks);
    var o := Decode(0, stream, 0, map[]);
    assert Holds(INITIAL, []);
    FeedAllIsDecode([], INITIAL, chunks, max);
    FeedAllIsDecode([], INITIAL, [stream], max);
    ConcatFirst([stream]);
    assert [] + stream == stream;
    if !o.failed {
      assert [] + FeedAll(INITIAL, chunks, max).result.value == FeedAll(INITIAL, chunks, max).result.value;
      assert [] + FeedAll(INITIAL, [stream], max).result.value == FeedAll(INITIAL, [stream], max).result.value;
    }
  }
}

/** The streaming DataFlash decoder (src/data/dataflash/decoder.ts).

    Decode is the meaning of a byte stream: the records a decoder holding all of
    it would return. The class works on one buffer at a time; the lemmas show
    when the two agree. Field payloads are kept as raw slices. */
module DataFlash {
  import opened Text

  const HEADER_0: Byte := 0xa3
  const HEADER_1: Byte := 0x95
  const HEADER_BYTES := 3
  const FMT_TYPE: Byte := 128
  const FMT_BODY_BYTES := 86
  const FMT_PACKET_BYTES := HEADER_BYTES + FMT_BODY_BYTES
  const DEFAULT_MAX_BUFFER_BYTES := 1024

  /** The least buffer bound under which chunking never matters: a packet is at
      most 255 bytes long, so an incomplete one is at most 254. */
  const LONGEST_PARTIAL_PACKET := 254

  datatype Format = Format(kind: Byte, length: Byte, name: string, format: string, columns: seq<string>)

  datatype Field = Field(code: char, raw: seq<Byte>)

  datatype Record = Record(kind: Byte, name: string, offset: nat, length: nat, fields: map<string, Field>)

  type Formats = map<Byte, Format>

  // ---------------------------------------------------------------- FMT bodies

  function FieldSize(code: char): (size: nat)
    ensures size <= 64
  {
    if code in "aZ" then 64
    else if code == 'N' then 16
    else if code in "dqQ" then 8
    else if code in "iIfneEL" then 4
    else if code in "hHcC" then 2
    else if code in "bBM" then 1
    else 0
  }

  /** A format compiles unless one of its characters is unknown. */
  predicate Supported(format: string) {
    forall c :: c in format ==> FieldSize(c) > 0
  }

  /** The characters of bytes[i..end] up to the first NUL. */
  function CString(bytes: seq<Byte>, i: nat, end: nat): string
    requires end <= |bytes|
    decreases end - i
  {
    if i >= end || bytes[i] == 0 then [] else [bytes[i] as char] + CString(bytes, i + 1, end)
  }

  method ReadString(bytes: seq<Byte>, offset: nat, length: nat) returns (r: string)
    ensures r == Trim(CString(bytes, offset, if |bytes| < offset + length then |bytes| else offset + length))
  {
    hide Trim;
    var end := if |bytes| < offset + length then |bytes| else offset + length;
    var out := "";
    var i := offset;
    while i < end
      invariant offset <= i && (i <= end || i == offset)
      invariant CString(bytes, offset, end) == out + CString(bytes, i, end)
    {
      if bytes[i] == 0 { break; }
      assert out + CString(bytes, i, end) == out + [bytes[i] as char] + CString(bytes, i + 1, end);
      out := out + [bytes[i] as char];
      i := i + 1;
    }
    assert out + [] == out;
    return Trim(out);
  }

  function TrimAll(parts: seq<string>): (r: seq<string>)
    ensures |r| == |parts|
    ensures forall i :: 0 <= i < |parts| ==> r[i] == Trim(parts[i])
  {
    seq(|parts|, i requires 0 <= i < |parts| => Trim(parts[i]))
  }

  function NonEmpty(parts: seq<string>): seq<string> {
    if parts == [] then [] else (if parts[0] == [] then [] else [parts[0]]) + NonEmpty(parts[1..])
  }

  function ParseColumns(raw: string): seq<string> {
    NonEmpty(TrimAll(Split(raw, ',')))
  }

  function ParseFmt(body: seq<Byte>): (r: Option<Format>)
    ensures r.Some? ==> r.value.length as int >= HEADER_BYTES
  {
    if |body| < FMT_BODY_BYTES || (body[1] as int) < HEADER_BYTES then None
    else Some(Format(body[0], body[1],
                     Trim(CString(body, 2, 6)),
                     Trim(CString(body, 6, 22)),
                     ParseColumns(Trim(CString(body, 22, 86)))))
  }

  // ------------------------------------------------------------ record bodies

  function ColumnName(f: Format, i: nat): string {
    if i < |f.columns| then f.columns[i] else "field" + NatToString(i)
  }

  /** The fields from the i-th on, the body having been read up to cursor. A later
      column of the same name replaces an earlier one. */
  function Fields(f: Format, body: seq<Byte>, i: nat, cursor: nat): map<string, Field>
    requires i <= |f.format| && cursor <= |body|
    decreases |f.format| - i
  {
    if i == |f.format| || cursor + FieldSize(f.format[i]) > |body| then map[]
    else
      var next := cursor + FieldSize(f.format[i]);
      map[ColumnName(f, i) := Field(f.format[i], body[cursor..next])] + Fields(f, body, i + 1, next)
  }

  function RecordOf(f: Format, body: seq<Byte>, offset: nat): Record {
    Record(f.kind, f.name, offset, f.length as nat, Fields(f, body, 0, 0))
  }

  lemma AddField(m: map<string, Field>, name: string, field: Field, rest: map<string, Field>)
    ensures m + (map[name := field] + rest) == m[name := field] + rest
    ensures m + map[] == m
  {
  }

  method DecodeRecord(f: Format, body: seq<Byte>, offset: nat) returns (r: Record)
    ensures r == RecordOf(f, body, offset)
  {
    hide FieldSize, ColumnName;
    var fields: map<string, Field> := map[];
    var cursor := 0;
    var i := 0;
    while i < |f.format|
      invariant i <= |f.format| && 0 <= cursor <= |body|
      invariant Fields(f, body, 0, 0) == fields + Fields(f, body, i, cursor)
    {
      var size := FieldSize(f.format[i]);
      if cursor + size > |body| { break; }
      var name, field := ColumnName(f, i), Field(f.format[i], body[cursor..cursor + size]);
      ghost var rest := Fields(f, body, i + 1, cursor + size);
      assert Fields(f, body, i, cursor) == map[name := field] + rest;
      AddField(fields, name, field, rest);
      fields := fields[name := field];
      cursor := cursor + size;
      i := i + 1;
    }
    AddField(fields, "", Field(' ', []), map[]);
    return Record(f.kind, f.name, offset, f.length as nat, fields);
  }

  // ------------------------------------------------------ meaning of a stream

  predicate HeaderAt(s: seq<Byte>, i: int) {
    0 <= i && i + 1 < |s| && s[i] == HEADER_0 && s[i + 1] == HEADER_1
  }

  /** h is what a header search from start returns. */
  ghost predicate IsFirstHeader(s: seq<Byte>, start: nat, h: int) {
    if h < 0 then h == -1 && forall i :: start <= i ==> !HeaderAt(s, i)
    else start <= h && HeaderAt(s, h) && forall i :: start <= i < h ==> !HeaderAt(s, i)
  }

  function FirstHeader(s: seq<Byte>, start: nat): (h: int)
    ensures h == -1 || (start <= h && HeaderAt(s, h))
    decreases |s| - start
  {
    if start + 1 >= |s| then -1 else if HeaderAt(s, start) then start else FirstHeader(s, start + 1)
  }

  lemma {:induction false} FirstHeaderIs(s: seq<Byte>, start: nat)
    ensures IsFirstHeader(s, start, FirstHeader(s, start))
    decreases |s| - start
  {
    if start + 1 < |s| && !HeaderAt(s, start) { FirstHeaderIs(s, start + 1); }
  }

  /** The characterisation determines the result. */
  lemma FirstHeaderUnique(s: seq<Byte>, start: nat, h: int)
    requires IsFirstHeader(s, start, h)
    ensures h == FirstHeader(s, start)
  {
    FirstHeaderIs(s, start);
  }

  method FindHeader(bytes: seq<Byte>, start: nat) returns (h: int)
    ensures h == FirstHeader(bytes, start)
  {
    var i := start;
    while i + 1 < |bytes|
      invariant start <= i
      invariant FirstHeader(bytes, start) == FirstHeader(bytes, i)
    {
      if bytes[i] == HEADER_0 && bytes[i + 1] == HEADER_1 { return i; }
      i := i + 1;
    }
    return -1;
  }

  /** records decoded, format table, first byte not yet consumed, and whether an
      unsupported format stopped the decoder with an exception. */
  datatype Outcome = Outcome(records: seq<Record>, formats: Formats, resume: nat, failed: bool)

  function Prepend(records: seq<Record>, o: Outcome): Outcome {
    o.(records := records + o.records)
  }

  lemma PrependAll(a: seq<Record>, b: seq<Record>, o: Outcome)
    ensures Prepend(a, Prepend(b, o)) == Prepend(a + b, o)
    ensures Prepend([], o) == o
  {
    assert a + (b + o.records) == a + b + o.records;
  }

  lemma PrependNone(a: seq<Record>, formats: Formats, resume: nat, failed: bool)
    ensures Prepend(a, Outcome([], formats, resume, failed)) == Outcome(a, formats, resume, failed)
  {
    assert a + [] == a;
  }

  /** Decode s from pos, where s[0] is byte number base of the stream. */
  function Decode(base: nat, s: seq<Byte>, pos: nat, formats: Formats): (o: Outcome)
    requires pos <= |s|
    ensures o.resume <= |s|
    decreases |s| - pos, 1
  {
    var h := FirstHeader(s, pos);
    if pos == |s| then Outcome([], formats, pos, false)
    else if h < 0 then Outcome([], formats, |s| - Keep(s), false)
    else DecodeHeader(base, s, h, formats)
  }

  /** Bytes a headerless buffer keeps: a last 0xA3 may begin the next header. */
  function Keep(s: seq<Byte>): nat
    requires s != []
  {
    if s[|s| - 1] == HEADER_0 then 1 else 0
  }

  /** What the packet whose header is at h makes a decoder do: wait for more bytes,
      throw, or move on by length bytes with a new format table and new records. */
  datatype Step = Wait | Throw | Move(length: nat, formats: Formats, records: seq<Record>)

  function StepAt(base: nat, s: seq<Byte>, h: nat, formats: Formats): (step: Step)
    requires HeaderAt(s, h)
    ensures step.Move? ==> 0 < step.length <= |s| - h
    ensures step.Wait? ==> |s| - h <= LONGEST_PARTIAL_PACKET
  {
    if |s| - h < HEADER_BYTES then Wait
    else if s[h + 2] == FMT_TYPE then
      if |s| - h < FMT_PACKET_BYTES then Wait
      else
        match ParseFmt(s[h + HEADER_BYTES..h + FMT_PACKET_BYTES])
        case None => Move(FMT_PACKET_BYTES, formats, [])
        case Some(f) => if Supported(f.format) then Move(FMT_PACKET_BYTES, formats[f.kind := f], []) else Throw
    else if s[h + 2] !in formats || (formats[s[h + 2]].length as int) < HEADER_BYTES then Move(1, formats, [])
    else
      var f := formats[s[h + 2]];
      if |s| - h < f.length as int then Wait
      else Move(f.length as nat, formats, [RecordOf(f, s[h + HEADER_BYTES..h + f.length as int], base + h)])
  }

  /** When a step waits, and when it passes over one byte. */
  lemma StepCases(base: nat, s: seq<Byte>, h: nat, formats: Formats)
    requires HeaderAt(s, h)
    ensures |s| - h < HEADER_BYTES ==> StepAt(base, s, h, formats).Wait?
    ensures |s| - h >= HEADER_BYTES ==>
              var kind := s[h + 2];
              if kind == FMT_TYPE then |s| - h < FMT_PACKET_BYTES ==> StepAt(base, s, h, formats).Wait?
              else if kind !in formats || (formats[kind].length as int) < HEADER_BYTES then
                StepAt(base, s, h, formats) == Move(1, formats, [])
              else |s| - h < formats[kind].length as int ==> StepAt(base, s, h, formats).Wait?
  {
    hide ParseFmt, RecordOf;
  }

  /** Decode s from the header at h. */
  function DecodeHeader(base: nat, s: seq<Byte>, h: nat, formats: Formats): (o: Outcome)
    requires HeaderAt(s, h)
    ensures o.resume <= |s|
    decreases |s| - h, 0
  {
    match StepAt(base, s, h, formats)
    case Wait => Outcome([], formats, h, false)
    case Throw => Outcome([], formats, h, true)
    case Move(length, next, records) => Prepend(records, Decode(base, s, h + length, next))
  }

  // -------------------------------------------------------------- the decoder

  datatype State = State(buffer: seq<Byte>, offset: nat, formats: Formats)

  const INITIAL := State([], 0, map[])

  /** What one feed returns and leaves behind; Err when it throws. */
  datatype Fed = Fed(result: Result<seq<Record>>, state: State)

  function Bounded(st: State, max: nat): State {
    if |st.buffer| <= max then st
    else
      var keepStart := |st.buffer| - max;
      State(st.buffer[keepStart..], st.offset + keepStart, st.formats)
  }

  function FeedStep(st: State, chunk: seq<Byte>, max: nat): Fed {
    if chunk == [] then Fed(Ok([]), st)
    else
      var s := st.buffer + chunk;
      Settle(st.offset, s, Decode(st.offset, s, 0, st.formats), max)
  }

  function Settle(base: nat, s: seq<Byte>, o: Outcome, max: nat): Fed
    requires o.resume <= |s|
  {
    if o.failed then Fed(Err, State(s, base, o.formats))
    else Fed(Ok(o.records), Bounded(State(s[o.resume..], base + o.resume, o.formats), max))
  }

  class DataFlashDecoder {
    const maxBufferBytes: nat
    var buffer: seq<Byte>
    var streamOffset: nat
    var formats: Formats

    function Abs(): State
      reads this
    {
      State(buffer, streamOffset, formats)
    }

    constructor (maxBytes: Option<int>)
      ensures Abs() == INITIAL
      ensures maxBytes.None? ==> maxBufferBytes == 1024
      ensures maxBytes.Some? && maxBytes.value >= 89 ==> maxBufferBytes == maxBytes.value
      ensures maxBytes.Some? && maxBytes.value < 89 ==> maxBufferBytes == 89
    {
      var wanted := if maxBytes.None? then DEFAULT_MAX_BUFFER_BYTES else maxBytes.value;
      maxBufferBytes := if wanted < FMT_PACKET_BYTES then FMT_PACKET_BYTES else wanted;
      buffer, streamOffset, formats := [], 0, map[];
    }

    method EnforceBoundedBuffer()
      modifies this
      ensures Abs() == Bounded(old(Abs()), maxBufferBytes)
    {
      if |buffer| <= maxBufferBytes { return; }
      var keepStart := |buffer| - maxBufferBytes;
      streamOffset := streamOffset + keepStart;
      buffer := buffer[keepStart..];
    }

    /** Consume the buffer up to pos. */
    method Advance(pos: nat)
      requires pos <= |buffer|
      modifies this
      ensures Abs() == Bounded(State(old(buffer)[pos..], old(streamOffset) + pos, old(formats)), maxBufferBytes)
    {
      streamOffset := streamOffset + pos;
      buffer := buffer[pos..];
      EnforceBoundedBuffer();
    }

    /** Take the complete packet at pos: update the format table or return its record. */
    method TakePacket(pos: nat, packetLength: nat) returns (r: Result<seq<Record>>)
      requires HeaderAt(buffer, pos) && HEADER_BYTES <= packetLength <= |buffer| - pos
      requires if buffer[pos + 2] == FMT_TYPE then packetLength == FMT_PACKET_BYTES
               else buffer[pos + 2] in formats && packetLength == formats[buffer[pos + 2]].length as int
      modifies this`formats
      ensures StepAt(streamOffset, buffer, pos, old(formats))
              == if r.Ok? then Move(packetLength, formats, r.value) else Throw
      ensures r.Err? ==> formats == old(formats)
    {
      var kind, body := buffer[pos + 2], buffer[pos + HEADER_BYTES..pos + packetLength];
      if kind == FMT_TYPE {
        var parsed := ParseFmt(body);
        if parsed.Some? {
          if !Supported(parsed.value.format) { return Err; }
          formats := formats[parsed.value.kind := parsed.value];
        }
        return Ok([]);
      }
      var record := DecodeRecord(formats[kind], body, streamOffset + pos);
      return Ok([record]);
    }

    /** The loop of feed: decode the buffer, leaving the first unconsumed position in pos. */
    method DecodeBuffer() returns (r: Result<seq<Record>>, pos: nat)
      modifies this`formats
      ensures var o := Decode(streamOffset, buffer, 0, old(formats));
              formats == o.formats && if o.failed then r.Err? else r == Ok(o.records) && pos == o.resume
    {
      hide StepAt;
      ghost var base, s := streamOffset, buffer;
      ghost var whole := Decode(base, s, 0, formats);
      var records: seq<Record> := [];
      pos := 0;
      PrependAll([], [], whole);
      while pos < |buffer|
        invariant pos <= |buffer|
        invariant whole == Prepend(records, Decode(base, s, pos, formats))
      {
        var header := FindHeader(buffer, pos);
        if header < 0 {
          pos := |buffer| - if buffer[|buffer| - 1] == HEADER_0 then 1 else 0;
          PrependNone(records, formats, pos, false);
          return Ok(records), pos;
        }
        assert whole == Prepend(records, DecodeHeader(base, s, header, formats));
        StepCases(base, s, header, formats);
        pos := header;
        if |buffer| - pos < HEADER_BYTES { break; }
        var kind := buffer[pos + 2];
        if kind != FMT_TYPE && (kind !in formats || (formats[kind].length as int) < HEADER_BYTES) {
          PrependAll([], [], Decode(base, s, pos + 1, formats));
          pos := pos + 1;
          continue;
        }
        var packetLength: nat := if kind == FMT_TYPE then FMT_PACKET_BYTES else formats[kind].length as int;
        if |buffer| - pos < packetLength { break; }
        var taken := TakePacket(pos, packetLength);
        if taken.Err? {
          PrependNone(records, formats, pos, true);
          return Err, pos;
        }
        ghost var rest := Decode(base, s, pos + packetLength, formats);
        assert whole == Prepend(records, Prepend(taken.value, rest));
        PrependAll(records, taken.value, rest);
        records := records + taken.value;
        pos := pos + packetLength;
      }
      PrependNone(records, formats, pos, false);
      return Ok(records), pos;
    }

    method Feed(chunk: seq<Byte>) returns (r: Result<seq<Record>>)
      modifies this
      ensures Fed(r, Abs()) == FeedStep(old(Abs()), chunk, maxBufferBytes)
    {
      hide Decode, FirstHeader, HeaderAt;
      if chunk == [] { return Ok([]); }
      buffer := buffer + chunk;
      var pos;
      r, pos := DecodeBuffer();
      if r.Ok? { Advance(pos); }
    }

    /** Drop an incomplete trailing packet. */
    method Finish()
      modifies this
      ensures buffer == [] && streamOffset == old(streamOffset + |buffer|) && formats == old(formats)
    {
      streamOffset := streamOffset + |buffer|;
      buffer := [];
    }
  }
}

/** DataFlash logs as written: what the decoder makes of a rendered log, and how
    large its carry-over buffer has to be. */
module DataFlashLog {
  import opened Text
  import opened DataFlash
  import opened DataFlashLemmas

  /** A packet on the medium: an FMT definition or a record of some other type. */
  datatype Packet = FmtPacket(body: seq<Byte>) | DataPacket(kind: Byte, body: seq<Byte>)

  /** A packet preceded by bytes that belong to no packet. */
  datatype Entry = Entry(noise: seq<Byte>, packet: Packet)

  function RenderPacket(p: Packet): (r: seq<Byte>)
    ensures |r| == HEADER_BYTES + |p.body|
  {
    [HEADER_0, HEADER_1, if p.FmtPacket? then FMT_TYPE else p.kind] + p.body
  }

  function Render(log: seq<Entry>): seq<Byte> {
    if log == [] then [] else log[0].noise + RenderPacket(log[0].packet) + Render(log[1..])
  }

  ghost predicate NoHeader(s: seq<Byte>) {
    forall i :: !HeaderAt(s, i)
  }

  /** The format table after a packet: a later FMT of a type replaces an earlier one. */
  function Learn(formats: Formats, p: Packet): Formats {
    if p.FmtPacket? && ParseFmt(p.body).Some? then formats[ParseFmt(p.body).value.kind := ParseFmt(p.body).value]
    else formats
  }

  ghost predicate ValidPacket(p: Packet, formats: Formats) {
    match p
    case FmtPacket(body) =>
      |body| == FMT_BODY_BYTES && (ParseFmt(body).Some? ==> Supported(ParseFmt(body).value.format))
    case DataPacket(kind, body) =>
      && kind != FMT_TYPE && kind in formats
      && formats[kind].length as int == HEADER_BYTES + |body|
  }

  /** Every record's type has been defined, with the record's length, by the time
      it appears, and the noise holds no header. */
  ghost predicate ValidLog(log: seq<Entry>, formats: Formats) {
    log != [] ==>
      && NoHeader(log[0].noise)
      && ValidPacket(log[0].packet, formats)
      && ValidLog(log[1..], Learn(formats, log[0].packet))
  }

  /** The records of a log whose first byte is byte number base of the stream. */
  function Records(base: nat, log: seq<Entry>, formats: Formats): seq<Record>
    decreases |log|
  {
    if log == [] then []
    else
      var p := log[0].packet;
      var here := base + |log[0].noise|;
      (if p.DataPacket? && p.kind in formats then [RecordOf(formats[p.kind], p.body, here)] else [])
      + Records(here + |RenderPacket(p)|, log[1..], Learn(formats, p))
  }

  function LearnAll(log: seq<Entry>, formats: Formats): Formats
    decreases |log|
  {
    if log == [] then formats else LearnAll(log[1..], Learn(formats, log[0].packet))
  }

  lemma PacketFound(noise: seq<Byte>, p: Packet, rest: seq<Byte>)
    requires NoHeader(noise)
    ensures FirstHeader(noise + RenderPacket(p) + rest, 0) == |noise|
  {
    var s := noise + RenderPacket(p) + rest;
    assert forall i :: 0 <= i && i + 1 < |noise| ==> (HeaderAt(s, i) <==> HeaderAt(noise, i));
    assert s[|noise|] == HEADER_0 && s[|noise| + 1] == HEADER_1;
    FirstHeaderUnique(s, 0, |noise|);
  }

  lemma PacketStep(base: nat, noise: seq<Byte>, p: Packet, rest: seq<Byte>, formats: Formats)
    requires ValidPacket(p, formats)
    ensures var s := noise + RenderPacket(p) + rest;
            HeaderAt(s, |noise|)
            && StepAt(base, s, |noise|, formats)
               == Move(|RenderPacket(p)|, Learn(formats, p),
                       if p.DataPacket? then [RecordOf(formats[p.kind], p.body, base + |noise|)] else [])
  {
    hide ParseFmt, RecordOf, Supported;
    var s := noise + RenderPacket(p) + rest;
    var end := |noise| + |RenderPacket(p)|;
    assert s[|noise| + HEADER_BYTES..end] == p.body;
  }

  /** The decoder takes the first packet of noise + packet + rest and goes on. */
  lemma FirstPacket(base: nat, noise: seq<Byte>, p: Packet, rest: seq<Byte>, formats: Formats)
    requires NoHeader(noise) && ValidPacket(p, formats)
    ensures var front := noise + RenderPacket(p);
            var o := Decode(base + |front|, rest, 0, Learn(formats, p));
            Decode(base, front + rest, 0, formats)
            == Outcome((if p.DataPacket? then [RecordOf(formats[p.kind], p.body, base + |noise|)] else []) + o.records,
                       o.formats, |front| + o.resume, o.failed)
  {
    hide StepAt, ParseFmt, RecordOf, ValidPacket, Learn, RenderPacket, FirstHeader;
    var front := noise + RenderPacket(p);
    PacketFound(noise, p, rest);
    PacketStep(base, noise, p, rest, formats);
    DecodeShift(base, front, rest, 0, Learn(formats, p));
    assert Decode(base, front + rest, |front| + 0, Learn(formats, p))
        == Decode(base, front + rest, |noise| + |RenderPacket(p)|, Learn(formats, p));
  }

  lemma OnlyNoise(base: nat, tail: seq<Byte>, formats: Formats)
    requires NoHeader(tail)
    ensures Decode(base, tail, 0, formats)
            == Outcome([], formats, |tail| - (if tail == [] then 0 else Keep(tail)), false)
  {
    FirstHeaderIs(tail, 0);
  }

  /** Decoding undoes encoding: exactly the records written, in order, at their
      true offsets, each read under the latest FMT of its type. */
  lemma {:induction false} DecodeRender(base: nat, log: seq<Entry>, tail: seq<Byte>, formats: Formats)
    requires ValidLog(log, formats) && NoHeader(tail)
    ensures Decode(base, Render(log) + tail, 0, formats)
            == Outcome(Records(base, log, formats), LearnAll(log, formats),
                       |Render(log)| + |tail| - (if tail == [] then 0 else Keep(tail)), false)
    decreases |log|
  {
    hide RecordOf, ValidPacket, Learn, RenderPacket, Keep, Decode, NoHeader;
    if log == [] {
      assert Render(log) + tail == tail;
      OnlyNoise(base, tail, formats);
    } else {
      var noise, p := log[0].noise, log[0].packet;
      var rest := Render(log[1..]) + tail;
      var front := noise + RenderPacket(p);
      assert Render(log) + tail == front + rest;
      PacketIsData(p, formats);
      FirstPacket(base, noise, p, rest, formats);
      DecodeRender(base + |front|, log[1..], tail, Learn(formats, p));
    }
  }

  lemma PacketIsData(p: Packet, formats: Formats)
    requires ValidPacket(p, formats)
    ensures p.DataPacket? ==> p.kind in formats
  {
  }

  /** Any way of cutting a log into chunks gives back its records. */
  lemma LogRoundTrip(log: seq<Entry>, tail: seq<Byte>, chunks: seq<seq<Byte>>, max: nat)
    requires ValidLog(log, map[]) && NoHeader(tail)
    requires Concat(chunks) == Render(log) + tail
    requires max >= LONGEST_PARTIAL_PACKET
    ensures var fed := FeedAll(INITIAL, chunks, max);
            fed.result == Ok(Records(0, log, map[])) && fed.state.formats == LearnAll(log, map[])
  {
    hide Decode, FeedAll;
    ChunkInvariance(chunks, max);
    DecodeRender(0, log, tail, map[]);
  }

  // ------------------------------------------------------- records of any stream

  /** r was read off s: the header and type are where its offset says. */
  predicate ReadFrom(base: nat, s: seq<Byte>, r: Record) {
    && base <= r.offset && r.length >= HEADER_BYTES && r.offset - base + r.length <= |s|
    && HeaderAt(s, r.offset - base)
    && s[r.offset - base + 2] != FMT_TYPE
  }

  /** Records appear in stream order and no two share a byte. */
  ghost predicate Disjoint(records: seq<Record>) {
    forall i, j :: 0 <= i < j < |records| ==> records[i].offset + records[i].length <= records[j].offset
  }

  /** On any bytes at all, the records decoded are disjoint packets of the stream
      that lie before the first unconsumed byte. */
  lemma {:induction false} RecordsAreDisjoint(base: nat, s: seq<Byte>, pos: nat, formats: Formats)
    requires pos <= |s|
    ensures var o := Decode(base, s, pos, formats);
            && Disjoint(o.records)
            && forall r :: r in o.records ==>
                 ReadFrom(base, s, r) && base + pos <= r.offset && r.offset + r.length <= base + o.resume
    decreases |s| - pos
  {
    hide StepAt, ReadFrom;
    if pos < |s| {
      var h := FirstHeader(s, pos);
      hide FirstHeader, HeaderAt;
      if h >= 0 {
        match StepAt(base, s, h, formats)
        case Wait =>
        case Throw =>
        case Move(length, next, records) =>
          RecordsAreDisjoint(base, s, h + length, next);
          CarryIsShort(base, s, h + length, next);
          StepRecords(base, s, h, formats);
      }
    }
  }

  lemma StepRecords(base: nat, s: seq<Byte>, h: nat, formats: Formats)
    requires HeaderAt(s, h)
    ensures var step := StepAt(base, s, h, formats);
            step.Move? ==>
              && |step.records| <= 1
              && forall r :: r in step.records ==>
                   ReadFrom(base, s, r) && r.offset == base + h && r.length == step.length && r.length > 0
  {
    hide ParseFmt, Fields;
  }

  // ------------------------------------------------------------- field layout

  /** Bytes taken by the first i fields. */
  function Offset(format: string, i: nat): nat
    requires i <= |format|
  {
    if i == 0 then 0 else Offset(format, i - 1) + FieldSize(format[i - 1])
  }

  lemma {:induction false} OffsetGrows(format: string, i: nat, j: nat)
    requires i <= j <= |format|
    ensures Offset(format, i) <= Offset(format, j)
  {
    if i < j { OffsetGrows(format, i, j - 1); }
  }

  lemma {:induction false} FieldsAfter(f: Format, body: seq<Byte>, i: nat, k: nat)
    requires i <= |f.format| && k < |f.format| && Offset(f.format, i) <= |body|
    requires forall j :: k < j < |f.format| ==> ColumnName(f, j) != ColumnName(f, k)
    ensures i <= k && Offset(f.format, k + 1) <= |body| ==>
              var fields := Fields(f, body, i, Offset(f.format, i));
              ColumnName(f, k) in fields
              && fields[ColumnName(f, k)]
                 == Field(f.format[k], body[Offset(f.format, k)..Offset(f.format, k + 1)])
    ensures k < i ==> ColumnName(f, k) !in Fields(f, body, i, Offset(f.format, i))
    decreases |f.format| - i
  {
    hide ColumnName, FieldSize;
    if i < |f.format| && Offset(f.format, i + 1) <= |body| {
      FieldsAfter(f, body, i + 1, k);
    } else if i <= k {
      OffsetGrows(f.format, i, k + 1);
      if i < |f.format| { OffsetGrows(f.format, i + 1, k + 1); }
    }
  }

  /** A column's value is the slice after all earlier fields, of its own size; when
      the body is too short for it the column is absent. */
  lemma FieldLayout(f: Format, body: seq<Byte>, k: nat)
    requires k < |f.format|
    requires forall j :: 0 <= j < |f.format| && j != k ==> ColumnName(f, j) != ColumnName(f, k)
    ensures var r := RecordOf(f, body, 0);
            if Offset(f.format, k + 1) <= |body| then
              ColumnName(f, k) in r.fields
              && r.fields[ColumnName(f, k)] == Field(f.format[k], body[Offset(f.format, k)..Offset(f.format, k + 1)])
            else ColumnName(f, k) !in r.fields
  {
    FieldsAfter(f, body, 0, k);
    if Offset(f.format, k + 1) > |body| { FieldsShort(f, body, 0, k); }
  }

  lemma {:induction false} FieldsShort(f: Format, body: seq<Byte>, i: nat, k: nat)
    requires i <= |f.format| && k < |f.format| && Offset(f.format, i) <= |body| < Offset(f.format, k + 1)
    requires forall j :: 0 <= j < |f.format| && j != k ==> ColumnName(f, j) != ColumnName(f, k)
    ensures ColumnName(f, k) !in Fields(f, body, i, Offset(f.format, i))
    decreases |f.format| - i
  {
    hide ColumnName, FieldSize;
    if i < |f.format| && Offset(f.format, i + 1) <= |body| {
      FieldsShort(f, body, i + 1, k);
    }
  }

  // ----------------------------------------------------------- FMT definitions

  function Codes(s: string): (r: seq<Byte>)
    requires forall i :: 0 <= i < |s| ==> s[i] < 256 as char
    ensures |r| == |s|
  {
    seq(|s|, i requires 0 <= i < |s| && s[i] < 256 as char => s[i] as int as Byte)
  }

  function Zeros(n: nat): (r: seq<Byte>)
    ensures |r| == n && forall i :: 0 <= i < n ==> r[i] == 0
  {
    seq(n, _ => 0)
  }

  /** s in a field of n bytes, padded with NUL. */
  function PadField(s: string, n: nat): (r: seq<Byte>)
    requires |s| <= n && forall i :: 0 <= i < |s| ==> s[i] < 256 as char
    ensures |r| == n
  {
    Codes(s) + Zeros(n - |s|)
  }

  /** Text an FMT field holds unchanged: one-byte characters, no NUL, no outer space. */
  predicate FieldText(s: string) {
    (forall i :: 0 <= i < |s| ==> 0 as char < s[i] < 256 as char) && Trimmed(s)
  }

  predicate WritableFormat(f: Format) {
    && f.length as int >= HEADER_BYTES
    && |f.name| <= 4 && FieldText(f.name)
    && |f.format| <= 16 && FieldText(f.format)
    && (forall i :: 0 <= i < |f.columns| ==> f.columns[i] != [] && FieldText(f.columns[i]) && ',' !in f.columns[i])
    && |Join(f.columns, ',')| <= 64
  }

  lemma ColumnText(f: Format)
    requires WritableFormat(f)
    ensures FieldText(Join(f.columns, ','))
  {
    JoinTrimmed(f.columns, ',');
    forall i | 0 <= i < |Join(f.columns, ',')| ensures 0 as char < Join(f.columns, ',')[i] < 256 as char {
      JoinChars(f.columns, ',', Join(f.columns, ',')[i]);
    }
  }

  function FmtBody(f: Format): seq<Byte>
    requires WritableFormat(f)
  {
    ColumnText(f);
    [f.kind, f.length] + PadField(f.name, 4) + PadField(f.format, 16) + PadField(Join(f.columns, ','), 64)
  }

  lemma {:induction false} CStringCodes(body: seq<Byte>, i: nat, end: nat, s: string)
    requires i + |s| <= end <= |body|
    requires forall i :: 0 <= i < |s| ==> 0 as char < s[i] < 256 as char
    requires forall k :: 0 <= k < |s| ==> body[i + k] == s[k] as int
    requires i + |s| < end ==> body[i + |s|] == 0
    ensures CString(body, i, end) == s
    decreases |s|
  {
    if s != [] {
      CStringCodes(body, i + 1, end, s[1..]);
      assert s == [s[0]] + s[1..];
    }
  }

  lemma CStringPad(body: seq<Byte>, i: nat, n: nat, s: string)
    requires |s| <= n && FieldText(s) && i + n <= |body|
    requires body[i..i + n] == PadField(s, n)
    ensures Trim(CString(body, i, i + n)) == s
  {
    var field := body[i..i + n];
    assert forall k :: 0 <= k < |s| ==> field[k] == body[i + k];
    assert |s| < n ==> field[|s|] == body[i + |s|];
    CStringCodes(body, i, i + n, s);
    TrimTrimmed(s);
  }

  lemma {:induction false} NonEmptyAll(parts: seq<string>)
    requires forall i :: 0 <= i < |parts| ==> parts[i] != []
    ensures NonEmpty(parts) == parts
  {
    if parts != [] {
      NonEmptyAll(parts[1..]);
      assert parts == [parts[0]] + parts[1..];
    }
  }

  lemma ColumnsRoundTrip(columns: seq<string>)
    requires forall i :: 0 <= i < |columns| ==> columns[i] != [] && Trimmed(columns[i]) && ',' !in columns[i]
    ensures ParseColumns(Join(columns, ',')) == columns
  {
    hide Split, Join;
    if columns == [] {
      NoColumns();
    } else {
      SplitJoin(columns, ',');
      forall i | 0 <= i < |columns| ensures Trim(columns[i]) == columns[i] { TrimTrimmed(columns[i]); }
      hide Trim;
      assert TrimAll(columns) == columns;
      NonEmptyAll(columns);
    }
  }

  lemma NoColumns()
    ensures ParseColumns(Join([], ',')) == []
  {
    assert Split([], ',') == [[]];
    assert TrimAll([[]]) == [[]];
    assert NonEmpty([[]]) == NonEmpty([[]][1..]);
  }

  /** An FMT packet defines exactly the format it was written from. */
  lemma FmtRoundTrip(f: Format)
    requires WritableFormat(f)
    ensures |FmtBody(f)| == FMT_BODY_BYTES && ParseFmt(FmtBody(f)) == Some(f)
  {
    hide PadField, CString, ParseColumns;
    var body := FmtBody(f);
    ColumnText(f);
    assert body[2..2 + 4] == PadField(f.name, 4);
    assert body[6..6 + 16] == PadField(f.format, 16);
    assert body[22..22 + 64] == PadField(Join(f.columns, ','), 64);
    CStringPad(body, 2, 4, f.name);
    CStringPad(body, 6, 16, f.format);
    CStringPad(body, 22, 64, Join(f.columns, ','));
    ColumnsRoundTrip(f.columns);
  }

  // --------------------------------------------------- how large a buffer must be

  function TestFormat(length: Byte): Format { Format(1, length, "", "", []) }

  function TestData(length: Byte): (r: seq<Byte>)
    requires length > 3
    ensures |r| == length as int && r[length - 1] == 0
  {
    RenderPacket(DataPacket(1, Zeros(length as nat - HEADER_BYTES)))
  }

  function TestFmt(length: Byte): seq<Byte>
    requires length > 3
  {
    RenderPacket(FmtPacket(FmtBody(TestFormat(length))))
  }

  /** A definition of a packet length, then one such packet cut before its last byte. */
  function TestChunks(length: Byte): seq<seq<Byte>>
    requires length > 3
  {
    var data := TestData(length);
    [TestFmt(length) + data[..|data| - 1], [0]]
  }

  lemma TestWhole(length: Byte, max: nat)
    requires length > 3
    ensures var fed := FeedAll(INITIAL, [Concat(TestChunks(length))], max);
            fed.result.Ok? && |fed.result.value| == 1
  {
    hide FmtBody, ParseFmt, RecordOf, Decode, Render, RenderPacket;
    var f := TestFormat(length);
    FmtRoundTrip(f);
    var log := [Entry([], FmtPacket(FmtBody(f))), Entry([], DataPacket(1, Zeros(length as nat - HEADER_BYTES)))];
    TestRender(length);
    var stream := Concat(TestChunks(length));
    assert ValidLog(log[1..], Learn(map[], log[0].packet));
    DecodeRender(0, log, [], map[]);
    assert |Records(0, log, map[])| == 1 by {
      assert |Records(0 + |log[0].noise| + |RenderPacket(log[0].packet)|, log[1..], Learn(map[], log[0].packet))| == 1;
    }
    assert Render(log) + [] == stream && [] + stream == stream;
    assert stream != [];
  }

  lemma TestRender(length: Byte)
    requires length > 3
    ensures var log := [Entry([], FmtPacket(FmtBody(TestFormat(length)))),
                        Entry([], DataPacket(1, Zeros(length as nat - HEADER_BYTES)))];
            Render(log) == TestFmt(length) + TestData(length) == Concat(TestChunks(length)) != []
  {
    hide FmtBody, RenderPacket, Concat, Zeros;
    var fmt, data := TestFmt(length), TestData(length);
    var first, second := FmtPacket(FmtBody(TestFormat(length))), DataPacket(1, Zeros(length as nat - HEADER_BYTES));
    RenderTwo(first, second);
    var chunks := TestChunks(length);
    assert chunks[1..] == [[0]];
    ConcatFirst(chunks);
    ConcatFirst([[0]]);
    assert data == data[..|data| - 1] + [0];
    assert Concat(chunks) == fmt + data;
  }

  lemma RenderTwo(p: Packet, q: Packet)
    ensures Render([Entry([], p), Entry([], q)]) == RenderPacket(p) + RenderPacket(q)
  {
    hide RenderPacket;
    var log := [Entry([], p), Entry([], q)];
    assert log[1..] == [Entry([], q)] && log[1..][1..] == [];
    assert Render(log[1..]) == RenderPacket(q);
  }

  lemma TestRest(offset: nat, buffer: seq<Byte>, formats: Formats)
    requires |buffer| > 2 && NoHeader(buffer)
    ensures Decode(offset, buffer, 0, formats).records == [] && !Decode(offset, buffer, 0, formats).failed
  {
    FirstHeaderIs(buffer, 0);
  }

  lemma TestFirst(length: Byte)
    requires length > 3
    ensures var chunk := TestChunks(length)[0];
            var o := Decode(0, chunk, 0, map[]);
            o.records == [] && !o.failed && o.resume == FMT_PACKET_BYTES
            && chunk[o.resume..] == TestData(length)[..length - 1]
  {
    hide FmtBody, ParseFmt, RecordOf, RenderPacket, Decode, TestData;
    var f := TestFormat(length);
    FmtRoundTrip(f);
    var fmt, cut := TestFmt(length), TestData(length)[..length - 1];
    var p := FmtPacket(FmtBody(f));
    assert [] + RenderPacket(p) == fmt && |fmt| == FMT_PACKET_BYTES;
    FirstPacket(0, [], p, cut, map[]);
    assert NoHeader([]) && Supported([]);
    TestCut(length, Learn(map[], p));
    assert (fmt + cut)[|fmt|..] == cut;
  }

  lemma TestCut(length: Byte, formats: Formats)
    requires length > 3 && formats == map[1 := TestFormat(length)]
    ensures var o := Decode(FMT_PACKET_BYTES, TestData(length)[..length - 1], 0, formats);
            o == Outcome([], formats, 0, false)
  {
    FirstHeaderUnique(TestData(length)[..length - 1], 0, 0);
  }

  /** Below the bound the cut packet loses its header byte, and the record with it. */
  lemma TestParts(length: Byte, max: nat)
    requires length > 3 && max + 2 == length as int
    ensures var fed := FeedAll(INITIAL, TestChunks(length), max);
            fed.result == Ok([])
  {
    hide Decode, TestData;
    var chunks := TestChunks(length);
    TestFirst(length);
    assert [] + chunks[0] == chunks[0];
    var first := FeedStep(INITIAL, chunks[0], max);
    var cut := TestData(length)[..length - 1];
    assert first.state.buffer == cut[1..];
    var s := cut[1..] + [0];
    assert NoHeader(s) by { TestDataBytes(length); }
    TestRest(first.state.offset, s, first.state.formats);
    assert chunks[1..] == [[0]];
    var second := FeedStep(first.state, [0], max);
    assert second.result == Ok([]);
    assert FeedAll(second.state, [], max).result == Ok([]);
    var last: seq<seq<Byte>> := [[0]];
    assert last[0] == [0] && last[1..] == [] && second.result.value + [] == [];
    assert FeedAll(first.state, last, max).result == Ok([]);
  }

  lemma TestDataBytes(length: Byte)
    requires length > 3
    ensures forall i :: 1 <= i < length as int ==> TestData(length)[i] != HEADER_0
  {
  }

  /** Exactly how large the buffer bound must be. The constructor allows any bound
      from the length of an FMT packet up; only from 254 on does the way a stream
      is cut never matter. */
  lemma BoundIsSharp(max: nat)
    requires max >= FMT_PACKET_BYTES
    ensures (forall chunks: seq<seq<Byte>> :: SameAsWhole(chunks, max)) <==> max >= LONGEST_PARTIAL_PACKET
  {
    hide FeedAll, TestChunks;
    if max >= LONGEST_PARTIAL_PACKET {
      forall chunks: seq<seq<Byte>> ensures SameAsWhole(chunks, max) { ChunkInvariance(chunks, max); }
    } else {
      var length: Byte := max + 2;
      TestWhole(length, max);
      TestParts(length, max);
      assert !SameAsWhole(TestChunks(length), max);
    }
  }
}

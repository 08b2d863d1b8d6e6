/** What a decoded record says, in terms of the packets of the log alone. */
module DataFlashRecords {
  import opened Text
  import opened DataFlash
  import opened DataFlashLog

  // ------------------------------------------------------------ any stream at all

  /** The FMT packet at p of s defines g. */
  predicate DefinedAt(s: seq<Byte>, p: nat, g: Format) {
    && p + 89 <= |s| && s[p] == 0xa3 && s[p + 1] == 0x95 && s[p + 2] == 128
    && ParseFmt(s[p + 3..p + 89]) == Some(g)
  }

  /** Each format of the table was defined for its type by a packet before pos. */
  ghost predicate Sourced(s: seq<Byte>, pos: nat, formats: Formats) {
    forall kind :: kind in formats ==> HasSource(s, pos, kind, formats[kind])
  }

  ghost predicate HasSource(s: seq<Byte>, pos: nat, kind: Byte, g: Format) {
    g.kind == kind && exists p: nat :: p + FMT_PACKET_BYTES <= pos && DefinedAt(s, p, g)
  }

  /** r has the type its packet has in the stream, and the name and length that an FMT
      packet before it gives to that type. */
  ghost predicate Described(base: nat, s: seq<Byte>, r: Record) {
    && base <= r.offset && r.offset - base + 2 < |s|
    && s[r.offset - base] == 0xa3 && s[r.offset - base + 1] == 0x95 && s[r.offset - base + 2] == r.kind
    && exists p: nat, g :: p + FMT_PACKET_BYTES <= r.offset - base && DefinedAt(s, p, g)
                           && g.kind == r.kind && g.name == r.name && g.length as int == r.length
  }

  ghost predicate AllDescribed(base: nat, s: seq<Byte>, records: seq<Record>) {
    forall i :: 0 <= i < |records| ==> Described(base, s, records[i])
  }

  lemma SourcedLater(s: seq<Byte>, pos: nat, later: nat, formats: Formats)
    requires Sourced(s, pos, formats) && pos <= later
    ensures Sourced(s, later, formats)
  {
    forall kind | kind in formats ensures HasSource(s, later, kind, formats[kind]) {
      assert HasSource(s, pos, kind, formats[kind]);
    }
  }

  lemma StepSourced(base: nat, s: seq<Byte>, h: nat, formats: Formats)
    requires HeaderAt(s, h) && Sourced(s, h, formats)
    ensures var step := StepAt(base, s, h, formats);
            step.Move? ==>
              && Sourced(s, h + step.length, step.formats)
              && AllDescribed(base, s, step.records)
  {
    var step := StepAt(base, s, h, formats);
    hide ParseFmt, Supported, Fields, Described, RecordOf;
    if step.Move? {
      SourcedLater(s, h, h + step.length, formats);
      if s[h + 2] == FMT_TYPE {
        FmtSourced(base, s, h, formats);
      } else {
        DataDescribed(base, s, h, formats);
      }
    }
  }

  lemma DataDescribed(base: nat, s: seq<Byte>, h: nat, formats: Formats)
    requires HeaderAt(s, h) && Sourced(s, h, formats) && |s| - h >= HEADER_BYTES && s[h + 2] != FMT_TYPE
    ensures var step := StepAt(base, s, h, formats);
            step.Move? ==>
              && step.formats == formats && |step.records| <= 1
              && AllDescribed(base, s, step.records)
  {
    hide ParseFmt, Supported, Fields, DefinedAt;
    var step := StepAt(base, s, h, formats);
    if step.Move? && step.records != [] {
      var f := formats[s[h + 2]];
      assert HasSource(s, h, s[h + 2], f);
      var p: nat :| p + FMT_PACKET_BYTES <= h && DefinedAt(s, p, f);
      assert step.records[0].offset - base == h;
    }
  }

  lemma FmtSourced(base: nat, s: seq<Byte>, h: nat, formats: Formats)
    requires HeaderAt(s, h) && |s| - h >= FMT_PACKET_BYTES && s[h + 2] == FMT_TYPE
    requires Sourced(s, h + FMT_PACKET_BYTES, formats)
    ensures var step := StepAt(base, s, h, formats);
            step.Move? ==> step.records == [] && Sourced(s, h + step.length, step.formats)
  {
    hide ParseFmt, Supported, Fields;
    var step := StepAt(base, s, h, formats);
    var parsed := ParseFmt(s[h + HEADER_BYTES..h + FMT_PACKET_BYTES]);
    if step.Move? && parsed.Some? {
      assert DefinedAt(s, h, parsed.value);
      forall kind | kind in step.formats ensures HasSource(s, h + step.length, kind, step.formats[kind]) {
        if kind != parsed.value.kind { assert HasSource(s, h + FMT_PACKET_BYTES, kind, formats[kind]); }
      }
    }
  }

  lemma {:induction false} DescribedFrom(base: nat, s: seq<Byte>, pos: nat, formats: Formats)
    requires pos <= |s| && Sourced(s, pos, formats)
    ensures AllDescribed(base, s, Decode(base, s, pos, formats).records)
    decreases |s| - pos
  {
    hide StepAt, FirstHeader, Sourced, Described, HeaderAt;
    var h := FirstHeader(s, pos);
    if pos < |s| && h >= 0 {
      SourcedLater(s, pos, h, formats);
      StepSourced(base, s, h, formats);
      match StepAt(base, s, h, formats)
      case Wait =>
      case Throw =>
      case Move(length, next, records) =>
        DescribedFrom(base, s, h + length, next);
        assert Decode(base, s, pos, formats).records == records + Decode(base, s, h + length, next).records;
    }
  }

  /** On any bytes, every record has the type its packet has in the stream, and the
      name and length that an FMT packet before it gives to that type. */
  lemma DecodedAreDescribed(base: nat, s: seq<Byte>)
    ensures AllDescribed(base, s, Decode(base, s, 0, map[]).records)
  {
    DescribedFrom(base, s, 0, map[]);
  }

  /** The columns that an FMT packet does not name are named apart, field0 and so on. */
  lemma UnnamedColumns(g: Format, i: nat, j: nat)
    requires |g.columns| <= i && |g.columns| <= j
    ensures ColumnName(g, i) == ColumnName(g, j) <==> i == j
    ensures "field" <= ColumnName(g, i)
  {
    assert ColumnName(g, i)[5..] == NatToString(i) && ColumnName(g, j)[5..] == NatToString(j);
    if ColumnName(g, i) == ColumnName(g, j) { NatToStringInjective(i, j); }
  }

  // ------------------------------------------------------------------ written logs

  /** The entry is the FMT packet written from g. */
  predicate Defines(e: DataFlashLog.Entry, g: Format) {
    WritableFormat(g) && e.packet == FmtPacket(FmtBody(g))
  }

  /** g is the last definition of its type in the log. */
  ghost predicate Latest(log: seq<DataFlashLog.Entry>, g: Format) {
    exists j: nat :: j < |log| && Defines(log[j], g) && NoneAfter(log, j, g.kind)
  }

  ghost predicate NoneAfter(log: seq<DataFlashLog.Entry>, j: nat, kind: Byte) {
    forall l: nat, other :: j < l < |log| && Defines(log[l], other) ==> other.kind != kind
  }

  /** All definitions are written from formats. */
  ghost predicate AllWritten(log: seq<DataFlashLog.Entry>) {
    forall i :: 0 <= i < |log| && log[i].packet.FmtPacket? ==> exists g :: Defines(log[i], g)
  }

  function DataPackets(log: seq<DataFlashLog.Entry>): nat {
    if log == [] then 0 else DataPackets(log[..|log| - 1]) + (if log[|log| - 1].packet.DataPacket? then 1 else 0)
  }

  lemma {:induction false} LearnAllSnoc(log: seq<DataFlashLog.Entry>, formats: Formats)
    requires log != []
    ensures LearnAll(log, formats) == Learn(LearnAll(log[..|log| - 1], formats), log[|log| - 1].packet)
    decreases |log|
  {
    hide Learn;
    if |log| > 1 {
      LearnAllSnoc(log[1..], Learn(formats, log[0].packet));
      assert log[1..][..|log| - 2] == log[..|log| - 1][1..];
    }
  }

  /** The table holds the last definition of each type. */
  lemma {:induction false} LatestLearnt(log: seq<DataFlashLog.Entry>, g: Format)
    requires AllWritten(log) && Latest(log, g)
    ensures var formats := LearnAll(log, map[]); g.kind in formats && formats[g.kind] == g
  {
    hide FmtBody, ParseFmt, WritableFormat;
    var front, n := log[..|log| - 1], |log| - 1;
    LearnAllSnoc(log, map[]);
    hide LearnAll;
    var j: nat :| j < |log| && Defines(log[j], g) && NoneAfter(log, j, g.kind);
    if j == n {
      FmtRoundTrip(g);
    } else {
      assert Defines(front[j], g) && NoneAfter(front, j, g.kind);
      assert forall i :: 0 <= i < n ==> front[i] == log[i];
      LatestLearnt(front, g);
      if log[n].packet.FmtPacket? {
        var other :| Defines(log[n], other);
        FmtRoundTrip(other);
      }
    }
  }

  lemma {:induction false} DataPacketsFirst(log: seq<DataFlashLog.Entry>)
    requires log != []
    ensures DataPackets(log) == (if log[0].packet.DataPacket? then 1 else 0) + DataPackets(log[1..])
  {
    if |log| > 1 {
      DataPacketsFirst(log[..|log| - 1]);
      assert log[..|log| - 1][1..] == log[1..][..|log| - 2];
    } else {
      assert log[..0] == [] && log[1..] == [];
    }
  }

  /** The n-th record is that of packet p, read under this table. */
  predicate HasPlace(records: seq<Record>, n: nat, table: Formats, p: Packet, here: nat) {
    && p.DataPacket? && n < |records| && p.kind in table
    && records[n] == RecordOf(table[p.kind], p.body, here)
    && table[p.kind].length as int == HEADER_BYTES + |p.body|
  }

  lemma PlaceAfter(records: seq<Record>, k: nat, n: nat, table: Formats, p: Packet, here: nat)
    requires k <= |records| && HasPlace(records[k..], n, table, p, here)
    ensures HasPlace(records, k + n, table, p, here)
  {
    hide RecordOf;
  }

  /** The record of the packet at i is in its place among the records. */
  lemma {:induction false} RecordPlace(base: nat, log: seq<DataFlashLog.Entry>, formats: Formats, i: nat)
    requires ValidLog(log, formats) && i < |log| && log[i].packet.DataPacket?
    ensures HasPlace(Records(base, log, formats), DataPackets(log[..i]), LearnAll(log[..i], formats), log[i].packet,
                     base + |Render(log[..i])| + |log[i].noise|)
    decreases |log|
  {
    hide Learn, RenderPacket, HasPlace, Render, LearnAll, Records, ValidLog, DataPackets;
    if i == 0 {
      FirstPlace(base, log, formats);
    } else {
      var first := log[0].packet;
      var next := base + |log[0].noise| + |RenderPacket(first)|;
      PrefixFirst(log, formats, i);
      RecordsFirst(base, log, formats);
      var rest, before, k := log[1..], log[1..][..i - 1], if first.DataPacket? then 1 else 0;
      RecordPlace(next, rest, Learn(formats, first), i - 1);
      PlaceAfter(Records(base, log, formats), k, DataPackets(before), LearnAll(before, Learn(formats, first)),
                 log[i].packet, next + |Render(before)| + |log[i].noise|);
    }
  }

  lemma FirstPlace(base: nat, log: seq<DataFlashLog.Entry>, formats: Formats)
    requires log != [] && ValidLog(log, formats) && log[0].packet.DataPacket?
    ensures HasPlace(Records(base, log, formats), DataPackets(log[..0]), LearnAll(log[..0], formats), log[0].packet,
                     base + |Render(log[..0])| + |log[0].noise|)
  {
    hide Learn, RecordOf, RenderPacket, NoHeader;
    assert log[..0] == [];
  }

  lemma PrefixFirst(log: seq<DataFlashLog.Entry>, formats: Formats, i: nat)
    requires 0 < i < |log|
    ensures var before, first := log[1..][..i - 1], log[0].packet;
            && |Render(log[..i])| == |log[0].noise| + |RenderPacket(first)| + |Render(before)|
            && LearnAll(log[..i], formats) == LearnAll(before, Learn(formats, first))
            && DataPackets(log[..i]) == (if first.DataPacket? then 1 else 0) + DataPackets(before)
            && log[1..][i - 1] == log[i]
  {
    hide Learn, RenderPacket, DataPackets;
    DataPacketsFirst(log[..i]);
    assert log[..i][1..] == log[1..][..i - 1] && log[..i][0] == log[0];
  }

  lemma RecordsFirst(base: nat, log: seq<DataFlashLog.Entry>, formats: Formats)
    requires log != [] && ValidLog(log, formats)
    ensures ValidLog(log[1..], Learn(formats, log[0].packet))
    ensures var first := log[0].packet;
            var rest := Records(base + |log[0].noise| + |RenderPacket(first)|, log[1..], Learn(formats, first));
            var all, n := Records(base, log, formats), if first.DataPacket? then 1 else 0;
            |all| == n + |rest| && all[n..] == rest
  {
    hide Learn, RecordOf, RenderPacket, NoHeader;
  }

  lemma {:induction false} RecordCount(base: nat, log: seq<DataFlashLog.Entry>, formats: Formats)
    requires ValidLog(log, formats)
    ensures |Records(base, log, formats)| == DataPackets(log)
    decreases |log|
  {
    hide Learn, RecordOf, RenderPacket;
    if log != [] {
      var first := log[0].packet;
      RecordCount(base + |log[0].noise| + |RenderPacket(first)|, log[1..], Learn(formats, first));
      DataPacketsFirst(log);
    }
  }

  /** r is of type g, under its name, length and columns, each column holding its slice
      of the body. */
  ghost predicate Says(r: Record, g: Format, body: seq<Byte>, offset: nat) {
    && r.kind == g.kind && r.name == g.name && r.length == g.length as int && r.offset == offset
    && forall k :: 0 <= k < |g.format| && SoleColumn(g, k) ==> ColumnHolds(g, body, r.fields, k)
  }

  /** The n-th data packet of a written log, cut in any chunks, comes back as the n-th
      record: under the last definition of its type before it, and at its offset. */
  lemma RecordsAreWritten(log: seq<DataFlashLog.Entry>, tail: seq<Byte>, chunks: seq<seq<Byte>>, max: nat,
                          i: nat, g: Format)
    requires ValidLog(log, map[]) && AllWritten(log) && NoHeader(tail)
    requires Concat(chunks) == Render(log) + tail && max >= LONGEST_PARTIAL_PACKET
    requires i < |log| && log[i].packet.DataPacket? && Latest(log[..i], g) && g.kind == log[i].packet.kind
    ensures var result := DataFlashLemmas.FeedAll(INITIAL, chunks, max).result;
            && result.Ok? && |result.value| == DataPackets(log) && DataPackets(log[..i]) < |result.value|
            && Says(result.value[DataPackets(log[..i])], g, log[i].packet.body,
                    |Render(log[..i])| + |log[i].noise|)
    ensures g.length as int == HEADER_BYTES + |log[i].packet.body|
  {
    hide RecordOf, FmtBody, ParseFmt, Learn, LearnAll, Records, Render, ValidPacket, ValidLog, NoHeader, Concat, Says,
         WritableFormat, DataPackets, DataFlashLemmas.FeedAll;
    LogRoundTrip(log, tail, chunks, max);
    RecordPlace(0, log, map[], i);
    RecordCount(0, log, map[]);
    PrefixWritten(log, i);
    LatestLearnt(log[..i], g);
    WhatRecordSays(g, log[i].packet.body, |Render(log[..i])| + |log[i].noise|);
  }

  lemma PrefixWritten(log: seq<DataFlashLog.Entry>, i: nat)
    requires AllWritten(log) && i <= |log|
    ensures AllWritten(log[..i])
  {
    hide Defines;
    assert forall j :: 0 <= j < i ==> log[..i][j] == log[j];
  }

  ghost predicate SoleColumn(g: Format, k: nat)
    requires k < |g.format|
  {
    forall j :: 0 <= j < |g.format| && j != k ==> ColumnName(g, j) != ColumnName(g, k)
  }

  /** The k-th column holds the bytes after all earlier ones, or is absent when the
      body ends before. */
  predicate ColumnHolds(g: Format, body: seq<Byte>, fields: map<string, Field>, k: nat)
    requires k < |g.format|
  {
    var name, from, to := ColumnName(g, k), Offset(g.format, k), Offset(g.format, k + 1);
    if to <= |body| then
      name in fields && fields[name].code == g.format[k] && from <= to && fields[name].raw == body[from..to]
    else name !in fields
  }

  lemma WhatRecordSays(g: Format, body: seq<Byte>, offset: nat)
    ensures Says(RecordOf(g, body, offset), g, body, offset)
  {
    var r := RecordOf(g, body, offset);
    hide Offset, Fields, ColumnName;
    forall k | 0 <= k < |g.format| && SoleColumn(g, k) ensures ColumnHolds(g, body, r.fields, k) {
      FieldLayout(g, body, k);
      OffsetGrows(g.format, k, k + 1);
    }
  }
}

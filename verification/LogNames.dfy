/** The names of a decoded log (src/data/dataflash/decoder.ts) hold no NUL, so the text
    keys of the log index (src/data/log-query/engine.ts) tell its series apart. */
module LogNames {
  import opened Text
  import opened DataFlash
  import opened DataFlashLemmas
  import opened LogIndex

  predicate Clean(s: string) { NUL !in s }

  predicate CleanFormat(f: Format) {
    Clean(f.name) && forall i :: 0 <= i < |f.columns| ==> Clean(f.columns[i])
  }

  predicate CleanFormats(formats: Formats) {
    forall kind :: kind in formats ==> CleanFormat(formats[kind])
  }

  predicate CleanRecord(r: Record) {
    Clean(r.name) && forall name :: name in r.fields ==> Clean(name)
  }

  predicate CleanRecords(records: seq<Record>) {
    forall i :: 0 <= i < |records| ==> CleanRecord(records[i])
  }

  lemma {:induction false} CStringClean(bytes: seq<Byte>, i: nat, end: nat)
    requires end <= |bytes|
    ensures Clean(CString(bytes, i, end))
    decreases end - i
  {
    if i < end && bytes[i] != 0 { CStringClean(bytes, i + 1, end); }
  }

  lemma {:induction false} TrimStartClean(s: string)
    requires Clean(s)
    ensures Clean(TrimStart(s))
  {
    if s != "" { TrimStartClean(s[1..]); }
  }

  lemma {:induction false} TrimEndClean(s: string)
    requires Clean(s)
    ensures Clean(TrimEnd(s))
  {
    if s != "" { TrimEndClean(s[..|s| - 1]); }
  }

  lemma TrimClean(s: string)
    requires Clean(s)
    ensures Clean(Trim(s))
  {
    TrimStartClean(s);
    TrimEndClean(TrimStart(s));
  }

  lemma {:induction false} SplitClean(s: string, sep: char)
    requires Clean(s)
    ensures forall i :: 0 <= i < |Split(s, sep)| ==> Clean(Split(s, sep)[i])
  {
    if s != "" {
      assert s[0] in s;
      SplitClean(s[1..], sep);
    }
  }

  lemma {:induction false} NonEmptyClean(parts: seq<string>)
    requires forall i :: 0 <= i < |parts| ==> Clean(parts[i])
    ensures forall i :: 0 <= i < |NonEmpty(parts)| ==> Clean(NonEmpty(parts)[i])
  {
    if parts != [] { NonEmptyClean(parts[1..]); }
  }

  lemma ColumnsClean(raw: string)
    requires Clean(raw)
    ensures forall i :: 0 <= i < |ParseColumns(raw)| ==> Clean(ParseColumns(raw)[i])
  {
    hide Clean;
    var parts := Split(raw, ',');
    SplitClean(raw, ',');
    forall i | 0 <= i < |parts| ensures Clean(TrimAll(parts)[i]) { TrimClean(parts[i]); }
    NonEmptyClean(TrimAll(parts));
  }

  /** Whatever bytes an FMT packet holds, the names it defines hold no NUL. */
  lemma FmtClean(body: seq<Byte>)
    ensures var f := ParseFmt(body); f.Some? ==> CleanFormat(f.value)
  {
    hide Clean, ParseColumns;
    if |body| >= FMT_BODY_BYTES {
      CStringClean(body, 2, 6);
      TrimClean(CString(body, 2, 6));
      CStringClean(body, 22, 86);
      TrimClean(CString(body, 22, 86));
      ColumnsClean(Trim(CString(body, 22, 86)));
    }
  }

  lemma {:induction false} FieldsClean(f: Format, body: seq<Byte>, i: nat, cursor: nat)
    requires CleanFormat(f) && i <= |f.format| && cursor <= |body|
    ensures forall name :: name in Fields(f, body, i, cursor) ==> Clean(name)
    decreases |f.format| - i
  {
    hide FieldSize;
    if i < |f.format| && cursor + FieldSize(f.format[i]) <= |body| {
      assert Clean("field" + NatToString(i));
      hide Clean;
      FieldsClean(f, body, i + 1, cursor + FieldSize(f.format[i]));
    }
  }

  lemma StepClean(base: nat, s: seq<Byte>, h: nat, formats: Formats)
    requires HeaderAt(s, h) && CleanFormats(formats)
    ensures var step := StepAt(base, s, h, formats);
            step.Move? ==> CleanFormats(step.formats) && CleanRecords(step.records)
  {
    hide Clean, ParseFmt, Fields, Supported;
    if |s| - h >= FMT_PACKET_BYTES { FmtClean(s[h + HEADER_BYTES..h + FMT_PACKET_BYTES]); }
    if |s| - h >= HEADER_BYTES && s[h + 2] in formats {
      var f := formats[s[h + 2]];
      if HEADER_BYTES <= f.length as int <= |s| - h {
        FieldsClean(f, s[h + HEADER_BYTES..h + f.length as int], 0, 0);
      }
    }
  }

  /** On any bytes at all, every name of every record decoded holds no NUL. */
  lemma {:induction false} DecodeClean(base: nat, s: seq<Byte>, pos: nat, formats: Formats)
    requires pos <= |s| && CleanFormats(formats)
    ensures var o := Decode(base, s, pos, formats); CleanFormats(o.formats) && CleanRecords(o.records)
    decreases |s| - pos
  {
    hide StepAt, CleanFormats, CleanRecord, FirstHeader;
    var h := FirstHeader(s, pos);
    if pos < |s| && h >= 0 {
      StepClean(base, s, h, formats);
      match StepAt(base, s, h, formats)
      case Wait =>
      case Throw =>
      case Move(length, next, records) => DecodeClean(base, s, h + length, next);
    }
  }

  lemma FeedStepClean(st: State, chunk: seq<Byte>, max: nat)
    requires CleanFormats(st.formats)
    ensures var fed := FeedStep(st, chunk, max);
            CleanFormats(fed.state.formats) && (fed.result.Ok? ==> CleanRecords(fed.result.value))
  {
    hide Decode, CleanFormats, CleanRecord;
    if chunk != [] { DecodeClean(st.offset, st.buffer + chunk, 0, st.formats); }
  }
  /** However a log is cut and whatever the buffer bound, every record returned has a
      name and columns without NUL. */
  lemma {:induction false} FeedAllClean(st: State, chunks: seq<seq<Byte>>, max: nat)
    requires CleanFormats(st.formats)
    ensures var fed := FeedAll(st, chunks, max);
            CleanFormats(fed.state.formats) && (fed.result.Ok? ==> CleanRecords(fed.result.value))
    decreases |chunks|
  {
    hide FeedStep, CleanFormats, CleanRecord;
    if chunks != [] {
      FeedStepClean(st, chunks[0], max);
      FeedAllClean(FeedStep(st, chunks[0], max).state, chunks[1..], max);
    }
  }

  /** No field of a decoded record shares its text key with any other key at all. */
  lemma DecodedKeys(chunks: seq<seq<Byte>>, max: nat, i: nat, field: string, other: Key)
    requires var r := FeedAll(INITIAL, chunks, max).result; r.Ok? && i < |r.value| && field in r.value[i].fields
    ensures var key := Key(FeedAll(INITIAL, chunks, max).result.value[i].name, field);
            KeyText(key) == KeyText(other) <==> key == other
  {
    hide FeedAll, KeyText;
    FeedAllClean(INITIAL, chunks, max);
    var r := FeedAll(INITIAL, chunks, max).result.value[i];
    assert CleanRecord(r);
    var key := Key(r.name, field);
    if KeyText(key) == KeyText(other) { KeyTextIsKey(key, other); }
  }
}

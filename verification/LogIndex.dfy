/** The columnar log index (src/data/log-query/engine.ts). */
module LogIndex {
  import opened Text
  import opened Numbers

  // ------------------------------------------------------------------- records

  datatype Value = NumberValue(f: Float) | BigValue(i: int) | OtherValue

  /** Field entries in the order Object.entries gives them. */
  datatype LogRecord = LogRecord(name: string, fields: seq<(string, Value)>)

  const MAX_SAFE_INTEGER := 9007199254740991

  function ToNumber(v: Value): Option<real> {
    match v
    case NumberValue(f) => if f.Fin? then Some(f.r) else None
    case BigValue(i) => if -MAX_SAFE_INTEGER <= i <= MAX_SAFE_INTEGER then Some(i as real) else None
    case OtherValue => None
  }

  function Lookup(fields: seq<(string, Value)>, name: string): Option<Value> {
    if fields == [] then None else if fields[0].0 == name then Some(fields[0].1) else Lookup(fields[1..], name)
  }

  /** The time of a record: its TimeUS, or its position in the log. */
  function TimestampUs(r: LogRecord, position: nat): real {
    var t := Lookup(r.fields, "TimeUS");
    if t.Some? && ToNumber(t.value).Some? then ToNumber(t.value).value else position as real
  }

  datatype Key = Key(message: string, field: string)

  /** The text the source uses as a map key. */
  function KeyText(k: Key): string { k.message + [NUL] + k.field }

  const NUL := 0 as char

  /** Exactly when two keys share a text: they are the same, or the longer message is
      the shorter one, a NUL and more, and that more begins the field of the other. */
  lemma KeysCollide(a: Key, b: Key)
    requires |a.message| <= |b.message|
    ensures KeyText(a) == KeyText(b)
            <==> a == b || (a.message + [NUL] <= b.message && a.field == b.message[|a.message| + 1..] + [NUL] + b.field)
  {
    var n, s, t := |a.message|, KeyText(a), KeyText(b);
    assert a.message == s[..n] && b.message == t[..|b.message|];
    assert a.field == s[n + 1..] && b.field == t[|b.message| + 1..];
    if s == t && n < |b.message| {
      assert b.message[n] == s[n] == NUL && b.message[..n] == a.message;
      assert a.field == b.message[n + 1..] + [NUL] + b.field;
    }
    if a.message + [NUL] <= b.message && a.field == b.message[n + 1..] + [NUL] + b.field {
      assert b.message == a.message + [NUL] + b.message[n + 1..];
    }
  }

  lemma HoldsNul(x: string, y: string)
    ensures NUL in x + [NUL] + y
  {
    assert (x + [NUL] + y)[|x|] == NUL;
  }

  /** A key without a NUL shares its text with no other key, whatever a query asks for.
      LogNames proves that the keys of a decoded log are such keys. */
  lemma KeyTextIsKey(a: Key, b: Key)
    requires NUL !in a.message && NUL !in a.field && KeyText(a) == KeyText(b)
    ensures a == b
  {
    if |a.message| <= |b.message| {
      if |a.message| < |b.message| { HoldsNul(b.message[|a.message| + 1..], b.field); }
      KeysCollide(a, b);
    } else {
      KeysCollide(b, a);
      assert a.message[|b.message|] in a.message;
    }
  }

  // ------------------------------------------------------------------ ingestion

  datatype Sample = Sample(t: real, value: real)

  /** The samples of key in one record. */
  function FieldSamples(name: string, fields: seq<(string, Value)>, t: real, key: Key): seq<Sample> {
    if fields == [] then []
    else
      var last := fields[|fields| - 1];
      FieldSamples(name, fields[..|fields| - 1], t, key)
      + (if Key(name, last.0) == key && ToNumber(last.1).Some? then [Sample(t, ToNumber(last.1).value)] else [])
  }

  /** A plain scan of the log: every sample of key, in arrival order. */
  function Samples(records: seq<LogRecord>, key: Key): seq<Sample> {
    if records == [] then []
    else
      var n := |records| - 1;
      Samples(records[..n], key)
      + FieldSamples(records[n].name, records[n].fields, TimestampUs(records[n], n), key)
  }

  function TimesOf(s: seq<Sample>): (r: seq<real>)
    ensures |r| == |s| && forall i :: 0 <= i < |s| ==> r[i] == s[i].t
  {
    seq(|s|, i requires 0 <= i < |s| => s[i].t)
  }

  function ValuesOf(s: seq<Sample>): (r: seq<real>)
    ensures |r| == |s| && forall i :: 0 <= i < |s| ==> r[i] == s[i].value
  {
    seq(|s|, i requires 0 <= i < |s| => s[i].value)
  }

  datatype MutableSeries = MutableSeries(times: seq<real>, values: seq<real>, ordered: bool, lastTime: Option<real>)

  /** A bucket holds exactly these samples, and knows whether they came in order. */
  ghost predicate Holds(b: MutableSeries, samples: seq<Sample>) {
    && b.times == TimesOf(samples) && b.values == ValuesOf(samples)
    && (b.ordered <==> Sorted(b.times))
    && b.lastTime == if samples == [] then None else Some(samples[|samples| - 1].t)
  }

  const EMPTY_BUCKET := MutableSeries([], [], true, None)

  lemma SortedAppend(s: seq<real>, t: real)
    ensures Sorted(s + [t]) <==> Sorted(s) && (s == [] || s[|s| - 1] <= t)
  {
    var r := s + [t];
    assert forall i :: 0 <= i < |s| ==> r[i] == s[i];
    if Sorted(r) {
      assert forall i, j :: 0 <= i <= j < |s| ==> r[i] <= r[j];
      assert s != [] ==> r[|s| - 1] <= r[|s|];
    } else if Sorted(s) {
      var i, j :| 0 <= i <= j < |r| && r[i] > r[j];
      assert j == |s| && i < |s| && s[i] <= s[|s| - 1];
    }
  }

  method AddSample(b: MutableSeries, t: real, value: real, ghost samples: seq<Sample>) returns (r: MutableSeries)
    requires Holds(b, samples)
    ensures Holds(r, samples + [Sample(t, value)])
  {
    SortedAppend(b.times, t);
    var ordered := b.ordered && !(b.lastTime.Some? && t < b.lastTime.value);
    r := MutableSeries(b.times + [t], b.values + [value], ordered, Some(t));
    assert r.times == TimesOf(samples + [Sample(t, value)]);
    assert r.values == ValuesOf(samples + [Sample(t, value)]);
  }

  /** The scan of some records and of the first fields of the next. */
  function SamplesWith(records: seq<LogRecord>, name: string, fields: seq<(string, Value)>, t: real,
                       key: Key): seq<Sample> {
    Samples(records, key) + FieldSamples(name, fields, t, key)
  }

  ghost predicate BucketFor(m: map<Key, MutableSeries>, key: Key, samples: seq<Sample>) {
    (key in m <==> samples != []) && (key in m ==> Holds(m[key], samples))
  }

  /** The buckets are those of the scan: one for each key that has a sample. */
  ghost predicate Ingested(m: map<Key, MutableSeries>, records: seq<LogRecord>) {
    forall key :: BucketFor(m, key, Samples(records, key))
  }

  method Ingest(records: seq<LogRecord>) returns (m: map<Key, MutableSeries>)
    ensures Ingested(m, records)
  {
    hide Holds, FieldSamples;
    m := map[];
    var syntheticTimeUs := 0;
    for n := 0 to |records|
      invariant syntheticTimeUs == n
      invariant Ingested(m, records[..n])
    {
      var record := records[n];
      var t := TimestampUs(record, syntheticTimeUs);
      syntheticTimeUs := syntheticTimeUs + 1;
      m := IngestRecord(m, record, t, records[..n]);
      ghost var next := records[..n + 1];
      forall key ensures BucketFor(m, key, Samples(next, key)) { RecordStep(records, n, key); }
    }
    assert records[..|records|] == records;
  }

  method IngestRecord(before: map<Key, MutableSeries>, record: LogRecord, t: real, ghost earlier: seq<LogRecord>)
    returns (m: map<Key, MutableSeries>)
    requires Ingested(before, earlier)
    ensures forall key :: BucketFor(m, key, SamplesWith(earlier, record.name, record.fields, t, key))
  {
    m := before;
    var name, fields := record.name, record.fields;
    assert forall key :: SamplesWith(earlier, name, fields[..0], t, key) == Samples(earlier, key);
    hide Samples, Holds;
    for i := 0 to |fields|
      invariant forall key :: BucketFor(m, key, SamplesWith(earlier, name, fields[..i], t, key))
    {
      var (field, raw) := fields[i];
      var value := ToNumber(raw);
      ghost var old_m := m;
      if value.Some? {
        var key := Key(name, field);
        ghost var have := SamplesWith(earlier, name, fields[..i], t, key);
        assert BucketFor(m, key, have);
        EmptyHolds();
        var bucket := if key in m then m[key] else EMPTY_BUCKET;
        bucket := AddSample(bucket, t, value.value, have);
        m := m[key := bucket];
      }
      ghost var next := fields[..i + 1];
      forall key ensures BucketFor(m, key, SamplesWith(earlier, name, next, t, key)) {
        FieldStep(earlier, name, fields, i, t, key);
        assert BucketFor(old_m, key, SamplesWith(earlier, name, fields[..i], t, key));
      }
    }
    assert fields[..|fields|] == fields;
  }

  lemma RecordStep(records: seq<LogRecord>, n: nat, key: Key)
    requires n < |records|
    ensures Samples(records[..n + 1], key)
            == SamplesWith(records[..n], records[n].name, records[n].fields, TimestampUs(records[n], n), key)
  {
    assert records[..n + 1][..n] == records[..n];
  }

  lemma EmptyHolds()
    ensures Holds(EMPTY_BUCKET, [])
  {
  }

  lemma FieldStep(earlier: seq<LogRecord>, name: string, fields: seq<(string, Value)>, i: nat, t: real, key: Key)
    requires i < |fields|
    ensures SamplesWith(earlier, name, fields[..i + 1], t, key)
            == SamplesWith(earlier, name, fields[..i], t, key)
               + (if key == Key(name, fields[i].0) && ToNumber(fields[i].1).Some?
                  then [Sample(t, ToNumber(fields[i].1).value)] else [])
    ensures key != Key(name, fields[i].0) || ToNumber(fields[i].1).None? ==>
              SamplesWith(earlier, name, fields[..i + 1], t, key) == SamplesWith(earlier, name, fields[..i], t, key)
  {
    assert fields[..i + 1][..i] == fields[..i];
  }

  // ------------------------------------------------------------------- freezing

  ghost predicate InTimeOrder(s: seq<Sample>) {
    forall i, j :: 0 <= i <= j < |s| ==> s[i].t <= s[j].t
  }

  /** x after every sample of s that is not later. */
  function Insert(s: seq<Sample>, x: Sample): seq<Sample> {
    if s == [] || s[|s| - 1].t <= x.t then s + [x] else Insert(s[..|s| - 1], x) + [s[|s| - 1]]
  }

  /** The stable sort by time that Array.prototype.sort performs. */
  function StableSort(s: seq<Sample>): seq<Sample> {
    if s == [] then [] else Insert(StableSort(s[..|s| - 1]), s[|s| - 1])
  }

  /** The samples of one moment, in order. */
  function AtTime(s: seq<Sample>, t: real): seq<Sample> {
    if s == [] then []
    else AtTime(s[..|s| - 1], t) + (if s[|s| - 1].t == t then [s[|s| - 1]] else [])
  }

  lemma {:induction false} InsertBelow(s: seq<Sample>, x: Sample, t: real)
    requires x.t <= t && forall i :: 0 <= i < |s| ==> s[i].t <= t
    ensures forall i :: 0 <= i < |Insert(s, x)| ==> Insert(s, x)[i].t <= t
  {
    if s != [] { InsertBelow(s[..|s| - 1], x, t); }
  }

  lemma {:induction false} InsertInOrder(s: seq<Sample>, x: Sample)
    requires InTimeOrder(s)
    ensures InTimeOrder(Insert(s, x))
  {
    if s != [] && s[|s| - 1].t > x.t {
      var front, last := s[..|s| - 1], s[|s| - 1];
      assert forall i :: 0 <= i < |front| ==> front[i] == s[i];
      InsertInOrder(front, x);
      InsertBelow(front, x, last.t);
    }
  }

  lemma {:induction false} InsertKeeps(s: seq<Sample>, x: Sample)
    ensures multiset(Insert(s, x)) == multiset(s) + multiset{x} && |Insert(s, x)| == |s| + 1
  {
    if s != [] {
      InsertKeeps(s[..|s| - 1], x);
      assert s == s[..|s| - 1] + [s[|s| - 1]];
    }
  }

  lemma AtTimeAppend(s: seq<Sample>, x: Sample, t: real)
    ensures AtTime(s + [x], t) == AtTime(s, t) + (if x.t == t then [x] else [])
  {
    assert (s + [x])[..|s|] == s;
  }

  lemma {:induction false} InsertStable(s: seq<Sample>, x: Sample, t: real)
    ensures AtTime(Insert(s, x), t) == AtTime(s, t) + (if x.t == t then [x] else [])
  {
    if s == [] || s[|s| - 1].t <= x.t {
      AtTimeAppend(s, x, t);
    } else {
      var front, last := s[..|s| - 1], s[|s| - 1];
      InsertStable(front, x, t);
      AtTimeAppend(Insert(front, x), last, t);
      if last.t == t {
        assert x.t != t;
      } else {
        assert AtTime(s, t) == AtTime(front, t);
      }
    }
  }

  /** The frozen series is sorted, a permutation of what was ingested, and stable. */
  lemma {:induction false} SortIsStable(s: seq<Sample>)
    ensures InTimeOrder(StableSort(s)) && multiset(StableSort(s)) == multiset(s) && |StableSort(s)| == |s|
    ensures forall t: real :: AtTime(StableSort(s), t) == AtTime(s, t)
  {
    if s != [] {
      var front, last := s[..|s| - 1], s[|s| - 1];
      assert s == front + [last];
      SortIsStable(front);
      InsertKeeps(StableSort(front), last);
      InsertInOrder(StableSort(front), last);
      forall t: real ensures AtTime(StableSort(s), t) == AtTime(s, t) {
        InsertStable(StableSort(front), last, t);
      }
    }
  }

  /** A series that arrived in order is left as it is. */
  lemma {:induction false} SortedStays(s: seq<Sample>)
    requires InTimeOrder(s)
    ensures StableSort(s) == s
  {
    if s != [] {
      var front, last := s[..|s| - 1], s[|s| - 1];
      assert InTimeOrder(front) by { assert forall i :: 0 <= i < |front| ==> front[i] == s[i]; }
      assert front == [] || front[|front| - 1].t <= last.t;
      hide InTimeOrder;
      SortedStays(front);
      assert StableSort(s) == Insert(front, last);
      assert s == front + [last];
    }
  }

  /** The samples at the given positions. */
  function Pick(s: seq<Sample>, indices: seq<nat>): (r: seq<Sample>)
    requires forall i :: 0 <= i < |indices| ==> indices[i] < |s|
    ensures |r| == |indices|
    ensures forall i :: 0 <= i < |r| ==> r[i] == s[indices[i]]
  {
    seq(|indices|, i requires 0 <= i < |indices| => s[indices[i]])
  }

  function InsertIndex(times: seq<real>, indices: seq<nat>, k: nat): (r: seq<nat>)
    requires k < |times| && forall i :: 0 <= i < |indices| ==> indices[i] < |times|
    ensures forall i :: 0 <= i < |r| ==> r[i] < |times|
  {
    if indices == [] || times[indices[|indices| - 1]] <= times[k] then indices + [k]
    else InsertIndex(times, indices[..|indices| - 1], k) + [indices[|indices| - 1]]
  }

  lemma {:induction false} PickInserts(s: seq<Sample>, indices: seq<nat>, k: nat)
    requires k < |s| && forall i :: 0 <= i < |indices| ==> indices[i] < |s|
    ensures Pick(s, InsertIndex(TimesOf(s), indices, k)) == Insert(Pick(s, indices), s[k])
  {
    var picked := Pick(s, indices);
    if indices == [] || s[indices[|indices| - 1]].t <= s[k].t {
      assert Pick(s, indices + [k]) == picked + [s[k]];
    } else {
      var front, last := indices[..|indices| - 1], indices[|indices| - 1];
      PickInserts(s, front, k);
      assert Pick(s, front) == picked[..|picked| - 1];
      var r := InsertIndex(TimesOf(s), front, k);
      assert Pick(s, r + [last]) == Pick(s, r) + [s[last]];
    }
  }

  /** The stable sort of the positions by time. */
  method SortIndices(times: seq<real>, ghost samples: seq<Sample>) returns (indices: seq<nat>)
    requires times == TimesOf(samples)
    ensures |indices| == |times| && forall i :: 0 <= i < |indices| ==> indices[i] < |times|
    ensures Pick(samples, indices) == StableSort(samples)
  {
    indices := [];
    for k := 0 to |times|
      invariant forall i :: 0 <= i < |indices| ==> indices[i] < |times|
      invariant Pick(samples, indices) == StableSort(samples[..k])
    {
      PickInserts(samples, indices, k);
      assert samples[..k + 1][..k] == samples[..k];
      indices := InsertIndex(times, indices, k);
    }
    assert samples[..|times|] == samples;
    SortIsStable(samples);
  }

  datatype FrozenSeries = FrozenSeries(timesUs: seq<real>, values: seq<real>)

  function Columns(s: seq<Sample>): FrozenSeries { FrozenSeries(TimesOf(s), ValuesOf(s)) }

  /** Both branches give the stable sort of what was ingested. */
  method FreezeSeries(entry: MutableSeries, ghost samples: seq<Sample>) returns (series: FrozenSeries)
    requires Holds(entry, samples)
    ensures series == Columns(StableSort(samples))
  {
    if entry.ordered {
      assert InTimeOrder(samples);
      SortedStays(samples);
      return FrozenSeries(entry.times, entry.values);
    }
    var indices := SortIndices(entry.times, samples);
    ghost var sorted := StableSort(samples);
    var timesUs, values := [], [];
    for out := 0 to |indices|
      invariant |timesUs| == |values| == out
      invariant forall i :: 0 <= i < out ==> timesUs[i] == sorted[i].t && values[i] == sorted[i].value
    {
      var source := indices[out];
      timesUs := timesUs + [entry.times[source]];
      values := values + [entry.values[source]];
    }
    series := FrozenSeries(timesUs, values);
    assert timesUs == TimesOf(sorted) && values == ValuesOf(sorted);
  }

  /** The index of a log: each key with a sample, frozen. */
  ghost predicate IndexOf(index: map<Key, FrozenSeries>, records: seq<LogRecord>) {
    forall key :: SeriesFor(index, key, Samples(records, key))
  }

  ghost predicate SeriesFor(index: map<Key, FrozenSeries>, key: Key, samples: seq<Sample>) {
    && (key in index <==> samples != [])
    && (key in index ==> index[key] == Columns(StableSort(samples)))
  }

  method FromRecords(records: seq<LogRecord>) returns (index: map<Key, FrozenSeries>)
    ensures IndexOf(index, records)
  {
    hide Holds, StableSort, Samples;
    var buckets := Ingest(records);
    index := map[];
    var left := buckets.Keys;
    while left != {}
      invariant left <= buckets.Keys && index.Keys == buckets.Keys - left
      invariant forall key :: key in index ==> index[key] == Columns(StableSort(Samples(records, key)))
      decreases left
    {
      var key :| key in left;
      assert BucketFor(buckets, key, Samples(records, key));
      var series := FreezeSeries(buckets[key], Samples(records, key));
      index := index[key := series];
      left := left - {key};
    }
    forall key ensures SeriesFor(index, key, Samples(records, key)) {
      assert BucketFor(buckets, key, Samples(records, key));
    }
  }
}

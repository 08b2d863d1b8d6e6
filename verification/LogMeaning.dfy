/** What the log index and a derived query hold, read off the records directly. */
module LogMeaning {
  import opened Text
  import opened Numbers
  import opened Expression
  import opened LogIndex
  import opened LogQuery

  // ------------------------------------------------------------ what is a sample

  /** v is a number that a sample can hold: finite, or an integer without loss. */
  predicate Means(v: Value, x: real) {
    match v
    case NumberValue(f) => f == Fin(x)
    case BigValue(i) => -9007199254740991 <= i <= 9007199254740991 && x == i as real
    case OtherValue => false
  }

  /** The first field of this name is the i-th. */
  ghost predicate FirstNamed(r: LogRecord, name: string, i: nat) {
    i < |r.fields| && r.fields[i].0 == name && forall j :: 0 <= j < i ==> r.fields[j].0 != name
  }

  /** The n-th record stands at time t: its first TimeUS, if that is a number; else n. */
  ghost predicate StampedAt(r: LogRecord, n: nat, t: real) {
    || (exists i: nat :: FirstNamed(r, "TimeUS", i) && Means(r.fields[i].1, t))
    || (t == n as real && forall i: nat, x: real :: FirstNamed(r, "TimeUS", i) ==> !Means(r.fields[i].1, x))
  }

  /** Field i of the record is named by key and holds x. */
  predicate HoldsNumber(r: LogRecord, key: Key, i: nat, x: real) {
    r.name == key.message && i < |r.fields| && r.fields[i].0 == key.field && Means(r.fields[i].1, x)
  }

  /** Field i of record n is a sample of key: the value it holds, at the record's time. */
  ghost predicate SampleAt(records: seq<LogRecord>, key: Key, n: nat, i: nat, s: Sample) {
    n < |records| && HoldsNumber(records[n], key, i, s.value) && StampedAt(records[n], n, s.t)
  }

  /** Each sample is that of its place. */
  ghost predicate Sound(records: seq<LogRecord>, key: Key, at: seq<(nat, nat)>, samples: seq<Sample>) {
    |at| == |samples| && forall k :: 0 <= k < |at| ==> SampleAt(records, key, at[k].0, at[k].1, samples[k])
  }

  predicate InOrder(at: seq<(nat, nat)>) {
    forall j, k :: 0 <= j < k < |at| ==> Before(at[j], at[k])
  }

  /** No place of a sample is missing. */
  ghost predicate Complete(records: seq<LogRecord>, key: Key, at: seq<(nat, nat)>) {
    forall n: nat, i: nat, s :: SampleAt(records, key, n, i, s) ==> (n, i) in at
  }

  predicate Before(a: (nat, nat), b: (nat, nat)) { a.0 < b.0 || (a.0 == b.0 && a.1 < b.1) }

  lemma {:induction false} LookupIsFirst(fields: seq<(string, Value)>, name: string) returns (i: nat)
    ensures i <= |fields| && forall j :: 0 <= j < i ==> fields[j].0 != name
    ensures if i < |fields| then fields[i].0 == name && Lookup(fields, name) == Some(fields[i].1)
            else Lookup(fields, name) == None
  {
    if fields == [] || fields[0].0 == name {
      i := 0;
    } else {
      var k := LookupIsFirst(fields[1..], name);
      i := k + 1;
    }
  }

  lemma NumberMeans(v: Value)
    ensures if ToNumber(v).Some? then Means(v, ToNumber(v).value) else forall x: real :: !Means(v, x)
  {
  }

  /** The record is stamped with just one time, the one it is indexed under. */
  lemma StampIsTime(r: LogRecord, n: nat)
    ensures StampedAt(r, n, TimestampUs(r, n))
  {
    hide Means;
    var i := LookupIsFirst(r.fields, "TimeUS");
    if i < |r.fields| {
      NumberMeans(r.fields[i].1);
      assert FirstNamed(r, "TimeUS", i);
      assert forall j: nat :: FirstNamed(r, "TimeUS", j) ==> j == i;
    }
  }

  /** Positions of the samples in the first fields of record n. */
  lemma {:induction false} FieldPlaces(r: LogRecord, m: nat, t: real, key: Key) returns (at: seq<nat>)
    requires m <= |r.fields|
    ensures var samples := FieldSamples(r.name, r.fields[..m], t, key);
            && |at| == |samples|
            && (forall k :: 0 <= k < |at| ==>
                              at[k] < m && HoldsNumber(r, key, at[k], samples[k].value) && samples[k].t == t)
            && (forall j, k :: 0 <= j < k < |at| ==> at[j] < at[k])
            && (forall i, x: real :: 0 <= i < m && HoldsNumber(r, key, i, x) ==> i in at)
  {
    hide Means;
    if m == 0 {
      at := [];
    } else {
      at := FieldPlaces(r, m - 1, t, key);
      assert r.fields[..m][..m - 1] == r.fields[..m - 1];
      NumberMeans(r.fields[m - 1].1);
      if Key(r.name, r.fields[m - 1].0) == key && ToNumber(r.fields[m - 1].1).Some? { at := at + [m - 1]; }
    }
  }

  function PlacesIn(n: nat, last: seq<nat>): (r: seq<(nat, nat)>)
    ensures |r| == |last| && forall k :: 0 <= k < |r| ==> r[k] == (n, last[k])
  {
    seq(|last|, k requires 0 <= k < |last| => (n, last[k]))
  }

  lemma SoundMore(records: seq<LogRecord>, n: nat, key: Key, at: seq<(nat, nat)>, samples: seq<Sample>,
                  last: seq<nat>, more: seq<Sample>)
    requires |records| == n + 1 && Sound(records[..n], key, at, samples) && |last| == |more|
    requires forall k :: 0 <= k < |last| ==> SampleAt(records, key, n, last[k], more[k])
    ensures Sound(records, key, at + PlacesIn(n, last), samples + more)
  {
    hide HoldsNumber, StampedAt;
    var all, values := at + PlacesIn(n, last), samples + more;
    forall k | 0 <= k < |all| ensures SampleAt(records, key, all[k].0, all[k].1, values[k]) {
      if k < |at| { assert SampleAt(records[..n], key, at[k].0, at[k].1, samples[k]); }
    }
  }

  lemma OrderMore(n: nat, at: seq<(nat, nat)>, last: seq<nat>)
    requires InOrder(at) && (forall k :: 0 <= k < |at| ==> at[k].0 < n)
    requires forall j, k :: 0 <= j < k < |last| ==> last[j] < last[k]
    ensures InOrder(at + PlacesIn(n, last))
  {
    var tail := PlacesIn(n, last);
    var all := at + tail;
    forall j, k | 0 <= j < k < |all| ensures Before(all[j], all[k]) {
      if j >= |at| { assert all[j] == tail[j - |at|] && all[k] == tail[k - |at|]; }
    }
  }

  lemma CompleteMore(records: seq<LogRecord>, n: nat, key: Key, at: seq<(nat, nat)>, last: seq<nat>)
    requires |records| == n + 1 && Complete(records[..n], key, at)
    requires forall i: nat, x: real :: HoldsNumber(records[n], key, i, x) ==> i in last
    ensures Complete(records, key, at + PlacesIn(n, last))
  {
    hide HoldsNumber, StampedAt;
    forall m: nat, i: nat, s | SampleAt(records, key, m, i, s) ensures (m, i) in at + PlacesIn(n, last) {
      if m < n {
        assert SampleAt(records[..n], key, m, i, s);
      } else {
        var k :| 0 <= k < |last| && last[k] == i;
        assert PlacesIn(n, last)[k] == (m, i);
      }
    }
  }

  /** The scan of a log, place by place: its samples are just the numeric fields of that
      name in the records of that name, in order, each at the time of its record. */
  lemma {:induction false} SamplesArePlaces(records: seq<LogRecord>, key: Key) returns (at: seq<(nat, nat)>)
    ensures Sound(records, key, at, Samples(records, key)) && InOrder(at) && Complete(records, key, at)
  {
    if records == [] {
      at := [];
    } else {
      var n := |records| - 1;
      var r := records[n];
      var t := TimestampUs(r, n);
      var before := SamplesArePlaces(records[..n], key);
      var last := FieldPlaces(r, |r.fields|, t, key);
      assert r.fields[..|r.fields|] == r.fields;
      StampIsTime(r, n);
      var more := FieldSamples(r.name, r.fields, t, key);
      assert forall i: nat, x: real :: HoldsNumber(r, key, i, x) ==> i < |r.fields|;
      PlacesBelow(records[..n], key, before, Samples(records[..n], key));
      hide InOrder, Complete, Sound, HoldsNumber, StampedAt, TimestampUs, FieldSamples;
      SoundMore(records, n, key, before, Samples(records[..n], key), last, more);
      OrderMore(n, before, last);
      CompleteMore(records, n, key, before, last);
      at := before + PlacesIn(n, last);
    }
  }

  lemma PlacesBelow(records: seq<LogRecord>, key: Key, at: seq<(nat, nat)>, samples: seq<Sample>)
    requires Sound(records, key, at, samples)
    ensures forall k :: 0 <= k < |at| ==> at[k].0 < |records|
  {
    hide HoldsNumber, StampedAt;
    assert forall k :: 0 <= k < |at| ==> SampleAt(records, key, at[k].0, at[k].1, samples[k]);
  }

  // ---------------------------------------------------------- derived expressions

  /** The value of the sample nearest to t. */
  function ValueNear(lookup: map<Key, FrozenSeries>, t: real, message: string, field: string): Float {
    if HasSeries(lookup, SeriesRef(message, field)) then
      var series := lookup[Key(message, field)];
      Fin(series.values[NearestIndex(series.timesUs, t)])
    else NaN
  }

  /** With all its series there, the value of an expression is the expression evaluated
      in floating point over the values nearest to t. */
  lemma {:induction false} ValueIsEvaluation(e: Expr, lookup: map<Key, FrozenSeries>, t: real, a: Arithmetic)
    requires HasAll(lookup, References(e))
    ensures ValueAt(e, lookup, t, a)
            == Ok(Evaluate(e, a.number, (m, f) => ValueNear(lookup, t, m, f), a.negate, a.apply))
  {
    match e
    case Num(_) =>
    case Ref(message, field) => assert References(e)[0] == SeriesRef(message, field);
    case Unary(_, arg) => ValueIsEvaluation(arg, lookup, t, a);
    case Binary(_, left, right) =>
      HasBoth(lookup, References(left), References(right));
      ValueIsEvaluation(left, lookup, t, a);
      ValueIsEvaluation(right, lookup, t, a);
  }

  /** The derived samples, place by place: one for each base time in the range at which
      the expression has a finite value, and that value. */
  lemma {:induction false} DerivedArePlaces(e: Expr, lookup: map<Key, FrozenSeries>, times: seq<real>, start: nat,
                                            end: nat, a: Arithmetic) returns (at: seq<nat>)
    requires start <= end <= |times|
    ensures var samples := Derived(e, lookup, times, start, end, a);
            && |at| == |samples|
            && (forall k :: 0 <= k < |at| ==>
                              start <= at[k] < end && samples[k].t == times[at[k]]
                              && ValueAt(e, lookup, times[at[k]], a) == Ok(Fin(samples[k].value)))
            && (forall j, k :: 0 <= j < k < |at| ==> at[j] < at[k])
            && (forall i, x :: start <= i < end && ValueAt(e, lookup, times[i], a) == Ok(Fin(x)) ==> i in at)
  {
    hide ValueAt;
    if start == end {
      at := [];
    } else {
      at := DerivedArePlaces(e, lookup, times, start, end - 1, a);
      var v := ValueAt(e, lookup, times[end - 1], a);
      if v.Ok? && v.value.Fin? { at := at + [end - 1]; }
    }
  }
}

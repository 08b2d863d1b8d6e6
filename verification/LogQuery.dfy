/** Queries over the columnar log index (src/data/log-query/engine.ts). */
module LogQuery {
  import opened Text
  import opened Numbers
  import opened Downsample
  import opened Expression
  import opened LogIndex

  // -------------------------------------------------------------- windowed query

  /** A plain filter of the samples by the inclusive window. */
  function Window(s: seq<Sample>, range: Range): seq<Sample> {
    if s == [] then []
    else Window(s[..|s| - 1], range) + (if InRange(range, s[|s| - 1].t) then [s[|s| - 1]] else [])
  }

  lemma {:induction false} WindowBelow(s: seq<Sample>, range: Range, t: real)
    requires forall i :: 0 <= i < |s| ==> s[i].t <= t
    ensures forall i :: 0 <= i < |Window(s, range)| ==> Window(s, range)[i].t <= t
  {
    if s != [] { WindowBelow(s[..|s| - 1], range, t); }
  }

  lemma WindowAppend(s: seq<Sample>, x: Sample, range: Range)
    ensures Window(s + [x], range) == if InRange(range, x.t) then Window(s, range) + [x] else Window(s, range)
  {
    assert (s + [x])[..|s|] == s;
  }

  lemma InsertStep(s: seq<Sample>, last: Sample, x: Sample)
    ensures last.t > x.t ==> Insert(s + [last], x) == Insert(s, x) + [last]
    ensures last.t <= x.t ==> Insert(s + [last], x) == s + [last] + [x]
  {
    assert (s + [last])[..|s|] == s;
  }

  lemma {:induction false} InsertLast(s: seq<Sample>, x: Sample)
    requires forall i :: 0 <= i < |s| ==> s[i].t <= x.t
    ensures Insert(s, x) == s + [x]
  {
  }

  lemma {:induction false} WindowInsert(s: seq<Sample>, x: Sample, range: Range)
    requires InTimeOrder(s)
    ensures Window(Insert(s, x), range) == if InRange(range, x.t) then Insert(Window(s, range), x) else Window(s, range)
  {
    hide Insert, Window, InRange;
    if s == [] || s[|s| - 1].t <= x.t {
      InsertLast(s, x);
      WindowAppend(s, x, range);
      WindowBelow(s, range, x.t);
      if InRange(range, x.t) { InsertLast(Window(s, range), x); }
    } else {
      var front, last := s[..|s| - 1], s[|s| - 1];
      assert s == front + [last];
      assert forall i :: 0 <= i < |front| ==> front[i] == s[i];
      WindowInsert(front, x, range);
      InsertStep(front, last, x);
      WindowAppend(front, last, range);
      WindowAppend(Insert(front, x), last, range);
      InsertStep(Window(front, range), last, x);
    }
  }

  lemma NothingToSort(range: Range)
    ensures StableSort([]) == [] && Window([], range) == []
  {
  }

  lemma SortStep(s: seq<Sample>, x: Sample)
    ensures StableSort(s + [x]) == Insert(StableSort(s), x)
  {
    assert (s + [x])[..|s|] == s;
  }

  /** Selecting the window and sorting commute. */
  lemma {:induction false} WindowOfSorted(s: seq<Sample>, range: Range)
    ensures Window(StableSort(s), range) == StableSort(Window(s, range))
  {
    hide Insert, Window, StableSort, InRange;
    if s == [] {
      NothingToSort(range);
    } else {
      var front, last := s[..|s| - 1], s[|s| - 1];
      assert s == front + [last];
      WindowOfSorted(front, range);
      SortIsStable(front);
      WindowInsert(StableSort(front), last, range);
      SortStep(front, last);
      WindowAppend(front, last, range);
      SortStep(Window(front, range), last);
    }
  }

  /** A window that selects just the positions from start to end is a slice. */
  lemma {:induction false} WindowIsSlice(s: seq<Sample>, range: Range, start: nat, end: nat)
    requires start <= end
    requires forall i :: 0 <= i < |s| ==> (InRange(range, s[i].t) <==> start <= i < end)
    ensures Window(s, range) == s[Least(start, |s|)..Least(end, |s|)]
  {
    if s != [] {
      var front, n := s[..|s| - 1], |s| - 1;
      assert InRange(range, s[n].t) <==> start <= n < end;
      assert forall i :: 0 <= i < |front| ==> front[i] == s[i];
      WindowIsSlice(front, range, start, end);
      hide InRange;
      SliceGrows(s, start, end);
    }
  }

  lemma SliceGrows(s: seq<Sample>, start: nat, end: nat)
    requires start <= end && s != []
    ensures var front, n := s[..|s| - 1], |s| - 1;
            s[Least(start, |s|)..Least(end, |s|)]
            == front[Least(start, n)..Least(end, n)] + (if start <= n < end then [s[n]] else [])
  {
    var n := |s| - 1;
    var front, a, b := s[..n], Least(start, n), Least(end, n);
    assert a <= b <= n;
    assert forall k :: 0 <= k < n ==> front[k] == s[k];
    if end <= n {
      assert front[start..end] == s[start..end];
    } else if start <= n {
      assert s[start..n + 1] == front[start..n] + [s[n]];
    }
  }

  function Least(a: nat, b: nat): nat { if a < b then a else b }

  /** A sample as a point of its own. */
  function SamplePoint(s: Sample): Point {
    Point(s.t, s.value, s.value, s.value, s.value, s.value, 1, Some(s.value))
  }

  function SamplePoints(s: seq<Sample>): (r: seq<Point>)
    ensures |r| == |s| && forall i :: 0 <= i < |r| ==> r[i] == SamplePoint(s[i])
  {
    seq(|s|, i requires 0 <= i < |s| => SamplePoint(s[i]))
  }

  /** The points between the bounds of the range, or an error for an unknown series. */
  function Query(series: Option<FrozenSeries>, range: Range, maxPoints: Option<Float>): Result<seq<Point>>
    requires series.Some? ==> |series.value.timesUs| == |series.value.values|
  {
    if series.None? then Err
    else
      var FrozenSeries(times, values) := series.value;
      var (start, end) := Bounds(times, range);
      Ok(SlicePoints(times, values, start, end, maxPoints))
  }

  /** The series of a key, as a plain sort of the scan of the log. */
  function SeriesOf(records: seq<LogRecord>, key: Key): (series: Option<FrozenSeries>)
    ensures series.Some? ==> |series.value.timesUs| == |series.value.values|
  {
    var samples := Samples(records, key);
    if samples == [] then None else Some(Columns(StableSort(samples)))
  }

  lemma SeriesInOrder(records: seq<LogRecord>, key: Key)
    requires SeriesOf(records, key).Some?
    ensures var series := SeriesOf(records, key).value;
            Sorted(series.timesUs) && |series.timesUs| == |Samples(records, key)| > 0
  {
    SortIsStable(Samples(records, key));
  }

  method QuerySeries(index: map<Key, FrozenSeries>, message: string, field: string, range: Range,
                     maxPoints: Option<Float>, ghost records: seq<LogRecord>)
    returns (r: Result<seq<Point>>)
    requires IndexOf(index, records)
    ensures r == Query(SeriesOf(records, Key(message, field)), range, maxPoints)
  {
    var key := Key(message, field);
    assert SeriesFor(index, key, Samples(records, key));
    if key !in index { return Err; }
    var series := index[key];
    SeriesInOrder(records, key);
    var start, end := RangeBounds(series.timesUs, range);
    var points := PointsForSlice(series.timesUs, series.values, start, end, maxPoints);
    r := Ok(points);
  }

  /** Without downsampling a query returns exactly the ingested samples of the
      window, in stable time order, unless the range is infinite the wrong way round. */
  lemma QueryIsWindow(records: seq<LogRecord>, key: Key, range: Range)
    requires Samples(records, key) != []
    ensures Query(SeriesOf(records, key), range, None)
            == Ok(SamplePoints(StableSort(Window(Samples(records, key), range))))
            <==> !InvertedInfinite(range)
  {
    hide StableSort, InRange, Samples;
    var s := StableSort(Samples(records, key));
    SeriesInOrder(records, key);
    BoundsAreWindow(TimesOf(s), range);
    WindowOfSorted(Samples(records, key), range);
    var (start, end) := Bounds(TimesOf(s), range);
    var points := SlicePoints(TimesOf(s), ValuesOf(s), start, end, None);
    assert |points| == end - start;
    if InvertedInfinite(range) {
      NothingInRange(s, range);
    } else {
      WindowIsSlice(s, range, start, end);
      assert points == SamplePoints(s[start..end]);
    }
  }

  lemma {:induction false} NothingInRange(s: seq<Sample>, range: Range)
    requires InvertedInfinite(range)
    ensures Window(s, range) == []
  {
    if s != [] { NothingInRange(s[..|s| - 1], range); }
  }

  // ------------------------------------------------------------- nearest sample

  /** The position nearestValue reads. */
  function NearestIndex(times: seq<real>, t: real): (i: nat)
    requires times != []
    ensures i < |times|
  {
    var insertion := Lower(times, t);
    if insertion == 0 then 0
    else if insertion == |times| then |times| - 1
    else if t - times[insertion - 1] <= times[insertion] - t then insertion - 1
    else insertion
  }

  function Distance(a: real, b: real): real { if a < b then b - a else a - b }

  /** No sample is nearer, an equally near one is not earlier, and of samples at
      the same time the one adjacent to t is read. */
  lemma NearestIsNearest(times: seq<real>, t: real)
    requires Sorted(times) && times != []
    ensures var n := NearestIndex(times, t);
            forall i :: 0 <= i < |times| ==>
              && Distance(times[n], t) <= Distance(times[i], t)
              && (Distance(times[n], t) == Distance(times[i], t) ==> times[n] <= times[i])
              && (times[i] == times[n] ==> if times[n] < t then i <= n else n <= i)
  {
    var insertion := Lower(times, t);
    assert forall i :: insertion <= i < |times| ==> t <= times[insertion] <= times[i];
    assert forall i :: 0 <= i < insertion ==> times[i] <= times[insertion - 1] < t;
  }

  method NearestValue(series: FrozenSeries, t: real) returns (v: real)
    requires |series.timesUs| == |series.values| > 0 && Sorted(series.timesUs)
    ensures v == series.values[NearestIndex(series.timesUs, t)]
  {
    var times, length := series.timesUs, |series.timesUs|;
    var insertion := LowerBound(times, t);
    if insertion <= 0 { return series.values[0]; }
    if insertion >= length { return series.values[length - 1]; }
    var before, after := insertion - 1, insertion;
    v := if t - times[before] <= times[after] - t then series.values[before] else series.values[after];
  }

  // -------------------------------------------------------- derived expressions

  /** Floating-point arithmetic, and the values of number literals. */
  datatype Arithmetic = Arithmetic(number: string -> Float, negate: Float -> Float, apply: (Op, Float, Float) -> Float)

  /** What a reference resolves to at time t; an unknown series is an error. */
  function Resolve(lookup: map<Key, FrozenSeries>, t: real, message: string, field: string): Result<Float> {
    var key := Key(message, field);
    if key in lookup && |lookup[key].timesUs| == |lookup[key].values| > 0
    then Ok(Fin(lookup[key].values[NearestIndex(lookup[key].timesUs, t)]))
    else Err
  }

  function Negate(a: Arithmetic, v: Result<Float>): Result<Float> {
    if v.Ok? then Ok(a.negate(v.value)) else Err
  }

  function Apply(a: Arithmetic, op: Op, x: Result<Float>, y: Result<Float>): Result<Float> {
    if x.Ok? && y.Ok? then Ok(a.apply(op, x.value, y.value)) else Err
  }

  function ValueAt(e: Expr, lookup: map<Key, FrozenSeries>, t: real, a: Arithmetic): Result<Float> {
    Evaluate(e, literal => Ok(a.number(literal)), (message, field) => Resolve(lookup, t, message, field),
             v => Negate(a, v), (op, x, y) => Apply(a, op, x, y))
  }

  predicate HasSeries(lookup: map<Key, FrozenSeries>, r: SeriesRef) {
    var key := Key(r.message, r.field);
    key in lookup && |lookup[key].timesUs| == |lookup[key].values| > 0
  }

  predicate HasAll(lookup: map<Key, FrozenSeries>, refs: seq<SeriesRef>) {
    forall i :: 0 <= i < |refs| ==> HasSeries(lookup, refs[i])
  }

  lemma HasBoth(lookup: map<Key, FrozenSeries>, a: seq<SeriesRef>, b: seq<SeriesRef>)
    ensures HasAll(lookup, a + b) <==> HasAll(lookup, a) && HasAll(lookup, b)
  {
    if HasAll(lookup, a + b) {
      forall i | 0 <= i < |a| ensures HasSeries(lookup, a[i]) { assert (a + b)[i] == a[i]; }
      forall i | 0 <= i < |b| ensures HasSeries(lookup, b[i]) { assert (a + b)[|a| + i] == b[i]; }
    }
  }

  lemma HasOne(lookup: map<Key, FrozenSeries>, r: SeriesRef)
    ensures HasAll(lookup, [r]) <==> HasSeries(lookup, r)
    ensures HasAll(lookup, [])
  {
    assert [r][0] == r;
  }

  lemma ValueSteps(e: Expr, lookup: map<Key, FrozenSeries>, t: real, a: Arithmetic)
    ensures e.Num? ==> ValueAt(e, lookup, t, a).Ok?
    ensures e.Ref? ==> ValueAt(e, lookup, t, a) == Resolve(lookup, t, e.message, e.field)
    ensures e.Unary? ==> ValueAt(e, lookup, t, a).Ok? == ValueAt(e.arg, lookup, t, a).Ok?
    ensures e.Binary? ==>
              ValueAt(e, lookup, t, a).Ok? == (ValueAt(e.left, lookup, t, a).Ok? && ValueAt(e.right, lookup, t, a).Ok?)
  {
    match e
    case Unary(neg, arg) =>
      var v := ValueAt(arg, lookup, t, a);
      assert ValueAt(e, lookup, t, a) == if neg then Negate(a, v) else v;
    case Binary(op, left, right) =>
      assert ValueAt(e, lookup, t, a) == Apply(a, op, ValueAt(left, lookup, t, a), ValueAt(right, lookup, t, a));
    case _ =>
  }

  /** Evaluation meets an unknown series exactly when a reference is missing. */
  lemma {:induction false} ValueAtOk(e: Expr, lookup: map<Key, FrozenSeries>, t: real, a: Arithmetic)
    ensures ValueAt(e, lookup, t, a).Ok? <==> HasAll(lookup, References(e))
  {
    hide ValueAt, HasAll;
    ValueSteps(e, lookup, t, a);
    match e
    case Num(_) => HasOne(lookup, SeriesRef("", ""));
    case Ref(message, field) => HasOne(lookup, SeriesRef(message, field));
    case Unary(_, arg) => ValueAtOk(arg, lookup, t, a);
    case Binary(_, left, right) =>
      ValueAtOk(left, lookup, t, a);
      ValueAtOk(right, lookup, t, a);
      HasBoth(lookup, References(left), References(right));
  }

  /** One sample for each base time whose value is finite. */
  function Derived(e: Expr, lookup: map<Key, FrozenSeries>, times: seq<real>, start: nat, end: nat,
                   a: Arithmetic): seq<Sample>
    requires start <= end <= |times|
  {
    if start == end then []
    else
      var t := times[end - 1];
      var v := ValueAt(e, lookup, t, a);
      Derived(e, lookup, times, start, end - 1, a) + (if v.Ok? && v.value.Fin? then [Sample(t, v.value.r)] else [])
  }

  /** A lookup that agrees on the references of e gives the same samples. */
  lemma {:induction false} DerivedDependsOnRefs(e: Expr, f: map<Key, FrozenSeries>, g: map<Key, FrozenSeries>,
                                                times: seq<real>, start: nat, end: nat, a: Arithmetic)
    requires start <= end <= |times|
    requires forall r :: r in References(e) ==> Key(r.message, r.field) in f && Key(r.message, r.field) in g
    requires forall r :: r in References(e) ==> f[Key(r.message, r.field)] == g[Key(r.message, r.field)]
    ensures Derived(e, f, times, start, end, a) == Derived(e, g, times, start, end, a)
  {
    if start < end {
      var t := times[end - 1];
      EvaluateDependsOnRefs(e, literal => Ok(a.number(literal)), (message, field) => Resolve(f, t, message, field),
                            (message, field) => Resolve(g, t, message, field),
                            v => Negate(a, v), (op, x, y) => Apply(a, op, x, y));
      DerivedDependsOnRefs(e, f, g, times, start, end - 1, a);
    }
  }

  method EvaluateOnBase(e: Expr, lookup: map<Key, FrozenSeries>, times: seq<real>, start: nat, end: nat, a: Arithmetic)
    returns (out: seq<Sample>)
    requires start <= end <= |times|
    requires HasAll(lookup, References(e))
    ensures out == Derived(e, lookup, times, start, end, a)
  {
    out := [];
    for index := start to end
      invariant out == Derived(e, lookup, times, start, index, a)
    {
      var t := times[index];
      ValueAtOk(e, lookup, t, a);
      var value := ValueAt(e, lookup, t, a).value;
      if IsFinite(value) { out := out + [Sample(t, value.r)]; }
    }
  }

  /** The series of the references, in one map, or an error for an unknown one. */
  method BuildReferenceLookup(index: map<Key, FrozenSeries>, refs: seq<SeriesRef>)
    returns (r: Result<map<Key, FrozenSeries>>)
    ensures r.Ok? <==> forall i :: 0 <= i < |refs| ==> Key(refs[i].message, refs[i].field) in index
    ensures r.Ok? ==> forall i :: 0 <= i < |refs| ==>
              var key := Key(refs[i].message, refs[i].field);
              key in r.value && r.value[key] == index[key]
  {
    var lookup: map<Key, FrozenSeries> := map[];
    for i := 0 to |refs|
      invariant forall j :: 0 <= j < i ==>
                  var key := Key(refs[j].message, refs[j].field);
                  key in index && key in lookup && lookup[key] == index[key]
    {
      var key := Key(refs[i].message, refs[i].field);
      if key !in index { return Err; }
      lookup := lookup[key := index[key]];
    }
    r := Ok(lookup);
  }

  /** What a derived query returns: the expression at each time of its first
      series, downsampled. A later series may be unknown when no time is selected. */
  ghost predicate DerivedResult(r: Result<seq<Point>>, parsed: Result<Expr>, index: map<Key, FrozenSeries>,
                                a: Arithmetic, range: Range, maxPoints: Option<Float>)
  {
    if parsed.Err? || References(parsed.value) == [] then r.Err?
    else
      var refs := References(parsed.value);
      var base := Key(refs[0].message, refs[0].field);
      if base !in index then r.Err?
      else
        var (start, end) := Bounds(index[base].timesUs, range);
        if start == end then r == Ok([])
        else if exists i :: 0 <= i < |refs| && Key(refs[i].message, refs[i].field) !in index then r.Err?
        else
          var d := Derived(parsed.value, index, index[base].timesUs, start, end, a);
          r == Ok(SlicePoints(TimesOf(d), ValuesOf(d), 0, |d|, maxPoints))
  }

  method EvaluateDerived(index: map<Key, FrozenSeries>, expr: string, finite: string -> bool, a: Arithmetic,
                         range: Range, maxPoints: Option<Float>, ghost records: seq<LogRecord>)
    returns (r: Result<seq<Point>>)
    requires IndexOf(index, records)
    ensures DerivedResult(r, ParseText(expr, finite), index, a, range, maxPoints)
  {
    hide StableSort, Samples, Bounds, SlicePoints, Derived, InTimeOrder, Columns;
    var parsed := ParseExpression(expr, finite);
    if parsed.Err? { return Err; }
    var refs := CollectSeriesRefs(parsed.value);
    RefsByFirstUse(parsed.value);
    FirstRefFirst(parsed.value);
    if refs == [] { return Err; }
    var base := Key(refs[0].message, refs[0].field);
    if base !in index { return Err; }
    IndexedInOrder(index, records, base);
    var times := index[base].timesUs;
    var start, end := RangeBounds(times, range);
    if start >= end { return Ok([]); }
    var lookup := BuildReferenceLookup(index, refs);
    if lookup.Err? { return Err; }
    forall i | 0 <= i < |References(parsed.value)| ensures HasSeries(lookup.value, References(parsed.value)[i]) {
      var ref := References(parsed.value)[i];
      assert ref in refs;
      IndexedInOrder(index, records, Key(ref.message, ref.field));
    }
    DerivedDependsOnRefs(parsed.value, lookup.value, index, times, start, end, a);
    var derived := EvaluateOnBase(parsed.value, lookup.value, times, start, end, a);
    var points := PointsForSlice(TimesOf(derived), ValuesOf(derived), 0, |derived|, maxPoints);
    r := Ok(points);
  }

  lemma FirstRefFirst(e: Expr)
    ensures var refs, all := References(e), AddNew([], References(e));
            (refs == [] <==> all == []) && (refs != [] ==> all[0] == refs[0])
  {
    var refs, all := References(e), AddNew([], References(e));
    RefsByFirstUse(e);
    if all != [] { assert all[0] in refs; }
    if refs != [] {
      assert refs[0] in refs && refs[0] in all;
      var i :| 0 <= i < |all| && all[i] == refs[0];
      assert FirstUse(refs, all[i]) == 0;
    }
  }

  lemma IndexedInOrder(index: map<Key, FrozenSeries>, records: seq<LogRecord>, key: Key)
    requires IndexOf(index, records) && key in index
    ensures Sorted(index[key].timesUs) && |index[key].timesUs| == |index[key].values| > 0
  {
    assert SeriesFor(index, key, Samples(records, key));
    SeriesInOrder(records, key);
  }
}

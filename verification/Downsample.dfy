/** Range slicing and min/max downsampling (src/data/log-query/downsample.ts). */
module Downsample {
  import opened Text
  import opened Numbers

  // --------------------------------------------------------------- binary search

  /** The number of leading elements below target. */
  function Lower(s: seq<real>, target: real): (n: nat)
    ensures n <= |s|
    ensures forall i :: 0 <= i < n ==> s[i] < target
    ensures n < |s| ==> s[n] >= target
  {
    if s == [] || s[0] >= target then 0 else 1 + Lower(s[1..], target)
  }

  /** The number of leading elements not above target. */
  function Upper(s: seq<real>, target: real): (n: nat)
    ensures n <= |s|
    ensures forall i :: 0 <= i < n ==> s[i] <= target
    ensures n < |s| ==> s[n] > target
  {
    if s == [] || s[0] > target then 0 else 1 + Upper(s[1..], target)
  }

  method LowerBound(values: seq<real>, target: real) returns (low: nat)
    requires Sorted(values)
    ensures low == Lower(values, target)
  {
    low := 0;
    var high := |values|;
    while low < high
      invariant 0 <= low <= high <= |values|
      invariant low <= Lower(values, target) <= high
    {
      var mid := low + (high - low) / 2;
      if values[mid] < target { low := mid + 1; } else { high := mid; }
    }
  }

  method UpperBound(values: seq<real>, target: real) returns (low: nat)
    requires Sorted(values)
    ensures low == Upper(values, target)
  {
    low := 0;
    var high := |values|;
    while low < high
      invariant 0 <= low <= high <= |values|
      invariant low <= Upper(values, target) <= high
    {
      var mid := low + (high - low) / 2;
      if values[mid] <= target { low := mid + 1; } else { high := mid; }
    }
  }

  // ----------------------------------------------------------------------- range

  /** A query range; a missing end is no bound. */
  datatype Range = Range(fromUs: Option<Float>, toUs: Option<Float>)

  function From(range: Range): Float { if range.fromUs.Some? then range.fromUs.value else NegInf }

  function To(range: Range): Float { if range.toUs.Some? then range.toUs.value else PosInf }

  /** Not before the range and not after it. */
  predicate InRange(range: Range, t: real) {
    !Less(Fin(t), From(range)) && !Less(To(range), Fin(t))
  }

  /** Both ends count as in the range; a missing or NaN one is no bound. */
  lemma RangeIsInclusive(range: Range, t: real)
    ensures InRange(range, t)
            <==> && (range.fromUs.Some? ==> match range.fromUs.value
                                            case Fin(a) => a <= t
                                            case PosInf => false
                                            case _ => true)
                 && (range.toUs.Some? ==> match range.toUs.value
                                          case Fin(b) => t <= b
                                          case NegInf => false
                                          case _ => true)
  {
  }

  function Max(a: nat, b: nat): nat { if b < a then a else b }

  function Bounds(times: seq<real>, range: Range): (b: (nat, nat))
    ensures b.0 <= b.1 <= |times|
  {
    var from, to := From(range), To(range);
    if !IsFinite(from) && !IsFinite(to) then (0, |times|)
    else if Less(to, from) then (0, 0)
    else
      var start := if IsFinite(from) then Lower(times, from.r) else 0;
      var end := if IsFinite(to) then Upper(times, to.r) else |times|;
      (start, Max(start, end))
  }

  method RangeBounds(times: seq<real>, range: Range) returns (start: nat, end: nat)
    requires Sorted(times)
    ensures (start, end) == Bounds(times, range)
  {
    var from, to := From(range), To(range);
    if !IsFinite(from) && !IsFinite(to) { return 0, |times|; }
    if Less(to, from) { return 0, 0; }
    start, end := 0, |times|;
    if IsFinite(from) { start := LowerBound(times, from.r); }
    if IsFinite(to) { end := UpperBound(times, to.r); }
    end := Max(start, end);
  }

  /** Both ends infinite, and on the wrong side. */
  predicate InvertedInfinite(range: Range) {
    !IsFinite(From(range)) && !IsFinite(To(range)) && (From(range).PosInf? || To(range).NegInf?)
  }

  /** The slice is exactly the samples in the inclusive window, for every range but
      an infinite one the wrong way round, which selects everything instead. */
  lemma BoundsAreWindow(times: seq<real>, range: Range)
    requires Sorted(times)
    ensures var (start, end) := Bounds(times, range);
            (forall i :: 0 <= i < |times| ==> (start <= i < end <==> InRange(range, times[i])))
            <==> times == [] || !InvertedInfinite(range)
  {
    var (start, end) := Bounds(times, range);
    if times != [] {
      assert InvertedInfinite(range) ==> start <= 0 < end && !InRange(range, times[0]);
    }
  }

  // -------------------------------------------------------------------- buckets

  datatype Point = Point(t: real, min: real, max: real, first: real, last: real, mean: real, count: nat,
                         value: Option<real>)

  function MinOf(s: seq<real>): real
    requires s != []
  {
    if |s| == 1 then s[0]
    else if s[|s| - 1] < MinOf(s[..|s| - 1]) then s[|s| - 1] else MinOf(s[..|s| - 1])
  }

  function MaxOf(s: seq<real>): real
    requires s != []
  {
    if |s| == 1 then s[0]
    else if s[|s| - 1] > MaxOf(s[..|s| - 1]) then s[|s| - 1] else MaxOf(s[..|s| - 1])
  }

  /** MinOf and MaxOf are attained bounds. */
  lemma {:induction false} Extremes(s: seq<real>)
    requires s != []
    ensures forall i :: 0 <= i < |s| ==> MinOf(s) <= s[i] <= MaxOf(s)
    ensures exists i :: 0 <= i < |s| && s[i] == MinOf(s)
    ensures exists i :: 0 <= i < |s| && s[i] == MaxOf(s)
  {
    if |s| == 1 {
      assert s[0] == MinOf(s) && s[0] == MaxOf(s);
    } else {
      var front := s[..|s| - 1];
      assert s[|s| - 1] == s[|front|];
      Extremes(front);
      var i :| 0 <= i < |front| && front[i] == MinOf(front);
      var j :| 0 <= j < |front| && front[j] == MaxOf(front);
      assert s[i] == MinOf(front) && s[j] == MaxOf(front);
    }
  }

  function Sum(s: seq<real>): real {
    if s == [] then 0.0 else Sum(s[..|s| - 1]) + s[|s| - 1]
  }

  /** The summary of the samples from lo to hi. */
  function BucketPoint(times: seq<real>, values: seq<real>, lo: nat, hi: nat): Point
    requires lo < hi <= |times| == |values|
  {
    var v := values[lo..hi];
    Point((times[lo] + times[hi - 1]) / 2.0, MinOf(v), MaxOf(v), values[lo], values[hi - 1],
          Sum(v) / (hi - lo) as real, hi - lo, None)
  }

  /** Where bucket b of m begins in a slice of n samples. */
  function Edge(b: nat, n: nat, m: nat): nat
    requires m > 0
  {
    b * n / m
  }

  lemma EdgeGrows(b: nat, n: nat, m: nat)
    requires 0 < m && b < m
    ensures Edge(b, n, m) <= Edge(b + 1, n, m) <= n
    ensures m <= n ==> Edge(b, n, m) < Edge(b + 1, n, m)
    ensures Edge(0, n, m) == 0 && Edge(m, n, m) == n
  {
    var x, y := b * n, (b + 1) * n;
    assert y == x + n;
    DivGrows(x, n, m);
    if b + 1 < m { MulGrows(b + 1, m, n); DivSmall(y, m * n, m); }
    DivExact(n, m);
  }

  lemma DivGrows(x: nat, n: nat, m: nat)
    requires m > 0
    ensures x / m <= (x + n) / m
    ensures m <= n ==> x / m < (x + n) / m
  {
    DivSmall(x, x + n, m);
    if m <= n {
      DivModUnique(x + m, x / m + 1, x % m, m);
      DivSmall(x + m, x + n, m);
    }
  }

  lemma DivSmall(x: nat, y: nat, m: nat)
    requires x <= y && m > 0
    ensures x / m <= y / m
  {
    if y / m < x / m {
      MulGrows(y / m + 1, x / m, m);
    }
  }

  lemma DivExact(n: nat, m: nat)
    requires m > 0
    ensures 0 * n / m == 0 && m * n / m == n
  {
    assert m * n == n * m + 0;
    DivModUnique(m * n, n, 0, m);
  }

  /** The buckets from b on; an empty one would be left out. */
  function Buckets(times: seq<real>, values: seq<real>, start: nat, n: nat, m: nat, b: nat): seq<Point>
    requires 0 < m && b <= m && start + n <= |times| == |values|
    decreases m - b
  {
    if b == m then []
    else
      EdgeGrows(b, n, m);
      var lo, hi := start + Edge(b, n, m), start + Edge(b + 1, n, m);
      (if lo >= hi then [] else [BucketPoint(times, values, lo, hi)]) + Buckets(times, values, start, n, m, b + 1)
  }

  function FullResolution(times: seq<real>, values: seq<real>, start: nat, end: nat): (out: seq<Point>)
    requires start <= end <= |times| == |values|
    ensures |out| == end - start
    ensures forall i :: 0 <= i < |out| ==>
              var v := values[start + i];
              out[i] == Point(times[start + i], v, v, v, v, v, 1, Some(v))
  {
    seq(end - start, i requires 0 <= i < end - start =>
          var v := values[start + i];
          Point(times[start + i], v, v, v, v, v, 1, Some(v)))
  }

  /** maxPoints, when there is one: more than any count, not positive, or a number. */
  datatype Limit = Unlimited | Points(m: nat) | NotANumber

  function LimitOf(maxPoints: Option<Float>): (l: Limit)
    ensures l.Points? ==> l.m > 0
  {
    if maxPoints.None? then Unlimited
    else
      match maxPoints.value
      case Fin(r) => if r.Floor <= 0 then Unlimited else Points(r.Floor)
      case NaN => NotANumber
      case _ => Unlimited
  }

  /** What a query returns for the slice from start to end. */
  function SlicePoints(times: seq<real>, values: seq<real>, start: nat, end: nat, maxPoints: Option<Float>): seq<Point>
    requires end <= |times| == |values|
  {
    if start >= end then []
    else
      match LimitOf(maxPoints)
      case Unlimited => FullResolution(times, values, start, end)
      case NotANumber => []
      case Points(m) =>
        if end - start <= m then FullResolution(times, values, start, end)
        else Buckets(times, values, start, end - start, m, 0)
  }

  method FullResolutionPoints(times: seq<real>, values: seq<real>, start: nat, end: nat) returns (out: seq<Point>)
    requires start <= end <= |times| == |values|
    ensures out == FullResolution(times, values, start, end)
  {
    out := [];
    for index := start to end
      invariant out == FullResolution(times, values, start, index)
    {
      var t, v := times[index], values[index];
      out := out + [Point(t, v, v, v, v, v, 1, Some(v))];
    }
  }

  method DownsampleMinMax(times: seq<real>, values: seq<real>, start: nat, end: nat, maxPoints: int)
    returns (out: seq<Point>)
    requires start < end <= |times| == |values| && 0 < maxPoints
    ensures out
            == Buckets(times, values, start, end - start, if maxPoints < end - start then maxPoints else end - start, 0)
  {
    hide BucketPoint, Edge;
    var n := end - start;
    var m: nat := if maxPoints < n then maxPoints else n;
    out := [];
    ghost var all := Buckets(times, values, start, n, m, 0);
    Append([], all, []);
    for bucket := 0 to m
      invariant all == out + Buckets(times, values, start, n, m, bucket)
    {
      ghost var rest := Buckets(times, values, start, n, m, bucket + 1);
      EdgeGrows(bucket, n, m);
      var lo, hi := start + Edge(bucket, n, m), start + Edge(bucket + 1, n, m);
      var found: seq<Point> := [];
      if lo < hi {
        var point := SummariseBucket(times, values, lo, hi);
        found := [point];
      }
      Append(out, found, rest);
      out := out + found;
    }
    Append(out, [], []);
  }

  lemma Append(a: seq<Point>, b: seq<Point>, c: seq<Point>)
    ensures a + (b + c) == a + b + c && [] + b == b && a + [] == a
  {
  }

  /** The inner loop: minimum, maximum, sum and last value in one pass. */
  method SummariseBucket(times: seq<real>, values: seq<real>, lo: nat, hi: nat) returns (p: Point)
    requires lo < hi <= |times| == |values|
    ensures p == BucketPoint(times, values, lo, hi)
  {
    var first := values[lo];
    var last, min, max, sum := first, first, first, 0.0;
    for index := lo to hi
      invariant sum == Sum(values[lo..index])
      invariant index == lo ==> min == first && max == first
      invariant index > lo ==>
                last == values[index - 1] && min == MinOf(values[lo..index]) && max == MaxOf(values[lo..index])
    {
      var value := values[index];
      assert values[lo..index + 1][..index - lo] == values[lo..index];
      if value < min { min := value; }
      if value > max { max := value; }
      sum := sum + value;
      last := value;
    }
    p := Point((times[lo] + times[hi - 1]) / 2.0, min, max, first, last, sum / (hi - lo) as real, hi - lo, None);
  }

  /** A NaN bucket count makes the bucket loop end before its first turn. */
  method PointsForSlice(times: seq<real>, values: seq<real>, start: nat, end: nat, maxPoints: Option<Float>)
    returns (out: seq<Point>)
    requires end <= |times| == |values|
    ensures out == SlicePoints(times, values, start, end, maxPoints)
  {
    hide Buckets;
    if start >= end { return []; }
    match LimitOf(maxPoints)
    case Unlimited => out := FullResolutionPoints(times, values, start, end);
    case NotANumber => out := [];
    case Points(m) =>
      if end - start <= m {
        out := FullResolutionPoints(times, values, start, end);
      } else {
        out := DownsampleMinMax(times, values, start, end, m);
      }
  }

  // --------------------------------------------------------------- what buckets keep

  predicate IsAmong(x: real, values: seq<real>, lo: nat, hi: nat)
    requires lo <= hi <= |values|
  {
    exists i :: lo <= i < hi && values[i] == x
  }

  /** p says of the samples from lo to hi what a bucket should. */
  ghost predicate Summarises(p: Point, times: seq<real>, values: seq<real>, lo: nat, hi: nat)
    requires lo < hi <= |times| == |values|
  {
    && p.count == hi - lo && p.first == values[lo] && p.last == values[hi - 1]
    && p.t == (times[lo] + times[hi - 1]) / 2.0
    && (forall i :: lo <= i < hi ==> p.min <= values[i] <= p.max)
    && IsAmong(p.min, values, lo, hi) && IsAmong(p.max, values, lo, hi)
    && p.mean * (hi - lo) as real == Sum(values[lo..hi]) && p.min <= p.mean <= p.max
  }

  /** Each point summarises just the slice that follows those of the points before
      it, and the slices run from lo to hi. */
  ghost predicate Partitions(points: seq<Point>, times: seq<real>, values: seq<real>, lo: nat, hi: nat)
    requires lo <= hi <= |times| == |values|
  {
    if points == [] then lo == hi
    else
      var mid := lo + points[0].count;
      lo < mid <= hi && Summarises(points[0], times, values, lo, mid) && Partitions(points[1..], times, values, mid, hi)
  }

  predicate Covered(points: seq<Point>, x: real) {
    exists k :: 0 <= k < |points| && points[k].min <= x <= points[k].max
  }

  predicate TimesRise(points: seq<Point>) {
    forall i, j :: 0 <= i <= j < |points| ==> points[i].t <= points[j].t
  }

  lemma OneMore(s: seq<real>)
    requires |s| > 1
    ensures var front, last := s[..|s| - 1], s[|s| - 1];
            Sum(s) == Sum(front) + last && MinOf(s) <= MinOf(front) && MinOf(s) <= last
            && MaxOf(front) <= MaxOf(s) && last <= MaxOf(s)
  {
  }

  lemma OnlyOne(x: real)
    ensures Sum([x]) == x && MinOf([x]) == x && MaxOf([x]) == x
  {
    assert Sum([x]) == Sum([x][..0]) + x;
  }

  lemma {:induction false} MeanBetween(s: seq<real>)
    requires s != []
    ensures MinOf(s) * |s| as real <= Sum(s) <= MaxOf(s) * |s| as real
  {
    hide MinOf, MaxOf, Sum;
    if |s| == 1 {
      assert s == [s[0]];
      OnlyOne(s[0]);
    } else {
      var front, n := s[..|s| - 1], (|s| - 1) as real;
      MeanBetween(front);
      OneMore(s);
      assert |s| as real == n + 1.0;
      MeanStep(MinOf(s), MinOf(front), Sum(front), MaxOf(front), MaxOf(s), s[|s| - 1], n);
    }
  }

  lemma MeanStep(min: real, low: real, sum: real, high: real, max: real, last: real, n: real)
    requires n >= 0.0 && low * n <= sum <= high * n && min <= low && min <= last && high <= max && last <= max
    ensures min * (n + 1.0) <= sum + last <= max * (n + 1.0)
  {
    MulReal(min, low, n);
    MulReal(high, max, n);
    Distribute(min, n);
    Distribute(max, n);
  }

  lemma MulReal(a: real, b: real, n: real)
    requires a <= b && n >= 0.0
    ensures a * n <= b * n
  {
  }

  lemma Distribute(a: real, n: real)
    ensures a * (n + 1.0) == a * n + a
  {
  }

  lemma DivBetween(lo: real, x: real, hi: real, n: real)
    requires n > 0.0 && lo * n <= x <= hi * n
    ensures lo <= x / n <= hi && x / n * n == x
  {
    var q := x / n;
    assert q * n == x;
    if q < lo { MulLess(q, lo, n); }
    if hi < q { MulLess(hi, q, n); }
  }

  lemma MulLess(a: real, b: real, n: real)
    requires a < b && n > 0.0
    ensures a * n < b * n
  {
  }

  /** The greatest and the least of a slice are among its samples. */
  lemma SliceExtremes(values: seq<real>, lo: nat, hi: nat)
    requires lo < hi <= |values|
    ensures var v := values[lo..hi];
            && IsAmong(MinOf(v), values, lo, hi) && IsAmong(MaxOf(v), values, lo, hi)
            && forall i :: lo <= i < hi ==> MinOf(v) <= values[i] <= MaxOf(v)
  {
    var v := values[lo..hi];
    Extremes(v);
    hide MinOf, MaxOf;
    var i :| 0 <= i < |v| && v[i] == MinOf(v);
    var j :| 0 <= j < |v| && v[j] == MaxOf(v);
    assert values[lo + i] == MinOf(v) && values[lo + j] == MaxOf(v);
    assert forall k :: lo <= k < hi ==> values[k] == v[k - lo];
  }

  lemma OneBucket(times: seq<real>, values: seq<real>, lo: nat, hi: nat)
    requires lo < hi <= |times| == |values|
    ensures Summarises(BucketPoint(times, values, lo, hi), times, values, lo, hi)
  {
    hide MinOf, MaxOf, Sum, IsAmong;
    var v := values[lo..hi];
    SliceExtremes(values, lo, hi);
    MeanBetween(v);
    DivBetween(MinOf(v), Sum(v), MaxOf(v), (hi - lo) as real);
  }

  lemma OneSample(times: seq<real>, values: seq<real>, i: nat)
    requires i < |times| == |values|
    ensures var v := values[i];
            Summarises(Point(times[i], v, v, v, v, v, 1, Some(v)), times, values, i, i + 1)
  {
    assert values[i..i + 1] == [values[i]];
    OnlyOne(values[i]);
    assert IsAmong(values[i], values, i, i + 1);
  }

  lemma FirstSlice(p: Point, rest: seq<Point>, times: seq<real>, values: seq<real>, lo: nat, mid: nat, hi: nat)
    requires lo < mid <= hi <= |times| == |values|
    requires Summarises(p, times, values, lo, mid) && Partitions(rest, times, values, mid, hi)
    ensures Partitions([p] + rest, times, values, lo, hi)
  {
    assert ([p] + rest)[1..] == rest;
    assert p.count == mid - lo;
    hide Summarises;
  }

  lemma {:induction false} BucketsPartition(times: seq<real>, values: seq<real>, start: nat, n: nat, m: nat, b: nat)
    requires 0 < m <= n && b <= m && start + n <= |times| == |values|
    ensures Edge(b, n, m) <= n && |Buckets(times, values, start, n, m, b)| == m - b
    ensures Partitions(Buckets(times, values, start, n, m, b), times, values, start + Edge(b, n, m), start + n)
    decreases m - b
  {
    hide BucketPoint, Edge, Partitions, Summarises;
    if b == m {
      NoSlice(times, values, start + n);
      EdgeGrows(m - 1, n, m);
    } else {
      EdgeGrows(b, n, m);
      var lo, mid := start + Edge(b, n, m), start + Edge(b + 1, n, m);
      BucketsPartition(times, values, start, n, m, b + 1);
      OneBucket(times, values, lo, mid);
      var rest := Buckets(times, values, start, n, m, b + 1);
      FirstSlice(BucketPoint(times, values, lo, mid), rest, times, values, lo, mid, start + n);
    }
  }

  lemma NoSlice(times: seq<real>, values: seq<real>, end: nat)
    requires end <= |times| == |values|
    ensures Partitions([], times, values, end, end)
  {
  }

  lemma {:induction false} SamplesPartition(times: seq<real>, values: seq<real>, start: nat, end: nat)
    requires start <= end <= |times| == |values|
    ensures Partitions(FullResolution(times, values, start, end), times, values, start, end)
    decreases end - start
  {
    hide Partitions, Summarises;
    if start == end {
      NoSlice(times, values, end);
    } else {
      var all, rest := FullResolution(times, values, start, end), FullResolution(times, values, start + 1, end);
      SamplesPartition(times, values, start + 1, end);
      OneSample(times, values, start);
      assert all == [all[0]] + rest;
      FirstSlice(all[0], rest, times, values, start, start + 1, end);
    }
  }

  /** What comes back for a slice: nothing exactly when it is empty or maxPoints is
      NaN, and otherwise points that summarise consecutive slices of it: the whole part of
      maxPoints when that is from 1 to below the number of samples, else one for each. */
  lemma PointsPartition(times: seq<real>, values: seq<real>, start: nat, end: nat, maxPoints: Option<Float>)
    requires start < end <= |times| == |values|
    ensures var points, limit := SlicePoints(times, values, start, end, maxPoints), LimitOf(maxPoints);
            && (points == [] <==> maxPoints == Some(NaN))
            && (points != [] ==> Partitions(points, times, values, start, end))
            && (points != [] ==> |points| == if limit.Points? && limit.m < end - start then limit.m else end - start)
    ensures var points := SlicePoints(times, values, start, end, maxPoints);
            if maxPoints.Some? && maxPoints.value.Fin? && 1.0 <= maxPoints.value.r < (end - start) as real then
              |points| as real <= maxPoints.value.r < |points| as real + 1.0
              && forall i :: 0 <= i < |points| ==> points[i].value == None
            else maxPoints != Some(NaN) ==>
              |points| == end - start && forall i :: 0 <= i < |points| ==> points[i].value == Some(points[i].first)
  {
    hide Edge, Buckets, Partitions;
    var limit := LimitOf(maxPoints);
    if limit.Points? && limit.m < end - start {
      EdgeGrows(0, end - start, limit.m);
      BucketsPartition(times, values, start, end - start, limit.m, 0);
      var points := SlicePoints(times, values, start, end, maxPoints);
      forall i | 0 <= i < |points| ensures points[i].value == None {
        BucketIs(times, values, start, end - start, limit.m, 0, i);
      }
    } else {
      SamplesPartition(times, values, start, end);
    }
  }

  function Counts(points: seq<Point>): nat {
    if points == [] then 0 else points[0].count + Counts(points[1..])
  }

  /** The i-th bucket from b on. */
  lemma {:induction false} BucketIs(times: seq<real>, values: seq<real>, start: nat, n: nat, m: nat, b: nat, i: nat)
    requires 0 < m <= n && b + i < m && start + n <= |times| == |values|
    ensures EdgeAt(b + i, n, m)
    ensures var points := Buckets(times, values, start, n, m, b);
            |points| == m - b
            && points[i] == BucketPoint(times, values, start + Edge(b + i, n, m), start + Edge(b + i + 1, n, m))
    decreases m - b
  {
    hide Edge, BucketPoint;
    EdgeGrows(b, n, m);
    if i > 0 {
      BucketIs(times, values, start, n, m, b + 1, i - 1);
    } else if b + 1 < m {
      BucketIs(times, values, start, n, m, b + 1, 0);
    }
  }

  predicate EdgeAt(b: nat, n: nat, m: nat)
    requires b < m
  {
    Edge(b, n, m) < Edge(b + 1, n, m) <= n
  }

  /** The samples are shared out evenly: before the i-th of m points stand the whole part
      of i / m of all n samples, and the point counts those up to the next such mark. */
  lemma SharedEvenly(times: seq<real>, values: seq<real>, start: nat, end: nat, maxPoints: Option<Float>, i: nat)
    returns (from: nat, to: nat)
    requires start < end <= |times| == |values|
    requires LimitOf(maxPoints).Points? && i < LimitOf(maxPoints).m < end - start
    ensures from < to <= end - start
    ensures IsFloor(from, i * (end - start), LimitOf(maxPoints).m)
    ensures IsFloor(to, (i + 1) * (end - start), LimitOf(maxPoints).m)
    ensures |SlicePoints(times, values, start, end, maxPoints)| == LimitOf(maxPoints).m
    ensures SlicePoints(times, values, start, end, maxPoints)[i] == BucketPoint(times, values, start + from, start + to)
  {
    hide Buckets, BucketPoint;
    var n, m := end - start, LimitOf(maxPoints).m;
    from, to := Edge(i, n, m), Edge(i + 1, n, m);
    BucketIs(times, values, start, n, m, 0, i);
    FloorOf(i * n, m);
    FloorOf((i + 1) * n, m);
  }

  /** q is the whole part of x / m. */
  predicate IsFloor(q: nat, x: nat, m: nat) { q * m <= x < (q + 1) * m }

  lemma FloorOf(x: nat, m: nat)
    requires m > 0
    ensures IsFloor(x / m, x, m)
  {
  }

  /** The first point of a partition, and where it ends. */
  lemma FirstOf(points: seq<Point>, times: seq<real>, values: seq<real>, lo: nat, hi: nat) returns (mid: nat)
    requires lo < hi <= |times| == |values| && Partitions(points, times, values, lo, hi)
    ensures lo < mid <= hi && points != [] && Summarises(points[0], times, values, lo, mid)
    ensures Partitions(points[1..], times, values, mid, hi) && (points[1..] == [] <==> mid == hi)
  {
    mid := lo + points[0].count;
  }

  /** Every sample is counted once, the first and the last value are kept, no value is
      outside all points, and the points run forward in time. */
  lemma {:induction false} PartitionKeeps(points: seq<Point>, times: seq<real>, values: seq<real>, lo: nat, hi: nat)
    requires lo < hi <= |times| == |values| && Partitions(points, times, values, lo, hi) && Sorted(times)
    ensures points != [] && Counts(points) == hi - lo
    ensures points[0].first == values[lo] && points[|points| - 1].last == values[hi - 1]
    ensures forall i :: lo <= i < hi ==> Covered(points, values[i])
    ensures TimesRise(points) && times[lo] <= points[0].t
    decreases hi - lo
  {
    hide Partitions, IsAmong, Sum, Covered;
    var mid := FirstOf(points, times, values, lo, hi);
    var p, rest := points[0], points[1..];
    assert points == [p] + rest;
    if mid < hi { PartitionKeeps(rest, times, values, mid, hi); }
    assert times[lo] <= p.t <= times[mid - 1];
    RiseFrom(p, rest);
    hide Summarises, Counts;
    forall i | lo <= i < hi ensures Covered(points, values[i]) {
      if i < mid {
        CoveredFirst(p, rest, times, values, lo, mid, i);
      } else {
        CoveredLater(p, rest, values[i]);
      }
    }
  }

  lemma CoveredFirst(p: Point, rest: seq<Point>, times: seq<real>, values: seq<real>, lo: nat, mid: nat, i: nat)
    requires lo < mid <= |times| == |values| && Summarises(p, times, values, lo, mid) && lo <= i < mid
    ensures Covered([p] + rest, values[i])
  {
    assert ([p] + rest)[0] == p;
  }

  lemma CoveredLater(p: Point, rest: seq<Point>, x: real)
    requires Covered(rest, x)
    ensures Covered([p] + rest, x)
  {
    var k :| 0 <= k < |rest| && rest[k].min <= x <= rest[k].max;
    assert ([p] + rest)[k + 1] == rest[k];
  }

  lemma RiseFrom(p: Point, rest: seq<Point>)
    ensures TimesRise(rest) && (rest != [] ==> p.t <= rest[0].t) ==> TimesRise([p] + rest)
  {
    if TimesRise(rest) && (rest != [] ==> p.t <= rest[0].t) {
      var all := [p] + rest;
      assert forall k :: 0 < k < |all| ==> all[k] == rest[k - 1];
      assert forall k :: 0 <= k < |rest| ==> rest[0].t <= rest[k].t;
    }
  }

  /** Downsampling n samples to m < n points: exactly m buckets over consecutive
      slices, which between them count every sample once, keep the first and the last
      value, cover every value and run forward in time. */
  lemma DownsampleKeeps(times: seq<real>, values: seq<real>, start: nat, end: nat, maxPoints: Option<Float>)
    requires start < end <= |times| == |values| && Sorted(times)
    requires LimitOf(maxPoints).Points? && LimitOf(maxPoints).m < end - start
    ensures var points := SlicePoints(times, values, start, end, maxPoints);
            && |points| == LimitOf(maxPoints).m && Partitions(points, times, values, start, end)
            && Counts(points) == end - start
            && points[0].first == values[start] && points[|points| - 1].last == values[end - 1]
            && TimesRise(points)
  {
    hide SlicePoints, Partitions;
    PointsPartition(times, values, start, end, maxPoints);
    PartitionKeeps(SlicePoints(times, values, start, end, maxPoints), times, values, start, end);
  }

  /** No point of a partition goes beyond the bounds of its samples. */
  lemma {:induction false} PointsWithin(points: seq<Point>, times: seq<real>, values: seq<real>, lo: nat, hi: nat,
                                        x: real, y: real)
    requires lo <= hi <= |times| == |values| && Partitions(points, times, values, lo, hi)
    requires forall i :: lo <= i < hi ==> x <= values[i] <= y
    ensures forall k :: 0 <= k < |points| ==> x <= points[k].min && points[k].max <= y
    decreases hi - lo
  {
    if points != [] {
      var mid := FirstOf(points, times, values, lo, hi);
      PointsWithin(points[1..], times, values, mid, hi, x, y);
      assert points == [points[0]] + points[1..];
    }
  }

  /** The least and the greatest sample survive downsampling. */
  lemma ExtremesSurvive(points: seq<Point>, times: seq<real>, values: seq<real>, lo: nat, hi: nat, least: real,
                        greatest: real)
    requires lo < hi <= |times| == |values| && Partitions(points, times, values, lo, hi) && Sorted(times)
    requires IsAmong(least, values, lo, hi) && IsAmong(greatest, values, lo, hi)
    requires forall i :: lo <= i < hi ==> least <= values[i] <= greatest
    ensures forall k :: 0 <= k < |points| ==> least <= points[k].min && points[k].max <= greatest
    ensures exists k :: 0 <= k < |points| && points[k].min == least
    ensures exists k :: 0 <= k < |points| && points[k].max == greatest
  {
    hide Partitions;
    PointsWithin(points, times, values, lo, hi, least, greatest);
    PartitionKeeps(points, times, values, lo, hi);
    var i := CoveringPoint(points, values, lo, hi, least);
    var j := CoveringPoint(points, values, lo, hi, greatest);
    assert points[i].min == least && points[j].max == greatest;
  }

  /** A point that holds a sample of the slice. */
  lemma CoveringPoint(points: seq<Point>, values: seq<real>, lo: nat, hi: nat, x: real) returns (k: nat)
    requires lo <= hi <= |values| && IsAmong(x, values, lo, hi)
    requires forall i :: lo <= i < hi ==> Covered(points, values[i])
    ensures k < |points| && points[k].min <= x <= points[k].max
  {
    var i :| lo <= i < hi && values[i] == x;
    assert Covered(points, values[i]);
    k :| 0 <= k < |points| && points[k].min <= values[i] <= points[k].max;
  }
}

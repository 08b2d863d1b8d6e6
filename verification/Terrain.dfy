/** Sampling a path for a terrain profile (src/geo/terrain/profile.ts). */
module Terrain {
  import opened Numbers

  datatype LatLon = LatLon(lat: real, lon: real)

  datatype PathSample = PathSample(at: LatLon, distanceM: real)

  /** The chainage at each of the first n points; dist is the ground distance. */
  function Chainage(points: seq<LatLon>, dist: (LatLon, LatLon) -> real, n: nat): (cum: seq<real>)
    requires 0 < n <= |points|
    ensures |cum| == n && cum[0] == 0.0
  {
    if n == 1 then [0.0]
    else
      var cum := Chainage(points, dist, n - 1);
      cum + [cum[n - 2] + dist(points[n - 2], points[n - 1])]
  }

  ghost predicate NotNegative(dist: (LatLon, LatLon) -> real) {
    forall a, b :: dist(a, b) >= 0.0
  }

  lemma {:induction false} ChainageRises(points: seq<LatLon>, dist: (LatLon, LatLon) -> real, n: nat)
    requires 0 < n <= |points| && NotNegative(dist)
    ensures Sorted(Chainage(points, dist, n))
    ensures forall i :: 0 < i < n ==>
              Chainage(points, dist, n)[i] == Chainage(points, dist, n)[i - 1] + dist(points[i - 1], points[i])
  {
    if n > 1 {
      ChainageRises(points, dist, n - 1);
      var cum := Chainage(points, dist, n - 1);
      assert dist(points[n - 2], points[n - 1]) >= 0.0;
      assert forall i :: 0 <= i < n - 1 ==> cum[i] <= cum[n - 2];
    }
  }

  function Min(a: real, b: real): real { if a < b then a else b }
  function Max(a: real, b: real): real { if a < b then b else a }

  /** How far d is along segment seg. */
  function Fraction(cum: seq<real>, seg: nat, d: real): (f: real)
    requires seg + 1 < |cum|
    ensures 0.0 <= f <= 1.0
    ensures cum[seg] <= d <= cum[seg + 1] && cum[seg] < cum[seg + 1] ==> f * (cum[seg + 1] - cum[seg]) == d - cum[seg]
  {
    var span := cum[seg + 1] - cum[seg];
    if span > 0.0 then
      FractionBounds(d - cum[seg], span);
      Max(0.0, Min(1.0, (d - cum[seg]) / span))
    else 0.0
  }

  lemma FractionBounds(p: real, span: real)
    requires span > 0.0
    ensures p / span * span == p
    ensures 0.0 <= p <= span ==> 0.0 <= p / span <= 1.0
  {
    var q := p / span;
    assert q * span == p;
    if 0.0 <= p <= span {
      if q < 0.0 { Product(-q, span); }
      if q > 1.0 { Product(q - 1.0, span); }
    }
  }

  lemma Product(a: real, b: real)
    requires a > 0.0 && b > 0.0
    ensures a * b > 0.0
  {
  }

  function InterpolateAt(points: seq<LatLon>, cum: seq<real>, seg: nat, d: real): LatLon
    requires |cum| == |points| && seg + 1 < |points|
  {
    var a, b, f := points[seg], points[seg + 1], Fraction(cum, seg, d);
    LatLon(a.lat + (b.lat - a.lat) * f, a.lon + (b.lon - a.lon) * f)
  }

  /** The segment a sample at d is taken from: the first one that ends at or after d. */
  function SegmentOf(cum: seq<real>, d: real): (seg: nat)
    requires |cum| >= 2
    ensures seg + 1 < |cum|
    ensures forall k :: 0 < k <= seg ==> cum[k] < d
    ensures d <= cum[seg + 1] || seg + 2 == |cum|
  {
    SegmentFrom(cum, d, 0)
  }

  function SegmentFrom(cum: seq<real>, d: real, seg: nat): (r: nat)
    requires seg + 1 < |cum| && forall k :: 0 < k <= seg ==> cum[k] < d
    ensures seg <= r && r + 1 < |cum|
    ensures forall k :: 0 < k <= r ==> cum[k] < d
    ensures d <= cum[r + 1] || r + 2 == |cum|
    decreases |cum| - seg
  {
    if seg + 2 < |cum| && cum[seg + 1] < d then SegmentFrom(cum, d, seg + 1) else seg
  }

  function Sample(points: seq<LatLon>, cum: seq<real>, d: real): PathSample
    requires |cum| == |points| >= 2
  {
    PathSample(InterpolateAt(points, cum, SegmentOf(cum, d), d), d)
  }

  function Step(spacingM: real, total: real): real { if spacingM > 0.0 then spacingM else total }

  /** k steps along. */
  function At(k: int, step: real): real { k as real * step }

  /** The samples at n multiples of the step, and the last point. */
  function Samples(points: seq<LatLon>, cum: seq<real>, step: real, n: nat): (out: seq<PathSample>)
    requires |cum| == |points| >= 2
    ensures |out| == n + 1
  {
    seq(n, k requires 0 <= k < n => Sample(points, cum, At(k, step)))
    + [PathSample(points[|points| - 1], cum[|cum| - 1])]
  }

  /** How many multiples of step are below total. */
  function Count(total: real, step: real): (n: nat)
    requires total > 0.0 && step > 0.0
    ensures n > 0 && At(n - 1, step) < total <= At(n, step)
  {
    CeilingBounds(total, step);
    var n := -((-(total / step)).Floor);
    n
  }

  lemma CeilingBounds(total: real, step: real)
    requires total > 0.0 && step > 0.0
    ensures var n := -((-(total / step)).Floor); n > 0 && At(n - 1, step) < total <= At(n, step)
  {
    hide At;
    var q := total / step;
    Quotient(total, step, q);
    var n := -((-q).Floor);
    Multiples(n - 1, n - 1, step);
    SplitOff(n, q, step);
    Below(At(n, step), n as real - q, step, total);
    if n <= 0 {
      Multiples(n, 0, step);
    }
  }

  lemma Quotient(total: real, step: real, q: real)
    requires step > 0.0 && q == total / step
    ensures q * step == total
  {
  }

  lemma SplitOff(n: int, q: real, step: real)
    ensures q * step == At(n, step) - (n as real - q) * step
  {
  }

  lemma Below(whole: real, gap: real, step: real, total: real)
    requires 0.0 <= gap < 1.0 && step > 0.0 && total == whole - gap * step
    ensures whole - step < total <= whole
  {
    var rest := (1.0 - gap) * step;
    assert rest > 0.0;
  }

  lemma Multiples(j: int, k: int, step: real)
    requires j <= k && step > 0.0
    ensures At(j, step) <= At(k, step)
    ensures At(k + 1, step) == At(k, step) + step && At(0, step) == 0.0
  {
    assert (k - j) as real * step >= 0.0;
  }

  lemma InOrder(j: int, k: int, step: real)
    requires step > 0.0
    ensures j <= k ==> At(j, step) <= At(k, step)
  {
    if j <= k { Multiples(j, k, step); }
  }

  method SamplePath(points: seq<LatLon>, spacingM: real, dist: (LatLon, LatLon) -> real) returns (out: seq<PathSample>)
    requires NotNegative(dist)
    ensures points == [] ==> out == []
    ensures points != [] ==>
              var cum := Chainage(points, dist, |points|);
              var total := cum[|cum| - 1];
              if |points| == 1 || total <= 0.0 then out == [PathSample(points[0], 0.0)]
              else out == Samples(points, cum, Step(spacingM, total), Count(total, Step(spacingM, total)))
  {
    if points == [] { return []; }
    var first := points[0];
    if |points| == 1 { return [PathSample(first, 0.0)]; }
    var cum := [0.0];
    for i := 1 to |points|
      invariant cum == Chainage(points, dist, i)
    {
      cum := cum + [cum[i - 1] + dist(points[i - 1], points[i])];
    }
    var total := cum[|cum| - 1];
    if total <= 0.0 { return [PathSample(first, 0.0)]; }
    ChainageRises(points, dist, |points|);
    out := Walk(points, cum, total, Step(spacingM, total));
  }

  /** The sampling loop. It ends, since each turn moves a whole step. */
  method Walk(points: seq<LatLon>, cum: seq<real>, total: real, step: real) returns (out: seq<PathSample>)
    requires |cum| == |points| >= 2 && Sorted(cum) && cum[0] == 0.0 && total == cum[|cum| - 1] > 0.0 && step > 0.0
    ensures out == Samples(points, cum, step, Count(total, step))
  {
    hide At, Count, InterpolateAt, SegmentFrom;
    out := [];
    var seg := 0;
    var d := 0.0;
    ghost var k, n := 0, Count(total, step);
    Multiples(0, 0, step);
    while d < total
      invariant 0 <= k <= n && d == At(k, step)
      invariant seg + 1 < |cum| && forall j :: 0 < j <= seg ==> cum[j] < d
      invariant out == seq(k, i requires 0 <= i < k => Sample(points, cum, At(i, step)))
      decreases n - k
    {
      while seg < |cum| - 1 && cum[seg + 1] < d
        invariant seg + 1 < |cum| && forall j :: 0 < j <= seg ==> cum[j] < d
        invariant SegmentFrom(cum, d, seg) == SegmentOf(cum, d)
      {
        seg := seg + 1;
      }
      out := out + [PathSample(InterpolateAt(points, cum, seg, d), d)];
      Multiples(k, k, step);
      InOrder(n, k, step);
      d := d + step;
      k := k + 1;
    }
    InOrder(k, n - 1, step);
    out := out + [PathSample(points[|points| - 1], total)];
  }

  // ------------------------------------------------------------------ the samples

  /** On a path of positive length the chainages rise strictly from 0 to the total,
      no two neighbours further apart than the step. */
  lemma ChainagesRise(points: seq<LatLon>, cum: seq<real>, step: real)
    requires |cum| == |points| >= 2 && cum[|cum| - 1] > 0.0 && step > 0.0
    ensures var out := Samples(points, cum, step, Count(cum[|cum| - 1], step));
            && |out| >= 2 && out[0].distanceM == 0.0
            && out[|out| - 1] == PathSample(points[|points| - 1], cum[|cum| - 1])
            && (forall i :: 0 <= i < |out| - 1 ==> RisesWithin(out[i].distanceM, out[i + 1].distanceM, step))
  {
    hide At, Count, Sample;
    var total := cum[|cum| - 1];
    var n := Count(total, step);
    var out := Samples(points, cum, step, n);
    Multiples(0, 0, step);
    SampleAt(points, cum, step, n, 0);
    forall i | 0 <= i < n ensures RisesWithin(out[i].distanceM, out[i + 1].distanceM, step) {
      Multiples(i, n - 1, step);
      Multiples(i, i, step);
      SampleAt(points, cum, step, n, i);
      if i + 1 < n { SampleAt(points, cum, step, n, i + 1); } else { assert At(n, step) >= total; }
    }
  }

  /** The chainages of a sampled path in terms of the spacing asked for: its multiples,
      and the total; without a positive spacing just the two ends. */
  lemma PathSpacing(points: seq<LatLon>, cum: seq<real>, spacingM: real)
    requires |cum| == |points| >= 2 && cum[|cum| - 1] > 0.0
    ensures var total := cum[|cum| - 1];
            var out := Samples(points, cum, Step(spacingM, total), Count(total, Step(spacingM, total)));
            var n := |out| - 1;
            && out[0].distanceM == 0.0 && out[n].distanceM == total
            && (spacingM <= 0.0 ==> n == 1)
            && (spacingM > 0.0 ==>
                  && (forall i :: 0 < i < n ==> out[i].distanceM == out[i - 1].distanceM + spacingM)
                  && out[n - 1].distanceM < total <= out[n - 1].distanceM + spacingM)
  {
    hide At, Count, Sample;
    var total := cum[|cum| - 1];
    var step := Step(spacingM, total);
    var n := Count(total, step);
    Multiples(0, 0, step);
    SampleAt(points, cum, step, n, 0);
    forall i | 0 < i < n
      ensures Samples(points, cum, step, n)[i].distanceM == Samples(points, cum, step, n)[i - 1].distanceM + step
    {
      Multiples(i - 1, i - 1, step);
      SampleAt(points, cum, step, n, i - 1);
      SampleAt(points, cum, step, n, i);
    }
    Multiples(n - 1, n - 1, step);
    SampleAt(points, cum, step, n, n - 1);
    if spacingM <= 0.0 && n > 1 { Multiples(1, n - 1, step); }
  }

  lemma SampleAt(points: seq<LatLon>, cum: seq<real>, step: real, n: nat, i: nat)
    requires |cum| == |points| >= 2 && i < n
    ensures Samples(points, cum, step, n)[i] == Sample(points, cum, At(i, step))
    ensures Samples(points, cum, step, n)[i].distanceM == At(i, step)
  {
  }

  predicate RisesWithin(a: real, b: real, step: real) { a < b <= a + step }

  /** Each sample before the last is taken from a segment that holds it, at the
      fraction its chainage says. */
  lemma SampleInSegment(points: seq<LatLon>, cum: seq<real>, step: real, i: nat)
    requires |cum| == |points| >= 2 && Sorted(cum) && cum[0] == 0.0 && cum[|cum| - 1] > 0.0 && step > 0.0
    requires i < Count(cum[|cum| - 1], step)
    ensures var s := Samples(points, cum, step, Count(cum[|cum| - 1], step))[i];
            var seg := SegmentOf(cum, s.distanceM);
            var f := Fraction(cum, seg, s.distanceM);
            && cum[seg] <= s.distanceM <= cum[seg + 1]
            && 0.0 <= f <= 1.0 && f * (cum[seg + 1] - cum[seg]) == s.distanceM - cum[seg]
            && s.at == LatLon(points[seg].lat + (points[seg + 1].lat - points[seg].lat) * f,
                              points[seg].lon + (points[seg + 1].lon - points[seg].lon) * f)
  {
    hide At, Count, Fraction;
    var total := cum[|cum| - 1];
    var n := Count(total, step);
    var d := At(i, step);
    Multiples(0, i, step);
    Multiples(i, n - 1, step);
    SampleAt(points, cum, step, n, i);
    InSegment(cum, d);
  }

  lemma InSegment(cum: seq<real>, d: real)
    requires |cum| >= 2 && Sorted(cum) && cum[0] == 0.0 <= d < cum[|cum| - 1]
    ensures var seg := SegmentOf(cum, d);
            cum[seg] <= d <= cum[seg + 1] && Fraction(cum, seg, d) * (cum[seg + 1] - cum[seg]) == d - cum[seg]
  {
    hide Fraction;
    var seg := SegmentOf(cum, d);
    assert seg == 0 || cum[seg] < d;
    assert cum[seg] <= d <= cum[seg + 1];
    NoLength(Fraction(cum, seg, d), cum[seg + 1] - cum[seg], d - cum[seg]);
  }

  lemma NoLength(f: real, span: real, along: real)
    requires 0.0 <= along <= span && (span > 0.0 ==> f * span == along)
    ensures f * span == along
  {
    if span <= 0.0 { TimesZero(f, span); }
  }

  lemma TimesZero(f: real, zero: real)
    requires zero == 0.0
    ensures f * zero == 0.0
  {
  }
}

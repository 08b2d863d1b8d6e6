/** Line placement and ordering of a lawn-mower survey (src/geo/survey/grid.ts). */
module Grid {
  import opened Text
  import opened Numbers
  import opened Geometry

  /** lineSpacingFromSidelap and triggerDistanceFromFrontlap. */
  function SpacingFromOverlap(footprint: real, overlapPct: real): (r: Result<real>)
    ensures r.Ok? <==> footprint > 0.0 && 0.0 <= overlapPct < 100.0
    ensures r.Ok? ==> 0.0 < r.value <= footprint
  {
    if footprint <= 0.0 || overlapPct < 0.0 || overlapPct >= 100.0 then Err
    else
      SpacingBounds(footprint, overlapPct);
      Ok(footprint * (1.0 - overlapPct / 100.0))
  }

  lemma SpacingBounds(footprint: real, overlapPct: real)
    requires footprint > 0.0 && 0.0 <= overlapPct < 100.0
    ensures 0.0 < footprint * (1.0 - overlapPct / 100.0) <= footprint
  {
    var k := 1.0 - overlapPct / 100.0;
    assert 0.0 < k <= 1.0;
    Times(footprint, k);
  }

  lemma Times(f: real, k: real)
    requires f > 0.0 && 0.0 < k <= 1.0
    ensures 0.0 < f * k <= f
  {
    assert f * (1.0 - k) >= 0.0;
  }

  // --------------------------------------------------------------- across extent

  ghost predicate Extent(planar: seq<Planar>, across: Planar, vMin: real, vMax: real) {
    && (forall i :: 0 <= i < |planar| ==> vMin <= Dot(planar[i], across) <= vMax)
    && (exists i :: 0 <= i < |planar| && Dot(planar[i], across) == vMin)
    && (exists i :: 0 <= i < |planar| && Dot(planar[i], across) == vMax)
  }

  method AcrossExtent(planar: seq<Planar>, across: Planar) returns (vMin: Float, vMax: Float)
    ensures planar == [] ==> vMin == PosInf && vMax == NegInf
    ensures planar != [] ==> vMin.Fin? && vMax.Fin? && Extent(planar, across, vMin.r, vMax.r)
  {
    hide Dot;
    vMin, vMax := PosInf, NegInf;
    for i := 0 to |planar|
      invariant i == 0 ==> vMin == PosInf && vMax == NegInf
      invariant i > 0 ==> vMin.Fin? && vMax.Fin? && Extent(planar[..i], across, vMin.r, vMax.r)
    {
      ghost var prefix := planar[..i];
      ghost var longer := planar[..i + 1];
      assert longer[i] == planar[i] && forall j :: 0 <= j < i ==> longer[j] == prefix[j];
      var v := Dot(planar[i], across);
      ghost var lo, hi := vMin, vMax;
      if Less(Fin(v), vMin) { vMin := Fin(v); }
      if Less(vMax, Fin(v)) { vMax := Fin(v); }
      if i > 0 {
        ghost var a :| 0 <= a < |prefix| && Dot(prefix[a], across) == lo.r;
        ghost var b :| 0 <= b < |prefix| && Dot(prefix[b], across) == hi.r;
        assert longer[a] == prefix[a] && longer[b] == prefix[b];
      }
    }
    assert planar[..|planar|] == planar;
  }

  // -------------------------------------------------------------- line placement

  function LineCount(span: real, spacing: real): (n: nat)
    requires spacing > 0.0
    ensures n >= 1
  {
    var n := (span / spacing).Floor + 1;
    if n < 1 then 1 else n
  }

  /** k spacings. */
  function Whole(k: int, spacing: real): real { k as real * spacing }

  function FirstV(vMin: real, span: real, spacing: real): real
    requires spacing > 0.0
  {
    vMin + Slack(span, spacing) / 2.0
  }

  /** The k-th planned line. */
  function LineV(vMin: real, span: real, spacing: real, k: int): real
    requires spacing > 0.0
  {
    FirstV(vMin, span, spacing) + Whole(k, spacing)
  }

  /** What is left of the span when its whole spacings are taken away. */
  function Slack(span: real, spacing: real): real
    requires spacing > 0.0
  {
    span - Whole(LineCount(span, spacing) - 1, spacing)
  }

  lemma WholeRises(j: int, k: int, spacing: real)
    requires j <= k && spacing > 0.0
    ensures Whole(j, spacing) <= Whole(k, spacing)
    ensures Whole(j + 1, spacing) == Whole(j, spacing) + spacing
  {
    assert (k - j) as real * spacing >= 0.0;
  }

  lemma WholeMinus(a: int, b: int, spacing: real)
    ensures Whole(a - b, spacing) == Whole(a, spacing) - Whole(b, spacing)
    ensures Whole(0, spacing) == 0.0
  {
    assert (a - b) as real == a as real - b as real;
  }

  lemma Between(whole: real, fraction: real, s: real, span: real)
    requires 0.0 <= fraction < 1.0 && s > 0.0 && span == whole + fraction * s
    ensures whole <= span < whole + s
  {
    var rest := (1.0 - fraction) * s;
    assert rest > 0.0;
  }

  lemma Fraction(span: real, s: real, q: real, n: real)
    requires q * s == span
    ensures span == n * s + (q - n) * s
  {
  }

  lemma FloorBounds(d: real, spacing: real)
    requires spacing > 0.0
    ensures var n := (d / spacing).Floor; Whole(n, spacing) <= d < Whole(n, spacing) + spacing
  {
    var q := d / spacing;
    var n := q.Floor as real;
    assert q * spacing == d;
    Fraction(d, spacing, q, n);
    Between(n * spacing, q - n, spacing, d);
  }

  lemma SlackBounds(span: real, spacing: real)
    requires spacing > 0.0 && span >= 0.0
    ensures 0.0 <= Slack(span, spacing) < spacing && LineCount(span, spacing) == (span / spacing).Floor + 1 > 0
    ensures Slack(span, spacing) == 0.0 <==> span == Whole((span / spacing).Floor, spacing)
  {
    hide Whole;
    var n := (span / spacing).Floor;
    FloorBounds(span, spacing);
    if n < 0 {
      WholeRises(n + 1, 0, spacing);
      WholeRises(n, n, spacing);
      WholeMinus(0, 0, spacing);
    }
  }

  function Abs(x: real): real { if x < 0.0 then -x else x }

  lemma LinesRise(vMin: real, span: real, spacing: real, j: int, k: int)
    requires spacing > 0.0 && j <= k
    ensures LineV(vMin, span, spacing, j) <= LineV(vMin, span, spacing, k)
    ensures j < k ==> LineV(vMin, span, spacing, j) + spacing <= LineV(vMin, span, spacing, k)
  {
    hide Whole;
    WholeRises(j, k, spacing);
    if j < k { WholeRises(j + 1, k, spacing); }
  }

  lemma EndLines(vMin: real, span: real, spacing: real)
    requires spacing > 0.0 && span >= 0.0
    ensures LineV(vMin, span, spacing, 0) == vMin + Slack(span, spacing) / 2.0
    ensures LineV(vMin, span, spacing, LineCount(span, spacing) - 1) == vMin + span - Slack(span, spacing) / 2.0
  {
    hide Whole;
    WholeMinus(0, 0, spacing);
  }

  /** Every planned line is inside the across extent, and symmetric about its middle. */
  lemma LinesInside(vMin: real, span: real, spacing: real, k: int)
    requires spacing > 0.0 && span >= 0.0 && 0 <= k < LineCount(span, spacing)
    ensures vMin <= LineV(vMin, span, spacing, k) <= vMin + span
    ensures LineV(vMin, span, spacing, k) + LineV(vMin, span, spacing, LineCount(span, spacing) - 1 - k)
            == vMin + vMin + span
  {
    hide Whole, LineCount;
    var last := LineCount(span, spacing) - 1;
    SlackBounds(span, spacing);
    EndLines(vMin, span, spacing);
    LinesRise(vMin, span, spacing, 0, k);
    LinesRise(vMin, span, spacing, k, last);
    WholeMinus(last, k, spacing);
  }

  /** The number of the line next to v. */
  function NearestLine(vMin: real, span: real, spacing: real, v: real): int
    requires spacing > 0.0
  {
    var k := ((v - FirstV(vMin, span, spacing) + spacing / 2.0) / spacing).Floor;
    if k < 0 then 0 else if k >= LineCount(span, spacing) then LineCount(span, spacing) - 1 else k
  }

  /** Every across coordinate of the polygon is within half a spacing of a planned line. */
  lemma PlannedLinesCover(vMin: real, span: real, spacing: real, v: real)
    requires spacing > 0.0 && vMin <= v <= vMin + span
    ensures var k := NearestLine(vMin, span, spacing, v);
            0 <= k < LineCount(span, spacing) && Abs(v - LineV(vMin, span, spacing, k)) <= spacing / 2.0
  {
    hide Whole, LineCount, LineV, Slack;
    SlackBounds(span, spacing);
    EndLines(vMin, span, spacing);
    NearestWhole(vMin, span, spacing, v);
    var k := ((v - FirstV(vMin, span, spacing) + spacing / 2.0) / spacing).Floor;
    var last := LineCount(span, spacing) - 1;
    if k < 0 {
      LinesRise(vMin, span, spacing, k, 0);
    } else if k > last {
      LinesRise(vMin, span, spacing, last, k);
    }
  }

  lemma NearestWhole(vMin: real, span: real, spacing: real, v: real)
    requires spacing > 0.0
    ensures var k := ((v - FirstV(vMin, span, spacing) + spacing / 2.0) / spacing).Floor;
            -spacing / 2.0 <= v - LineV(vMin, span, spacing, k) <= spacing / 2.0
  {
    hide Whole;
    FloorBounds(v - FirstV(vMin, span, spacing) + spacing / 2.0, spacing);
  }

  // ---------------------------------------------------------------- flown lines

  /** A planned line that meets the polygon. */
  predicate Flown(planar: seq<Planar>, along: Planar, across: Planar, v: real) {
    Segments(planar, along, across, v) != []
  }

  /** The half-open rule drops the line through the far edge of the polygon. */
  lemma FlownBelowTop(planar: seq<Planar>, along: Planar, across: Planar, vMin: real, vMax: real, v: real)
    requires Extent(planar, across, vMin, vMax) && vMin <= v <= vMax
    ensures Flown(planar, along, across, v) <==> v < vMax
  {
    hide Dot;
    SegmentsInOrder(planar, along, across, v);
    CrossedWhenStraddled(planar, along, across, v);
    var i :| 0 <= i < |planar| && Dot(planar[i], across) == vMin;
    var j :| 0 <= j < |planar| && Dot(planar[j], across) == vMax;
    if v < vMax { assert !Beyond(planar[i], across, v) && Beyond(planar[j], across, v); }
  }

  /** A flown line passes within reach of across coordinate v. */
  ghost predicate CoveredAt(planar: seq<Planar>, along: Planar, across: Planar, vMin: real, span: real, spacing: real,
                            reach: real, v: real)
    requires spacing > 0.0
  {
    exists k :: 0 <= k < LineCount(span, spacing)
      && Flown(planar, along, across, LineV(vMin, span, spacing, k)) && Abs(v - LineV(vMin, span, spacing, k)) <= reach
  }

  ghost predicate Covered(planar: seq<Planar>, along: Planar, across: Planar, vMin: real, span: real, spacing: real,
                          reach: real)
    requires spacing > 0.0
  {
    forall v: real :: vMin <= v <= vMin + span ==> CoveredAt(planar, along, across, vMin, span, spacing, reach, v)
  }

  /** Flown swaths reaching at least half a spacing either side cover the whole
      across extent, unless that is a whole number of spacings: then the line
      through the far edge is dropped and they must reach a whole spacing. */
  lemma FlownLinesCover(planar: seq<Planar>, along: Planar, across: Planar, vMin: real, span: real, spacing: real,
                        reach: real)
    requires Extent(planar, across, vMin, vMin + span) && 0.0 < spacing <= 2.0 * reach && span >= 0.0
    ensures Covered(planar, along, across, vMin, span, spacing, reach)
            <==> span != Whole((span / spacing).Floor, spacing) || (span > 0.0 && spacing <= reach)
  {
    hide Dot, LineCount, LineV, CoveredAt, Slack, Whole;
    SlackBounds(span, spacing);
    if Slack(span, spacing) > 0.0 || (span > 0.0 && spacing <= reach) {
      forall v: real | vMin <= v <= vMin + span
        ensures CoveredAt(planar, along, across, vMin, span, spacing, reach, v)
      {
        PlannedLinesCover(vMin, span, spacing, v);
        var k := NearestLine(vMin, span, spacing, v);
        if LineV(vMin, span, spacing, k) < vMin + span {
          CoveredBy(planar, along, across, vMin, span, spacing, reach, v, k);
        } else {
          TopLine(vMin, span, spacing, k);
          CoveredBy(planar, along, across, vMin, span, spacing, reach, v, k - 1);
        }
      }
    } else {
      TopUncovered(planar, along, across, vMin, span, spacing, reach);
    }
  }

  lemma CoveredBy(planar: seq<Planar>, along: Planar, across: Planar, vMin: real, span: real, spacing: real,
                  reach: real, v: real, k: int)
    requires Extent(planar, across, vMin, vMin + span) && 0.0 < spacing && span >= 0.0
    requires 0 <= k < LineCount(span, spacing) && LineV(vMin, span, spacing, k) < vMin + span
    requires Abs(v - LineV(vMin, span, spacing, k)) <= reach
    ensures CoveredAt(planar, along, across, vMin, span, spacing, reach, v)
  {
    hide Dot, LineCount, LineV, Slack, Whole;
    LinesInside(vMin, span, spacing, k);
    FlownBelowTop(planar, along, across, vMin, vMin + span, LineV(vMin, span, spacing, k));
  }

  /** A line on the far edge is the last one, one spacing above its neighbour. */
  lemma TopLine(vMin: real, span: real, spacing: real, k: int)
    requires spacing > 0.0 && span >= 0.0 && 0 <= k < LineCount(span, spacing)
    requires LineV(vMin, span, spacing, k) >= vMin + span
    ensures k == LineCount(span, spacing) - 1 && Slack(span, spacing) == 0.0 && (span > 0.0 ==> k > 0)
    ensures LineV(vMin, span, spacing, k) == LineV(vMin, span, spacing, k - 1) + spacing == vMin + span
  {
    hide Whole, LineCount;
    SlackBounds(span, spacing);
    EndLines(vMin, span, spacing);
    var last := LineCount(span, spacing) - 1;
    LinesRise(vMin, span, spacing, k, last);
    WholeRises(k - 1, k, spacing);
    WholeMinus(0, 0, spacing);
  }

  lemma TopUncovered(planar: seq<Planar>, along: Planar, across: Planar, vMin: real, span: real, spacing: real,
                     reach: real)
    requires Extent(planar, across, vMin, vMin + span) && spacing > 0.0 && span >= 0.0
    requires Slack(span, spacing) == 0.0 && (span == 0.0 || reach < spacing)
    ensures !CoveredAt(planar, along, across, vMin, span, spacing, reach, vMin + span)
  {
    hide Dot, LineV, Whole, Slack;
    SlackBounds(span, spacing);
    EndLines(vMin, span, spacing);
    var last := LineCount(span, spacing) - 1;
    FlownBelowTop(planar, along, across, vMin, vMin + span, vMin + span);
    forall k | 0 <= k < LineCount(span, spacing) && Flown(planar, along, across, LineV(vMin, span, spacing, k))
      ensures Abs(vMin + span - LineV(vMin, span, spacing, k)) > reach
    {
      LinesRise(vMin, span, spacing, k, last);
      LinesInside(vMin, span, spacing, k);
      FlownBelowTop(planar, along, across, vMin, vMin + span, LineV(vMin, span, spacing, k));
      if span == 0.0 { assert false; }
    }
  }

  /** With the spacing of the sidelap, the swaths as wide as the footprint cover the
      extent exactly when it is no whole number of spacings, or the sidelap is half
      or more. */
  lemma SwathsCover(planar: seq<Planar>, along: Planar, across: Planar, vMin: real, span: real, spacing: real,
                    footprint: real, sidelapPct: real)
    requires Extent(planar, across, vMin, vMin + span) && span >= 0.0
    requires SpacingFromOverlap(footprint, sidelapPct) == Ok(spacing)
    ensures Covered(planar, along, across, vMin, span, spacing, footprint / 2.0)
            <==> span != Whole((span / spacing).Floor, spacing) || (span > 0.0 && sidelapPct >= 50.0)
  {
    hide Dot, Covered, Extent, LineCount, SpacingFromOverlap, Whole;
    HalfOverlap(footprint, sidelapPct, spacing);
    FlownLinesCover(planar, along, across, vMin, span, spacing, footprint / 2.0);
  }

  lemma HalfOf(f: real, k: real, spacing: real)
    requires f > 0.0 && spacing == f * k
    ensures spacing <= f / 2.0 <==> k <= 0.5
  {
    assert f * (k - 0.5) == spacing - f / 2.0;
  }

  lemma HalfOverlap(footprint: real, sidelapPct: real, spacing: real)
    requires SpacingFromOverlap(footprint, sidelapPct) == Ok(spacing)
    ensures spacing <= footprint / 2.0 <==> sidelapPct >= 50.0
  {
    var k := 1.0 - sidelapPct / 100.0;
    assert k <= 0.5 <==> sidelapPct >= 50.0;
    HalfOf(footprint, k, spacing);
  }

  // ------------------------------------------------------------------- the route

  /** One pass over a segment, from one end to the other. */
  datatype Leg = Leg(from: real, to: real, v: real)

  /** The legs of a line: left to right, or all of it backwards. */
  function LegsOf(segments: seq<Segment>, v: real, reverse: bool): (legs: seq<Leg>)
    ensures |legs| == |segments|
  {
    if reverse then
      seq(|segments|, i requires 0 <= i < |segments| =>
        var segment := segments[|segments| - 1 - i]; Leg(segment.uHi, segment.uLo, v))
    else
      seq(|segments|, i requires 0 <= i < |segments| => Leg(segments[i].uLo, segments[i].uHi, v))
  }

  function LineLegs(planar: seq<Planar>, along: Planar, across: Planar, vMin: real, span: real, spacing: real,
                    k: nat): seq<Leg>
    requires spacing > 0.0
  {
    var v := LineV(vMin, span, spacing, k);
    LegsOf(Segments(planar, along, across, v), v, k % 2 == 1)
  }

  /** The legs of the first n planned lines. */
  function Legs(planar: seq<Planar>, along: Planar, across: Planar, vMin: real, span: real, spacing: real,
                n: nat): seq<Leg>
    requires spacing > 0.0
  {
    if n == 0 then []
    else Legs(planar, along, across, vMin, span, spacing, n - 1)
         + LineLegs(planar, along, across, vMin, span, spacing, n - 1)
  }

  function Ends<P>(legs: seq<Leg>, place: (real, real) -> P): (r: seq<P>)
    ensures |r| == 2 * |legs|
  {
    if legs == [] then []
    else
      var last := legs[|legs| - 1];
      Ends(legs[..|legs| - 1], place) + [place(last.from, last.v), place(last.to, last.v)]
  }

  function Photos(legs: seq<Leg>, trigger: real): int
    requires trigger > 0.0
  {
    if legs == [] then 0
    else
      var last := legs[|legs| - 1];
      Photos(legs[..|legs| - 1], trigger) + (Abs(last.to - last.from) / trigger).Floor + 1
  }

  function PathLength<P>(points: seq<P>, dist: (P, P) -> real): real {
    if |points| <= 1 then 0.0
    else PathLength(points[..|points| - 1], dist) + dist(points[|points| - 2], points[|points| - 1])
  }

  datatype Survey<P> = Survey(waypoints: seq<P>, lines: seq<Leg>, photoCount: int, pathLengthM: real)

  function Optional<P>(p: Option<P>): seq<P> { if p.Some? then [p.value] else [] }

  /** place turns along and across coordinates into a position; dist measures between two. */
  method GenerateGrid<P>(planar: seq<Planar>, along: Planar, across: Planar, spacing: real, trigger: real,
                         place: (real, real) -> P, dist: (P, P) -> real, entry: Option<P>, exit: Option<P>)
    returns (r: Result<Survey<P>>, ghost vMin: real, ghost vMax: real)
    requires spacing > 0.0 && trigger > 0.0
    ensures r.Err? <==> |planar| < 3
    ensures r.Ok? ==>
              && Extent(planar, across, vMin, vMax)
              && r.value.lines == Legs(planar, along, across, vMin, vMax - vMin, spacing,
                                       LineCount(vMax - vMin, spacing))
              && r.value.waypoints == Optional(entry) + Ends(r.value.lines, place) + Optional(exit)
              && r.value.photoCount == Photos(r.value.lines, trigger)
              && r.value.pathLengthM == PathLength(r.value.waypoints, dist)
  {
    hide Extent, LineCount, Legs, Ends, Photos, PathLength, FirstV;
    vMin, vMax := 0.0, 0.0;
    if |planar| < 3 { return Err, vMin, vMax; }
    var lo, hi := AcrossExtent(planar, across);
    vMin, vMax := lo.r, hi.r;
    var span := hi.r - lo.r;
    var lines, waypoints, photoCount := FlyLines(planar, along, across, lo.r, span, spacing, trigger, place);
    waypoints := Optional(entry) + waypoints + Optional(exit);
    var pathLengthM := MeasurePath(waypoints, dist);
    r := Ok(Survey(waypoints, lines, photoCount, pathLengthM));
  }

  /** The loop over the planned lines. */
  method FlyLines<P>(planar: seq<Planar>, along: Planar, across: Planar, vMin: real, span: real, spacing: real,
                     trigger: real, place: (real, real) -> P)
    returns (lines: seq<Leg>, waypoints: seq<P>, photoCount: int)
    requires spacing > 0.0 && trigger > 0.0
    ensures lines == Legs(planar, along, across, vMin, span, spacing, LineCount(span, spacing))
    ensures waypoints == Ends(lines, place) && photoCount == Photos(lines, trigger)
  {
    hide LineCount, Segments, FirstV;
    var lineCount := LineCount(span, spacing);
    var firstV := FirstV(vMin, span, spacing);
    lines, waypoints, photoCount := [], [], 0;
    for k := 0 to lineCount
      invariant lines == Legs(planar, along, across, vMin, span, spacing, k)
      invariant waypoints == Ends(lines, place) && photoCount == Photos(lines, trigger)
    {
      var vLine := firstV + k as real * spacing;
      var segments := ScanLineSegments(planar, along, across, vLine);
      var ordered := LegsOf(segments, vLine, k % 2 == 1);
      lines, waypoints, photoCount := FlyLegs(ordered, trigger, place, lines, waypoints, photoCount);
    }
  }

  /** The loop over the segments of a line. */
  method FlyLegs<P>(ordered: seq<Leg>, trigger: real, place: (real, real) -> P, lines0: seq<Leg>, waypoints0: seq<P>,
                    photos0: int)
    returns (lines: seq<Leg>, waypoints: seq<P>, photoCount: int)
    requires trigger > 0.0 && waypoints0 == Ends(lines0, place) && photos0 == Photos(lines0, trigger)
    ensures lines == lines0 + ordered && waypoints == Ends(lines, place) && photoCount == Photos(lines, trigger)
  {
    lines, waypoints, photoCount := lines0, waypoints0, photos0;
    for i := 0 to |ordered|
      invariant lines == lines0 + ordered[..i]
      invariant waypoints == Ends(lines, place) && photoCount == Photos(lines, trigger)
    {
      var leg := ordered[i];
      EndsAppend(lines, leg, place, trigger);
      lines := lines + [leg];
      waypoints := waypoints + [place(leg.from, leg.v), place(leg.to, leg.v)];
      photoCount := photoCount + (Abs(leg.to - leg.from) / trigger).Floor + 1;
    }
  }

  method MeasurePath<P>(waypoints: seq<P>, dist: (P, P) -> real) returns (pathLengthM: real)
    ensures pathLengthM == PathLength(waypoints, dist)
  {
    pathLengthM := 0.0;
    if waypoints == [] { return; }
    for i := 1 to |waypoints|
      invariant pathLengthM == PathLength(waypoints[..i], dist)
    {
      pathLengthM := pathLengthM + dist(waypoints[i - 1], waypoints[i]);
      assert waypoints[..i + 1][..i] == waypoints[..i];
    }
    assert waypoints[..|waypoints|] == waypoints;
  }

  lemma EndsAppend<P>(legs: seq<Leg>, leg: Leg, place: (real, real) -> P, trigger: real)
    requires trigger > 0.0
    ensures Ends(legs + [leg], place) == Ends(legs, place) + [place(leg.from, leg.v), place(leg.to, leg.v)]
    ensures Photos(legs + [leg], trigger) == Photos(legs, trigger) + (Abs(leg.to - leg.from) / trigger).Floor + 1
  {
    assert (legs + [leg])[..|legs|] == legs;
  }

  /** Consecutive lines run in opposite directions: along the k-th line no leg or
      connector goes back. */
  lemma LineFliesOneWay(planar: seq<Planar>, along: Planar, across: Planar, vMin: real, span: real, spacing: real,
                        k: nat)
    requires spacing > 0.0
    ensures var legs, sign := LineLegs(planar, along, across, vMin, span, spacing, k), if k % 2 == 0 then 1.0 else -1.0;
            && (forall i :: 0 <= i < |legs| ==> sign * legs[i].from <= sign * legs[i].to)
            && (forall i, j :: 0 <= i < j < |legs| ==> sign * legs[i].to <= sign * legs[j].from)
  {
    hide Segments, LineV;
    SegmentsInOrder(planar, along, across, LineV(vMin, span, spacing, k));
  }

  predicate Over(leg: Leg, u: real) { leg.from <= u < leg.to || leg.to <= u < leg.from }

  /** Its legs fly exactly over the even-odd interior of the polygon. */
  lemma LegsFlyInterior(planar: seq<Planar>, along: Planar, across: Planar, vMin: real, span: real, spacing: real,
                        k: nat, u: real)
    requires spacing > 0.0
    ensures var legs := LineLegs(planar, along, across, vMin, span, spacing, k);
            Interior(planar, along, across, u, LineV(vMin, span, spacing, k))
            <==> exists i :: 0 <= i < |legs| && Over(legs[i], u)
  {
    hide Segments, Interior, LineV;
    var v, legs := LineV(vMin, span, spacing, k), LineLegs(planar, along, across, vMin, span, spacing, k);
    var segments, n := Segments(planar, along, across, v), |legs|;
    SegmentsInOrder(planar, along, across, v);
    SegmentsAreInterior(planar, along, across, v, u);
    if i :| 0 <= i < n && segments[i].uLo <= u < segments[i].uHi {
      assert Over(legs[if k % 2 == 1 then n - 1 - i else i], u);
    }
    if j :| 0 <= j < n && Over(legs[j], u) {
      var i := if k % 2 == 1 then n - 1 - j else j;
      assert segments[i].uLo <= u < segments[i].uHi;
    }
  }
}

/** A planned survey as it is flown: which legs, over what, in which order. */
module GridPlan {
  import opened Text
  import opened Geometry
  import opened Grid

  // ------------------------------------------------------------------- one line

  /** Both ends of the leg are on an edge of the polygon. */
  ghost predicate EndsOnEdges(planar: seq<Planar>, sin: real, cos: real, leg: Leg) {
    && OnBoundary(planar, UvToPlanar(leg.from, leg.v, Along(sin, cos), Across(sin, cos)))
    && OnBoundary(planar, UvToPlanar(leg.to, leg.v, Along(sin, cos), Across(sin, cos)))
  }

  /** The legs of a line lie on it, and end on edges. */
  lemma LineEndsOnEdges(planar: seq<Planar>, sin: real, cos: real, vMin: real, span: real, spacing: real, k: nat,
                        i: nat)
    requires spacing > 0.0 && sin * sin + cos * cos == 1.0
    requires i < |LineLegs(planar, Along(sin, cos), Across(sin, cos), vMin, span, spacing, k)|
    ensures var leg := LineLegs(planar, Along(sin, cos), Across(sin, cos), vMin, span, spacing, k)[i];
            leg.v == LineV(vMin, span, spacing, k) && EndsOnEdges(planar, sin, cos, leg)
  {
    hide Segments, LineV, OnBoundary, UvToPlanar;
    var v := LineV(vMin, span, spacing, k);
    var n := |Segments(planar, Along(sin, cos), Across(sin, cos), v)|;
    SegmentEndsOnBoundary(planar, sin, cos, v, if k % 2 == 1 then n - 1 - i else i);
  }

  // ------------------------------------------------------------------ the plan

  /** The i-th leg is one of line lines[i]; the lines come in turn. */
  ghost predicate Numbered(legs: seq<Leg>, lines: seq<nat>, n: nat, vMin: real, span: real, spacing: real)
    requires spacing > 0.0
  {
    && |lines| == |legs|
    && (forall i :: 0 <= i < |legs| ==> lines[i] < n && legs[i].v == LineV(vMin, span, spacing, lines[i]))
    && (forall i, j :: 0 <= i < j < |legs| ==> lines[i] <= lines[j])
  }

  /** Even lines are flown forwards, odd ones backwards, each without going back. */
  predicate Alternating(legs: seq<Leg>, lines: seq<nat>)
    requires |lines| == |legs|
  {
    && (forall i :: 0 <= i < |legs| ==>
                      if lines[i] % 2 == 0 then legs[i].from <= legs[i].to else legs[i].from >= legs[i].to)
    && (forall i, j :: 0 <= i < j < |legs| && lines[i] == lines[j] ==>
                         if lines[i] % 2 == 0 then legs[i].to <= legs[j].from else legs[i].to >= legs[j].from)
  }

  ghost predicate AllOnEdges(planar: seq<Planar>, sin: real, cos: real, legs: seq<Leg>) {
    forall i :: 0 <= i < |legs| ==> EndsOnEdges(planar, sin, cos, legs[i])
  }

  predicate FlownOver(legs: seq<Leg>, lines: seq<nat>, k: nat, u: real)
    requires |lines| == |legs|
  {
    exists i :: 0 <= i < |legs| && lines[i] == k && Over(legs[i], u)
  }

  function Repeat(k: nat, n: nat): (r: seq<nat>)
    ensures |r| == n && forall i :: 0 <= i < n ==> r[i] == k
  {
    seq(n, _ => k)
  }

  lemma NumberedMore(legs: seq<Leg>, lines: seq<nat>, n: nat, more: seq<Leg>, vMin: real, span: real, spacing: real)
    requires spacing > 0.0 && Numbered(legs, lines, n, vMin, span, spacing)
    requires forall i :: 0 <= i < |more| ==> more[i].v == LineV(vMin, span, spacing, n)
    ensures Numbered(legs + more, lines + Repeat(n, |more|), n + 1, vMin, span, spacing)
  {
    hide LineV;
  }

  lemma AlternatingMore(legs: seq<Leg>, lines: seq<nat>, n: nat, more: seq<Leg>)
    requires |lines| == |legs| && Alternating(legs, lines) && forall i :: 0 <= i < |lines| ==> lines[i] < n
    requires var sign := if n % 2 == 0 then 1.0 else -1.0;
             && (forall i :: 0 <= i < |more| ==> sign * more[i].from <= sign * more[i].to)
             && (forall i, j :: 0 <= i < j < |more| ==> sign * more[i].to <= sign * more[j].from)
    ensures Alternating(legs + more, lines + Repeat(n, |more|))
  {
    var all, numbers := legs + more, lines + Repeat(n, |more|);
    assert forall i :: |legs| <= i < |all| ==> all[i] == more[i - |legs|] && numbers[i] == n;
  }

  lemma FlownMore(legs: seq<Leg>, lines: seq<nat>, n: nat, more: seq<Leg>, k: nat, u: real)
    requires |lines| == |legs| && forall i :: 0 <= i < |lines| ==> lines[i] < n
    ensures FlownOver(legs + more, lines + Repeat(n, |more|), k, u)
            <==> if k == n then exists i :: 0 <= i < |more| && Over(more[i], u) else FlownOver(legs, lines, k, u)
  {
    hide Over;
    var all, numbers := legs + more, lines + Repeat(n, |more|);
    assert forall i :: 0 <= i < |all| ==> all[i] == if i < |legs| then legs[i] else more[i - |legs|];
    if k == n {
      if i :| 0 <= i < |more| && Over(more[i], u) { assert all[|legs| + i] == more[i]; }
    } else if FlownOver(legs, lines, k, u) {
      var i :| 0 <= i < |legs| && lines[i] == k && Over(legs[i], u);
      assert all[i] == legs[i] && numbers[i] == k;
    }
  }

  lemma {:induction false} LegsNumbered(planar: seq<Planar>, sin: real, cos: real, vMin: real, span: real,
                                        spacing: real, n: nat) returns (lines: seq<nat>)
    requires spacing > 0.0 && sin * sin + cos * cos == 1.0
    ensures var along, across := Along(sin, cos), Across(sin, cos);
            var legs := Legs(planar, along, across, vMin, span, spacing, n);
            && Numbered(legs, lines, n, vMin, span, spacing) && Alternating(legs, lines)
            && AllOnEdges(planar, sin, cos, legs)
            && forall k: nat, u: real :: k < n ==>
                 (FlownOver(legs, lines, k, u) <==> Interior(planar, along, across, u, LineV(vMin, span, spacing, k)))
  {
    hide LineLegs, LineV, Interior, Alternating, FlownOver, Over, Along, Across, EndsOnEdges;
    var along, across := Along(sin, cos), Across(sin, cos);
    lines := [];
    if n == 0 {
      NoLegs();
    } else {
      var before := LegsNumbered(planar, sin, cos, vMin, span, spacing, n - 1);
      var legs := Legs(planar, along, across, vMin, span, spacing, n - 1);
      var more := LineLegs(planar, along, across, vMin, span, spacing, n - 1);
      forall i | 0 <= i < |more|
        ensures more[i].v == LineV(vMin, span, spacing, n - 1) && EndsOnEdges(planar, sin, cos, more[i])
      {
        LineEndsOnEdges(planar, sin, cos, vMin, span, spacing, n - 1, i);
      }
      NumberedMore(legs, before, n - 1, more, vMin, span, spacing);
      LineFliesOneWay(planar, along, across, vMin, span, spacing, n - 1);
      AlternatingMore(legs, before, n - 1, more);
      lines := before + Repeat(n - 1, |more|);
      forall k: nat, u: real | k < n
        ensures FlownOver(legs + more, lines, k, u)
                <==> Interior(planar, along, across, u, LineV(vMin, span, spacing, k))
      {
        FlownMore(legs, before, n - 1, more, k, u);
        LegsFlyInterior(planar, along, across, vMin, span, spacing, n - 1, u);
      }
    }
  }

  lemma NoLegs()
    ensures Alternating([], [])
  {
  }

  // ------------------------------------------------------------------ waypoints

  /** Waypoints 2i and 2i + 1 are the start and the end of leg i. */
  lemma {:induction false} WaypointsAreEnds<P>(legs: seq<Leg>, place: (real, real) -> P, i: nat)
    requires i < |legs|
    ensures Ends(legs, place)[2 * i] == place(legs[i].from, legs[i].v)
    ensures Ends(legs, place)[2 * i + 1] == place(legs[i].to, legs[i].v)
  {
    if i < |legs| - 1 { WaypointsAreEnds(legs[..|legs| - 1], place, i); }
  }

  /** A plan as flown: its waypoints are, after any entry point, the two ends of each leg
      in turn; the legs go line by line across the polygon, forwards on even and backwards
      on odd lines, from edge to edge, over just its interior on each line. */
  lemma PlanIsFlown<P>(planar: seq<Planar>, sin: real, cos: real, vMin: real, span: real, spacing: real,
                       place: (real, real) -> P, entry: Option<P>, exit: Option<P>) returns (lines: seq<nat>)
    requires spacing > 0.0 && sin * sin + cos * cos == 1.0
    ensures var along, across, n := Along(sin, cos), Across(sin, cos), LineCount(span, spacing);
            var legs := Legs(planar, along, across, vMin, span, spacing, n);
            var waypoints, first := Optional(entry) + Ends(legs, place) + Optional(exit), if entry.Some? then 1 else 0;
            && Numbered(legs, lines, n, vMin, span, spacing) && Alternating(legs, lines)
            && AllOnEdges(planar, sin, cos, legs)
            && (forall k: nat, u: real :: k < n ==>
                  (FlownOver(legs, lines, k, u) <==> Interior(planar, along, across, u, LineV(vMin, span, spacing, k))))
            && |waypoints| == first + 2 * |legs| + (if exit.Some? then 1 else 0)
            && (entry.Some? ==> waypoints[0] == entry.value)
            && (exit.Some? ==> waypoints[|waypoints| - 1] == exit.value)
            && (forall i :: 0 <= i < |legs| ==>
                              && waypoints[first + 2 * i] == place(legs[i].from, legs[i].v)
                              && waypoints[first + 2 * i + 1] == place(legs[i].to, legs[i].v))
  {
    hide Legs, LineCount, Numbered, Alternating, AllOnEdges, FlownOver, Interior, LineV, Along, Across, Ends;
    var n := LineCount(span, spacing);
    var legs := Legs(planar, Along(sin, cos), Across(sin, cos), vMin, span, spacing, n);
    lines := LegsNumbered(planar, sin, cos, vMin, span, spacing, n);
    forall i | 0 <= i < |legs|
      ensures Ends(legs, place)[2 * i] == place(legs[i].from, legs[i].v)
      ensures Ends(legs, place)[2 * i + 1] == place(legs[i].to, legs[i].v)
    {
      WaypointsAreEnds(legs, place, i);
    }
  }

  // --------------------------------------------------------- photos and distance

  /** A leg takes a photo at its start and then at every whole trigger distance. */
  lemma LegPhotos(leg: Leg, trigger: real) returns (n: int)
    requires trigger > 0.0
    ensures Photos([leg], trigger) == n + 1
    ensures Whole(n, trigger) <= Abs(leg.to - leg.from) < Whole(n + 1, trigger)
  {
    hide Whole;
    var length := Abs(leg.to - leg.from);
    n := (length / trigger).Floor;
    FloorBounds(length, trigger);
    WholeRises(n, n, trigger);
    assert [leg][..0] == [] && Photos([leg], trigger) == Photos([leg][..0], trigger) + n + 1;
  }

  lemma {:induction false} PhotosAdd(a: seq<Leg>, b: seq<Leg>, trigger: real)
    requires trigger > 0.0
    ensures Photos(a + b, trigger) == Photos(a, trigger) + Photos(b, trigger)
  {
    if b == [] {
      assert a + b == a;
    } else {
      PhotosAdd(a, b[..|b| - 1], trigger);
      assert (a + b)[..|a + b| - 1] == a + b[..|b| - 1];
    }
  }

  /** A path through p is as long as its two parts; one of two points is their distance. */
  lemma {:induction false} PathAdds<P>(a: seq<P>, p: P, b: seq<P>, dist: (P, P) -> real)
    ensures PathLength(a + [p] + b, dist) == PathLength(a + [p], dist) + PathLength([p] + b, dist)
    ensures forall q: P :: PathLength([q, p], dist) == dist(q, p)
    decreases |b|
  {
    forall q: P ensures PathLength([q, p], dist) == dist(q, p) {
      assert [q, p][..1] == [q] && PathLength([q, p], dist) == PathLength([q], dist) + dist(q, p);
    }
    if b == [] {
      assert a + [p] + b == a + [p] && [p] + b == [p];
    } else {
      var front := b[..|b| - 1];
      PathAdds(a, p, front, dist);
      var whole, part := a + [p] + b, [p] + b;
      assert whole[..|whole| - 1] == a + [p] + front && part[..|part| - 1] == [p] + front;
      assert whole[|whole| - 2] == part[|part| - 2] && whole[|whole| - 1] == part[|part| - 1];
    }
  }
}

/** Even-odd clipping of a scan line by a polygon (src/geo/survey/geometry.ts). */
module Geometry {
  import opened Numbers

  datatype Planar = Planar(x: real, y: real)

  function Dot(p: Planar, d: Planar): real { p.x * d.x + p.y * d.y }

  function UvToPlanar(u: real, v: real, along: Planar, across: Planar): Planar {
    Planar(u * along.x + v * across.x, u * along.y + v * across.y)
  }

  datatype Segment = Segment(uLo: real, uHi: real)

  // ------------------------------------------------------------------ crossings

  /** A vertex beyond the line. One on it counts as not beyond. */
  predicate Beyond(p: Planar, across: Planar, vLine: real) { Dot(p, across) > vLine }

  /** The half-open rule: va <= vLine < vb or the other way round. */
  predicate Crosses(a: Planar, b: Planar, across: Planar, vLine: real) {
    var va, vb := Dot(a, across), Dot(b, across);
    (va <= vLine && vb > vLine) || (vb <= vLine && va > vLine)
  }

  lemma CrossesChangesSide(a: Planar, b: Planar, across: Planar, vLine: real)
    ensures Crosses(a, b, across, vLine) <==> Beyond(a, across, vLine) != Beyond(b, across, vLine)
  {
  }

  function CrossingT(a: Planar, b: Planar, across: Planar, vLine: real): real
    requires Crosses(a, b, across, vLine)
  {
    (vLine - Dot(a, across)) / (Dot(b, across) - Dot(a, across))
  }

  /** Where the edge meets the line, along the flight direction. */
  function CrossingU(a: Planar, b: Planar, along: Planar, across: Planar, vLine: real): real
    requires Crosses(a, b, across, vLine)
  {
    Dot(a, along) + CrossingT(a, b, across, vLine) * (Dot(b, along) - Dot(a, along))
  }

  function Next(poly: seq<Planar>, i: nat): Planar
    requires i < |poly|
  {
    poly[(i + 1) % |poly|]
  }

  lemma NextVertex(poly: seq<Planar>, i: nat)
    requires i < |poly|
    ensures Next(poly, i) == if i + 1 == |poly| then poly[0] else poly[i + 1]
  {
  }

  /** The crossings of the first n edges, in edge order. */
  function Crossings(poly: seq<Planar>, along: Planar, across: Planar, vLine: real, n: nat): seq<real>
    requires n <= |poly|
  {
    if n == 0 then []
    else
      var a, b := poly[n - 1], Next(poly, n - 1);
      Crossings(poly, along, across, vLine, n - 1)
      + (if Crosses(a, b, across, vLine) then [CrossingU(a, b, along, across, vLine)] else [])
  }

  /** The edges met so far are odd in number exactly when the walk has changed sides. */
  lemma {:induction false} SidesAndParity(poly: seq<Planar>, along: Planar, across: Planar, vLine: real, n: nat)
    requires 0 < |poly| && n <= |poly|
    ensures |Crossings(poly, along, across, vLine, n)| % 2 == 1
            <==> Beyond(poly[0], across, vLine) != Beyond(poly[if n == |poly| then 0 else n], across, vLine)
  {
    hide Crosses, Beyond, CrossingU, Next;
    if n > 0 {
      SidesAndParity(poly, along, across, vLine, n - 1);
      NextVertex(poly, n - 1);
      var before := Crossings(poly, along, across, vLine, n - 1);
      var a, b := poly[n - 1], Next(poly, n - 1);
      CrossesChangesSide(a, b, across, vLine);
      if Crosses(a, b, across, vLine) {
        assert |Crossings(poly, along, across, vLine, n)| == |before| + 1;
      } else {
        assert Crossings(poly, along, across, vLine, n) == before;
      }
    }
  }

  /** Every closed vertex list is crossed an even number of times, whatever its
      shape: concave, self-intersecting or with repeated vertices. */
  lemma EvenCrossings(poly: seq<Planar>, along: Planar, across: Planar, vLine: real)
    ensures |Crossings(poly, along, across, vLine, |poly|)| % 2 == 0
  {
    if poly != [] {
      SidesAndParity(poly, along, across, vLine, |poly|);
    }
  }

  /** A line is crossed exactly when the polygon has a vertex on either side of it. */
  lemma CrossedWhenStraddled(poly: seq<Planar>, along: Planar, across: Planar, vLine: real)
    ensures Crossings(poly, along, across, vLine, |poly|) != []
            <==> exists i, j ::
                   0 <= i < |poly| && 0 <= j < |poly|
                   && !Beyond(poly[i], across, vLine) && Beyond(poly[j], across, vLine)
  {
    if Crossings(poly, along, across, vLine, |poly|) != [] {
      var i, j := CrossingHasEdge(poly, along, across, vLine, |poly|);
    }
    if i, j :| 0 <= i < |poly| && 0 <= j < |poly| && !Beyond(poly[i], across, vLine) && Beyond(poly[j], across, vLine) {
      if Crossings(poly, along, across, vLine, |poly|) == [] {
        SameSide(poly, along, across, vLine, |poly|, i);
        SameSide(poly, along, across, vLine, |poly|, j);
      }
    }
  }

  /** A vertex on either side, when an edge crosses. */
  lemma {:induction false} CrossingHasEdge(poly: seq<Planar>, along: Planar, across: Planar, vLine: real, n: nat)
    returns (i: nat, j: nat)
    requires n <= |poly| && Crossings(poly, along, across, vLine, n) != []
    ensures i < |poly| && j < |poly| && !Beyond(poly[i], across, vLine) && Beyond(poly[j], across, vLine)
  {
    hide Beyond, CrossingU, Crosses, Next;
    NextVertex(poly, n - 1);
    CrossesChangesSide(poly[n - 1], Next(poly, n - 1), across, vLine);
    if Crosses(poly[n - 1], Next(poly, n - 1), across, vLine) {
      i, j := n - 1, if n == |poly| then 0 else n;
      if Beyond(poly[i], across, vLine) { i, j := j, i; }
    } else {
      i, j := CrossingHasEdge(poly, along, across, vLine, n - 1);
    }
  }

  lemma {:induction false} SameSide(poly: seq<Planar>, along: Planar, across: Planar, vLine: real, n: nat, i: nat)
    requires i < n <= |poly| && Crossings(poly, along, across, vLine, n) == []
    ensures Beyond(poly[i], across, vLine) == Beyond(poly[0], across, vLine)
  {
    hide Crosses, Beyond, CrossingU, Next;
    if i < n - 1 {
      SameSide(poly, along, across, vLine, n - 1, i);
    } else if i > 0 {
      SameSide(poly, along, across, vLine, i, i - 1);
      assert !Crosses(poly[i - 1], Next(poly, i - 1), across, vLine);
      NextVertex(poly, i - 1);
      CrossesChangesSide(poly[i - 1], poly[i], across, vLine);
    }
  }

  // -------------------------------------------------------------------- sorting

  function InsertReal(s: seq<real>, x: real): seq<real> {
    if s == [] || s[|s| - 1] <= x then s + [x] else InsertReal(s[..|s| - 1], x) + [s[|s| - 1]]
  }

  /** What sorting by difference gives. */
  function SortReals(s: seq<real>): seq<real> {
    if s == [] then [] else InsertReal(SortReals(s[..|s| - 1]), s[|s| - 1])
  }

  /** How many elements are at most u. */
  function AtMost(s: seq<real>, u: real): nat {
    if s == [] then 0 else AtMost(s[..|s| - 1], u) + (if s[|s| - 1] <= u then 1 else 0)
  }

  lemma {:induction false} InsertRealKeeps(s: seq<real>, x: real, u: real)
    ensures |InsertReal(s, x)| == |s| + 1
    ensures AtMost(InsertReal(s, x), u) == AtMost(s, u) + (if x <= u then 1 else 0)
  {
    if s == [] || s[|s| - 1] <= x {
      assert (s + [x])[..|s|] == s;
    } else {
      var front, last := s[..|s| - 1], s[|s| - 1];
      InsertRealKeeps(front, x, u);
      var r := InsertReal(front, x);
      assert (r + [last])[..|r|] == r;
    }
  }

  lemma {:induction false} InsertRealBelow(s: seq<real>, x: real, top: real)
    requires x <= top && forall i :: 0 <= i < |s| ==> s[i] <= top
    ensures forall i :: 0 <= i < |InsertReal(s, x)| ==> InsertReal(s, x)[i] <= top
  {
    if s != [] { InsertRealBelow(s[..|s| - 1], x, top); }
  }

  lemma {:induction false} InsertRealAscending(s: seq<real>, x: real)
    requires Sorted(s)
    ensures Sorted(InsertReal(s, x))
  {
    if s != [] && s[|s| - 1] > x {
      var front := s[..|s| - 1];
      assert forall i :: 0 <= i < |front| ==> front[i] == s[i];
      InsertRealAscending(front, x);
      InsertRealBelow(front, x, s[|s| - 1]);
    }
  }

  lemma {:induction false} SortKeeps(s: seq<real>, u: real)
    ensures Sorted(SortReals(s)) && |SortReals(s)| == |s| && AtMost(SortReals(s), u) == AtMost(s, u)
  {
    if s != [] {
      var front, last := s[..|s| - 1], s[|s| - 1];
      SortKeeps(front, u);
      InsertRealKeeps(SortReals(front), last, u);
      InsertRealAscending(SortReals(front), last);
    }
  }

  /** In an ascending sequence the elements at most u come first. */
  lemma {:induction false} AtMostIsPrefix(s: seq<real>, u: real)
    requires Sorted(s)
    ensures AtMost(s, u) <= |s| && forall i :: 0 <= i < |s| ==> (s[i] <= u <==> i < AtMost(s, u))
  {
    if s != [] {
      var front := s[..|s| - 1];
      assert forall i :: 0 <= i < |front| ==> front[i] == s[i];
      AtMostIsPrefix(front, u);
      if s[|s| - 1] <= u {
        assert forall i :: 0 <= i < |s| ==> s[i] <= u;
        assert front != [] ==> front[|front| - 1] <= u;
      }
    }
  }

  // ------------------------------------------------------------------- segments

  /** Consecutive crossings, two by two. */
  function Pairs(s: seq<real>): (r: seq<Segment>)
    ensures |r| == |s| / 2
    ensures forall i :: 0 <= i < |r| ==> r[i] == Segment(s[2 * i], s[2 * i + 1])
  {
    seq(|s| / 2, i requires 0 <= i < |s| / 2 => Segment(s[2 * i], s[2 * i + 1]))
  }

  function Segments(poly: seq<Planar>, along: Planar, across: Planar, vLine: real): seq<Segment> {
    Pairs(SortReals(Crossings(poly, along, across, vLine, |poly|)))
  }

  method ScanLineSegments(poly: seq<Planar>, along: Planar, across: Planar, vLine: real)
    returns (segments: seq<Segment>)
    ensures segments == Segments(poly, along, across, vLine)
  {
    hide Dot, SortReals;
    var crossings := [];
    for i := 0 to |poly|
      invariant crossings == Crossings(poly, along, across, vLine, i)
    {
      var a, b := poly[i], poly[(i + 1) % |poly|];
      var va, vb := Dot(a, across), Dot(b, across);
      if (va <= vLine && vb > vLine) || (vb <= vLine && va > vLine) {
        var t := (vLine - va) / (vb - va);
        var ua, ub := Dot(a, along), Dot(b, along);
        var u := ua + t * (ub - ua);
        assert u == CrossingU(a, b, along, across, vLine);
        crossings := crossings + [u];
      }
    }
    crossings := SortReals(crossings);
    segments := [];
    var i := 0;
    while i + 1 < |crossings|
      invariant 0 <= i <= |crossings| && i % 2 == 0 && |segments| == i / 2
      invariant segments == Pairs(crossings)[..i / 2]
    {
      segments := segments + [Segment(crossings[i], crossings[i + 1])];
      i := i + 2;
    }
  }

  /** The edges whose crossing is at or left of u, counted edge by edge. */
  function EdgesLeft(poly: seq<Planar>, along: Planar, across: Planar, u: real, vLine: real, n: nat): nat
    requires n <= |poly|
  {
    if n == 0 then 0
    else
      var a, b := poly[n - 1], Next(poly, n - 1);
      EdgesLeft(poly, along, across, u, vLine, n - 1)
      + (if Crosses(a, b, across, vLine) && CrossingU(a, b, along, across, vLine) <= u then 1 else 0)
  }

  /** The even-odd rule: a ray from (u, vLine) backwards meets an odd number of edges. */
  predicate Interior(poly: seq<Planar>, along: Planar, across: Planar, u: real, vLine: real) {
    EdgesLeft(poly, along, across, u, vLine, |poly|) % 2 == 1
  }

  lemma {:induction false} EdgesLeftCounts(poly: seq<Planar>, along: Planar, across: Planar, u: real, vLine: real,
                                           n: nat)
    requires n <= |poly|
    ensures AtMost(Crossings(poly, along, across, vLine, n), u) == EdgesLeft(poly, along, across, u, vLine, n)
  {
    hide Crosses, CrossingU;
    if n > 0 {
      EdgesLeftCounts(poly, along, across, u, vLine, n - 1);
      var before, a, b := Crossings(poly, along, across, vLine, n - 1), poly[n - 1], Next(poly, n - 1);
      if Crosses(a, b, across, vLine) {
        var c := CrossingU(a, b, along, across, vLine);
        assert (before + [c])[..|before|] == before;
      } else {
        assert Crossings(poly, along, across, vLine, n) == before;
      }
    }
  }

  predicate Within(segments: seq<Segment>, u: real) {
    exists i :: 0 <= i < |segments| && segments[i].uLo <= u < segments[i].uHi
  }

  lemma PairsAreOdd(s: seq<real>, u: real)
    requires Sorted(s) && |s| % 2 == 0
    ensures Within(Pairs(s), u) <==> AtMost(s, u) % 2 == 1
  {
    AtMostIsPrefix(s, u);
    var k, r := AtMost(s, u), Pairs(s);
    if k % 2 == 1 {
      assert r[k / 2] == Segment(s[k - 1], s[k]);
    }
    if i :| 0 <= i < |r| && r[i].uLo <= u < r[i].uHi {
      assert r[i] == Segment(s[2 * i], s[2 * i + 1]);
    }
  }

  /** The segments are exactly the even-odd interior of the polygon on the line. */
  lemma SegmentsAreInterior(poly: seq<Planar>, along: Planar, across: Planar, vLine: real, u: real)
    ensures Within(Segments(poly, along, across, vLine), u) <==> Interior(poly, along, across, u, vLine)
  {
    var crossings := Crossings(poly, along, across, vLine, |poly|);
    EvenCrossings(poly, along, across, vLine);
    SortKeeps(crossings, u);
    PairsAreOdd(SortReals(crossings), u);
    EdgesLeftCounts(poly, along, across, u, vLine, |poly|);
  }

  /** They run left to right and do not overlap. */
  lemma SegmentsInOrder(poly: seq<Planar>, along: Planar, across: Planar, vLine: real)
    ensures var r := Segments(poly, along, across, vLine);
            && (forall i :: 0 <= i < |r| ==> r[i].uLo <= r[i].uHi)
            && (forall i, j :: 0 <= i < j < |r| ==> r[i].uHi <= r[j].uLo)
    ensures 2 * |Segments(poly, along, across, vLine)| == |Crossings(poly, along, across, vLine, |poly|)|
  {
    EvenCrossings(poly, along, across, vLine);
    SortKeeps(Crossings(poly, along, across, vLine, |poly|), 0.0);
  }

  // ------------------------------------------------------------ ends of segments

  /** The flight direction and its perpendicular for a bearing with this sine and cosine. */
  function Along(sin: real, cos: real): Planar { Planar(sin, cos) }

  function Across(sin: real, cos: real): Planar { Planar(cos, -sin) }

  function Lerp(a: Planar, b: Planar, t: real): Planar { Planar(a.x + t * (b.x - a.x), a.y + t * (b.y - a.y)) }

  lemma BasisRestores(p: Planar, sin: real, cos: real)
    requires sin * sin + cos * cos == 1.0
    ensures UvToPlanar(Dot(p, Along(sin, cos)), Dot(p, Across(sin, cos)), Along(sin, cos), Across(sin, cos)) == p
  {
    var one := sin * sin + cos * cos;
    assert (p.x * sin + p.y * cos) * sin + (p.x * cos + p.y * -sin) * cos == p.x * one;
    assert (p.x * sin + p.y * cos) * cos + (p.x * cos + p.y * -sin) * -sin == p.y * one;
  }

  lemma UvIsLinear(u: real, u0: real, u1: real, v: real, v0: real, v1: real, t: real, along: Planar, across: Planar)
    requires u == u0 + t * (u1 - u0) && v == v0 + t * (v1 - v0)
    ensures UvToPlanar(u, v, along, across)
            == Lerp(UvToPlanar(u0, v0, along, across), UvToPlanar(u1, v1, along, across), t)
  {
  }

  lemma CrossingTBounds(a: Planar, b: Planar, across: Planar, vLine: real)
    requires Crosses(a, b, across, vLine)
    ensures var t := CrossingT(a, b, across, vLine);
            0.0 <= t <= 1.0 && Dot(a, across) + t * (Dot(b, across) - Dot(a, across)) == vLine
  {
    hide Dot;
    var va, vb := Dot(a, across), Dot(b, across);
    Ratio(vLine - va, vb - va);
  }

  lemma Ratio(p: real, q: real)
    requires (0.0 <= p < q) || (q <= p < 0.0) || (q < 0.0 && q <= p <= 0.0)
    ensures 0.0 <= p / q <= 1.0 && (p / q) * q == p
  {
    var t := p / q;
    assert t * q == p;
    if t > 1.0 { assert (t - 1.0) * q == p - q; }
  }

  /** p lies on an edge of the polygon. */
  ghost predicate OnBoundary(poly: seq<Planar>, p: Planar) {
    exists i, t: real :: 0 <= i < |poly| && 0.0 <= t <= 1.0 && p == Lerp(poly[i], Next(poly, i), t)
  }

  lemma CrossingOnEdge(a: Planar, b: Planar, sin: real, cos: real, vLine: real)
    requires sin * sin + cos * cos == 1.0 && Crosses(a, b, Across(sin, cos), vLine)
    ensures var t := CrossingT(a, b, Across(sin, cos), vLine);
            && 0.0 <= t <= 1.0
            && UvToPlanar(CrossingU(a, b, Along(sin, cos), Across(sin, cos), vLine), vLine,
                          Along(sin, cos), Across(sin, cos))
               == Lerp(a, b, t)
  {
    hide Dot, UvToPlanar, Lerp, Along, Across;
    var along, across := Along(sin, cos), Across(sin, cos);
    CrossingTBounds(a, b, across, vLine);
    BasisRestores(a, sin, cos);
    BasisRestores(b, sin, cos);
    UvIsLinear(CrossingU(a, b, along, across, vLine), Dot(a, along), Dot(b, along),
               vLine, Dot(a, across), Dot(b, across), CrossingT(a, b, across, vLine), along, across);
  }

  lemma {:induction false} CrossingsOnBoundary(poly: seq<Planar>, sin: real, cos: real, vLine: real, n: nat, k: nat)
    requires n <= |poly| && sin * sin + cos * cos == 1.0
    requires k < |Crossings(poly, Along(sin, cos), Across(sin, cos), vLine, n)|
    ensures OnBoundary(poly, UvToPlanar(Crossings(poly, Along(sin, cos), Across(sin, cos), vLine, n)[k], vLine,
                                        Along(sin, cos), Across(sin, cos)))
  {
    hide Dot, UvToPlanar, Lerp, Along, Across, Next, CrossingU, CrossingT, Crosses;
    var along, across := Along(sin, cos), Across(sin, cos);
    if k < |Crossings(poly, along, across, vLine, n - 1)| {
      CrossingsOnBoundary(poly, sin, cos, vLine, n - 1, k);
    } else {
      CrossingOnEdge(poly[n - 1], Next(poly, n - 1), sin, cos, vLine);
    }
  }

  lemma {:induction false} InsertRealMembers(s: seq<real>, x: real, k: nat)
    requires k < |InsertReal(s, x)|
    ensures InsertReal(s, x)[k] == x || InsertReal(s, x)[k] in s
  {
    if s != [] && s[|s| - 1] > x {
      var front := s[..|s| - 1];
      if k < |InsertReal(front, x)| {
        InsertRealMembers(front, x, k);
      } else {
        assert InsertReal(s, x)[k] == s[|s| - 1];
      }
    } else if k < |s| {
      assert InsertReal(s, x)[k] == s[k];
    }
  }

  lemma {:induction false} SortMembers(s: seq<real>, k: nat)
    requires k < |SortReals(s)|
    ensures SortReals(s)[k] in s
  {
    if s != [] {
      var front, last := s[..|s| - 1], s[|s| - 1];
      InsertRealMembers(SortReals(front), last, k);
      if SortReals(s)[k] != last {
        var j :| 0 <= j < |SortReals(front)| && SortReals(front)[j] == SortReals(s)[k];
        SortMembers(front, j);
      }
    }
  }

  /** Both ends of every segment are on the boundary of the polygon. */
  lemma SegmentEndsOnBoundary(poly: seq<Planar>, sin: real, cos: real, vLine: real, i: nat)
    requires sin * sin + cos * cos == 1.0 && i < |Segments(poly, Along(sin, cos), Across(sin, cos), vLine)|
    ensures var segment := Segments(poly, Along(sin, cos), Across(sin, cos), vLine)[i];
            && OnBoundary(poly, UvToPlanar(segment.uLo, vLine, Along(sin, cos), Across(sin, cos)))
            && OnBoundary(poly, UvToPlanar(segment.uHi, vLine, Along(sin, cos), Across(sin, cos)))
  {
    hide OnBoundary, UvToPlanar, SortReals, Crossings, Along, Across;
    var crossings := Crossings(poly, Along(sin, cos), Across(sin, cos), vLine, |poly|);
    SortMembers(crossings, 2 * i);
    SortMembers(crossings, 2 * i + 1);
    var j :| 0 <= j < |crossings| && crossings[j] == SortReals(crossings)[2 * i];
    var k :| 0 <= k < |crossings| && crossings[k] == SortReals(crossings)[2 * i + 1];
    CrossingsOnBoundary(poly, sin, cos, vLine, |poly|, j);
    CrossingsOnBoundary(poly, sin, cos, vLine, |poly|, k);
  }
}

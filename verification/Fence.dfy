/** Geofences and their item streams (src/geo/fence/convert.ts). */
module Fence {
  import opened Text
  import opened Numbers
  import opened MissionItems

  datatype Position = Position(lat: real, lon: real)

  datatype Shape =
    | Polygon(inclusion: bool, vertices: seq<Position>)
    | Circle(inclusion: bool, center: Position, radiusM: Float)

  const NAV_FENCE_RETURN_POINT := 5000
  const NAV_FENCE_POLYGON_VERTEX_INCLUSION := 5001
  const NAV_FENCE_POLYGON_VERTEX_EXCLUSION := 5002
  const NAV_FENCE_CIRCLE_INCLUSION := 5003
  const NAV_FENCE_CIRCLE_EXCLUSION := 5004

  predicate IsVertex(item: MissionItem) {
    item.command == NAV_FENCE_POLYGON_VERTEX_INCLUSION || item.command == NAV_FENCE_POLYGON_VERTEX_EXCLUSION
  }

  predicate IsCircle(item: MissionItem) {
    item.command == NAV_FENCE_CIRCLE_INCLUSION || item.command == NAV_FENCE_CIRCLE_EXCLUSION
  }

  function FenceItem(seqNo: int, command: int, param1: Float, at: Position): MissionItem {
    MissionItem(seqNo, 0, command, 0, 1, Params(param1, Fin(0.0), Fin(0.0), Fin(0.0)), DegToScaled(at.lat),
                DegToScaled(at.lon), Fin(0.0))
  }

  function PositionOf(item: MissionItem): Position { Position(ScaledToDeg(item.x), ScaledToDeg(item.y)) }

  // --------------------------------------------------------------------- encoding

  /** Empty polygons and circles of no positive radius have no encoding. */
  predicate Encodable(s: Shape) {
    match s
    case Polygon(_, vertices) => vertices != []
    case Circle(_, _, radiusM) => Less(Fin(0.0), radiusM)
  }

  /** The items of a shape, numbered from base. */
  function ShapeItems(s: Shape, base: int): seq<MissionItem> {
    if !Encodable(s) then []
    else
      match s
      case Polygon(inclusion, vertices) =>
        var command := if inclusion then NAV_FENCE_POLYGON_VERTEX_INCLUSION else NAV_FENCE_POLYGON_VERTEX_EXCLUSION;
        seq(|vertices|,
            k requires 0 <= k < |vertices| => FenceItem(base + k, command, Fin(|vertices| as real), vertices[k]))
      case Circle(inclusion, center, radiusM) =>
        [FenceItem(base, if inclusion then NAV_FENCE_CIRCLE_INCLUSION else NAV_FENCE_CIRCLE_EXCLUSION, radiusM, center)]
  }

  function ReturnItems(returnPoint: Option<Position>): seq<MissionItem> {
    if returnPoint.Some? then [FenceItem(0, NAV_FENCE_RETURN_POINT, Fin(0.0), returnPoint.value)] else []
  }

  function Encode(returnPoint: Option<Position>, shapes: seq<Shape>): seq<MissionItem> {
    if shapes == [] then ReturnItems(returnPoint)
    else
      var front := Encode(returnPoint, shapes[..|shapes| - 1]);
      front + ShapeItems(shapes[|shapes| - 1], |front|)
  }

  /** What every item of an encoded fence is, but for its command, parameter and place. */
  predicate PlainItem(item: MissionItem) {
    && item.frame == 0 && item.current == 0 && item.autocontinue == 1 && item.z == Fin(0.0)
    && item.params.p2 == item.params.p3 == item.params.p4 == Fin(0.0)
  }

  /** Items are numbered by position, the return point first. */
  lemma {:induction false} EncodedNumbers(returnPoint: Option<Position>, shapes: seq<Shape>, i: nat)
    requires i < |Encode(returnPoint, shapes)|
    ensures Encode(returnPoint, shapes)[i].seqNo == i && PlainItem(Encode(returnPoint, shapes)[i])
    ensures 5000 <= Encode(returnPoint, shapes)[i].command <= 5004
    ensures Encode(returnPoint, shapes)[i].command == 5000 <==> i == 0 && returnPoint.Some?
  {
    hide DegToScaled;
    if shapes != [] {
      var front, last := shapes[..|shapes| - 1], shapes[|shapes| - 1];
      var n := |Encode(returnPoint, front)|;
      if returnPoint.Some? { ReturnFirst(returnPoint, front); }
      if i < n {
        EncodedNumbers(returnPoint, front, i);
      } else {
        hide Encode;
        ShapeNumbers(last, n, i - n);
      }
    }
  }

  lemma {:induction false} ReturnFirst(returnPoint: Option<Position>, shapes: seq<Shape>)
    requires returnPoint.Some?
    ensures Encode(returnPoint, shapes) != []
  {
    if shapes != [] { ReturnFirst(returnPoint, shapes[..|shapes| - 1]); }
  }

  lemma ShapeNumbers(s: Shape, base: int, k: nat)
    requires k < |ShapeItems(s, base)|
    ensures var item := ShapeItems(s, base)[k];
            item.seqNo == base + k && PlainItem(item) && 5000 < item.command <= 5004
  {
    hide DegToScaled;
  }

  /** A shape is left out exactly when it is a polygon of no vertices or a circle whose
      radius is not a positive number. */
  lemma ShapeSkipped(s: Shape, base: int)
    ensures ShapeItems(s, base) == []
            <==> match s
                 case Polygon(_, vertices) => |vertices| == 0
                 case Circle(_, _, NaN) => true
                 case Circle(_, _, NegInf) => true
                 case Circle(_, _, PosInf) => false
                 case Circle(_, _, Fin(r)) => r <= 0.0
  {
    hide FenceItem;
  }

  /** The items of one shape on the wire: a polygon's vertices in order, each with their
      count, or a circle with its radius; the command tells kind and side. */
  lemma ShapeOnWire(s: Shape, base: int)
    requires Encodable(s)
    ensures s.Polygon? ==>
              && |ShapeItems(s, base)| == |s.vertices|
              && forall k :: 0 <= k < |s.vertices| ==>
                   var item := ShapeItems(s, base)[k];
                   && item.command == (if s.inclusion then 5001 else 5002)
                   && item.params.p1 == Fin(|s.vertices| as real)
                   && item.x == DegToScaled(s.vertices[k].lat) && item.y == DegToScaled(s.vertices[k].lon)
    ensures s.Circle? ==>
              && |ShapeItems(s, base)| == 1
              && var item := ShapeItems(s, base)[0];
                 && item.command == (if s.inclusion then 5003 else 5004) && item.params.p1 == s.radiusM
                 && item.x == DegToScaled(s.center.lat) && item.y == DegToScaled(s.center.lon)
  {
    hide DegToScaled;
  }

  method FenceToMission(returnPoint: Option<Position>, shapes: seq<Shape>) returns (items: seq<MissionItem>)
    ensures items == Encode(returnPoint, shapes)
  {
    hide FenceItem;
    items := [];
    if returnPoint.Some? { items := items + [FenceItem(|items|, NAV_FENCE_RETURN_POINT, Fin(0.0), returnPoint.value)]; }
    for n := 0 to |shapes|
      invariant items == Encode(returnPoint, shapes[..n])
    {
      assert shapes[..n + 1][..n] == shapes[..n];
      match shapes[n]
      case Polygon(inclusion, vertices) =>
        var count := |vertices|;
        if count >= 1 {
          items := PushPolygon(items, inclusion, vertices);
        }
      case Circle(inclusion, center, radiusM) =>
        if Less(Fin(0.0), radiusM) {
          var command := if inclusion then NAV_FENCE_CIRCLE_INCLUSION else NAV_FENCE_CIRCLE_EXCLUSION;
          items := items + [FenceItem(|items|, command, radiusM, center)];
        }
    }
    assert shapes[..|shapes|] == shapes;
  }

  method PushPolygon(items0: seq<MissionItem>, inclusion: bool, vertices: seq<Position>)
    returns (items: seq<MissionItem>)
    requires vertices != []
    ensures items == items0 + ShapeItems(Polygon(inclusion, vertices), |items0|)
  {
    hide FenceItem;
    items := items0;
    var count := |vertices|;
    var command := if inclusion then NAV_FENCE_POLYGON_VERTEX_INCLUSION else NAV_FENCE_POLYGON_VERTEX_EXCLUSION;
    for k := 0 to count
      invariant items == items0 + ShapeItems(Polygon(inclusion, vertices), |items0|)[..k]
    {
      items := items + [FenceItem(|items|, command, Fin(count as real), vertices[k])];
    }
  }

  // --------------------------------------------------------------------- decoding

  datatype Reading = Reading(i: nat, shapes: seq<Shape>, returnPoint: Option<Position>)

  /** How many vertices a first vertex asks for: no limit for infinity, none for NaN. */
  predicate Room(taken: nat, param1: Float) {
    match param1
    case Fin(r) => taken < 1 || taken < Round(r)
    case PosInf => true
    case NegInf => taken < 1
    case NaN => false
  }

  /** The end of the vertices that go with the one at i, of which those before j are taken. */
  function RunEnd(items: seq<MissionItem>, i: nat, j: nat): (end: nat)
    requires i < |items| && i <= j <= |items|
    ensures j <= end <= |items|
    decreases |items| - j
  {
    if j < |items| && Room(j - i, items[i].params.p1) && items[j].command == items[i].command
    then RunEnd(items, i, j + 1) else j
  }

  function Positions(items: seq<MissionItem>, i: nat, j: nat): (r: seq<Position>)
    requires i <= j <= |items|
    ensures |r| == j - i && forall k :: 0 <= k < |r| ==> r[k] == PositionOf(items[i + k])
  {
    seq(j - i, k requires 0 <= k < j - i => PositionOf(items[i + k]))
  }

  /** One turn of the decoding loop. */
  function Turn(items: seq<MissionItem>, r: Reading): Reading
    requires r.i < |items|
  {
    var item := items[r.i];
    if item.command == NAV_FENCE_RETURN_POINT then
      Reading(r.i + 1, r.shapes, Some(PositionOf(item)))
    else if IsVertex(item) then
      var j := RunEnd(items, r.i, r.i);
      var polygon := Polygon(item.command == NAV_FENCE_POLYGON_VERTEX_INCLUSION, Positions(items, r.i, j));
      Reading(j, r.shapes + [polygon], r.returnPoint)
    else if IsCircle(item) then
      var circle := Circle(item.command == NAV_FENCE_CIRCLE_INCLUSION, PositionOf(item), item.params.p1);
      Reading(r.i + 1, r.shapes + [circle], r.returnPoint)
    else
      r.(i := r.i + 1)
  }

  /** A first vertex whose count is NaN takes no vertex, not even itself. */
  predicate Sticks(item: MissionItem) { IsVertex(item) && item.params.p1.NaN? }

  lemma TurnMoves(items: seq<MissionItem>, r: Reading)
    requires r.i < |items|
    ensures r.i <= Turn(items, r).i <= |items|
    ensures Turn(items, r).i == r.i <==> Sticks(items[r.i])
  {
  }

  /** Reading from i comes to a vertex it cannot pass. */
  predicate Stuck(items: seq<MissionItem>, i: nat)
    decreases |items| - i
  {
    if i >= |items| then false
    else if Sticks(items[i]) then true
    else
      TurnMoves(items, Reading(i, [], None));
      Stuck(items, Turn(items, Reading(i, [], None)).i)
  }

  /** The decoding loop, from r on. */
  function Read(items: seq<MissionItem>, r: Reading): Reading
    requires !Stuck(items, r.i)
    decreases |items| - r.i
  {
    if r.i >= |items| then r
    else
      TurnMoves(items, r);
      Read(items, Turn(items, r))
  }

  const START := Reading(0, [], None)

  method FenceFromMission(items: seq<MissionItem>) returns (shapes: seq<Shape>, returnPoint: Option<Position>)
    requires !NaNOpening(items, 0)
    ensures (StuckIsNaNOpening(items); Read(items, START)) == Reading(|items|, shapes, returnPoint)
  {
    StuckIsNaNOpening(items);
    hide NaNOpening;
    shapes, returnPoint := [], None;
    var i := 0;
    while i < |items|
      invariant 0 <= i <= |items| && !Stuck(items, i)
      invariant Read(items, Reading(i, shapes, returnPoint)) == Read(items, START)
      decreases |items| - i
    {
      var item := items[i];
      ghost var before := Reading(i, shapes, returnPoint);
      TurnMoves(items, before);
      if item.command == NAV_FENCE_RETURN_POINT {
        returnPoint := Some(PositionOf(item));
        i := i + 1;
      } else if IsVertex(item) {
        var inclusion := item.command == NAV_FENCE_POLYGON_VERTEX_INCLUSION;
        var vertices := [];
        var j := i;
        while j < |items| && Room(|vertices|, item.params.p1) && items[j].command == item.command
          invariant i <= j <= |items| && vertices == Positions(items, i, j)
          invariant RunEnd(items, i, j) == RunEnd(items, i, i)
        {
          vertices := vertices + [PositionOf(items[j])];
          j := j + 1;
        }
        shapes := shapes + [Polygon(inclusion, vertices)];
        i := j;
      } else if IsCircle(item) {
        shapes := shapes + [Circle(item.command == NAV_FENCE_CIRCLE_INCLUSION, PositionOf(item), item.params.p1)];
        i := i + 1;
      } else {
        i := i + 1;
      }
      assert Reading(i, shapes, returnPoint) == Turn(items, before);
    }
  }

  // ----------------------------------------------------------------- termination

  /** How many vertices a polygon asks for; None when there is no limit. */
  function Asks(param1: Float): Option<nat> {
    match param1
    case Fin(r) => Some(if Round(r) < 1 then 1 else Round(r))
    case PosInf => None
    case NegInf => Some(1)
    case NaN => Some(0)
  }

  /** The items from i to j are all of one command. */
  ghost predicate OneCommand(items: seq<MissionItem>, i: nat, j: nat)
    requires i <= j < |items|
  {
    forall k :: i <= k <= j ==> items[k].command == items[i].command
  }

  /** A vertex item opens a polygon when it is the first of its command in a row, or
      comes right after all the vertices an opening one before it asks for. */
  ghost predicate Opens(items: seq<MissionItem>, i: nat)
    decreases i
  {
    && i < |items| && IsVertex(items[i])
    && (|| i == 0 || items[i - 1].command != items[i].command
        || exists o: nat ::
             o < i && Opens(items, o) && OneCommand(items, o, i) && Asks(items[o].params.p1) == Some(i - o))
  }

  /** Some polygon opens with a count that is not a number. */
  ghost predicate NaNOpening(items: seq<MissionItem>, from: nat) {
    exists i :: from <= i < |items| && Opens(items, i) && items[i].params.p1.NaN?
  }

  /** The polygon before the one that opens at i, when it is of the same command. */
  lemma OpenerBefore(items: seq<MissionItem>, i: nat) returns (p: nat)
    requires 0 < i < |items| && Opens(items, i) && items[i - 1].command == items[i].command
    ensures p < i && Opens(items, p) && OneCommand(items, p, i) && Asks(items[p].params.p1) == Some(i - p)
  {
    hide Asks, OneCommand;
    p :| p < i && Opens(items, p) && OneCommand(items, p, i) && Asks(items[p].params.p1) == Some(i - p);
  }

  /** No polygon opens among the vertices another one takes. */
  lemma {:induction false} NoneInside(items: seq<MissionItem>, o: nat, i: nat)
    requires o < i < |items| && Opens(items, o) && OneCommand(items, o, i)
    requires Asks(items[o].params.p1).None? || i - o < Asks(items[o].params.p1).value
    ensures !Opens(items, i)
    decreases i
  {
    hide Asks, Opens;
    if Opens(items, i) {
      assert items[i - 1].command == items[o].command == items[i].command;
      var p := OpenerBefore(items, i);
      if o < p {
        assert OneCommand(items, o, p);
        NoneInside(items, o, p);
      } else if p < o {
        assert OneCommand(items, p, o);
        NoneInside(items, p, o);
      }
    }
  }

  /** What the vertices taken from i on have in common, and why they end. */
  lemma {:induction false} RunEnds(items: seq<MissionItem>, i: nat, j: nat)
    requires i < |items| && i <= j <= |items| && forall k :: i <= k < j ==> items[k].command == items[i].command
    requires i < j ==> Asks(items[i].params.p1).None? || j - i <= Asks(items[i].params.p1).value
    ensures var end := RunEnd(items, i, j);
            && j <= end <= |items| && (forall k :: i <= k < end ==> items[k].command == items[i].command)
            && (i < end ==> Asks(items[i].params.p1).None? || end - i <= Asks(items[i].params.p1).value)
            && (end < |items| && items[end].command == items[i].command ==> Asks(items[i].params.p1) == Some(end - i))
    decreases |items| - j
  {
    if j < |items| && Room(j - i, items[i].params.p1) && items[j].command == items[i].command {
      RunEnds(items, i, j + 1);
    }
  }

  /** A turn comes to a place where, if a vertex stands there, it opens a polygon. */
  lemma TurnToOpening(items: seq<MissionItem>, r: Reading)
    requires r.i < |items| && !Sticks(items[r.i]) && (IsVertex(items[r.i]) ==> Opens(items, r.i))
    ensures var t := Turn(items, r);
            && (t.i < |items| && IsVertex(items[t.i]) ==> Opens(items, t.i))
            && forall k :: r.i < k < t.i ==> !Opens(items, k)
  {
    var t := Turn(items, r);
    TurnMoves(items, r);
    if IsVertex(items[r.i]) {
      RunEnds(items, r.i, r.i);
      assert t.i == RunEnd(items, r.i, r.i);
      hide RunEnd, Asks, Turn, Opens;
      forall k | r.i < k < t.i ensures !Opens(items, k) {
        assert OneCommand(items, r.i, k);
        NoneInside(items, r.i, k);
      }
      if t.i < |items| && IsVertex(items[t.i]) { NextOpens(items, r.i, t.i); }
    } else if t.i < |items| && IsVertex(items[t.i]) {
      assert items[t.i - 1].command != items[t.i].command;
    }
  }

  lemma NextOpens(items: seq<MissionItem>, o: nat, i: nat)
    requires o < i < |items| && Opens(items, o) && IsVertex(items[i])
    requires forall k :: o <= k < i ==> items[k].command == items[o].command
    requires items[i].command == items[o].command ==> Asks(items[o].params.p1) == Some(i - o)
    ensures Opens(items, i)
  {
    hide Asks;
    if items[i].command == items[o].command {
      assert OneCommand(items, o, i);
    } else {
      assert items[i - 1].command != items[i].command;
    }
  }

  /** Reading comes to a stop it cannot pass exactly when some polygon ahead opens with
      a NaN count. */
  lemma {:induction false} StuckAtOpening(items: seq<MissionItem>, i: nat)
    requires i < |items| && IsVertex(items[i]) ==> Opens(items, i)
    ensures Stuck(items, i) <==> NaNOpening(items, i)
    decreases |items| - i
  {
    hide Turn, Opens;
    if i < |items| {
      var place := Reading(i, [], None);
      if Sticks(items[i]) {
        assert Opens(items, i);
      } else {
        TurnMoves(items, place);
        TurnToOpening(items, place);
        var next := Turn(items, place).i;
        StuckAtOpening(items, next);
        SameOpenings(items, i, next);
      }
    }
  }

  lemma SameOpenings(items: seq<MissionItem>, i: nat, next: nat)
    requires i < next <= |items| && i < |items| && !Sticks(items[i]) && forall k :: i < k < next ==> !Opens(items, k)
    ensures NaNOpening(items, i) <==> NaNOpening(items, next)
  {
    if NaNOpening(items, i) {
      var k :| i <= k < |items| && Opens(items, k) && items[k].params.p1.NaN?;
      assert IsVertex(items[k]);
      hide Opens;
      assert k >= next;
    }
  }

  /** The stop in terms of the items alone. */
  lemma StuckIsNaNOpening(items: seq<MissionItem>)
    ensures Stuck(items, 0) <==> NaNOpening(items, 0)
  {
    StuckAtOpening(items, 0);
  }

  /** The shortest stream that is never decoded: one vertex. */
  lemma OneVertexSticks(at: Position)
    ensures var items := [FenceItem(0, NAV_FENCE_POLYGON_VERTEX_INCLUSION, NaN, at)];
            NaNOpening(items, 0) && forall n: nat :: Turns(items, n).i == 0
  {
    hide DegToScaled;
    var items := [FenceItem(0, NAV_FENCE_POLYGON_VERTEX_INCLUSION, NaN, at)];
    assert Opens(items, 0);
    StuckIsNaNOpening(items);
    forall n: nat ensures Turns(items, n).i == 0 {
      TurnsStay(items, n);
      TurnsRange(items, n);
    }
  }

  lemma {:induction false} TurnsRange(items: seq<MissionItem>, n: nat)
    ensures Turns(items, n).i <= |items|
  {
    hide Turn;
    if n > 0 {
      TurnsRange(items, n - 1);
      if Turns(items, n - 1).i < |items| { TurnMoves(items, Turns(items, n - 1)); }
    }
  }

  /** n turns of the loop, or as many as it makes. */
  function Turns(items: seq<MissionItem>, n: nat): Reading {
    if n == 0 then START
    else
      var r := Turns(items, n - 1);
      if r.i < |items| then Turn(items, r) else r
  }

  /** Stuckness depends on the place only. */
  lemma StuckTurn(items: seq<MissionItem>, r: Reading)
    requires r.i < |items|
    ensures Stuck(items, r.i) <==> Stuck(items, Turn(items, r).i)
  {
    TurnMoves(items, r);
    var place := Reading(r.i, [], None);
    assert Turn(items, r).i == Turn(items, place).i;
  }

  lemma {:induction false} TurnsStay(items: seq<MissionItem>, n: nat)
    ensures Stuck(items, Turns(items, n).i) <==> Stuck(items, 0)
    ensures !Stuck(items, 0) ==> Turns(items, n).i >= n || Turns(items, n).i >= |items|
  {
    hide Turn;
    if n > 0 {
      TurnsStay(items, n - 1);
      var r := Turns(items, n - 1);
      if r.i < |items| {
        StuckTurn(items, r);
        TurnMoves(items, r);
      }
    }
  }

  /** Decoding ends on exactly the streams in which no polygon opens with a count that
      is not a number. */
  lemma DecodingEnds(items: seq<MissionItem>)
    ensures (exists n: nat :: Turns(items, n).i >= |items|) <==> !NaNOpening(items, 0)
  {
    hide Turns, NaNOpening;
    StuckIsNaNOpening(items);
    if Stuck(items, 0) {
      forall n: nat ensures Turns(items, n).i < |items| { TurnsStay(items, n); }
    } else {
      TurnsStay(items, |items|);
    }
  }

  /** A stream whose counts are numbers is not stuck. */
  lemma {:induction false} NumbersDoNotStick(items: seq<MissionItem>, i: nat)
    requires forall k :: 0 <= k < |items| ==> !Sticks(items[k])
    ensures !Stuck(items, i)
    decreases |items| - i
  {
    if i < |items| {
      TurnMoves(items, Reading(i, [], None));
      NumbersDoNotStick(items, Turn(items, Reading(i, [], None)).i);
    }
  }

  // ------------------------------------------------------------------- round trip

  function Snap(p: Position): Position { Position(ScaledToDeg(DegToScaled(p.lat)), ScaledToDeg(DegToScaled(p.lon))) }

  /** A shape with its positions rounded to the grid of the wire. */
  function SnapShape(s: Shape): Shape {
    match s
    case Polygon(inclusion, vertices) =>
      Polygon(inclusion, seq(|vertices|, k requires 0 <= k < |vertices| => Snap(vertices[k])))
    case Circle(inclusion, center, radiusM) => Circle(inclusion, Snap(center), radiusM)
  }

  /** The encodable shapes, in order, on the grid. */
  function Snapped(shapes: seq<Shape>): seq<Shape> {
    if shapes == [] then []
    else
      var last := shapes[|shapes| - 1];
      Snapped(shapes[..|shapes| - 1]) + (if Encodable(last) then [SnapShape(last)] else [])
  }

  function SnapReturn(p: Option<Position>): Option<Position> { if p.Some? then Some(Snap(p.value)) else None }

  /** From r the loop comes to t. */
  ghost predicate Leads(items: seq<MissionItem>, r: Reading, t: Reading) {
    && (Stuck(items, r.i) <==> Stuck(items, t.i))
    && (!Stuck(items, r.i) ==> Read(items, r) == Read(items, t))
  }

  lemma LeadsOn(items: seq<MissionItem>, r: Reading)
    requires r.i < |items| && !Sticks(items[r.i])
    ensures Leads(items, r, Turn(items, r))
  {
    hide Turn;
    StuckTurn(items, r);
  }

  lemma {:induction false} RunOfVertices(items: seq<MissionItem>, i: nat, n: nat, j: nat)
    requires i < i + n <= |items| && i <= j <= i + n && items[i].params.p1 == Fin(n as real)
    requires forall k :: i <= k < i + n ==> items[k].command == items[i].command
    ensures RunEnd(items, i, j) == i + n
    decreases i + n - j
  {
    RoundInt(n);
    if j < i + n { RunOfVertices(items, i, n, j + 1); }
  }

  lemma TurnOnPolygon(items: seq<MissionItem>, s: Shape, r: Reading)
    requires s.Polygon? && s.vertices != []
    requires r.i + |s.vertices| <= |items| && items[r.i..r.i + |s.vertices|] == ShapeItems(s, r.i)
    ensures !Sticks(items[r.i])
    ensures Turn(items, r) == Reading(r.i + |s.vertices|, r.shapes + [SnapShape(s)], r.returnPoint)
  {
    hide Round, RunEnd;
    var own, n := ShapeItems(s, r.i), |s.vertices|;
    assert forall k :: r.i <= k < r.i + n ==> items[k] == own[k - r.i];
    RunOfVertices(items, r.i, n, r.i);
    assert Positions(items, r.i, r.i + n) == SnapShape(s).vertices;
  }

  lemma TurnOnCircle(items: seq<MissionItem>, s: Shape, r: Reading)
    requires s.Circle? && Encodable(s)
    requires r.i < |items| && items[r.i..r.i + 1] == ShapeItems(s, r.i)
    ensures !Sticks(items[r.i]) && Turn(items, r) == Reading(r.i + 1, r.shapes + [SnapShape(s)], r.returnPoint)
  {
    hide Round;
    assert items[r.i] == items[r.i..r.i + 1][0];
  }

  /** Where a shape's items stand, the loop reads the shape and moves past them,
      whatever comes next. */
  lemma ReadsShape(items: seq<MissionItem>, s: Shape, r: Reading)
    requires Encodable(s)
    requires r.i + |ShapeItems(s, r.i)| <= |items| && items[r.i..r.i + |ShapeItems(s, r.i)|] == ShapeItems(s, r.i)
    ensures Leads(items, r, Reading(r.i + |ShapeItems(s, r.i)|, r.shapes + [SnapShape(s)], r.returnPoint))
  {
    if s.Polygon? { TurnOnPolygon(items, s, r); } else { TurnOnCircle(items, s, r); }
    hide Turn, SnapShape;
    LeadsOn(items, r);
  }

  lemma {:induction false} EncodePrefix(returnPoint: Option<Position>, shapes: seq<Shape>, n: nat)
    requires n <= |shapes|
    ensures Encode(returnPoint, shapes[..n]) <= Encode(returnPoint, shapes)
  {
    if n < |shapes| {
      var front := shapes[..|shapes| - 1];
      assert front[..n] == shapes[..n];
      EncodePrefix(returnPoint, front, n);
    } else {
      assert shapes[..n] == shapes;
    }
  }

  lemma {:induction false} ReadsPrefix(returnPoint: Option<Position>, shapes: seq<Shape>, n: nat)
    requires n <= |shapes|
    ensures Leads(Encode(returnPoint, shapes), START,
                  Reading(|Encode(returnPoint, shapes[..n])|, Snapped(shapes[..n]), SnapReturn(returnPoint)))
  {
    hide ShapeItems, SnapShape, Read, Stuck;
    var items := Encode(returnPoint, shapes);
    EncodePrefix(returnPoint, shapes, n);
    if n == 0 {
      ReadsReturn(items, returnPoint);
    } else {
      ReadsPrefix(returnPoint, shapes, n - 1);
      var s := shapes[n - 1];
      var front, own := Encode(returnPoint, shapes[..n - 1]), ShapeItems(s, |Encode(returnPoint, shapes[..n - 1])|);
      assert shapes[..n][..n - 1] == shapes[..n - 1];
      assert Encode(returnPoint, shapes[..n]) == front + own;
      var r := Reading(|front|, Snapped(shapes[..n - 1]), SnapReturn(returnPoint));
      if Encodable(s) {
        assert items[r.i..r.i + |own|] == own;
        ReadsShape(items, s, r);
      } else {
        NoItems(s, |front|);
        assert Encode(returnPoint, shapes[..n]) == front;
        assert Snapped(shapes[..n]) == Snapped(shapes[..n - 1]);
      }
    }
  }

  lemma NoItems(s: Shape, base: int)
    requires !Encodable(s)
    ensures ShapeItems(s, base) == []
  {
  }

  lemma ReadsReturn(items: seq<MissionItem>, returnPoint: Option<Position>)
    requires ReturnItems(returnPoint) <= items
    ensures Leads(items, START, Reading(|ReturnItems(returnPoint)|, [], SnapReturn(returnPoint)))
  {
    if returnPoint.Some? {
      assert items[0] == ReturnItems(returnPoint)[0];
      LeadsOn(items, START);
    }
  }

  /** Decoding an encoded fence ends and gives back the return point and the shapes in
      order, but for those that have no encoding, with positions on the grid. */
  lemma FenceRoundTrip(returnPoint: Option<Position>, shapes: seq<Shape>)
    ensures var items := Encode(returnPoint, shapes);
            && !Stuck(items, 0)
            && Read(items, START) == Reading(|items|, Snapped(shapes), SnapReturn(returnPoint))
  {
    hide Encode, Snapped;
    ReadsPrefix(returnPoint, shapes, |shapes|);
    assert shapes[..|shapes|] == shapes;
  }

  ghost predicate ShapeOnGrid(s: Shape) {
    match s
    case Polygon(_, vertices) => forall k :: 0 <= k < |vertices| ==> OnGrid(vertices[k].lat) && OnGrid(vertices[k].lon)
    case Circle(_, center, _) => OnGrid(center.lat) && OnGrid(center.lon)
  }

  lemma {:induction false} SnappedGoodShapes(shapes: seq<Shape>)
    requires forall k :: 0 <= k < |shapes| ==> Encodable(shapes[k]) && ShapeOnGrid(shapes[k])
    ensures Snapped(shapes) == shapes
  {
    hide SnapShape, Encodable, ShapeOnGrid;
    if shapes != [] {
      var front, last := shapes[..|shapes| - 1], shapes[|shapes| - 1];
      SnappedGoodShapes(front);
      SnapOnGrid(last);
      assert shapes == front + [last];
    }
  }

  lemma {:induction false} SnappedCount(shapes: seq<Shape>)
    ensures |Snapped(shapes)| <= |shapes|
  {
    if shapes != [] { SnappedCount(shapes[..|shapes| - 1]); }
  }

  lemma {:induction false} SnappedUnchanged(shapes: seq<Shape>, k: nat)
    requires Snapped(shapes) == shapes && k < |shapes|
    ensures Encodable(shapes[k]) && ShapeOnGrid(shapes[k])
  {
    hide SnapShape, Encodable, ShapeOnGrid;
    var n := |shapes| - 1;
    SnappedCount(shapes[..n]);
    assert |Snapped(shapes[..n])| == n && Encodable(shapes[n]);
    assert Snapped(shapes[..n]) == shapes[..n];
    if k == n { SnapOnGrid(shapes[n]); } else { SnappedUnchanged(shapes[..n], k); }
  }

  /** Nothing is lost exactly when every shape has an encoding and is on the grid. */
  lemma SnappedIsSame(shapes: seq<Shape>)
    ensures Snapped(shapes) == shapes
            <==> forall k :: 0 <= k < |shapes| ==> Encodable(shapes[k]) && ShapeOnGrid(shapes[k])
  {
    hide Snapped, Encodable, ShapeOnGrid;
    if Snapped(shapes) == shapes {
      forall k | 0 <= k < |shapes| ensures Encodable(shapes[k]) && ShapeOnGrid(shapes[k]) {
        SnappedUnchanged(shapes, k);
      }
    }
    if forall k :: 0 <= k < |shapes| ==> Encodable(shapes[k]) && ShapeOnGrid(shapes[k]) { SnappedGoodShapes(shapes); }
  }

  lemma SnapOnGrid(s: Shape)
    ensures SnapShape(s) == s <==> ShapeOnGrid(s)
  {
    if s.Polygon? {
      var snapped := SnapShape(s).vertices;
      hide OnGrid, Round;
      if snapped == s.vertices {
        forall k | 0 <= k < |s.vertices| ensures OnGrid(s.vertices[k].lat) && OnGrid(s.vertices[k].lon) {
          assert snapped[k] == Snap(s.vertices[k]);
          SnapPosition(s.vertices[k]);
        }
      } else if ShapeOnGrid(s) {
        forall k | 0 <= k < |s.vertices| ensures snapped[k] == s.vertices[k] { SnapPosition(s.vertices[k]); }
      }
    } else {
      SnapPosition(s.center);
    }
  }

  lemma SnapPosition(p: Position)
    ensures Snap(p) == p <==> OnGrid(p.lat) && OnGrid(p.lon)
  {
  }

  // -------------------------------------------------------- every item is read once

  /** What an item says about the fence. */
  datatype Mark = Vertex(inclusion: bool, at: Position) | Disc(inclusion: bool, center: Position, radiusM: Float)

  function ItemMarks(items: seq<MissionItem>, i: nat, j: nat): seq<Mark>
    requires i <= j <= |items|
  {
    if i == j then []
    else
      var item := items[j - 1];
      ItemMarks(items, i, j - 1)
      + (if IsVertex(item) then [Vertex(item.command == NAV_FENCE_POLYGON_VERTEX_INCLUSION, PositionOf(item))]
         else if IsCircle(item) then
           [Disc(item.command == NAV_FENCE_CIRCLE_INCLUSION, PositionOf(item), item.params.p1)]
         else [])
  }

  function VertexMarks(inclusion: bool, vertices: seq<Position>): (r: seq<Mark>)
    ensures |r| == |vertices|
  {
    seq(|vertices|, k requires 0 <= k < |vertices| => Vertex(inclusion, vertices[k]))
  }

  function ShapeMarks(shapes: seq<Shape>): seq<Mark> {
    if shapes == [] then []
    else
      ShapeMarks(shapes[..|shapes| - 1])
      + match shapes[|shapes| - 1]
        case Polygon(inclusion, vertices) => VertexMarks(inclusion, vertices)
        case Circle(inclusion, center, radiusM) => [Disc(inclusion, center, radiusM)]
  }

  lemma VertexMarksAppend(inclusion: bool, items: seq<MissionItem>, i: nat, j: nat)
    requires i < j <= |items|
    ensures VertexMarks(inclusion, Positions(items, i, j))
            == VertexMarks(inclusion, Positions(items, i, j - 1)) + [Vertex(inclusion, PositionOf(items[j - 1]))]
  {
    hide PositionOf;
  }

  lemma {:induction false} RunMarks(items: seq<MissionItem>, i: nat, j: nat)
    requires i <= j <= |items| && i < |items| && IsVertex(items[i])
    requires forall k :: i <= k < j ==> items[k].command == items[i].command
    ensures ItemMarks(items, i, j)
            == VertexMarks(items[i].command == NAV_FENCE_POLYGON_VERTEX_INCLUSION, Positions(items, i, j))
  {
    hide PositionOf, VertexMarks, Positions;
    if i < j {
      RunMarks(items, i, j - 1);
      VertexMarksAppend(items[i].command == NAV_FENCE_POLYGON_VERTEX_INCLUSION, items, i, j);
    }
  }

  lemma {:induction false} RunSame(items: seq<MissionItem>, i: nat, j: nat)
    requires i < |items| && i <= j <= |items| && forall k :: i <= k < j ==> items[k].command == items[i].command
    ensures forall k :: i <= k < RunEnd(items, i, j) ==> items[k].command == items[i].command
    decreases |items| - j
  {
    if j < |items| && Room(j - i, items[i].params.p1) && items[j].command == items[i].command {
      RunSame(items, i, j + 1);
    }
  }

  lemma {:induction false} MarksJoin(items: seq<MissionItem>, i: nat, j: nat, k: nat)
    requires i <= j <= k <= |items|
    ensures ItemMarks(items, i, k) == ItemMarks(items, i, j) + ItemMarks(items, j, k)
  {
    if j < k { MarksJoin(items, i, j, k - 1); }
  }

  lemma MarksAppend(shapes: seq<Shape>, s: Shape)
    ensures ShapeMarks(shapes + [s]) == ShapeMarks(shapes)
      + match s
        case Polygon(inclusion, vertices) => VertexMarks(inclusion, vertices)
        case Circle(inclusion, center, radiusM) => [Disc(inclusion, center, radiusM)]
  {
    assert (shapes + [s])[..|shapes|] == shapes;
  }

  lemma RunReads(items: seq<MissionItem>, r: Reading)
    requires r.i < |items| && items[r.i].command != NAV_FENCE_RETURN_POINT && IsVertex(items[r.i])
    ensures var t := Turn(items, r);
            r.i <= t.i <= |items| && ShapeMarks(t.shapes) == ShapeMarks(r.shapes) + ItemMarks(items, r.i, t.i)
  {
    hide ShapeMarks, ItemMarks, Room, RunEnd;
    var t := Turn(items, r);
    RunSame(items, r.i, r.i);
    RunMarks(items, r.i, t.i);
    MarksAppend(r.shapes, t.shapes[|r.shapes|]);
  }

  lemma OneItemReads(items: seq<MissionItem>, r: Reading)
    requires r.i < |items| && !IsVertex(items[r.i])
    ensures var t := Turn(items, r);
            t.i == r.i + 1 && ShapeMarks(t.shapes) == ShapeMarks(r.shapes) + ItemMarks(items, r.i, t.i)
  {
    hide ShapeMarks, RunEnd, ItemMarks, Positions, PositionOf, VertexMarks;
    var item, t := items[r.i], Turn(items, r);
    OneMark(items, r.i);
    if IsCircle(item) { MarksAppend(r.shapes, t.shapes[|r.shapes|]); } else { assert t.shapes == r.shapes; }
  }

  lemma OneMark(items: seq<MissionItem>, i: nat)
    requires i < |items| && !IsVertex(items[i])
    ensures ItemMarks(items, i, i + 1)
            == if IsCircle(items[i]) then
                 [Disc(items[i].command == NAV_FENCE_CIRCLE_INCLUSION, PositionOf(items[i]), items[i].params.p1)]
               else []
  {
    assert ItemMarks(items, i, i) == [];
  }

  lemma TurnReads(items: seq<MissionItem>, r: Reading)
    requires r.i < |items|
    ensures var t := Turn(items, r);
            r.i <= t.i <= |items| && ShapeMarks(t.shapes) == ShapeMarks(r.shapes) + ItemMarks(items, r.i, t.i)
  {
    hide ShapeMarks, ItemMarks, Turn;
    if IsVertex(items[r.i]) { RunReads(items, r); } else { OneItemReads(items, r); }
  }

  /** On any stream on which decoding ends, each vertex item is in exactly one polygon
      of its kind, and each circle item is one circle, all in stream order. */
  lemma {:induction false} EveryItemRead(items: seq<MissionItem>, r: Reading)
    requires r.i <= |items| && !Stuck(items, r.i) && ShapeMarks(r.shapes) == ItemMarks(items, 0, r.i)
    ensures Read(items, r).i == |items|
    ensures ShapeMarks(Read(items, r).shapes) == ItemMarks(items, 0, |items|)
    decreases |items| - r.i
  {
    if r.i < |items| {
      hide Turn, ItemMarks, ShapeMarks;
      TurnMoves(items, r);
      TurnReads(items, r);
      MarksJoin(items, 0, r.i, Turn(items, r).i);
      StuckTurn(items, r);
      EveryItemRead(items, Turn(items, r));
    }
  }
}

/** Editing a mission list (src/geo/mission/model.ts) and its wire form
    (src/geo/mission/convert.ts). */
module Mission {
  import opened Numbers
  import opened MissionItems

  /** A mission of items of any type; the edits never look inside one. */
  datatype Model<T> = Model(kind: string, items: seq<T>, defaultAlt: Float, defaultFrame: int, currentSeq: int)

  function ClampInsert(index: int, length: nat): (r: nat)
    ensures r <= length && (0 <= index <= length ==> r == index)
    ensures index < 0 ==> r == 0
    ensures index > length ==> r == length
  {
    if index < 0 then 0 else if index > length then length else index
  }

  /** Into the list, or -1 when it is empty. */
  function ClampItem(index: int, length: nat): (r: int)
    ensures length == 0 ==> r == -1
    ensures length > 0 ==> 0 <= r < length
    ensures 0 <= index < length ==> r == index
    ensures length > 0 && index < 0 ==> r == 0
    ensures length > 0 && index >= length ==> r == length - 1
  {
    if length == 0 then -1 else if index < 0 then 0 else if index >= length then length - 1 else index
  }

  // ------------------------------------------------------------------------ edits

  function AddItem<T>(m: Model<T>, item: T): (r: Model<T>)
    ensures |r.items| == |m.items| + 1 && r == m.(items := r.items)
    ensures r.items[|m.items|] == item && forall i :: 0 <= i < |m.items| ==> r.items[i] == m.items[i]
  {
    m.(items := m.items + [item])
  }

  /** The new item is at the index, the items from there on move up by one, and the
      pointer with its item. */
  function InsertItem<T>(m: Model<T>, at: int, item: T): (r: Model<T>)
    ensures |r.items| == |m.items| + 1 && r == m.(items := r.items, currentSeq := r.currentSeq)
    ensures r.items[ClampInsert(at, |m.items|)] == item
    ensures forall i :: 0 <= i < |m.items| ==>
              r.items[if i < ClampInsert(at, |m.items|) then i else i + 1] == m.items[i]
    ensures r.currentSeq - m.currentSeq == if m.currentSeq < ClampInsert(at, |m.items|) then 0 else 1
  {
    var index := ClampInsert(at, |m.items|);
    m.(items := m.items[..index] + [item] + m.items[index..],
       currentSeq := if index <= m.currentSeq then m.currentSeq + 1 else m.currentSeq)
  }

  function Deleted<T>(m: Model<T>, index: int): Model<T> {
    if !(0 <= index < |m.items|) then m
    else
      var items := m.items[..index] + m.items[index + 1..];
      var clamped := ClampItem(if index < m.currentSeq then m.currentSeq - 1 else m.currentSeq, |items|);
      m.(items := items, currentSeq := if clamped == -1 then 0 else clamped)
  }

  /** The items before the deleted one stay and those after it come down by one; the
      pointer stays with its item, and with its place when its item is deleted, unless
      that was the last. */
  method DeleteItem<T>(m: Model<T>, index: int) returns (r: Model<T>)
    ensures r == Deleted(m, index)
    ensures !(0 <= index < |m.items|) ==> r == m
    ensures 0 <= index < |m.items| ==>
              && |r.items| == |m.items| - 1 && r == m.(items := r.items, currentSeq := r.currentSeq)
              && forall i :: 0 <= i < |m.items| && i != index ==> r.items[if i < index then i else i - 1] == m.items[i]
    ensures 0 <= index < |m.items| && InRange(m) ==>
              r.currentSeq == if r.items == [] then 0
                              else if m.currentSeq > index || m.currentSeq == |r.items| then m.currentSeq - 1
                              else m.currentSeq
  {
    if index < 0 || index >= |m.items| { return m; }
    var items := m.items[..index] + m.items[index + 1..];
    var currentSeq := m.currentSeq;
    if index < currentSeq { currentSeq := currentSeq - 1; }
    var clamped := ClampItem(currentSeq, |items|);
    r := m.(items := items, currentSeq := if clamped == -1 then 0 else clamped);
  }

  /** Where the item at i goes when the one at src moves to dst. */
  function MovedTo(i: int, src: int, dst: int): int {
    if i == src then dst
    else if src < i <= dst then i - 1
    else if dst <= i < src then i + 1
    else i
  }

  /** Every item at its new place. */
  function Rearranged<T>(items: seq<T>, src: int, dst: int): (r: seq<T>)
    requires 0 <= src < |items| && 0 <= dst < |items|
    ensures |r| == |items|
  {
    seq(|items|, k requires 0 <= k < |items| => items[MovedTo(k, dst, src)])
  }

  lemma RearrangedAt<T>(items: seq<T>, src: int, dst: int, i: int)
    requires 0 <= src < |items| && 0 <= dst < |items| && 0 <= i < |items|
    ensures 0 <= MovedTo(i, src, dst) < |items| && Rearranged(items, src, dst)[MovedTo(i, src, dst)] == items[i]
  {
  }

  /** Taking an item out and putting it back elsewhere. */
  function Spliced<T>(items: seq<T>, src: int, dst: int): (r: seq<T>)
    requires 0 <= src < |items| && 0 <= dst < |items|
    ensures |r| == |items|
  {
    var rest := items[..src] + items[src + 1..];
    rest[..dst] + [items[src]] + rest[dst..]
  }

  lemma SplicesRearrange<T>(items: seq<T>, src: int, dst: int)
    requires 0 <= src < |items| && 0 <= dst < |items|
    ensures Spliced(items, src, dst) == Rearranged(items, src, dst)
  {
    var rest := items[..src] + items[src + 1..];
    assert forall k :: 0 <= k < |rest| ==> rest[k] == items[if k < src then k else k + 1];
    forall k | 0 <= k < |items| ensures Spliced(items, src, dst)[k] == Rearranged(items, src, dst)[k] {
      if k < dst { assert Spliced(items, src, dst)[k] == rest[k]; }
      if k > dst { assert Spliced(items, src, dst)[k] == rest[k - 1]; }
    }
  }

  function Reordered<T>(m: Model<T>, from: int, to: int): Model<T> {
    var src, dst := ClampItem(from, |m.items|), ClampItem(to, |m.items|);
    if src == -1 || src == dst then m
    else m.(items := Rearranged(m.items, src, dst), currentSeq := MovedTo(m.currentSeq, src, dst))
  }

  /** The two splices move every item where Rearranged says: the one at the clamped
      source to the clamped destination, the others keeping their order. */
  method Reorder<T>(m: Model<T>, from: int, to: int) returns (r: Model<T>)
    ensures r == Reordered(m, from, to)
    ensures m.items == [] ==> r == m
    ensures m.items != [] ==>
              var src, dst := ClampItem(from, |m.items|), ClampItem(to, |m.items|);
              && |r.items| == |m.items| && r == m.(items := r.items, currentSeq := r.currentSeq)
              && r.items[dst] == m.items[src]
              && r.items[..dst] + r.items[dst + 1..] == m.items[..src] + m.items[src + 1..]
  {
    hide Rearranged;
    var length := |m.items|;
    var src := ClampItem(from, length);
    if src == -1 { return m; }
    var dst := ClampItem(to, length);
    if src == dst { return m; }
    var next := m.items;
    var moved := next[src];
    next := next[..src] + next[src + 1..];
    next := next[..dst] + [moved] + next[dst..];
    assert next == Spliced(m.items, src, dst);
    SplicesRearrange(m.items, src, dst);
    var currentSeq := m.currentSeq;
    if m.currentSeq == src {
      currentSeq := dst;
    } else if src < m.currentSeq && dst >= m.currentSeq {
      currentSeq := currentSeq - 1;
    } else if src > m.currentSeq && dst <= m.currentSeq {
      currentSeq := currentSeq + 1;
    }
    r := m.(items := next, currentSeq := currentSeq);
  }

  function SetItem<T>(m: Model<T>, index: int, patch: T -> T): (r: Model<T>)
    ensures |r.items| == |m.items| && r == m.(items := r.items)
    ensures forall i :: 0 <= i < |m.items| ==> r.items[i] == if i == index then patch(m.items[i]) else m.items[i]
  {
    if !(0 <= index < |m.items|) then m else m.(items := m.items[index := patch(m.items[index])])
  }

  function SetCurrent<T>(m: Model<T>, index: int): (r: Model<T>)
    ensures r == m.(currentSeq := r.currentSeq) && InRange(r)
    ensures 0 <= index < |m.items| ==> r.currentSeq == index
    ensures m.items != [] && index < 0 ==> r.currentSeq == 0
    ensures index >= |m.items| > 0 ==> r.currentSeq == |m.items| - 1
  {
    var clamped := ClampItem(index, |m.items|);
    m.(currentSeq := if clamped == -1 then 0 else clamped)
  }

  // ----------------------------------------------------------- what the edits keep

  /** The pointer is on an item, or 0 in an empty mission. */
  predicate InRange<T>(m: Model<T>) {
    if m.items == [] then m.currentSeq == 0 else 0 <= m.currentSeq < |m.items|
  }

  /** A reorder loses and duplicates nothing. */
  lemma RearrangedKeeps<T>(items: seq<T>, src: int, dst: int)
    requires 0 <= src < |items| && 0 <= dst < |items|
    ensures multiset(Rearranged(items, src, dst)) == multiset(items)
  {
    SplicesRearrange(items, src, dst);
    hide Rearranged;
    var before, x, after := items[..src], items[src], items[src + 1..];
    var front, back := (before + after)[..dst], (before + after)[dst..];
    assert items == before + [x] + after;
    assert before + after == front + back;
    assert multiset(items) == multiset(before + after) + multiset{x};
    assert multiset(front + [x] + back) == multiset(front + back) + multiset{x};
  }

  /** The reverse reorder undoes it: list, pointer and all, for any two indices. */
  lemma ReorderUndone<T>(m: Model<T>, from: int, to: int)
    ensures Reordered(Reordered(m, from, to), to, from) == m
  {
    var n := |m.items|;
    var src, dst := ClampItem(from, n), ClampItem(to, n);
    if src != -1 && src != dst {
      var there := Rearranged(m.items, src, dst);
      var back := Rearranged(there, dst, src);
      forall i | 0 <= i < n ensures back[i] == m.items[i] { ThereAndBack(m.items, src, dst, i); }
      hide Rearranged;
      assert back == m.items;
    }
  }

  lemma ThereAndBack<T>(items: seq<T>, src: int, dst: int, i: int)
    requires 0 <= src < |items| && 0 <= dst < |items| && 0 <= i < |items|
    ensures Rearranged(Rearranged(items, src, dst), dst, src)[i] == items[i]
  {
    RearrangedAt(items, src, dst, i);
    RearrangedAt(Rearranged(items, src, dst), dst, src, MovedTo(i, src, dst));
    assert MovedTo(MovedTo(i, src, dst), dst, src) == i;
  }

  datatype Edit<!T> =
    | Add(item: T)
    | Insert(at: int, item: T)
    | Delete(index: int)
    | Move(from: int, to: int)
    | Patch(index: int, patch: T -> T)
    | Choose(index: int)

  function Apply<T>(m: Model<T>, e: Edit<T>): Model<T> {
    match e
    case Add(item) => AddItem(m, item)
    case Insert(at, item) => InsertItem(m, at, item)
    case Delete(index) => Deleted(m, index)
    case Move(from, to) => Reordered(m, from, to)
    case Patch(index, patch) => SetItem(m, index, patch)
    case Choose(index) => SetCurrent(m, index)
  }

  function ApplyAll<T>(m: Model<T>, edits: seq<Edit<T>>): Model<T> {
    if edits == [] then m else Apply(ApplyAll(m, edits[..|edits| - 1]), edits[|edits| - 1])
  }

  /** An edit leaves the pointer in range, but for an insert into an empty mission,
      after which it is past the only item. */
  lemma EditInRange<T>(m: Model<T>, e: Edit<T>)
    requires InRange(m)
    ensures InRange(Apply(m, e)) <==> !(e.Insert? && m.items == [])
    ensures e.Insert? && m.items == [] ==> Apply(m, e).currentSeq == 1 && |Apply(m, e).items| == 1
  {
  }

  /** An item and the name by which it is known through edits. */
  datatype Named<T> = Named(name: nat, value: T)

  ghost predicate KeepsNames<T(!new)>(e: Edit<Named<T>>) {
    e.Patch? ==> forall x :: e.patch(x).name == x.name
  }

  /** One edit keeps the pointer on the item it was on, unless it deletes that or chooses another. */
  lemma EditKeepsCurrent<T(!new)>(m: Model<Named<T>>, e: Edit<Named<T>>)
    requires m.items != [] && InRange(m) && KeepsNames(e) && e != Delete(m.currentSeq) && !e.Choose?
    ensures var r := Apply(m, e);
            r.items != [] && InRange(r) && r.items[r.currentSeq].name == m.items[m.currentSeq].name
  {
    if e.Move? {
      var src, dst := ClampItem(e.from, |m.items|), ClampItem(e.to, |m.items|);
      if src != dst { RearrangedAt(m.items, src, dst, m.currentSeq); }
    }
  }

  /** Over any run of edits of a non-empty mission that never deletes the current
      item or chooses another, the pointer stays in range and on that item. */
  lemma {:induction false} CurrentIsKept<T(!new)>(m: Model<Named<T>>, edits: seq<Edit<Named<T>>>)
    requires m.items != [] && InRange(m)
    requires forall k :: 0 <= k < |edits| ==> KeepsNames(edits[k]) && !edits[k].Choose?
    requires forall k :: 0 <= k < |edits| ==> edits[k] != Delete(ApplyAll(m, edits[..k]).currentSeq)
    ensures var r := ApplyAll(m, edits);
            r.items != [] && InRange(r) && r.items[r.currentSeq].name == m.items[m.currentSeq].name
  {
    hide Apply;
    if edits != [] {
      var front := edits[..|edits| - 1];
      forall k | 0 <= k < |front|
        ensures KeepsNames(front[k]) && !front[k].Choose? && front[k] != Delete(ApplyAll(m, front[..k]).currentSeq)
      {
        assert front[..k] == edits[..k] && front[k] == edits[k];
      }
      CurrentIsKept(m, front);
      EditKeepsCurrent(ApplyAll(m, front), edits[|edits| - 1]);
    }
  }

  /** Deleting the current item moves the pointer to the next one, or to the last. */
  lemma DeleteCurrent<T>(m: Model<T>)
    requires InRange(m) && |m.items| >= 2
    ensures var r := Deleted(m, m.currentSeq);
            r.items[r.currentSeq]
            == m.items[if m.currentSeq + 1 < |m.items| then m.currentSeq + 1 else m.currentSeq - 1]
  {
  }

  // ------------------------------------------------------------------------- wire

  datatype ItemModel = ItemModel(command: int, frame: int, params: Params, lat: real, lon: real, alt: Float,
                                 autocontinue: bool)

  function ItemFromWire(item: MissionItem): ItemModel {
    ItemModel(item.command, item.frame, item.params, ScaledToDeg(item.x), ScaledToDeg(item.y), item.z,
              item.autocontinue != 0)
  }

  function ItemToWire(item: ItemModel, seqNo: int, current: bool): MissionItem {
    MissionItem(seqNo, item.frame, item.command, if current then 1 else 0, if item.autocontinue then 1 else 0,
                item.params, DegToScaled(item.lat), DegToScaled(item.lon), item.alt)
  }

  const DEFAULT_ALT_M := Fin(50.0)
  const DEFAULT_MISSION_FRAME := 6

  /** The index of the first item flagged current, or the length. */
  function FirstCurrent(items: seq<MissionItem>): (i: nat)
    ensures i <= |items| && (i < |items| ==> items[i].current != 0)
    ensures forall k :: 0 <= k < i ==> items[k].current == 0
  {
    if items == [] || items[0].current != 0 then 0 else 1 + FirstCurrent(items[1..])
  }

  function MissionFromWire(kind: string, wire: seq<MissionItem>): Model<ItemModel> {
    var items := seq(|wire|, k requires 0 <= k < |wire| => ItemFromWire(wire[k]));
    var current := FirstCurrent(wire);
    Model(kind, items, if items == [] then DEFAULT_ALT_M else items[0].alt,
          if items == [] then DEFAULT_MISSION_FRAME else items[0].frame, if current < |wire| then current else 0)
  }

  function MissionToWire(m: Model<ItemModel>): (wire: seq<MissionItem>)
    ensures |wire| == |m.items|
  {
    var currentSeq := ClampItem(m.currentSeq, |m.items|);
    seq(|m.items|, k requires 0 <= k < |m.items| => ItemToWire(m.items[k], k, k == currentSeq))
  }

  /** The wire form of a mission with items flags exactly one as current, the one
      nearest the pointer, and numbers them by position. */
  lemma OneCurrent(m: Model<ItemModel>, i: nat)
    requires i < |m.items|
    ensures var w := MissionToWire(m)[i];
            && w.seqNo == i
            && (w.current != 0 <==> i == ClampItem(m.currentSeq, |m.items|))
  {
  }

  function SnapItem(item: ItemModel): ItemModel {
    item.(lat := ScaledToDeg(DegToScaled(item.lat)), lon := ScaledToDeg(DegToScaled(item.lon)))
  }

  ghost predicate ItemsOnGrid(items: seq<ItemModel>) {
    forall k :: 0 <= k < |items| ==> OnGrid(items[k].lat) && OnGrid(items[k].lon)
  }

  predicate DefaultsOfFirst(m: Model<ItemModel>) {
    && m.defaultAlt == (if m.items == [] then DEFAULT_ALT_M else m.items[0].alt)
    && m.defaultFrame == (if m.items == [] then DEFAULT_MISSION_FRAME else m.items[0].frame)
  }

  /** An empty mission is read with the defaults: 50 m in the frame relative to home. */
  lemma EmptyMission(kind: string)
    ensures MissionFromWire(kind, []) == Model(kind, [], Fin(50.0), 6, 0)
  {
  }

  /** The wire form maps back to the same items, on the grid, and to the pointer
      clamped; so to the same mission exactly when it was on the grid with its pointer
      in range and its defaults those of its first item. */
  lemma MissionRoundTrip(m: Model<ItemModel>)
    ensures var r := MissionFromWire(m.kind, MissionToWire(m));
            && |r.items| == |m.items| && (forall k :: 0 <= k < |m.items| ==> r.items[k] == SnapItem(m.items[k]))
            && r.currentSeq == (if m.items == [] then 0 else ClampItem(m.currentSeq, |m.items|))
    ensures MissionFromWire(m.kind, MissionToWire(m)) == m <==> InRange(m) && ItemsOnGrid(m.items) && DefaultsOfFirst(m)
  {
    hide Round;
    var w := MissionToWire(m);
    var r := MissionFromWire(m.kind, w);
    var first := FirstCurrent(w);
    if m.items != [] {
      var c := ClampItem(m.currentSeq, |m.items|);
      OneCurrent(m, c);
      if first < |w| { OneCurrent(m, first); }
      assert first == c;
    }
    if r == m {
      forall k | 0 <= k < |m.items| ensures OnGrid(m.items[k].lat) && OnGrid(m.items[k].lon) {
        assert r.items[k] == m.items[k];
      }
    }
    if ItemsOnGrid(m.items) {
      assert forall k :: 0 <= k < |m.items| ==> r.items[k] == m.items[k];
      assert r.items == m.items;
    }
  }

  /** Read and written again, wire items keep everything but their numbers and flags,
      which become positions and a single 1. */
  lemma WireRoundTrip(kind: string, wire: seq<MissionItem>, i: nat)
    requires i < |wire|
    ensures MissionToWire(MissionFromWire(kind, wire))[i]
            == wire[i].(seqNo := i, autocontinue := if wire[i].autocontinue != 0 then 1 else 0,
                        current := if i == (if FirstCurrent(wire) < |wire| then FirstCurrent(wire) else 0)
                                   then 1 else 0)
  {
    hide Round;
    ScaledRoundTrip(wire[i].x);
    ScaledRoundTrip(wire[i].y);
  }
}

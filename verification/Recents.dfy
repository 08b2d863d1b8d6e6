/** The recents list and its content cache (src/core/recents/store.ts).

    Store is the state of a recents store as a value: the list, newest first, and
    the blobs. Mutations run one after another, so each is one function of it. The
    class does the same in place. */
module Recents {
  import opened Text

  datatype Kind = Plan | Log | Tlog | Param

  datatype Entry = Entry(id: string, kind: Kind, name: string, openedAt: int, sizeBytes: nat, cached: bool)

  datatype Store = Store(entries: seq<Entry>, blobs: map<string, seq<Byte>>)

  /** A file to record, and what the environment supplies: a fresh id, the time,
      whether the content can be stored and which blobs cannot be deleted. */
  datatype Input = Input(kind: Kind, name: string, blob: seq<Byte>, id: string, now: int, putFails: bool,
                         delFails: set<string>)

  datatype Limits = Limits(maxEntries: nat, maxCacheBytes: nat)

  // ---------------------------------------------------------------- the mutations

  /** A blob that cannot be deleted stays. */
  function DropBlob(blobs: map<string, seq<Byte>>, id: string, delFails: set<string>): map<string, seq<Byte>> {
    if id in delFails then blobs else blobs - {id}
  }

  function DropAll(blobs: map<string, seq<Byte>>, entries: seq<Entry>, delFails: set<string>): map<string, seq<Byte>> {
    if entries == [] then blobs
    else DropBlob(DropAll(blobs, entries[..|entries| - 1], delFails), entries[|entries| - 1].id, delFails)
  }

  predicate Same(e: Entry, kind: Kind, name: string) { e.kind == kind && e.name == name }

  /** Array.prototype.filter. */
  function Filter(entries: seq<Entry>, keep: Entry -> bool): seq<Entry> {
    if entries == [] then []
    else
      var last := entries[|entries| - 1];
      Filter(entries[..|entries| - 1], keep) + (if keep(last) then [last] else [])
  }

  /** The entries with, or without, this kind and name. */
  function Matching(entries: seq<Entry>, kind: Kind, name: string, wanted: bool): seq<Entry> {
    Filter(entries, (e: Entry) => Same(e, kind, name) == wanted)
  }

  function WithoutId(entries: seq<Entry>, id: string): seq<Entry> {
    Filter(entries, (e: Entry) => e.id != id)
  }

  function CachedBytes(entries: seq<Entry>): nat {
    if entries == [] then 0
    else CachedBytes(entries[..|entries| - 1])
         + (if entries[|entries| - 1].cached then entries[|entries| - 1].sizeBytes else 0)
  }

  function Uncached(e: Entry): Entry { e.(cached := false) }

  /** Uncache from the i-th entry from the front backwards until the rest fits. */
  function Evict(s: Store, i: nat, budget: nat, delFails: set<string>): (r: Store)
    requires i <= |s.entries|
    ensures |r.entries| == |s.entries|
    decreases i
  {
    if i == 0 || CachedBytes(s.entries[..i]) <= budget then s
    else
      var e := s.entries[i - 1];
      Evict(if e.cached then Store(s.entries[i - 1 := Uncached(e)], DropBlob(s.blobs, e.id, delFails)) else s,
            i - 1, budget, delFails)
  }

  function Fit(s: Store, budget: nat, delFails: set<string>): (r: Store)
    ensures |r.entries| == |s.entries|
  {
    Evict(s, |s.entries|, budget, delFails)
  }

  function Trimmed(s: Store, maxEntries: nat, delFails: set<string>): Store {
    if |s.entries| <= maxEntries then s
    else Store(s.entries[..maxEntries], DropAll(s.blobs, s.entries[maxEntries..], delFails))
  }

  function NewEntry(input: Input, limits: Limits): Entry {
    Entry(input.id, input.kind, input.name, input.now, |input.blob|,
          0 < |input.blob| <= limits.maxCacheBytes && !input.putFails)
  }

  /** The list with the new entry in front of those of other names. */
  function Added(s: Store, input: Input, limits: Limits): Store {
    var e := NewEntry(input, limits);
    var blobs := DropAll(s.blobs, Matching(s.entries, input.kind, input.name, true), input.delFails);
    Store([e] + Matching(s.entries, input.kind, input.name, false),
          if e.cached then blobs[input.id := input.blob] else blobs)
  }

  function Record(s: Store, input: Input, limits: Limits): Store {
    Fit(Trimmed(Added(s, input, limits), limits.maxEntries, input.delFails), limits.maxCacheBytes, input.delFails)
  }

  function Find(entries: seq<Entry>, id: string): Option<Entry> {
    if entries == [] then None else if entries[0].id == id then Some(entries[0]) else Find(entries[1..], id)
  }

  /** What record returns. */
  function Returned(s: Store, input: Input, limits: Limits): Entry {
    var found := Find(Record(s, input, limits).entries, input.id);
    if found.Some? then found.value else NewEntry(input, limits)
  }

  function Remove(s: Store, id: string, delFails: set<string>): Store {
    if Find(s.entries, id).None? then s
    else Store(WithoutId(s.entries, id), DropBlob(s.blobs, id, delFails))
  }

  function Clear(s: Store, delFails: set<string>): Store {
    Store([], DropAll(s.blobs, s.entries, delFails))
  }

  function Open(s: Store, id: string): Option<(string, seq<Byte>)> {
    var e := Find(s.entries, id);
    if e.None? || !e.value.cached || id !in s.blobs then None else Some((e.value.name, s.blobs[id]))
  }

  class RecentsStore {
    const limits: Limits
    var entries: seq<Entry>
    var blobs: map<string, seq<Byte>>

    ghost function State(): Store
      reads this
    {
      Store(entries, blobs)
    }

    constructor (limits: Limits)
      ensures State() == Store([], map[]) && this.limits == limits
    {
      this.limits := limits;
      entries, blobs := [], map[];
    }

    method DropBlobs(dropped: seq<Entry>, delFails: set<string>)
      modifies this`blobs
      ensures blobs == DropAll(old(blobs), dropped, delFails)
    {
      for i := 0 to |dropped|
        invariant blobs == DropAll(old(blobs), dropped[..i], delFails)
      {
        blobs := DropBlob(blobs, dropped[i].id, delFails);
        assert dropped[..i + 1][..i] == dropped[..i];
      }
      assert dropped[..|dropped|] == dropped;
    }

    method RecordFile(input: Input) returns (r: Entry)
      modifies this
      ensures State() == Record(old(State()), input, limits)
      ensures r == Returned(old(State()), input, limits)
    {
      hide Fit, DropAll, Matching;
      DropBlobs(Matching(entries, input.kind, input.name, true), input.delFails);
      entries := Matching(entries, input.kind, input.name, false);
      var sizeBytes := |input.blob|;
      var cached := false;
      if sizeBytes > 0 && sizeBytes <= limits.maxCacheBytes && !input.putFails {
        blobs := blobs[input.id := input.blob];
        cached := true;
      }
      var entry := Entry(input.id, input.kind, input.name, input.now, sizeBytes, cached);
      entries := [entry] + entries;
      assert State() == Added(old(State()), input, limits);
      if |entries| > limits.maxEntries {
        DropBlobs(entries[limits.maxEntries..], input.delFails);
        entries := entries[..limits.maxEntries];
      }
      EnforceBudget(input.delFails);
      var found := Find(entries, input.id);
      r := if found.Some? then found.value else entry;
    }

    /** The eviction loop, from the last entry down. */
    method EnforceBudget(delFails: set<string>)
      modifies this
      ensures State() == Fit(old(State()), limits.maxCacheBytes, delFails)
    {
      var cachedTotal := CachedBytes(entries);
      var i := |entries|;
      assert entries[..i] == entries;
      while i > 0 && cachedTotal > limits.maxCacheBytes
        invariant i <= |entries| == |old(entries)| && cachedTotal == CachedBytes(entries[..i])
        invariant Evict(State(), i, limits.maxCacheBytes, delFails) == Fit(old(State()), limits.maxCacheBytes, delFails)
      {
        i := i - 1;
        ghost var front := entries[..i + 1];
        assert front[..i] == entries[..i];
        var e := entries[i];
        if e.cached {
          blobs := DropBlob(blobs, e.id, delFails);
          entries := entries[i := e.(cached := false)];
          cachedTotal := cachedTotal - e.sizeBytes;
          assert entries[..i] == front[..i];
        }
      }
    }

    method RemoveEntry(id: string, delFails: set<string>)
      modifies this
      ensures State() == Remove(old(State()), id, delFails)
    {
      if Find(entries, id).None? { return; }
      blobs := DropBlob(blobs, id, delFails);
      entries := WithoutId(entries, id);
    }

    method ClearAll(delFails: set<string>)
      modifies this
      ensures State() == Clear(old(State()), delFails)
    {
      DropBlobs(entries, delFails);
      entries := [];
    }

    method OpenEntry(id: string) returns (r: Option<(string, seq<Byte>)>)
      ensures r == Open(State(), id)
    {
      var e := Find(entries, id);
      if e.None? || !e.value.cached { return None; }
      r := if id in blobs then Some((e.value.name, blobs[id])) else None;
    }
  }

  // ------------------------------------------------------------------- invariants

  ghost predicate HasId(entries: seq<Entry>, id: string) {
    exists i :: 0 <= i < |entries| && entries[i].id == id
  }

  ghost predicate UniqueIds(entries: seq<Entry>) {
    forall i, j :: 0 <= i < j < |entries| ==> entries[i].id != entries[j].id
  }

  /** One entry for each kind and name. */
  ghost predicate UniqueNames(entries: seq<Entry>) {
    forall i, j :: 0 <= i < j < |entries| ==> !Same(entries[i], entries[j].kind, entries[j].name)
  }

  predicate BlobIs(blobs: map<string, seq<Byte>>, content: map<string, seq<Byte>>, e: Entry) {
    e.id in blobs && e.id in content && blobs[e.id] == content[e.id] && |content[e.id]| == e.sizeBytes
  }

  /** A cached entry's blob is what was recorded under its id. */
  ghost predicate Kept(s: Store, content: map<string, seq<Byte>>) {
    forall i :: 0 <= i < |s.entries| && s.entries[i].cached ==> BlobIs(s.blobs, content, s.entries[i])
  }

  /** No blob is left behind: each is that of a cached entry. */
  ghost predicate Tight(s: Store) {
    forall id :: id in s.blobs ==> CachedId(s.entries, id)
  }

  ghost predicate CachedId(entries: seq<Entry>, id: string) {
    exists i :: 0 <= i < |entries| && entries[i].id == id && entries[i].cached
  }

  ghost predicate Known(entries: seq<Entry>, content: map<string, seq<Byte>>) {
    forall i :: 0 <= i < |entries| ==> entries[i].id in content
  }

  /** What holds between mutations; content is everything recorded so far. */
  ghost predicate Valid(s: Store, limits: Limits, content: map<string, seq<Byte>>) {
    && |s.entries| <= limits.maxEntries
    && CachedBytes(s.entries) <= limits.maxCacheBytes
    && UniqueNames(s.entries) && UniqueIds(s.entries) && Known(s.entries, content)
    && Kept(s, content)
  }

  // --------------------------------------------------------------------- eviction

  /** Where eviction from the i-th entry backwards ends. */
  function EvictedTo(entries: seq<Entry>, i: nat, budget: nat): (j: nat)
    requires i <= |entries|
    ensures j <= i && CachedBytes(entries[..j]) <= budget
    ensures forall k :: j < k <= i ==> CachedBytes(entries[..k]) > budget
    decreases i
  {
    if i == 0 || CachedBytes(entries[..i]) <= budget then i else EvictedTo(entries, i - 1, budget)
  }

  lemma {:induction false} EvictedToSame(a: seq<Entry>, b: seq<Entry>, i: nat, budget: nat)
    requires i <= |a| && i <= |b| && a[..i] == b[..i]
    ensures EvictedTo(a, i, budget) == EvictedTo(b, i, budget)
    decreases i
  {
    hide CachedBytes;
    if i > 0 {
      assert a[..i - 1] == a[..i][..i - 1] && b[..i - 1] == b[..i][..i - 1];
      EvictedToSame(a, b, i - 1, budget);
    }
  }

  lemma {:induction false} EvictedAt(s: Store, i: nat, budget: nat, delFails: set<string>, k: nat)
    requires i <= |s.entries| && k < |s.entries|
    ensures Evict(s, i, budget, delFails).entries[k]
            == if EvictedTo(s.entries, i, budget) <= k < i then Uncached(s.entries[k]) else s.entries[k]
    decreases i
  {
    hide CachedBytes, DropBlob;
    if i > 0 && CachedBytes(s.entries[..i]) > budget {
      var e := s.entries[i - 1];
      var t := if e.cached then Store(s.entries[i - 1 := Uncached(e)], DropBlob(s.blobs, e.id, delFails)) else s;
      EvictedToSame(s.entries, t.entries, i - 1, budget);
      EvictedAt(t, i - 1, budget, delFails, k);
    }
  }

  /** The newest entries whose cached content fits stay as they are, as many of them
      as possible; the older ones are uncached. */
  lemma EvictsOldest(s: Store, i: nat, budget: nat, delFails: set<string>)
    requires i <= |s.entries|
    ensures var r, j := Evict(s, i, budget, delFails), EvictedTo(s.entries, i, budget);
            forall k :: 0 <= k < |s.entries| ==>
              r.entries[k] == if j <= k < i then Uncached(s.entries[k]) else s.entries[k]
  {
    hide Evict, EvictedTo;
    forall k | 0 <= k < |s.entries|
      ensures Evict(s, i, budget, delFails).entries[k]
              == if EvictedTo(s.entries, i, budget) <= k < i then Uncached(s.entries[k]) else s.entries[k]
    {
      EvictedAt(s, i, budget, delFails, k);
    }
  }

  lemma {:induction false} UncachedCounts(a: seq<Entry>, b: seq<Entry>)
    requires forall k :: 0 <= k < |b| ==> !b[k].cached
    ensures CachedBytes(a + b) == CachedBytes(a)
  {
    if b == [] {
      assert a + b == a;
    } else {
      assert (a + b)[..|a + b| - 1] == a + b[..|b| - 1];
      UncachedCounts(a, b[..|b| - 1]);
    }
  }

  /** Whatever the list was, its cached bytes now fit. */
  lemma FitFits(s: Store, budget: nat, delFails: set<string>)
    ensures CachedBytes(Fit(s, budget, delFails).entries) <= budget
  {
    var n := |s.entries|;
    var j := EvictedTo(s.entries, n, budget);
    EvictsOldest(s, n, budget, delFails);
    var r := Fit(s, budget, delFails).entries;
    assert r == s.entries[..j] + r[j..];
    UncachedCounts(s.entries[..j], r[j..]);
  }

  lemma {:induction false} EvictKeeps(s: Store, i: nat, budget: nat, delFails: set<string>,
                                     content: map<string, seq<Byte>>)
    requires i <= |s.entries| && UniqueIds(s.entries) && Kept(s, content)
    ensures Kept(Evict(s, i, budget, delFails), content)
    ensures Tight(s) && delFails == {} ==> Tight(Evict(s, i, budget, delFails))
    decreases i
  {
    hide CachedBytes, UniqueIds, Kept, Tight, DropBlob, Uncached;
    if i > 0 && CachedBytes(s.entries[..i]) > budget {
      var e := s.entries[i - 1];
      var t := if e.cached then Store(s.entries[i - 1 := Uncached(e)], DropBlob(s.blobs, e.id, delFails)) else s;
      if e.cached {
        UncacheKeeps(s, i - 1, delFails, content);
        if Tight(s) && delFails == {} { UncacheTightens(s, i - 1); }
      }
      EvictKeeps(t, i - 1, budget, delFails, content);
    }
  }

  lemma UncacheKeeps(s: Store, i: nat, delFails: set<string>, content: map<string, seq<Byte>>)
    requires i < |s.entries| && s.entries[i].cached && UniqueIds(s.entries) && Kept(s, content)
    ensures var e := s.entries[i];
            var t := Store(s.entries[i := Uncached(e)], DropBlob(s.blobs, e.id, delFails));
            UniqueIds(t.entries) && Kept(t, content)
  {
  }

  lemma UncacheTightens(s: Store, i: nat)
    requires i < |s.entries| && s.entries[i].cached && Tight(s)
    ensures var e := s.entries[i]; Tight(Store(s.entries[i := Uncached(e)], DropBlob(s.blobs, e.id, {})))
  {
    var e := s.entries[i];
    var t := Store(s.entries[i := Uncached(e)], DropBlob(s.blobs, e.id, {}));
    forall id | id in t.blobs ensures CachedId(t.entries, id) {
      assert CachedId(s.entries, id);
      var k :| 0 <= k < |s.entries| && s.entries[k].id == id && s.entries[k].cached;
      assert t.entries[k] == s.entries[k];
    }
  }

  // ------------------------------------------------------ dropping and filtering

  lemma {:induction false} DropAllIs(blobs: map<string, seq<Byte>>, entries: seq<Entry>, delFails: set<string>,
                                     id: string)
    ensures var r := DropAll(blobs, entries, delFails);
            && (id in r <==> id in blobs && (id in delFails || !HasId(entries, id)))
            && (id in r ==> r[id] == blobs[id])
  {
    if entries != [] {
      var front, last := entries[..|entries| - 1], entries[|entries| - 1];
      DropAllIs(blobs, front, delFails, id);
      if HasId(front, id) {
        var k :| 0 <= k < |front| && front[k].id == id;
        assert entries[k].id == id;
      }
      if last.id == id { assert entries[|entries| - 1].id == id; }
      if HasId(entries, id) && last.id != id {
        var k :| 0 <= k < |entries| && entries[k].id == id;
        assert front[k].id == id;
      }
    }
  }

  /** r picks some entries of s, in order. */
  ghost predicate Picks(r: seq<Entry>, s: seq<Entry>, at: seq<nat>) {
    && |at| == |r| && (forall k :: 0 <= k < |r| ==> at[k] < |s| && r[k] == s[at[k]])
    && (forall j, k :: 0 <= j < k < |r| ==> at[j] < at[k])
  }

  /** A filter picks exactly the entries to keep. */
  lemma {:induction false} FilterPicks(entries: seq<Entry>, keep: Entry -> bool) returns (at: seq<nat>)
    ensures Picks(Filter(entries, keep), entries, at)
    ensures forall k :: 0 <= k < |at| ==> keep(entries[at[k]])
    ensures forall i :: 0 <= i < |entries| && keep(entries[i]) ==> i in at
  {
    at := [];
    if entries != [] {
      var n := |entries| - 1;
      at := FilterPicks(entries[..n], keep);
      if keep(entries[n]) { at := at + [n]; }
    }
  }

  lemma PicksKeeps(r: seq<Entry>, s: seq<Entry>, at: seq<nat>, content: map<string, seq<Byte>>)
    requires Picks(r, s, at) && UniqueIds(s) && UniqueNames(s) && Known(s, content)
    ensures UniqueIds(r) && UniqueNames(r) && Known(r, content) && |r| <= |s|
  {
    if |r| > |s| { RisingFits(at, |s|); }
  }

  lemma {:induction false} RisingFits(at: seq<nat>, n: nat)
    requires (forall k :: 0 <= k < |at| ==> at[k] < n) && forall j, k :: 0 <= j < k < |at| ==> at[j] < at[k]
    ensures |at| <= n
  {
    if at != [] { RisingFits(at[..|at| - 1], at[|at| - 1]); }
  }

  lemma {:induction false} PicksBytes(r: seq<Entry>, s: seq<Entry>, at: seq<nat>)
    requires Picks(r, s, at)
    ensures CachedBytes(r) <= CachedBytes(s)
    decreases |s|
  {
    if s != [] && r != [] {
      var front := s[..|s| - 1];
      if at[|at| - 1] == |s| - 1 {
        PicksBytes(r[..|r| - 1], front, at[..|at| - 1]);
      } else {
        PicksBytes(r, front, at);
      }
    }
  }

  /** Keeping some entries and dropping the blobs of the others. */
  ghost predicate Splits(entries: seq<Entry>, kept: seq<Entry>, dropped: seq<Entry>, here: seq<nat>, there: seq<nat>) {
    && Picks(kept, entries, here) && Picks(dropped, entries, there)
    && (forall j, k :: 0 <= j < |here| && 0 <= k < |there| ==> here[j] != there[k])
    && (forall i :: 0 <= i < |entries| ==> i in here || i in there)
  }

  lemma KeptOnDrop(s: Store, kept: seq<Entry>, dropped: seq<Entry>, here: seq<nat>, there: seq<nat>,
                   delFails: set<string>, content: map<string, seq<Byte>>)
    requires Splits(s.entries, kept, dropped, here, there) && UniqueIds(s.entries) && Kept(s, content)
    ensures Kept(Store(kept, DropAll(s.blobs, dropped, delFails)), content)
  {
    hide DropAll;
    forall k | 0 <= k < |kept| && kept[k].cached ensures BlobIs(DropAll(s.blobs, dropped, delFails), content, kept[k]) {
      var e := kept[k];
      assert e == s.entries[here[k]];
      DropAllIs(s.blobs, dropped, delFails, e.id);
      forall j | 0 <= j < |dropped| ensures dropped[j].id != e.id {
        assert here[k] != there[j] && dropped[j] == s.entries[there[j]];
      }
    }
  }

  lemma TightOnDrop(s: Store, kept: seq<Entry>, dropped: seq<Entry>, here: seq<nat>, there: seq<nat>)
    requires Splits(s.entries, kept, dropped, here, there) && Tight(s)
    ensures Tight(Store(kept, DropAll(s.blobs, dropped, {})))
  {
    hide DropAll;
    var blobs := DropAll(s.blobs, dropped, {});
    forall id | id in blobs ensures CachedId(kept, id) {
      DropAllIs(s.blobs, dropped, {}, id);
      assert CachedId(s.entries, id);
      var i :| 0 <= i < |s.entries| && s.entries[i].id == id && s.entries[i].cached;
      forall k | 0 <= k < |there| ensures there[k] != i {
        assert dropped[k] == s.entries[there[k]] && dropped[k].id != id;
      }
      assert i !in there && i in here;
      var k :| 0 <= k < |here| && here[k] == i;
      assert kept[k] == s.entries[i];
    }
  }

  /** Dropping the entries of this kind and name. */
  lemma MatchingSplits(entries: seq<Entry>, kind: Kind, name: string) returns (here: seq<nat>, there: seq<nat>)
    ensures Splits(entries, Matching(entries, kind, name, false), Matching(entries, kind, name, true), here, there)
  {
    here := FilterPicks(entries, (e: Entry) => Same(e, kind, name) == false);
    there := FilterPicks(entries, (e: Entry) => Same(e, kind, name) == true);
  }

  lemma PrefixSplits(entries: seq<Entry>, n: nat) returns (here: seq<nat>, there: seq<nat>)
    requires n <= |entries|
    ensures Splits(entries, entries[..n], entries[n..], here, there)
  {
    here := seq(n, k => k);
    there := seq(|entries| - n, k requires 0 <= k < |entries| - n => n + k);
    forall i | 0 <= i < |entries| ensures i in here || i in there {
      assert if i < n then here[i] == i else there[i - n] == i;
    }
  }

  lemma AddedKeeps(s: Store, input: Input, limits: Limits, content: map<string, seq<Byte>>)
    requires UniqueNames(s.entries) && UniqueIds(s.entries) && Known(s.entries, content) && Kept(s, content)
    requires input.id !in content
    ensures var t, more := Added(s, input, limits), content[input.id := input.blob];
            && UniqueNames(t.entries) && UniqueIds(t.entries) && Known(t.entries, more) && Kept(t, more)
            && (Tight(s) && input.delFails == {} ==> Tight(t))
  {
    hide DropAll, Filter;
    var here, there := MatchingSplits(s.entries, input.kind, input.name);
    var kept := Matching(s.entries, input.kind, input.name, false);
    var dropped := Matching(s.entries, input.kind, input.name, true);
    var at := FilterPicks(s.entries, (e: Entry) => Same(e, input.kind, input.name) == false);
    assert forall k :: 0 <= k < |kept| ==> !Same(kept[k], input.kind, input.name);
    PicksKeeps(kept, s.entries, here, content);
    KeptOnDrop(s, kept, dropped, here, there, input.delFails, content);
    if Tight(s) && input.delFails == {} { TightOnDrop(s, kept, dropped, here, there); }
    hide Matching;
    PutInFront(Store(kept, DropAll(s.blobs, dropped, input.delFails)), input, limits, content);
  }

  lemma PutInFront(s: Store, input: Input, limits: Limits, content: map<string, seq<Byte>>)
    requires UniqueNames(s.entries) && UniqueIds(s.entries) && Known(s.entries, content) && Kept(s, content)
    requires input.id !in content && forall k :: 0 <= k < |s.entries| ==> !Same(s.entries[k], input.kind, input.name)
    ensures var e, more := NewEntry(input, limits), content[input.id := input.blob];
            var t := Store([e] + s.entries, if e.cached then s.blobs[input.id := input.blob] else s.blobs);
            && UniqueNames(t.entries) && UniqueIds(t.entries) && Known(t.entries, more) && Kept(t, more)
            && (Tight(s) ==> Tight(t))
  {
    var e, more := NewEntry(input, limits), content[input.id := input.blob];
    var t := Store([e] + s.entries, if e.cached then s.blobs[input.id := input.blob] else s.blobs);
    forall k | 0 <= k < |t.entries| && t.entries[k].cached ensures BlobIs(t.blobs, more, t.entries[k]) {
      if k > 0 { assert BlobIs(s.blobs, content, s.entries[k - 1]); }
    }
    if Tight(s) { TightInFront(s, e, input.blob); }
  }

  lemma TightInFront(s: Store, e: Entry, blob: seq<Byte>)
    requires Tight(s)
    ensures Tight(Store([e] + s.entries, if e.cached then s.blobs[e.id := blob] else s.blobs))
  {
    var t := Store([e] + s.entries, if e.cached then s.blobs[e.id := blob] else s.blobs);
    forall id | id in t.blobs ensures CachedId(t.entries, id) {
      if id == e.id && e.cached {
        assert t.entries[0].id == id;
      } else {
        assert CachedId(s.entries, id);
        var k :| 0 <= k < |s.entries| && s.entries[k].id == id && s.entries[k].cached;
        assert t.entries[k + 1] == s.entries[k];
      }
    }
  }

  lemma TrimmedKeeps(s: Store, maxEntries: nat, delFails: set<string>, content: map<string, seq<Byte>>)
    requires UniqueNames(s.entries) && UniqueIds(s.entries) && Known(s.entries, content) && Kept(s, content)
    ensures var t := Trimmed(s, maxEntries, delFails);
            && UniqueNames(t.entries) && UniqueIds(t.entries) && Known(t.entries, content) && Kept(t, content)
            && |t.entries| <= maxEntries && t.entries <= s.entries && (|s.entries| <= maxEntries ==> t == s)
            && (Tight(s) && delFails == {} ==> Tight(t))
  {
    hide DropAll;
    if |s.entries| > maxEntries {
      var kept, dropped := s.entries[..maxEntries], s.entries[maxEntries..];
      var here, there := PrefixSplits(s.entries, maxEntries);
      PicksKeeps(kept, s.entries, here, content);
      KeptOnDrop(s, kept, dropped, here, there, delFails, content);
      if Tight(s) && delFails == {} { TightOnDrop(s, kept, dropped, here, there); }
    }
  }

  lemma FitKeeps(s: Store, budget: nat, delFails: set<string>, content: map<string, seq<Byte>>)
    requires UniqueNames(s.entries) && UniqueIds(s.entries) && Known(s.entries, content) && Kept(s, content)
    ensures var t := Fit(s, budget, delFails);
            && UniqueNames(t.entries) && UniqueIds(t.entries) && Known(t.entries, content) && Kept(t, content)
            && (Tight(s) && delFails == {} ==> Tight(t))
  {
    hide Evict, CachedBytes;
    var n := |s.entries|;
    EvictsOldest(s, n, budget, delFails);
    EvictKeeps(s, n, budget, delFails, content);
  }

  /** After a record the list is within both limits whatever it was before, holds one
      entry of each kind and name, and every cached entry has what was recorded; no
      blob is left behind unless one could not be deleted. */
  lemma RecordKeeps(s: Store, input: Input, limits: Limits, content: map<string, seq<Byte>>)
    requires UniqueNames(s.entries) && UniqueIds(s.entries) && Known(s.entries, content) && Kept(s, content)
    requires input.id !in content
    ensures Valid(Record(s, input, limits), limits, content[input.id := input.blob])
    ensures Tight(s) && input.delFails == {} ==> Tight(Record(s, input, limits))
  {
    hide Added, Trimmed, Fit, CachedBytes, Kept, Tight, UniqueIds, UniqueNames, Known;
    var more := content[input.id := input.blob];
    AddedKeeps(s, input, limits, content);
    var t := Added(s, input, limits);
    TrimmedKeeps(t, limits.maxEntries, input.delFails, more);
    var u := Trimmed(t, limits.maxEntries, input.delFails);
    FitKeeps(u, limits.maxCacheBytes, input.delFails, more);
    FitFits(u, limits.maxCacheBytes, input.delFails);
  }

  // ----------------------------------------------------------------- main results

  /** record never evicts the entry it has just added: it is in front with its
      content, as returned, exactly when any entry may be kept. */
  lemma NewEntrySurvives(s: Store, input: Input, limits: Limits)
    ensures var t, e := Record(s, input, limits), NewEntry(input, limits);
            && Returned(s, input, limits) == e
            && (t.entries != [] && t.entries[0] == e <==> limits.maxEntries >= 1)
            && (limits.maxEntries == 0 ==> t.entries == [])
  {
    var t := Added(s, input, limits);
    var u := Trimmed(t, limits.maxEntries, input.delFails);
    var n := |u.entries|;
    if limits.maxEntries >= 1 {
      assert u.entries[0] == t.entries[0];
      assert u.entries[..1] == [u.entries[0]];
      assert CachedBytes(u.entries[..1]) == CachedBytes([u.entries[0]][..0]) + CachedBytes(u.entries[..1]);
      EvictsOldest(u, n, limits.maxCacheBytes, input.delFails);
      assert EvictedTo(u.entries, n, limits.maxCacheBytes) >= 1;
    }
  }

  /** The cached content of an entry comes back as it was recorded. */
  lemma OpenGivesRecorded(s: Store, limits: Limits, content: map<string, seq<Byte>>, i: nat)
    requires Valid(s, limits, content) && i < |s.entries|
    ensures Open(s, s.entries[i].id)
            == if s.entries[i].cached then Some((s.entries[i].name, content[s.entries[i].id])) else None
  {
    FindAt(s.entries, i);
    assert s.entries[i].cached ==> BlobIs(s.blobs, content, s.entries[i]);
  }

  lemma {:induction false} FindAt(entries: seq<Entry>, i: nat)
    requires i < |entries| && UniqueIds(entries)
    ensures Find(entries, entries[i].id) == Some(entries[i])
  {
    if i > 0 { FindAt(entries[1..], i - 1); }
  }

  datatype Op = Records(input: Input) | Removes(id: string, delFails: set<string>) | Clears(delFails: set<string>)

  function Do(s: Store, op: Op, limits: Limits): Store {
    match op
    case Records(input) => Record(s, input, limits)
    case Removes(id, delFails) => Remove(s, id, delFails)
    case Clears(delFails) => Clear(s, delFails)
  }

  /** A run of mutations: the store, and all that was recorded. Ids are fresh. */
  function Run(ops: seq<Op>, limits: Limits): (Store, map<string, seq<Byte>>) {
    if ops == [] then (Store([], map[]), map[])
    else
      var (s, content) := Run(ops[..|ops| - 1], limits);
      var op := ops[|ops| - 1];
      (Do(s, op, limits), if op.Records? then content[op.input.id := op.input.blob] else content)
  }

  predicate FreshIds(ops: seq<Op>) {
    forall i, j :: 0 <= i < j < |ops| && ops[i].Records? && ops[j].Records? ==> ops[i].input.id != ops[j].input.id
  }

  predicate DeletesSucceed(op: Op) {
    match op
    case Records(input) => input.delFails == {}
    case Removes(_, delFails) => delFails == {}
    case Clears(delFails) => delFails == {}
  }

  lemma {:induction false} RunContent(ops: seq<Op>, limits: Limits, id: string)
    ensures id in Run(ops, limits).1 <==> exists i :: 0 <= i < |ops| && ops[i].Records? && ops[i].input.id == id
  {
    if ops != [] {
      var front := ops[..|ops| - 1];
      RunContent(front, limits, id);
      if id in Run(front, limits).1 {
        var i :| 0 <= i < |front| && front[i].Records? && front[i].input.id == id;
        assert ops[i] == front[i];
      }
      if i :| 0 <= i < |ops| && ops[i].Records? && ops[i].input.id == id {
        assert i < |front| ==> front[i] == ops[i];
      }
    }
  }

  lemma RemoveKeeps(s: Store, id: string, delFails: set<string>, limits: Limits, content: map<string, seq<Byte>>)
    requires Valid(s, limits, content)
    ensures Valid(Remove(s, id, delFails), limits, content)
    ensures Tight(s) && delFails == {} ==> Tight(Remove(s, id, delFails))
  {
    hide CachedBytes, Filter;
    var at := FilterPicks(s.entries, (e: Entry) => e.id != id);
    var kept := WithoutId(s.entries, id);
    assert Picks(kept, s.entries, at);
    PicksKeeps(kept, s.entries, at, content);
    PicksBytes(kept, s.entries, at);
    var t := Remove(s, id, delFails);
    if Find(s.entries, id).Some? {
      forall k | 0 <= k < |kept| && kept[k].cached ensures BlobIs(t.blobs, content, kept[k]) {
        assert BlobIs(s.blobs, content, s.entries[at[k]]);
      }
      if Tight(s) && delFails == {} {
        forall other | other in t.blobs ensures CachedId(kept, other) {
          assert CachedId(s.entries, other);
          var i :| 0 <= i < |s.entries| && s.entries[i].id == other && s.entries[i].cached;
          assert i in at;
          var k :| 0 <= k < |at| && at[k] == i;
          assert kept[k] == s.entries[i];
        }
      }
    }
  }

  lemma ClearKeeps(s: Store, delFails: set<string>, limits: Limits, content: map<string, seq<Byte>>)
    ensures Valid(Clear(s, delFails), limits, content)
    ensures Tight(s) && delFails == {} ==> Tight(Clear(s, delFails))
  {
    if Tight(s) && delFails == {} {
      forall id | id in s.blobs ensures id !in DropAll(s.blobs, s.entries, {}) {
        DropAllIs(s.blobs, s.entries, {}, id);
        assert CachedId(s.entries, id);
      }
      forall id ensures id in DropAll(s.blobs, s.entries, {}) ==> id in s.blobs {
        DropAllIs(s.blobs, s.entries, {}, id);
      }
    }
  }

  /** After every run of mutations with fresh ids the list is within its limits, of
      distinct names, and caches what was recorded; and if blobs could be deleted, the
      blob store holds the cached entries' blobs and no others. */
  lemma {:induction false} AlwaysValid(ops: seq<Op>, limits: Limits)
    requires FreshIds(ops)
    ensures Valid(Run(ops, limits).0, limits, Run(ops, limits).1)
    ensures (forall i :: 0 <= i < |ops| ==> DeletesSucceed(ops[i])) ==> Tight(Run(ops, limits).0)
  {
    if ops != [] {
      hide Record, Remove, Clear, Valid, Tight;
      var front, op := ops[..|ops| - 1], ops[|ops| - 1];
      AlwaysValid(front, limits);
      var (s, content) := Run(front, limits);
      assert (forall i :: 0 <= i < |ops| ==> DeletesSucceed(ops[i])) ==>
          forall i :: 0 <= i < |front| ==> front[i] == ops[i] && DeletesSucceed(front[i]);
      match op
      case Records(input) =>
        RunContent(front, limits, input.id);
        assert forall i :: 0 <= i < |front| ==> front[i] == ops[i];
        ValidParts(s, limits, content);
        RecordKeeps(s, input, limits, content);
      case Removes(id, delFails) => RemoveKeeps(s, id, delFails, limits, content);
      case Clears(delFails) => ClearKeeps(s, delFails, limits, content);
    }
  }

  lemma ValidParts(s: Store, limits: Limits, content: map<string, seq<Byte>>)
    requires Valid(s, limits, content)
    ensures UniqueNames(s.entries) && UniqueIds(s.entries) && Known(s.entries, content) && Kept(s, content)
  {
  }
}

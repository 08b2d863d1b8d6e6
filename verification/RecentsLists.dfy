/** What a mutation does to the recents list, entry by entry. */
module RecentsLists {
  import opened Recents

  /** at lists just the positions in s of the entries r, in order. */
  ghost predicate Positions(s: seq<Entry>, at: seq<nat>, wanted: Entry -> bool) {
    && (forall k :: 0 <= k < |at| ==> at[k] < |s| && wanted(s[at[k]]))
    && (forall j, k :: 0 <= j < k < |at| ==> at[j] < at[k])
    && (forall i :: 0 <= i < |s| && wanted(s[i]) ==> i in at)
  }

  /** The first cut entries of full stay; those after them are there without content. */
  ghost predicate CutAt(r: seq<Entry>, full: seq<Entry>, cut: nat) {
    && |r| == |full| && cut <= |r|
    && (forall k :: 0 <= k < cut ==> r[k] == full[k])
    && (forall k :: cut <= k < |r| ==> r[k] == full[k].(cached := false))
  }

  /** The bytes counted against the budget are those of the cached entries. */
  lemma {:induction false} BytesAdd(a: seq<Entry>, b: seq<Entry>)
    ensures CachedBytes(a + b) == CachedBytes(a) + CachedBytes(b)
    ensures forall e: Entry :: CachedBytes([e]) == if e.cached then e.sizeBytes else 0
  {
    forall e: Entry ensures CachedBytes([e]) == if e.cached then e.sizeBytes else 0 {
      assert [e][..0] == [] && CachedBytes([e]) == CachedBytes([e][..0]) + if e.cached then e.sizeBytes else 0;
    }
    if b == [] {
      assert a + b == a;
    } else {
      BytesAdd(a, b[..|b| - 1]);
      assert (a + b)[..|a + b| - 1] == a + b[..|b| - 1];
    }
  }

  /** The list after a record: the new entry in front, then every entry of another kind
      or name in its order, as many as there may be; the first of them as they were, as
      many as fit the cache budget, and the rest without their content. */
  lemma RecordedList(s: Store, input: Input, limits: Limits) returns (at: seq<nat>, full: seq<Entry>, cut: nat)
    ensures Positions(s.entries, at, (e: Entry) => e.kind != input.kind || e.name != input.name)
    ensures |full| == if 1 + |at| <= limits.maxEntries then 1 + |at| else limits.maxEntries
    ensures full != [] ==>
              full[0] == Entry(input.id, input.kind, input.name, input.now, |input.blob|,
                               0 < |input.blob| <= limits.maxCacheBytes && !input.putFails)
    ensures forall k :: 1 <= k < |full| ==> full[k] == s.entries[at[k - 1]]
    ensures CutAt(Record(s, input, limits).entries, full, cut)
    ensures CachedBytes(full[..cut]) <= limits.maxCacheBytes
    ensures forall k :: cut < k <= |full| ==> CachedBytes(full[..k]) > limits.maxCacheBytes
  {
    hide Filter, DropAll, CachedBytes, Evict, EvictedTo;
    at := FilterPicks(s.entries, (e: Entry) => Same(e, input.kind, input.name) == false);
    var added := Added(s, input, limits);
    var kept := Trimmed(added, limits.maxEntries, input.delFails);
    full := kept.entries;
    cut := EvictedTo(full, |full|, limits.maxCacheBytes);
    EvictsOldest(kept, |full|, limits.maxCacheBytes, input.delFails);
  }

  /** After a remove the entry is gone, with its content if that can be deleted; all
      other entries are there in their order, and all other content. */
  lemma RemovedList(s: Store, id: string, delFails: set<string>) returns (at: seq<nat>)
    ensures Positions(s.entries, at, (e: Entry) => e.id != id)
    ensures var t := Remove(s, id, delFails);
            && |t.entries| == |at| && (forall k :: 0 <= k < |at| ==> t.entries[k] == s.entries[at[k]])
            && (forall k :: 0 <= k < |t.entries| ==> t.entries[k].id != id)
            && (forall other :: other != id ==>
                                  (other in t.blobs <==> other in s.blobs)
                                  && (other in s.blobs ==> t.blobs[other] == s.blobs[other]))
            && (|at| < |s.entries| ==> (id in t.blobs <==> id in s.blobs && id in delFails))
  {
    hide Filter;
    at := FilterPicks(s.entries, (e: Entry) => e.id != id);
    if Find(s.entries, id).None? {
      NotFound(s.entries, id);
      at := Upto(|s.entries|);
      AllPositions(s.entries, at, (e: Entry) => e.id != id);
    } else {
      FoundIsThere(s.entries, id);
    }
  }

  lemma AllPositions(s: seq<Entry>, at: seq<nat>, wanted: Entry -> bool)
    requires at == Upto(|s|) && forall k :: 0 <= k < |s| ==> wanted(s[k])
    ensures Positions(s, at, wanted)
  {
    forall i: nat | i < |s| ensures i in at { assert at[i] == i; }
  }

  function Upto(n: nat): (r: seq<nat>)
    ensures |r| == n && forall k :: 0 <= k < n ==> r[k] == k
  {
    seq(n, k requires 0 <= k < n => k)
  }

  lemma {:induction false} NotFound(entries: seq<Entry>, id: string)
    requires Find(entries, id).None?
    ensures forall k :: 0 <= k < |entries| ==> entries[k].id != id
  {
    if entries != [] { NotFound(entries[1..], id); }
  }

  lemma FoundIsThere(entries: seq<Entry>, id: string)
    requires Find(entries, id).Some?
    ensures exists k :: 0 <= k < |entries| && entries[k].id == id
  {
    if forall k :: 0 <= k < |entries| ==> entries[k].id != id { AllOthers(entries, id); }
  }

  lemma {:induction false} AllOthers(entries: seq<Entry>, id: string)
    requires forall k :: 0 <= k < |entries| ==> entries[k].id != id
    ensures Find(entries, id).None?
  {
    if entries != [] { AllOthers(entries[1..], id); }
  }
}

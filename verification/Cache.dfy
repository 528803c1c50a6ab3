/** The byte-bounded least-recently-used result cache (src/query/cache.cpp). */
module ResultCache {
  import opened Basics
  import opened TopK
  import opened Searching

  datatype CacheKey = CacheKey(generation: nat, schema: string, plan: string, topK: nat, scoring: string)
  datatype Entry = Entry(key: CacheKey, result: SearchResult, bytes: nat)

  /** Sizes of the fixed parts of an entry and of a hit. */
  datatype Sizes = Sizes(entry: nat, hit: nat)

  function HitBytes(sizes: Sizes, hits: seq<Scored>): nat {
    if hits == [] then 0 else HitBytes(sizes, hits[..|hits| - 1]) + sizes.hit + |hits[|hits| - 1].id|
  }

  /** What an entry is charged. */
  function Measure(sizes: Sizes, key: CacheKey, result: SearchResult): nat {
    sizes.entry + |key.schema| + |key.plan| + |key.scoring| + HitBytes(sizes, result.hits)
  }

  function Total(entries: seq<Entry>): nat {
    if entries == [] then 0 else Total(entries[..|entries| - 1]) + entries[|entries| - 1].bytes
  }

  lemma {:induction false} TotalOfConcat(a: seq<Entry>, b: seq<Entry>)
    ensures Total(a + b) == Total(a) + Total(b)
    decreases |b|
  {
    if b == [] {
      assert a + b == a;
    } else {
      TotalOfConcat(a, b[..|b| - 1]);
      assert (a + b)[..|a + b| - 1] == a + b[..|b| - 1];
    }
  }

  lemma TotalOfOne(e: Entry)
    ensures Total([e]) == e.bytes
  {
    assert [e][..0] == [];
    assert Total([]) == 0;
  }

  // ---- lists of entries ----

  ghost predicate DistinctKeys(entries: seq<Entry>) {
    forall i, j :: 0 <= i < j < |entries| ==> entries[i].key != entries[j].key
  }

  function Keys(entries: seq<Entry>): set<CacheKey> {
    set i | 0 <= i < |entries| :: entries[i].key
  }

  /** The list without the entry of a key. */
  function Without(entries: seq<Entry>, key: CacheKey): seq<Entry> {
    if entries == [] then []
    else
      var n := |entries| - 1;
      Without(entries[..n], key) + if entries[n].key == key then [] else [entries[n]]
  }

  lemma {:induction false} WithoutAre(entries: seq<Entry>, key: CacheKey)
    ensures forall e :: e in Without(entries, key) <==> e in entries && e.key != key
    ensures DistinctKeys(entries) ==> DistinctKeys(Without(entries, key))
  {
    if entries != [] {
      var n := |entries| - 1;
      WithoutAre(entries[..n], key);
      assert entries == entries[..n] + [entries[n]];
      if DistinctKeys(entries) && entries[n].key != key {
        var head := Without(entries[..n], key);
        forall i | 0 <= i < |head| ensures head[i].key != entries[n].key {
          assert head[i] in head;
          var k :| 0 <= k < n && entries[k] == head[i];
        }
      }
    }
  }

  lemma {:induction false} WithoutAt(entries: seq<Entry>, i: nat)
    requires DistinctKeys(entries) && i < |entries|
    ensures Without(entries, entries[i].key) == entries[..i] + entries[i + 1..]
    ensures Total(Without(entries, entries[i].key)) + entries[i].bytes == Total(entries)
  {
    var n, key := |entries| - 1, entries[i].key;
    var rest := entries[..i] + entries[i + 1..];
    if i == n {
      WithoutAbsent(entries[..n], key);
      assert rest == entries[..n];
    } else {
      WithoutAt(entries[..n], i);
      assert rest == (entries[..n][..i] + entries[..n][i + 1..]) + [entries[n]];
      assert rest[..n - 1] == Without(entries[..n], key);
    }
  }

  lemma {:induction false} WithoutAbsent(entries: seq<Entry>, key: CacheKey)
    requires forall i :: 0 <= i < |entries| ==> entries[i].key != key
    ensures Without(entries, key) == entries
  {
    if entries != [] {
      WithoutAbsent(entries[..|entries| - 1], key);
      assert entries == entries[..|entries| - 1] + [entries[|entries| - 1]];
    }
  }

  /** The longest prefix within the bound. */
  function Fitting(entries: seq<Entry>, bound: nat): (r: seq<Entry>)
    ensures Total(r) <= bound && r <= entries
    decreases |entries|
  {
    if Total(entries) <= bound then entries else Fitting(entries[..|entries| - 1], bound)
  }

  /** Eviction takes the shortest possible tail: one entry less would still be too much. */
  lemma {:induction false} FittingIsLongest(entries: seq<Entry>, bound: nat, n: nat)
    requires |Fitting(entries, bound)| < n <= |entries|
    ensures Total(entries[..n]) > bound
    decreases |entries|
  {
    var last := |entries| - 1;
    if n == |entries| {
      assert entries[..n] == entries;
    } else {
      FittingIsLongest(entries[..last], bound, n);
      assert entries[..last][..n] == entries[..n];
    }
  }

  /** The entry in front stays when it fits on its own. */
  lemma {:induction false} FrontStays(entries: seq<Entry>, bound: nat)
    requires entries != [] && entries[0].bytes <= bound
    ensures Fitting(entries, bound) != [] && Fitting(entries, bound)[0] == entries[0]
    decreases |entries|
  {
    if |entries| == 1 {
      assert entries == [entries[0]];
      TotalOfOne(entries[0]);
    } else if Total(entries) > bound {
      FrontStays(entries[..|entries| - 1], bound);
    }
  }

  /** The entries not older than a generation. */
  function Since(entries: seq<Entry>, generation: nat): seq<Entry> {
    if entries == [] then []
    else
      var n := |entries| - 1;
      Since(entries[..n], generation) + if entries[n].key.generation < generation then [] else [entries[n]]
  }

  // ---- what a list and a lookup table have to agree on ----

  ghost predicate Indexed(entries: seq<Entry>, lookup: map<CacheKey, Entry>) {
    && (forall i :: 0 <= i < |entries| ==> entries[i].key in lookup && lookup[entries[i].key] == entries[i])
    && (forall key :: key in lookup ==> exists i :: 0 <= i < |entries| && entries[i].key == key)
  }

  ghost predicate Faithful(entries: seq<Entry>, stored: map<CacheKey, SearchResult>) {
    forall i :: 0 <= i < |entries| ==> entries[i].key in stored && stored[entries[i].key] == entries[i].result
  }

  lemma IndexWithout(entries: seq<Entry>, lookup: map<CacheKey, Entry>, key: CacheKey)
    requires DistinctKeys(entries) && Indexed(entries, lookup)
    ensures Indexed(Without(entries, key), lookup - {key})
  {
    var rest := Without(entries, key);
    WithoutAre(entries, key);
    forall i | 0 <= i < |rest| ensures rest[i].key in lookup - {key} && (lookup - {key})[rest[i].key] == rest[i] {
      assert rest[i] in rest;
      var k :| 0 <= k < |entries| && entries[k] == rest[i];
    }
    forall other | other in lookup - {key} ensures exists i :: 0 <= i < |rest| && rest[i].key == other {
      var k :| 0 <= k < |entries| && entries[k].key == other;
      assert entries[k] in rest;
      var i :| 0 <= i < |rest| && rest[i] == entries[k];
    }
  }

  lemma IndexFront(entries: seq<Entry>, lookup: map<CacheKey, Entry>, e: Entry)
    requires Indexed(entries, lookup) && e.key !in lookup
    ensures Indexed([e] + entries, lookup[e.key := e]) && (DistinctKeys(entries) ==> DistinctKeys([e] + entries))
  {
    var all, table := [e] + entries, lookup[e.key := e];
    forall i | 0 <= i < |all| ensures all[i].key in table && table[all[i].key] == all[i] {
      if i > 0 { assert all[i] == entries[i - 1]; }
    }
    forall key | key in table ensures exists i :: 0 <= i < |all| && all[i].key == key {
      if key == e.key {
        assert all[0].key == key;
      } else {
        var i :| 0 <= i < |entries| && entries[i].key == key;
        assert all[i + 1].key == key;
      }
    }
  }

  lemma IndexLast(entries: seq<Entry>, lookup: map<CacheKey, Entry>)
    requires entries != [] && DistinctKeys(entries) && Indexed(entries, lookup)
    ensures Indexed(entries[..|entries| - 1], lookup - {entries[|entries| - 1].key})
    ensures DistinctKeys(entries[..|entries| - 1])
  {
    var n := |entries| - 1;
    WithoutAt(entries, n);
    assert entries[..n] + entries[n + 1..] == entries[..n];
    IndexWithout(entries, lookup, entries[n].key);
  }

  lemma FaithfulMembers(entries: seq<Entry>, some: seq<Entry>, stored: map<CacheKey, SearchResult>)
    requires Faithful(entries, stored) && forall e :: e in some ==> e in entries
    ensures Faithful(some, stored)
  {
    forall i | 0 <= i < |some| ensures some[i].key in stored && stored[some[i].key] == some[i].result {
      assert some[i] in some;
      var k :| 0 <= k < |entries| && entries[k] == some[i];
    }
  }

  lemma LookupIsKeys(entries: seq<Entry>, lookup: map<CacheKey, Entry>, key: CacheKey)
    requires Indexed(entries, lookup)
    ensures key in lookup <==> key in Keys(entries)
  {
  }

  /** What is left when the entry of a key is taken out. */
  lemma TakeOut(entries: seq<Entry>, lookup: map<CacheKey, Entry>, stored: map<CacheKey, SearchResult>, key: CacheKey)
    requires DistinctKeys(entries) && Indexed(entries, lookup) && Faithful(entries, stored)
    ensures var rest := Without(entries, key);
      && DistinctKeys(rest) && Indexed(rest, lookup - {key}) && Faithful(rest, stored)
      && (key in lookup ==> Total(rest) + lookup[key].bytes == Total(entries))
      && (key !in lookup ==> rest == entries)
  {
    hide Total, Without;
    WithoutAre(entries, key);
    IndexWithout(entries, lookup, key);
    FaithfulMembers(entries, Without(entries, key), stored);
    if key in lookup {
      var i :| 0 <= i < |entries| && entries[i].key == key;
      WithoutAt(entries, i);
    } else {
      WithoutAbsent(entries, key);
    }
  }

  lemma MoveToFront(entries: seq<Entry>, lookup: map<CacheKey, Entry>, stored: map<CacheKey, SearchResult>,
                    key: CacheKey)
    requires DistinctKeys(entries) && Indexed(entries, lookup) && Faithful(entries, stored) && key in lookup
    ensures var moved := [lookup[key]] + Without(entries, key);
      && DistinctKeys(moved) && Indexed(moved, lookup) && Faithful(moved, stored) && Total(moved) == Total(entries)
      && lookup[key].key == key && key in stored && stored[key] == lookup[key].result
  {
    hide Total, Without, DistinctKeys;
    var found, rest := lookup[key], Without(entries, key);
    var i :| 0 <= i < |entries| && entries[i].key == key;
    assert entries[i] == found;
    TakeOut(entries, lookup, stored, key);
    IndexFront(rest, lookup - {key}, found);
    assert (lookup - {key})[key := found] == lookup;
    TotalOfOne(found);
    TotalOfConcat([found], rest);
    FaithfulFront(rest, stored, found);
  }

  lemma FaithfulOther(entries: seq<Entry>, lookup: map<CacheKey, Entry>, stored: map<CacheKey, SearchResult>,
                      key: CacheKey, value: SearchResult)
    requires Indexed(entries, lookup) && Faithful(entries, stored) && key !in lookup
    ensures Faithful(entries, stored[key := value])
  {
  }

  class QueryResultCache {
    const maximumBytes: nat
    const sizes: Sizes
    /** Most recently used first. */
    var entries: seq<Entry>
    var lookup: map<CacheKey, Entry>
    var bytes: nat
    var hits: nat
    var misses: nat
    var evictions: nat
    /** The value last put under each key. */
    ghost var stored: map<CacheKey, SearchResult>

    ghost predicate Valid()
      reads this
    {
      && DistinctKeys(entries) && Indexed(entries, lookup) && Faithful(entries, stored)
      && bytes == Total(entries) <= maximumBytes
    }

    constructor (maximumBytes: nat, sizes: Sizes)
      ensures Valid() && entries == [] && stored == map[] && this.maximumBytes == maximumBytes && this.sizes == sizes
    {
      this.maximumBytes, this.sizes := maximumBytes, sizes;
      entries, lookup, bytes, hits, misses, evictions, stored := [], map[], 0, 0, 0, 0, map[];
    }

    /** A hit is the value last put under the key and becomes the most recently used entry. */
    method Get(key: CacheKey) returns (r: Option<SearchResult>)
      requires Valid()
      modifies this
      ensures Valid() && stored == old(stored) && bytes == old(bytes) && evictions == old(evictions)
      ensures r.Some? <==> key in Keys(old(entries))
      ensures r.None? ==> entries == old(entries) && misses == old(misses) + 1 && hits == old(hits)
      ensures r.Some? ==> key in stored && r.value == stored[key] && hits == old(hits) + 1 && misses == old(misses)
      ensures r.Some? ==> entries != [] && entries[0].key == key && entries[1..] == Without(old(entries), key)
    {
      hide Total, Without, Indexed, Faithful, DistinctKeys;
      LookupIsKeys(entries, lookup, key);
      if key !in lookup {
        misses := misses + 1;
        return None;
      }
      hits := hits + 1;
      var found := lookup[key];
      MoveToFront(entries, lookup, stored, key);
      entries := [found] + Without(entries, key);
      r := Some(found.result);
    }

    /** The list after a put: the old entry of the key leaves; a result that fits comes to the front
        and the least recently used entries leave until the bound holds. */
    ghost function AfterPut(key: CacheKey, result: SearchResult): seq<Entry>
      reads this
    {
      var size := Measure(sizes, key, result);
      if size > maximumBytes then Without(entries, key)
      else Fitting([Entry(key, result, size)] + Without(entries, key), maximumBytes)
    }

    method Put(key: CacheKey, result: SearchResult)
      requires Valid()
      modifies this
      ensures Valid() && stored == old(stored)[key := result]
      ensures entries == old(AfterPut(key, result)) && hits == old(hits) && misses == old(misses)
      ensures Measure(sizes, key, result) <= maximumBytes ==>
        entries != [] && entries[0] == Entry(key, result, Measure(sizes, key, result))
    {
      hide Total, Without, Measure, Fitting, Indexed, Faithful, DistinctKeys;
      ghost var before, after := entries, AfterPut(key, result);
      Remove(key);
      FaithfulOther(entries, lookup, stored, key, result);
      stored := stored[key := result];
      var size := Measure(sizes, key, result);
      if size > maximumBytes { return; }
      var e := Entry(key, result, size);
      IndexFront(entries, lookup, e);
      FaithfulFront(entries, stored, e);
      TotalOfOne(e);
      TotalOfConcat([e], entries);
      FrontStays([e] + entries, maximumBytes);
      entries := [e] + entries;
      lookup := lookup[key := e];
      bytes := bytes + size;
      Evict();
    }

    /** The old entry of a key, if any, is taken out. */
    method Remove(key: CacheKey)
      requires Valid()
      modifies this`entries, this`lookup, this`bytes
      ensures Valid() && entries == Without(old(entries), key) && key !in lookup
    {
      hide Total, Without, Indexed, Faithful, DistinctKeys;
      LookupIsKeys(entries, lookup, key);
      TakeOut(entries, lookup, stored, key);
      if key in lookup {
        bytes := bytes - lookup[key].bytes;
        entries := Without(entries, key);
        lookup := lookup - {key};
      }
    }

    /** The last entries leave until the bound holds. */
    method Evict()
      requires DistinctKeys(entries) && Indexed(entries, lookup) && Faithful(entries, stored) && bytes == Total(entries)
      modifies this`entries, this`lookup, this`bytes, this`evictions
      ensures Valid() && entries == Fitting(old(entries), maximumBytes)
      ensures evictions == old(evictions) + |old(entries)| - |entries|
    {
      hide Indexed, Faithful, DistinctKeys;
      while bytes > maximumBytes && entries != []
        invariant DistinctKeys(entries) && Indexed(entries, lookup) && Faithful(entries, stored)
        invariant bytes == Total(entries)
        invariant Fitting(entries, maximumBytes) == Fitting(old(entries), maximumBytes)
        invariant |entries| <= |old(entries)| && evictions == old(evictions) + |old(entries)| - |entries|
        decreases |entries|
      {
        var last := entries[|entries| - 1];
        IndexLast(entries, lookup);
        FaithfulPrefix(entries, stored);
        bytes := bytes - last.bytes;
        lookup := lookup - {last.key};
        entries := entries[..|entries| - 1];
        evictions := evictions + 1;
      }
    }

    method InvalidateBefore(generation: nat)
      requires Valid()
      modifies this
      ensures Valid() && entries == Since(old(entries), generation) && stored == old(stored)
      ensures hits == old(hits) && misses == old(misses) && evictions == old(evictions)
    {
      hide Total, Without, Indexed, Faithful, DistinctKeys, Since;
      ghost var all := entries;
      SinceNothing(generation);
      var i := 0;
      ghost var seen := 0;
      assert all[..0] == [] && all[0..] == all && [] + all == all;
      while i < |entries|
        invariant Valid() && stored == old(stored) && hits == old(hits) && misses == old(misses)
        invariant evictions == old(evictions)
        invariant i <= |entries| && seen <= |all| && i == |Since(all[..seen], generation)|
        invariant entries == Since(all[..seen], generation) + all[seen..]
        decreases |all| - seen
      {
        var e := entries[i];
        SinceStep(all, generation, seen, entries, i);
        if e.key.generation < generation {
          WithoutIndex(entries, i);
          Remove(e.key);
        } else {
          i := i + 1;
        }
        seen := seen + 1;
      }
      SinceDone(all, generation, seen, entries);
    }
  }

  lemma FaithfulFront(entries: seq<Entry>, stored: map<CacheKey, SearchResult>, e: Entry)
    requires Faithful(entries, stored) && e.key in stored && stored[e.key] == e.result
    ensures Faithful([e] + entries, stored)
  {
  }

  lemma FaithfulPrefix(entries: seq<Entry>, stored: map<CacheKey, SearchResult>)
    requires Faithful(entries, stored) && entries != []
    ensures Faithful(entries[..|entries| - 1], stored)
  {
  }

  lemma WithoutIndex(entries: seq<Entry>, i: nat)
    requires DistinctKeys(entries) && i < |entries|
    ensures Without(entries, entries[i].key) == entries[..i] + entries[i + 1..]
  {
    WithoutAt(entries, i);
  }

  lemma SinceStep(all: seq<Entry>, generation: nat, seen: nat, entries: seq<Entry>, i: nat)
    requires seen <= |all| && i == |Since(all[..seen], generation)| < |entries|
    requires entries == Since(all[..seen], generation) + all[seen..]
    ensures seen < |all| && entries[i] == all[seen]
    ensures all[seen].key.generation < generation ==>
      && entries[..i] + entries[i + 1..] == Since(all[..seen + 1], generation) + all[seen + 1..]
      && |Since(all[..seen + 1], generation)| == i
    ensures all[seen].key.generation >= generation ==>
      && entries == Since(all[..seen + 1], generation) + all[seen + 1..]
      && |Since(all[..seen + 1], generation)| == i + 1
  {
    hide Since;
    var kept := Since(all[..seen], generation);
    SinceNext(all, generation, seen);
    assert all[seen..] == [all[seen]] + all[seen + 1..];
    assert entries == kept + [all[seen]] + all[seen + 1..];
    assert entries[..i] == kept && entries[i + 1..] == all[seen + 1..];
  }

  lemma SinceNext(all: seq<Entry>, generation: nat, seen: nat)
    requires seen < |all|
    ensures Since(all[..seen + 1], generation)
      == Since(all[..seen], generation) + if all[seen].key.generation < generation then [] else [all[seen]]
  {
    assert all[..seen + 1][..seen] == all[..seen];
  }

  lemma SinceNothing(generation: nat)
    ensures Since([], generation) == []
  {
  }

  lemma SinceDone(all: seq<Entry>, generation: nat, seen: nat, entries: seq<Entry>)
    requires seen <= |all| && |entries| <= |Since(all[..seen], generation)|
    requires entries == Since(all[..seen], generation) + all[seen..]
    ensures entries == Since(all, generation)
  {
    assert all[seen..] == [];
    assert seen == |all| && all[..seen] == all;
  }
}

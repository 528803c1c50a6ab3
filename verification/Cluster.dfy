/** Document-sharded search in one process (src/distributed/local_cluster.cpp). */
module Sharding {
  import opened Basics
  import opened Schemas
  import opened IndexModel

  // ---- routing ----

  const FNV_OFFSET: nat := 14695981039346656037
  const FNV_PRIME: nat := 1099511628211

  /** One step of FNV-1a on 64 bits: xor the low byte, multiply. */
  function Mix(hash: nat, character: char): nat {
    var byte := character as int % 256;
    var mixed := hash - hash % 256 + ((hash % 256) as bv8 ^ byte as bv8) as nat;
    mixed * FNV_PRIME % U64_LIMIT
  }

  function Fnv1a(id: string): nat {
    if id == "" then FNV_OFFSET else Mix(Fnv1a(id[..|id| - 1]), id[|id| - 1])
  }

  function RouteOf(id: string, count: nat): (shard: nat)
    ensures count > 0 ==> shard < count
  {
    if count == 0 then 0 else Fnv1a(id) % count
  }

  /** `StableShardRouter::route`. */
  method Route(id: string, count: nat) returns (shard: nat)
    ensures shard == RouteOf(id, count)
  {
    hide Mix;
    var hash := FNV_OFFSET;
    for i := 0 to |id|
      invariant hash == Fnv1a(id[..i])
    {
      assert id[..i + 1][..i] == id[..i];
      hash := Mix(hash, id[i]);
    }
    assert id[..|id|] == id;
    shard := if count == 0 then 0 else hash % count;
  }

  lemma XorOfBytes()
    ensures ((37 as bv8) ^ (97 as bv8)) as nat == 68
  {
    assert (37 as bv8) ^ (97 as bv8) == 68 as bv8;
  }

  /** A known value of 64-bit FNV-1a. */
  lemma KnownHash()
    ensures Fnv1a("a") == 0xaf63dc4c8601ec8c
  {
    KnownMix();
    hide Mix;
    assert "a"[..0] == "";
    assert Fnv1a("") == FNV_OFFSET;
  }

  lemma KnownMix()
    ensures Mix(FNV_OFFSET, 'a') == 0xaf63dc4c8601ec8c
  {
    XorOfBytes();
    assert FNV_OFFSET % 256 == 37 && 'a' as int % 256 == 97;
    assert (FNV_OFFSET - 37 + 68) * FNV_PRIME % U64_LIMIT == 0xaf63dc4c8601ec8c;
  }

  // ---- the partition ----

  /** The documents of one shard, in the order of the whole corpus. */
  function Part(slots: Slots, shard: nat, count: nat): (r: Slots)
    ensures |r| <= |slots| && forall i :: 0 <= i < |r| ==> r[i] in slots && RouteOf(r[i].id, count) == shard
  {
    if slots == [] then []
    else
      var n := |slots| - 1;
      Part(slots[..n], shard, count) + if RouteOf(slots[n].id, count) == shard then [slots[n]] else []
  }

  lemma {:induction false} PartIsDistinct(slots: Slots, shard: nat, count: nat)
    requires DistinctIds(slots)
    ensures DistinctIds(Part(slots, shard, count))
  {
    hide RouteOf;
    if slots != [] { PartIsDistinct(slots[..|slots| - 1], shard, count); }
  }

  /** A document is found in its own shard exactly when it is in the corpus. */
  lemma {:induction false} FindInPart(slots: Slots, shard: nat, count: nat, id: string)
    requires DistinctIds(slots) && RouteOf(id, count) == shard
    ensures var whole, part := Find(slots, id), Find(Part(slots, shard, count), id);
      && (whole.Some? <==> part.Some?)
      && (whole.Some? ==> slots[whole.value] == Part(slots, shard, count)[part.value])
  {
    hide RouteOf;
    if slots != [] {
      var n := |slots| - 1;
      FindInPart(slots[..n], shard, count, id);
      if RouteOf(slots[n].id, count) == shard {
        assert Part(slots, shard, count)[..|Part(slots, shard, count)| - 1] == Part(slots[..n], shard, count);
      } else {
        assert Part(slots, shard, count) == Part(slots[..n], shard, count);
      }
    }
  }

  /** What the last document adds to a shard. */
  function Kept(d: Document, shard: nat, count: nat): Slots {
    if RouteOf(d.id, count) == shard then [d] else []
  }

  lemma PartLast(head: Slots, d: Document, shard: nat, count: nat)
    ensures Part(head + [d], shard, count) == Part(head, shard, count) + Kept(d, shard, count)
  {
    hide RouteOf;
    assert (head + [d])[..|head|] == head;
  }

  lemma FindLast(head: Slots, d: Document, id: string)
    ensures Find(head + [d], id) == if d.id == id then Some(|head|) else Find(head, id)
  {
    assert (head + [d])[..|head|] == head;
  }

  /** A list with the document of an ID replaced, if it is there. */
  function Swapped(part: Slots, d: Document): Slots {
    match Find(part, d.id)
    case Some(k) => part[k := d]
    case None => part
  }

  lemma {:induction false} PartOfUpdate(slots: Slots, i: nat, d: Document, shard: nat, count: nat)
    requires i < |slots| && DistinctIds(slots) && slots[i].id == d.id
    ensures Part(slots[i := d], shard, count) ==
      if RouteOf(d.id, count) == shard then Swapped(Part(slots, shard, count), d) else Part(slots, shard, count)
    decreases |slots|
  {
    hide RouteOf, Part, Find;
    var n := |slots| - 1;
    var head, last := slots[..n], slots[n];
    assert slots == head + [last];
    PartLast(head, last, shard, count);
    var part := Part(head, shard, count);
    if i == n {
      assert slots[i := d] == head + [d];
      PartLast(head, d, shard, count);
      FindLast(part, last, d.id);
      if RouteOf(d.id, count) == shard { assert (part + [last])[|part| := d] == part + [d]; }
    } else {
      assert slots[i := d] == head[i := d] + [last];
      PartOfUpdate(head, i, d, shard, count);
      PartLast(head[i := d], last, shard, count);
      SwappedBefore(part, last, d);
      assert part + [] == part && Swapped(part, d) + [] == Swapped(part, d);
    }
  }

  lemma SwappedBefore(part: Slots, last: Document, d: Document)
    requires last.id != d.id
    ensures Swapped(part + [last], d) == Swapped(part, d) + [last]
  {
    hide Find;
    FindLast(part, last, d.id);
  }

  /** Storing a document in the corpus stores it in its own shard and leaves the others alone. */
  lemma PartOfStore(slots: Slots, d: Document, shard: nat, count: nat)
    requires DistinctIds(slots)
    ensures Part(Store(slots, d), shard, count) ==
      if RouteOf(d.id, count) == shard then Store(Part(slots, shard, count), d) else Part(slots, shard, count)
  {
    hide RouteOf;
    match Find(slots, d.id)
    case Some(i) =>
      PartOfUpdate(slots, i, d, shard, count);
      if RouteOf(d.id, count) == shard { FindInPart(slots, shard, count, d.id); }
    case None =>
      PartLast(slots, d, shard, count);
      if RouteOf(d.id, count) == shard {
        FindInPart(slots, shard, count, d.id);
      } else {
        assert Part(slots, shard, count) + [] == Part(slots, shard, count);
      }
  }

  /** A document the whole index accepts is accepted by its shard: a put is never split. */
  lemma ShardAccepts(schema: Schema, slots: Slots, maximum: nat, d: Document, count: nat)
    requires Usable(schema) && DistinctIds(slots) && Refusal(schema, slots, maximum, d).None?
    ensures Refusal(schema, Part(slots, RouteOf(d.id, count), count), maximum, d).None?
  {
    hide RouteOf, FieldsAccepted, MetadataAccepted, Analyzable, Usable;
    FindInPart(slots, RouteOf(d.id, count), count, d.id);
  }
}

/** A cluster of shards that scores with the statistics of the whole corpus. */
module LocalCluster {
  import opened Basics
  import opened Schemas
  import opened IndexModel
  import opened MemoryIndex
  import opened Plans
  import opened Bm25
  import opened Views
  import opened Shapes
  import opened Canonicalization
  import opened Queries
  import opened Execution
  import opened TopK
  import opened QueryScores
  import opened Searching
  import opened Sharding

  // ---- the view of one shard ----

  /** Postings and documents of the shard, counts of the whole index. */
  function ShardView(local: SearchView, global: SearchView): SearchView {
    SearchView(
      global.schema,
      map f | f in local.fields ::
        map t | t in local.fields[f] :: WithGlobalFrequency(local.fields[f][t], global.Lookup(f, t)),
      local.records, local.liveIds, global.liveCount, global.statistics)
  }

  function WithGlobalFrequency(entry: TermEntry, global: Option<TermEntry>): TermEntry {
    entry.(documentFrequency := match global case Some(g) => g.documentFrequency case None => 0)
  }

  lemma ShardLookup(local: SearchView, global: SearchView, f: string, t: string)
    ensures ShardView(local, global).Lookup(f, t) ==
      match local.Lookup(f, t)
      case Some(entry) => Some(WithGlobalFrequency(entry, global.Lookup(f, t)))
      case None => None
  {
  }

  /** A shard's view stands for its part of the corpus, scored by the whole. */
  lemma ShardRepresents(local: SearchView, global: SearchView, part: Slots, slots: Slots)
    requires Represents(local, part, part) && Represents(global, slots, slots) && local.schema == global.schema
    requires forall i :: 0 <= i < |part| ==> part[i] in slots
    ensures Represents(ShardView(local, global), part, slots)
  {
    hide Storable, RecordFor, LiveIds, FieldCount, FieldTotal, Postings, SearchView.Lookup;
    var v := ShardView(local, global);
    forall f, t ensures v.Lookup(f, t) == TermEntryOf(v.schema, part, slots, f, t) {
      ShardLookup(local, global, f, t);
      assert local.Lookup(f, t) == TermEntryOf(v.schema, part, part, f, t);
      assert global.Lookup(f, t) == TermEntryOf(v.schema, slots, slots, f, t);
    }
    forall f ensures v.Statistics(f) == (FieldCount(v.schema, slots, f), FieldTotal(v.schema, slots, f)) {
      assert v.Statistics(f) == global.Statistics(f);
    }
  }

  /** `ShardSearchView`: entries are adjusted on first use and remembered. */
  class ShardSearchView {
    const local: SearchView
    const global: SearchView
    var terms: map<(string, string), TermEntry>

    ghost predicate Valid()
      reads this
    {
      forall key :: key in terms ==> ShardView(local, global).Lookup(key.0, key.1) == Some(terms[key])
    }

    constructor (local: SearchView, global: SearchView)
      ensures Valid() && this.local == local && this.global == global
    {
      this.local, this.global, terms := local, global, map[];
    }

    /** The memo never changes an answer. */
    method Lookup(f: string, t: string) returns (r: Option<TermEntry>)
      requires Valid()
      modifies this
      ensures Valid() && r == ShardView(local, global).Lookup(f, t)
    {
      ShardLookup(local, global, f, t);
      var entry := local.Lookup(f, t);
      if entry.None? { return None; }
      if (f, t) !in terms {
        terms := terms[(f, t) := WithGlobalFrequency(entry.value, global.Lookup(f, t))];
      }
      r := Some(terms[(f, t)]);
    }
  }

  // ---- the parts together are the whole ----

  function Judged(c: Corpus, d: Document, plan: Plan): seq<Scored>
    requires ValidScorer(c.scorer)
  {
    match Verdict(c, plan, d)
    case Some(score) => [Scored(d.id, score)]
    case None => []
  }

  /** The matches of the first `m` shards. */
  function ScoredParts(c: Corpus, slots: Slots, plan: Plan, m: nat, count: nat): seq<Scored>
    requires ValidScorer(c.scorer)
  {
    if m == 0 then [] else ScoredParts(c, slots, plan, m - 1, count) + ScoredScan(c, Part(slots, m - 1, count), plan)
  }

  lemma ScanLast(c: Corpus, head: Slots, d: Document, plan: Plan)
    requires ValidScorer(c.scorer)
    ensures ScoredScan(c, head + [d], plan) == ScoredScan(c, head, plan) + Judged(c, d, plan)
  {
    hide Verdict;
    assert (head + [d])[..|head|] == head;
  }

  function Copies(s: seq<Scored>, x: Scored): nat {
    multiset(s)[x]
  }

  lemma CopiesSum(a: seq<Scored>, b: seq<Scored>, x: Scored)
    ensures Copies(a + b, x) == Copies(a, x) + Copies(b, x)
  {
  }

  lemma {:induction false} PartsLast(c: Corpus, slots: Slots, plan: Plan, m: nat, count: nat, x: Scored)
    requires ValidScorer(c.scorer) && slots != []
    ensures var n := |slots| - 1;
      Copies(ScoredParts(c, slots, plan, m, count), x) ==
        Copies(ScoredParts(c, slots[..n], plan, m, count), x) +
        if RouteOf(slots[n].id, count) < m then Copies(Judged(c, slots[n], plan), x) else 0
  {
    hide ScoredScan, Judged, RouteOf, Copies;
    if m > 0 {
      var n := |slots| - 1;
      PartsLast(c, slots, plan, m - 1, count, x);
      var head := Part(slots[..n], m - 1, count);
      CopiesSum(ScoredParts(c, slots, plan, m - 1, count), ScoredScan(c, Part(slots, m - 1, count), plan), x);
      CopiesSum(ScoredParts(c, slots[..n], plan, m - 1, count), ScoredScan(c, head, plan), x);
      if RouteOf(slots[n].id, count) == m - 1 {
        ScanLast(c, head, slots[n], plan);
        CopiesSum(ScoredScan(c, head, plan), Judged(c, slots[n], plan), x);
      } else {
        assert Part(slots, m - 1, count) == head;
      }
    }
  }

  lemma {:induction false} CopiesInWhole(c: Corpus, slots: Slots, plan: Plan, count: nat, x: Scored)
    requires ValidScorer(c.scorer) && count > 0
    ensures Copies(ScoredParts(c, slots, plan, count, count), x) == Copies(ScoredScan(c, slots, plan), x)
  {
    hide RouteOf, Part, Judged, Copies, ScoredParts;
    if slots == [] {
      NoParts(c, plan, count, count);
    } else {
      var n := |slots| - 1;
      CopiesInWhole(c, slots[..n], plan, count, x);
      PartsLast(c, slots, plan, count, count, x);
      assert slots == slots[..n] + [slots[n]];
      ScanLast(c, slots[..n], slots[n], plan);
      CopiesSum(ScoredScan(c, slots[..n], plan), Judged(c, slots[n], plan), x);
    }
  }

  /** Every match of the corpus is a match of exactly one shard, with the same score. */
  lemma PartsAreWhole(c: Corpus, slots: Slots, plan: Plan, count: nat)
    requires ValidScorer(c.scorer) && count > 0
    ensures multiset(ScoredParts(c, slots, plan, count, count)) == multiset(ScoredScan(c, slots, plan))
    ensures |ScoredParts(c, slots, plan, count, count)| == |ScoredScan(c, slots, plan)|
  {
    hide ScoredParts, ScoredScan;
    var parts, whole := ScoredParts(c, slots, plan, count, count), ScoredScan(c, slots, plan);
    forall x ensures multiset(parts)[x] == multiset(whole)[x] { CopiesInWhole(c, slots, plan, count, x); }
    assert multiset(parts) == multiset(whole);
    assert |multiset(parts)| == |parts| && |multiset(whole)| == |whole|;
  }

  lemma {:induction false} NoParts(c: Corpus, plan: Plan, m: nat, count: nat)
    requires ValidScorer(c.scorer)
    ensures ScoredParts(c, [], plan, m, count) == []
  {
    if m > 0 { NoParts(c, plan, m - 1, count); }
  }

  /** One corpus, one query and one K have one answer, whichever plan was built for it. */
  lemma AnswerIsUnique(c: Corpus, local: Slots, options: SearchOptions, q: Query, p: Plan, a: SearchResult, p': Plan,
                       b: SearchResult)
    requires Answers(c, local, options, q, p, a) && Answers(c, local, options, q, p', b)
    ensures a == b && IsAnswer(c, local, options, q, a)
  {
    hide ShapeOf, Distinct, PlanOutline, Best, QueryCount, ScoredScan, QueryScan;
    PlannedAnswer(c, local, options, q, p, a);
    PlannedAnswer(c, local, options, q, p', b);
  }

  lemma BestStep(k: nat, seen: seq<Scored>, before: seq<Scored>, more: seq<Scored>)
    requires Best(k, seen) == Best(k, before)
    ensures Best(k, seen + Best(k, more)) == Best(k, before + more)
  {
    hide Best;
    BestOfParts(k, seen, more);
    BestOfPrefix(k, seen, more);
    BestOfPrefix(k, before, more);
  }

  // ---- the cluster ----

  datatype ClusterError = InvalidShardCount | MutationError(cause: IndexError)
    | FailedExecution(reason: ExecutionError) | ResultOverflow

  const MAXIMUM_ID: nat := U32_LIMIT - 1

  /** What merging the answers of the first `m` shards has established. */
  ghost predicate Merged(c: Corpus, slots: Slots, options: SearchOptions, q: Query, plan: Plan, m: nat, count: nat,
                         seen: seq<Scored>, total: nat)
  {
    && ValidScorer(c.scorer)
    && (m > 0 ==> PlanOutline(c.schema, options.planning, q) == Ok(ShapeOf(plan)) && Distinct(plan))
    && Best(options.k, seen) == Best(options.k, ScoredParts(c, slots, plan, m, count))
    && total == |ScoredParts(c, slots, plan, m, count)|
  }

  lemma MergeStep(c: Corpus, slots: Slots, options: SearchOptions, q: Query, plan: Plan, m: nat, count: nat,
                  seen: seq<Scored>, total: nat, answer: SearchResult)
    requires Merged(c, slots, options, q, plan, m, count, seen, total)
    requires Answers(c, Part(slots, m, count), options, q, plan, answer)
    ensures Merged(c, slots, options, q, plan, m + 1, count, seen + answer.hits, total + answer.total)
  {
    hide ShapeOf, Distinct, PlanOutline, Best, QueryCount, ScoredScan, Part;
    var part := Part(slots, m, count);
    ScanCounts(c, part, options.planning, q, plan);
    BestStep(options.k, seen, ScoredParts(c, slots, plan, m, count), ScoredScan(c, part, plan));
  }

  lemma MergeDone(c: Corpus, slots: Slots, options: SearchOptions, q: Query, plan: Plan, count: nat, seen: seq<Scored>,
                  total: nat)
    requires count > 0 && Merged(c, slots, options, q, plan, count, count, seen, total)
    ensures IsAnswer(c, slots, options, q, SearchResult(Best(options.k, seen), total))
  {
    hide ShapeOf, Distinct, PlanOutline, QueryCount, ScoredScan, QueryScan, Sort, ScoredParts;
    PartsAreWhole(c, slots, plan, count);
    SortOfPermutation(ScoredParts(c, slots, plan, count, count), ScoredScan(c, slots, plan));
    ScanCounts(c, slots, options.planning, q, plan);
    PlannedAnswer(c, slots, options, q, plan, SearchResult(Best(options.k, seen), total));
  }

  /** No sum of hit counts comes near the limit of a 64-bit size. */
  lemma {:induction false} TotalsFit(c: Corpus, slots: Slots, plan: Plan, m: nat, count: nat)
    requires ValidScorer(c.scorer) && 0 < count && m <= count
    ensures |ScoredParts(c, slots, plan, m, count)| <= |slots|
    decreases count - m
  {
    hide ScoredScan, Part;
    if m == count {
      PartsAreWhole(c, slots, plan, count);
      ScanFits(c, slots, plan);
    } else {
      TotalsFit(c, slots, plan, m + 1, count);
    }
  }

  lemma {:induction false} ScanFits(c: Corpus, slots: Slots, plan: Plan)
    requires ValidScorer(c.scorer)
    ensures |ScoredScan(c, slots, plan)| <= |slots|
  {
    if slots != [] { ScanFits(c, slots[..|slots| - 1], plan); }
  }

  method CollectAll(collector: TopKCollector, hits: seq<Scored>)
    requires collector.Valid()
    modifies collector
    ensures collector.Valid() && collector.seen == old(collector.seen) + hits
  {
    hide TopKCollector.Valid;
    for i := 0 to |hits|
      invariant collector.Valid() && collector.seen == old(collector.seen) + hits[..i]
    {
      collector.Collect(hits[i]);
    }
    assert hits[..|hits|] == hits;
  }

  lemma IndexIsSound(index: InMemoryIndex)
    requires index.Valid()
    ensures Usable(index.schema) && DistinctIds(index.slots)
  {
  }

  class LocalShardCluster {
    const schema: Schema
    const count: nat
    const global: InMemoryIndex
    const shards: seq<InMemoryIndex>

    ghost predicate Separate() {
      && global !in shards && |shards| == count
      && forall i, j :: 0 <= i < j < |shards| ==> shards[i] != shards[j]
    }

    /** Shard `s` holds exactly the documents routed to it, in the order of the whole index. */
    ghost predicate Valid()
      reads this, global, shards
    {
      && 1 <= count <= 1024 && Separate()
      && global.Valid() && global.schema == schema && global.maximumId == MAXIMUM_ID
      && forall s: nat :: s < |shards| ==>
           && shards[s].Valid() && shards[s].schema == schema && shards[s].maximumId == MAXIMUM_ID
           && shards[s].slots == Part(global.slots, s, count)
    }

    constructor (schema: Schema, global: InMemoryIndex, shards: seq<InMemoryIndex>)
      ensures this.schema == schema && this.count == |shards| && this.global == global && this.shards == shards
    {
      this.schema, this.count, this.global, this.shards := schema, |shards|, global, shards;
    }

    static method Create(shardCount: nat, schema: Schema) returns (r: Result<LocalShardCluster, ClusterError>)
      requires Usable(schema)
      ensures r.Ok? <==> 1 <= shardCount <= 1024
      ensures r.Err? ==> r.error == InvalidShardCount
      ensures r.Ok? ==> fresh(r.value) && r.value.Valid() && fresh(r.value.global) && fresh(r.value.shards)
      ensures r.Ok? ==> r.value.schema == schema && r.value.count == shardCount && r.value.global.slots == []
    {
      hide InMemoryIndex.Valid, RouteOf;
      if shardCount == 0 || shardCount > 1024 { return Err(InvalidShardCount); }
      var global := new InMemoryIndex(schema, MAXIMUM_ID);
      var shards: seq<InMemoryIndex> := [];
      for i := 0 to shardCount
        invariant |shards| == i && fresh(shards) && global !in shards
        invariant global.Valid() && global.schema == schema && global.maximumId == MAXIMUM_ID && global.slots == []
        invariant forall s, t :: 0 <= s < t < i ==> shards[s] != shards[t]
        invariant forall s :: 0 <= s < i ==>
          && shards[s].Valid() && shards[s].schema == schema
          && shards[s].maximumId == MAXIMUM_ID && shards[s].slots == []
      {
        var shard := new InMemoryIndex(schema, MAXIMUM_ID);
        shards := shards + [shard];
      }
      var cluster := new LocalShardCluster(schema, global, shards);
      r := Ok(cluster);
    }

    /** The whole index decides; a document it accepts always enters its shard as well, so no
        failure leaves the two apart. */
    method Put(d: Document) returns (r: Result<(), ClusterError>)
      requires Valid()
      modifies global, shards
      ensures Valid()
      ensures match Refusal(schema, old(global.slots), MAXIMUM_ID, d)
        case Some(e) => r == Err(MutationError(e)) && unchanged(global) && unchanged(shards)
        case None => r == Ok(()) && global.slots == Store(old(global.slots), d)
    {
      hide RouteOf, Part, Refusal, Store, DistinctIds, InMemoryIndex.Valid, Usable;
      IndexIsSound(global);
      var shard := Route(d.id, count);
      ghost var before := global.slots;
      assert RouteOf(d.id, count) < count;
      var outcome := global.Put(d);
      if outcome.Err? { return Err(MutationError(outcome.error)); }
      ShardAccepts(schema, before, MAXIMUM_ID, d, count);
      var local := shards[shard].Put(d);
      forall s: nat | s < count
        ensures shards[s].slots == Part(global.slots, s, count)
      {
        PartOfStore(before, d, s, count);
      }
      match local {
        case Err(e) => return Err(MutationError(e));
        case Ok(_) => return Ok(());
      }
    }

    method Erase(id: string, version: nat) returns (r: Result<(), ClusterError>)
      requires Valid()
      modifies global, shards
      ensures Valid()
      ensures var d := Document(id, map[], map[], version, true);
        match Refusal(schema, old(global.slots), MAXIMUM_ID, d)
        case Some(e) => r == Err(MutationError(e)) && unchanged(global) && unchanged(shards)
        case None => r == Ok(()) && global.slots == Store(old(global.slots), d)
    {
      r := Put(Document(id, map[], map[], version, true));
    }

    lemma Contents()
      requires Valid()
      ensures count > 0 && global.Valid() && global.schema == schema
    {
    }

    /** The view of one shard. */
    method ViewOf(s: nat, whole: SearchView) returns (v: SearchView)
      requires Valid() && s < count && whole.schema == schema && Represents(whole, global.slots, global.slots)
      ensures v.schema == schema && Represents(v, Part(global.slots, s, count), global.slots)
    {
      hide Represents, Part;
      var local := shards[s].View();
      v := ShardView(local, whole);
      ShardRepresents(local, whole, shards[s].slots, global.slots);
    }

    /** Searching every shard and merging the K best of each answers exactly what a single index
        over all documents answers. */
    method Search(options: SearchOptions, q: Query, show: Printer, ghost domain: iset<real>, ghost c: Corpus)
      returns (r: Result<SearchResult, ClusterError>)
      requires Valid() && Plannable(schema, options.planning, q, show, domain)
      requires c.schema == schema && c.global == global.slots
      requires (options.scorer.Ok? ==> c.scorer == options.scorer.value && ValidScorer(c.scorer))
      ensures match SearchFailure(schema, options, q)
        case Some(e) => r == Err(FailedExecution(e))
        case None => r.Ok? && IsAnswer(c, global.slots, options, q, r.value)
    {
      hide Represents, Part, Plannable, Best, ScoredScan, SearchFailure, Answers, IsAnswer, Merged, ScoredParts,
           TreePlan, InMemoryIndex.Valid, Valid, TopKCollector.Valid;
      Contents();
      ghost var plan := TreePlan(schema, options.planning.defaultFields, q, None, 1.0);
      var whole := global.View();
      var collector := new TopKCollector(options.k);
      var total: nat := 0;
      ghost var failure := SearchFailure(schema, options, q);
      if failure.None? { NothingMerged(c, options, q, plan, count); }
      for s := 0 to count
        invariant collector.Valid() && fresh(collector) && collector.capacity == options.k
        invariant s > 0 ==> failure.None?
        invariant failure.None? ==> Merged(c, global.slots, options, q, plan, s, count, collector.seen, total)
      {
        var view := ViewOf(s, whole);
        ghost var part := Part(global.slots, s, count);
        var answer := Searching.Search(view, options, q, show, domain, c, part);
        match answer {
          case Err(e) => return Err(FailedExecution(e));
          case Ok(found) =>
            AnswerOfShard(c, part, options, q, found);
            MergeStep(c, global.slots, options, q, plan, s, count, collector.seen, total, found);
            MergedFits(c, global, options, q, plan, s + 1, count, collector.seen + found.hits, total + found.total);
            if found.total > U64_LIMIT - 1 - total { return Err(ResultOverflow); }
            total := total + found.total;
            CollectAll(collector, found.hits);
        }
      }
      MergeDone(c, global.slots, options, q, plan, count, collector.seen, total);
      var hits := collector.Results();
      r := Ok(SearchResult(hits, total));
    }
  }

  lemma AnswerOfShard(c: Corpus, part: Slots, options: SearchOptions, q: Query, r: SearchResult)
    requires SearchFailure(c.schema, options, q).None? && IsAnswer(c, part, options, q, r)
    ensures Answers(c, part, options, q, TreePlan(c.schema, options.planning.defaultFields, q, None, 1.0), r)
  {
    hide PlanOutline, IsAnswer, Answers;
    AnswerByTree(c, part, options, q, r);
  }

  lemma NothingMerged(c: Corpus, options: SearchOptions, q: Query, plan: Plan, count: nat)
    requires SearchFailure(c.schema, options, q).None? && (options.scorer.Ok? ==> ValidScorer(c.scorer))
    ensures Merged(c, c.global, options, q, plan, 0, count, [], 0)
  {
  }

  lemma MergedFits(c: Corpus, global: InMemoryIndex, options: SearchOptions, q: Query, plan: Plan, m: nat, count: nat,
                   seen: seq<Scored>, total: nat)
    requires global.Valid() && Merged(c, global.slots, options, q, plan, m, count, seen, total) && 0 < m <= count
    ensures total < U64_LIMIT
  {
    hide ScoredParts, ScoredScan;
    TotalsFit(c, global.slots, plan, m, count);
  }
}

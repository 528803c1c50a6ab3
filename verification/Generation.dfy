/** Resolving a generation of segments to its newest documents (src/storage/generation.cpp). */
module Generations {
  import opened Basics
  import opened Schemas
  import opened IndexModel
  import opened MemoryIndex
  import opened Numbers

  /** Documents by external ID: the records of one segment, or a resolved generation. */
  type Contents = map<string, Document>

  datatype Segment = Segment(id: nat, schema: Schema, documents: Contents)

  datatype GenerationError = EmptyGeneration | SchemaMismatch | InvalidDocument | SegmentError

  // ---- the newest document of each ID ----

  /** The newer of two sets of documents; the first keeps a tie. */
  function Join(a: Contents, b: Contents): Contents {
    map id | id in a.Keys + b.Keys ::
      if id !in a || (id in b && b[id].version > a[id].version) then b[id] else a[id]
  }

  function JoinAll(parts: seq<Contents>): Contents {
    if parts == [] then map[] else Join(JoinAll(parts[..|parts| - 1]), parts[|parts| - 1])
  }

  /** Each document sits under its own ID. */
  predicate Keyed(c: Contents) {
    forall id :: id in c ==> c[id].id == id
  }

  /** Wherever two parts hold the same version of an ID they hold the same document. */
  ghost predicate Agree(parts: seq<Contents>) {
    forall i, j, id ::
      (0 <= i < |parts| && 0 <= j < |parts| && id in parts[i] && id in parts[j]
       && parts[i][id].version == parts[j][id].version)
      ==> parts[i][id] == parts[j][id]
  }

  /** `d` is a newest version of its ID among the parts. */
  ghost predicate NewestIn(parts: seq<Contents>, id: string, d: Document) {
    && (exists i :: 0 <= i < |parts| && id in parts[i] && parts[i][id] == d)
    && (forall i :: 0 <= i < |parts| && id in parts[i] ==> parts[i][id].version <= d.version)
  }

  ghost predicate Occurs(parts: seq<Contents>, id: string) {
    exists i :: 0 <= i < |parts| && id in parts[i]
  }

  /** Resolution finds every ID, each with a newest version. */
  lemma {:induction false} JoinAllIsNewest(parts: seq<Contents>, id: string)
    ensures id in JoinAll(parts) <==> Occurs(parts, id)
    ensures id in JoinAll(parts) ==> NewestIn(parts, id, JoinAll(parts)[id])
  {
    if parts != [] {
      var n := |parts| - 1;
      var head := parts[..n];
      JoinAllIsNewest(head, id);
      assert forall i :: 0 <= i < n ==> head[i] == parts[i];
      if id in JoinAll(head) {
        var i :| 0 <= i < |head| && id in head[i] && head[i][id] == JoinAll(head)[id];
        assert id in parts[i] && parts[i][id] == JoinAll(head)[id];
      }
      if Occurs(parts, id) && id !in parts[n] {
        var i :| 0 <= i < |parts| && id in parts[i];
        assert id in head[i];
      }
    }
  }

  /** The newest version is one document. */
  lemma NewestIsUnique(parts: seq<Contents>, id: string, d: Document, e: Document)
    requires Agree(parts) && NewestIn(parts, id, d) && NewestIn(parts, id, e)
    ensures d == e
  {
  }

  /** Two generations with the same documents resolve alike. */
  lemma ResolutionIsUnique(parts: seq<Contents>, c: Contents)
    requires Agree(parts)
    requires forall id :: id in c <==> Occurs(parts, id)
    requires forall id :: id in c ==> NewestIn(parts, id, c[id])
    ensures c == JoinAll(parts)
  {
    hide Agree, NewestIn, Occurs, JoinAll;
    forall id ensures id in c <==> id in JoinAll(parts) { JoinAllIsNewest(parts, id); }
    forall id | id in c ensures c[id] == JoinAll(parts)[id] {
      JoinAllIsNewest(parts, id);
      NewestIsUnique(parts, id, c[id], JoinAll(parts)[id]);
    }
  }

  // ---- compaction ----

  /** The parts at the chosen positions, in order. */
  function Chosen<T>(parts: seq<T>, selected: set<nat>): seq<T> {
    if parts == [] then []
    else
      var n := |parts| - 1;
      Chosen(parts[..n], selected) + if n in selected then [parts[n]] else []
  }

  function Others<T>(parts: seq<T>, selected: set<nat>): seq<T> {
    if parts == [] then []
    else
      var n := |parts| - 1;
      Others(parts[..n], selected) + if n in selected then [] else [parts[n]]
  }

  lemma {:induction false} ChosenMembers<T>(parts: seq<T>, selected: set<nat>)
    ensures forall x :: x in Chosen(parts, selected) <==> exists i :: 0 <= i < |parts| && i in selected && parts[i] == x
    ensures forall x :: x in Others(parts, selected) <==>
      exists i :: 0 <= i < |parts| && i !in selected && parts[i] == x
    ensures |Chosen(parts, selected)| + |Others(parts, selected)| == |parts|
  {
    if parts != [] {
      var n := |parts| - 1;
      ChosenMembers(parts[..n], selected);
      forall x
        ensures x in Chosen(parts, selected) <==> exists i :: 0 <= i < |parts| && i in selected && parts[i] == x
      {
        assert x in Chosen(parts, selected) <==> x in Chosen(parts[..n], selected) || (n in selected && x == parts[n]);
        if i :| 0 <= i < |parts| && i in selected && parts[i] == x { assert i < n ==> parts[..n][i] == x; }
      }
      forall x
        ensures x in Others(parts, selected) <==> exists i :: 0 <= i < |parts| && i !in selected && parts[i] == x
      {
        assert x in Others(parts, selected) <==> x in Others(parts[..n], selected) || (n !in selected && x == parts[n]);
        if i :| 0 <= i < |parts| && i !in selected && parts[i] == x { assert i < n ==> parts[..n][i] == x; }
      }
    }
  }

  function Compacted(parts: seq<Contents>, selected: set<nat>): seq<Contents> {
    Others(parts, selected) + [JoinAll(Chosen(parts, selected))]
  }

  lemma MemberNewest(parts: seq<Contents>, id: string, d: Document)
    ensures NewestIn(parts, id, d) <==>
      (exists p: Contents :: p in parts && id in p && p[id] == d)
        && (forall p: Contents :: p in parts && id in p ==> p[id].version <= d.version)
  {
  }

  /** Compacting any of the segments, neighbours or not, leaves what the generation resolves to. */
  lemma CompactionPreserves(parts: seq<Contents>, selected: set<nat>)
    requires Agree(parts)
    ensures JoinAll(Compacted(parts, selected)) == JoinAll(parts)
  {
    hide Agree, NewestIn, JoinAll, Occurs, Chosen, Others;
    var after := Compacted(parts, selected);
    var merged := JoinAll(Chosen(parts, selected));
    forall id ensures id in JoinAll(after) <==> Occurs(parts, id)
              ensures id in JoinAll(after) ==> NewestIn(parts, id, JoinAll(after)[id])
    {
      JoinAllIsNewest(after, id);
      JoinAllIsNewest(Chosen(parts, selected), id);
      CompactionOccurs(parts, selected, id);
      if id in JoinAll(after) { CompactionNewest(parts, selected, id, JoinAll(after)[id]); }
    }
    ResolutionIsUnique(parts, JoinAll(after));
  }

  lemma CompactionOccurs(parts: seq<Contents>, selected: set<nat>, id: string)
    ensures Occurs(Compacted(parts, selected), id) <==> Occurs(parts, id)
  {
    hide JoinAll;
    var after, chosen, others := Compacted(parts, selected), Chosen(parts, selected), Others(parts, selected);
    ChosenMembers(parts, selected);
    JoinAllIsNewest(chosen, id);
    hide Chosen, Others;
    if Occurs(after, id) {
      var i :| 0 <= i < |after| && id in after[i];
      if i < |others| {
        assert after[i] == others[i] && others[i] in others;
      } else {
        var k :| 0 <= k < |chosen| && id in chosen[k];
        assert chosen[k] in chosen;
      }
    }
    if Occurs(parts, id) {
      var i :| 0 <= i < |parts| && id in parts[i];
      if i in selected {
        assert parts[i] in chosen;
        assert id in after[|others|];
      } else {
        assert parts[i] in others;
        var k :| 0 <= k < |others| && others[k] == parts[i];
        assert id in after[k];
      }
    }
  }

  lemma CompactionNewest(parts: seq<Contents>, selected: set<nat>, id: string, d: Document)
    requires NewestIn(Compacted(parts, selected), id, d)
    ensures NewestIn(parts, id, d)
  {
    hide JoinAll, NewestIn, Chosen, Others;
    var after, chosen, others := Compacted(parts, selected), Chosen(parts, selected), Others(parts, selected);
    var merged := JoinAll(chosen);
    ChosenMembers(parts, selected);
    JoinAllIsNewest(chosen, id);
    MemberNewest(after, id, d);
    MemberNewest(parts, id, d);
    MemberNewest(chosen, id, if id in merged then merged[id] else d);
    assert merged in after by { assert after[|others|] == merged; }
    forall p: Contents | p in parts && id in p ensures p[id].version <= d.version {
      var i :| 0 <= i < |parts| && parts[i] == p;
      if i in selected {
        assert p in chosen;
        assert Occurs(chosen, id) by { var k :| 0 <= k < |chosen| && chosen[k] == p; }
      } else {
        assert p in others;
        assert p in after;
      }
    }
    var q :| q in after && id in q && q[id] == d;
    if q in others {
      assert q in parts;
    } else {
      assert q == merged;
      var p :| p in chosen && id in p && p[id] == merged[id];
      assert p in parts;
    }
  }

  lemma AgreeCompacted(parts: seq<Contents>, selected: set<nat>)
    requires Agree(parts)
    ensures Agree(Compacted(parts, selected))
  {
    hide JoinAll, Chosen, Others;
    var after := Compacted(parts, selected);
    forall i, id | 0 <= i < |after| && id in after[i]
      ensures exists k :: 0 <= k < |parts| && id in parts[k] && parts[k][id] == after[i][id]
    {
      CompactedFrom(parts, selected, i, id);
    }
    forall i, j, id | 0 <= i < |after| && 0 <= j < |after| && id in after[i] && id in after[j]
      && after[i][id].version == after[j][id].version
      ensures after[i][id] == after[j][id]
    {
      var k :| 0 <= k < |parts| && id in parts[k] && parts[k][id] == after[i][id];
      var l :| 0 <= l < |parts| && id in parts[l] && parts[l][id] == after[j][id];
    }
  }

  /** Compaction invents no document. */
  lemma CompactedFrom(parts: seq<Contents>, selected: set<nat>, i: nat, id: string)
    requires i < |Compacted(parts, selected)| && id in Compacted(parts, selected)[i]
    ensures exists k :: 0 <= k < |parts| && id in parts[k] && parts[k][id] == Compacted(parts, selected)[i][id]
  {
    hide JoinAll, Chosen, Others;
    var chosen, others := Chosen(parts, selected), Others(parts, selected);
    ChosenMembers(parts, selected);
    var part := Compacted(parts, selected)[i];
    if i < |others| {
      assert part in others;
      assert part in parts;
      var k :| 0 <= k < |parts| && parts[k] == part;
      assert id in parts[k];
    } else {
      JoinAllIsNewest(chosen, id);
      var k :| 0 <= k < |chosen| && id in chosen[k] && chosen[k][id] == part[id];
      assert chosen[k] in chosen;
      assert chosen[k] in parts;
      var l :| 0 <= l < |parts| && parts[l] == chosen[k];
      assert id in parts[l];
    }
  }

  // ---- the resolution loop ----

  function Parts(segments: seq<Segment>): (r: seq<Contents>)
    ensures |r| == |segments|
  {
    seq(|segments|, i requires 0 <= i < |segments| => segments[i].documents)
  }

  /** The documents kept so far and a later record give one version of an ID different delete flags. */
  predicate Conflicts(winners: Contents, more: Contents) {
    exists id ::
      id in winners && id in more && more[id].version == winners[id].version && more[id].deleted != winners[id].deleted
  }

  /** The first thing wrong with a list of segments. */
  function Trouble(segments: seq<Segment>): Option<GenerationError> {
    if segments == [] then None
    else
      var n := |segments| - 1;
      var before := Trouble(segments[..n]);
      if before.Some? then before
      else if segments[n].schema != segments[0].schema then Some(SchemaMismatch)
      else if Conflicts(JoinAll(Parts(segments[..n])), segments[n].documents) then Some(InvalidDocument)
      else None
  }

  function Only(c: Contents, ids: set<string>): Contents {
    map id | id in c && id in ids :: c[id]
  }

  /** The records of `done` have competed. */
  ghost predicate Competed(winners: Contents, records: Contents, done: set<string>, kept: Contents) {
    kept == Join(winners, Only(records, done)) && !Conflicts(winners, Only(records, done))
  }

  lemma Compete(winners: Contents, records: Contents, done: set<string>, id: string, kept: Contents)
    requires Competed(winners, records, done, kept) && id in records && id !in done
    ensures id in kept <==> id in winners
    ensures id in winners ==> kept[id] == winners[id]
    ensures (id !in kept || records[id].version > kept[id].version)
      ==> Competed(winners, records, done + {id}, kept[id := records[id]])
    ensures (id in kept && records[id].version == kept[id].version && records[id].deleted != kept[id].deleted)
      ==> Conflicts(winners, records)
    ensures !(id !in kept || records[id].version > kept[id].version)
      && !(records[id].version == kept[id].version && records[id].deleted != kept[id].deleted)
      ==> Competed(winners, records, done + {id}, kept)
  {
    var after := Only(records, done + {id});
    assert after == Only(records, done)[id := records[id]];
    if id !in kept || records[id].version > kept[id].version {
      assert kept[id := records[id]] == Join(winners, after);
    } else {
      assert kept == Join(winners, after);
    }
  }

  /** The records of one segment compete with the winners so far. */
  method AddRecords(winners: Contents, records: Contents) returns (r: Result<Contents, GenerationError>)
    ensures r == if Conflicts(winners, records) then Err(InvalidDocument) else Ok(Join(winners, records))
  {
    hide Competed, Conflicts, Join;
    var kept := winners;
    var todo := records.Keys;
    NoneCompeted(winners, records);
    while todo != {}
      invariant todo <= records.Keys && Competed(winners, records, records.Keys - todo, kept)
      decreases |todo|
    {
      var id := Least(todo);
      Compete(winners, records, records.Keys - todo, id, kept);
      assert records.Keys - (todo - {id}) == (records.Keys - todo) + {id};
      if id !in kept || records[id].version > kept[id].version {
        kept := kept[id := records[id]];
      } else if records[id].version == kept[id].version && records[id].deleted != kept[id].deleted {
        return Err(InvalidDocument);
      }
      todo := todo - {id};
    }
    AllCompeted(winners, records, kept);
    r := Ok(kept);
  }

  lemma NoneCompeted(winners: Contents, records: Contents)
    ensures Competed(winners, records, records.Keys - records.Keys, winners)
  {
  }

  lemma AllCompeted(winners: Contents, records: Contents, kept: Contents)
    requires Competed(winners, records, records.Keys - {}, kept)
    ensures kept == Join(winners, records) && !Conflicts(winners, records)
  {
    assert Only(records, records.Keys - {}) == records;
  }

  /** The loop of `GenerationView::open` and of `SegmentMerger::merge_segments`. */
  method ResolveSegments(segments: seq<Segment>) returns (r: Result<Contents, GenerationError>)
    ensures segments == [] ==> r == Err(EmptyGeneration)
    ensures segments != [] ==>
      r == match Trouble(segments) case Some(e) => Err(e) case None => Ok(JoinAll(Parts(segments)))
  {
    hide Join, Conflicts;
    if segments == [] { return Err(EmptyGeneration); }
    var winners: Contents := map[];
    for i := 0 to |segments|
      invariant Trouble(segments[..i]).None? && winners == JoinAll(Parts(segments[..i]))
    {
      var upTo := segments[..i + 1];
      assert upTo[..i] == segments[..i] && upTo[0] == segments[0];
      assert Parts(upTo)[..i] == Parts(segments[..i]);
      if segments[i].schema != segments[0].schema {
        TroubleLasts(segments, i + 1);
        return Err(SchemaMismatch);
      }
      var added := AddRecords(winners, segments[i].documents);
      match added {
        case Err(e) =>
          TroubleLasts(segments, i + 1);
          return Err(e);
        case Ok(next) => winners := next;
      }
    }
    assert segments[..|segments|] == segments;
    r := Ok(winners);
  }

  lemma {:induction false} TroubleLasts(segments: seq<Segment>, n: nat)
    requires n <= |segments| && Trouble(segments[..n]).Some?
    ensures Trouble(segments) == Trouble(segments[..n])
    decreases |segments| - n
  {
    if n < |segments| {
      assert segments[..n + 1][..n] == segments[..n];
      TroubleLasts(segments, n + 1);
    } else {
      assert segments[..n] == segments;
    }
  }

  /** Segments of one schema whose versions never disagree always resolve. */
  lemma {:induction false} AgreeingSegmentsResolve(segments: seq<Segment>)
    requires Agree(Parts(segments)) && forall i :: 0 <= i < |segments| ==> segments[i].schema == segments[0].schema
    ensures Trouble(segments).None?
  {
    if segments != [] {
      var n := |segments| - 1;
      var parts := Parts(segments);
      assert Parts(segments[..n]) == parts[..n];
      AgreeingSegmentsResolve(segments[..n]);
      var before := JoinAll(parts[..n]);
      forall id | id in before && id in parts[n] && parts[n][id].version == before[id].version
        ensures parts[n][id] == before[id]
      {
        JoinAllIsNewest(parts[..n], id);
        var i :| 0 <= i < n && id in parts[..n][i] && parts[..n][i][id] == before[id];
        assert id in parts[i] && parts[i][id] == before[id];
      }
    }
  }

  // ---- the resolved index ----

  function ContentsOf(slots: Slots): Contents {
    if slots == [] then map[] else ContentsOf(slots[..|slots| - 1])[slots[|slots| - 1].id := slots[|slots| - 1]]
  }

  lemma {:induction false} ContentsKeys(slots: Slots, id: string)
    ensures id in ContentsOf(slots) <==> Find(slots, id).Some?
  {
    if slots != [] { ContentsKeys(slots[..|slots| - 1], id); }
  }

  lemma {:induction false} ContentsAt(slots: Slots, id: string)
    requires Find(slots, id).Some?
    ensures id in ContentsOf(slots) && ContentsOf(slots)[id] == slots[Find(slots, id).value]
  {
    if slots[|slots| - 1].id != id { ContentsAt(slots[..|slots| - 1], id); }
  }

  /** The documents a snapshot of an index carries. */
  method Snapshot(index: InMemoryIndex) returns (r: Contents)
    requires index.Valid()
    ensures r == ContentsOf(index.slots)
  {
    r := map id | id in index.documents :: index.documents[id].document;
    forall id ensures id in r <==> id in ContentsOf(index.slots)
              ensures id in r ==> r[id] == ContentsOf(index.slots)[id]
    {
      RecordOfId(index.schema, index.slots, index.documents, id);
      ContentsKeys(index.slots, id);
      if id in r { ContentsAt(index.slots, id); }
    }
  }

  const MAXIMUM_DOCUMENTS: nat := U32_LIMIT - 1

  ghost predicate AllStorable(schema: Schema, c: Contents) {
    Keyed(c) && forall id :: id in c ==> Storable(schema, c[id])
  }

  lemma ContentsOfAppend(slots: Slots, d: Document)
    ensures ContentsOf(slots + [d]) == ContentsOf(slots)[d.id := d]
  {
    assert (slots + [d])[..|slots|] == slots;
  }

  lemma FreshIsAccepted(schema: Schema, slots: Slots, d: Document)
    requires Storable(schema, d) && d.id !in ContentsOf(slots) && |slots| < MAXIMUM_DOCUMENTS
    ensures Refusal(schema, slots, MAXIMUM_DOCUMENTS, d).None?
    ensures Store(slots, d) == slots + [d] && ContentsOf(slots + [d]) == ContentsOf(slots)[d.id := d]
  {
    hide ContentsOf, FieldsAccepted, MetadataAccepted, Analyzable, Usable;
    ContentsKeys(slots, d.id);
    ContentsOfAppend(slots, d);
  }

  /** Winners enter a fresh index one by one, in order of their IDs. */
  method BuildIndex(schema: Schema, winners: Contents) returns (r: Result<InMemoryIndex, GenerationError>)
    requires Usable(schema) && AllStorable(schema, winners)
    ensures r.Ok? <==> |winners| <= MAXIMUM_DOCUMENTS
    ensures r.Err? ==> r.error == InvalidDocument
    ensures r.Ok? ==>
      fresh(r.value) && r.value.Valid() && r.value.schema == schema && ContentsOf(r.value.slots) == winners
    ensures r.Ok? ==> r.value.maximumId == MAXIMUM_DOCUMENTS
  {
    hide InMemoryIndex.Valid, Refusal, ContentsOf, Store, Storable, Usable;
    var index := new InMemoryIndex(schema, MAXIMUM_DOCUMENTS);
    var todo := winners.Keys;
    EmptyContents();
    while todo != {}
      invariant fresh(index) && index.Valid() && index.schema == schema && index.maximumId == MAXIMUM_DOCUMENTS
      invariant todo <= winners.Keys && |index.slots| + |todo| == |winners.Keys| && |index.slots| <= MAXIMUM_DOCUMENTS
      invariant ContentsOf(index.slots) == Only(winners, winners.Keys - todo)
      decreases |todo|
    {
      var id := Least(todo);
      assert Only(winners, winners.Keys - (todo - {id})) == Only(winners, winners.Keys - todo)[id := winners[id]];
      assert |winners| == |winners.Keys|;
      if |index.slots| == MAXIMUM_DOCUMENTS {
        FullIndexRefuses(schema, index.slots, winners[id]);
      } else {
        FreshIsAccepted(schema, index.slots, winners[id]);
      }
      var put := index.Put(winners[id]);
      if put.Err? { return Err(InvalidDocument); }
      todo := todo - {id};
    }
    assert Only(winners, winners.Keys) == winners;
    assert |winners| == |winners.Keys|;
    r := Ok(index);
  }

  lemma EmptyContents()
    ensures ContentsOf([]) == map[]
  {
  }

  lemma FullIndexRefuses(schema: Schema, slots: Slots, d: Document)
    requires Storable(schema, d) && d.id !in ContentsOf(slots) && |slots| == MAXIMUM_DOCUMENTS
    ensures Refusal(schema, slots, MAXIMUM_DOCUMENTS, d).Some?
  {
    ContentsKeys(slots, d.id);
  }

  // ---- choosing what to merge ----

  /** Order of candidates: smaller files first, then earlier positions. */
  predicate Smaller(sizes: seq<nat>, i: nat, j: nat)
    requires i < |sizes| && j < |sizes|
  {
    sizes[i] < sizes[j] || (sizes[i] == sizes[j] && i < j)
  }

  /** `selected` are `count` smallest candidates. */
  ghost predicate Smallest(sizes: seq<nat>, selected: set<nat>, count: nat) {
    && |selected| == count && (forall i: nat :: i in selected ==> i < |sizes|)
    && forall i: nat, j: nat :: i in selected && j < |sizes| && j !in selected ==>
      sizes[i] < sizes[j] || (sizes[i] == sizes[j] && i < j)
  }

  function Positions(n: nat): (s: set<nat>)
    ensures |s| == n && forall i: nat :: i in s <==> i < n
  {
    if n == 0 then {} else Positions(n - 1) + {n - 1}
  }

  lemma SomeLeft(n: nat, selected: set<nat>)
    requires |selected| < n
    ensures exists i: nat :: i < n && i !in selected
  {
    if forall i: nat :: i < n ==> i in selected {
      assert Positions(n) <= selected;
      SubsetSize(Positions(n), selected);
    }
  }

  method ChooseSmallest(sizes: seq<nat>, count: nat) returns (selected: set<nat>)
    requires count <= |sizes|
    ensures Smallest(sizes, selected, count)
  {
    selected := {};
    while |selected| < count
      invariant Smallest(sizes, selected, |selected|) && |selected| <= count
      decreases count - |selected|
    {
      SomeLeft(|sizes|, selected);
      var best: nat := |sizes|;
      for i := 0 to |sizes|
        invariant best == |sizes| || (best < |sizes| && best !in selected)
        invariant forall j: nat :: j < i && j !in selected && j != best ==> best < |sizes| && Smaller(sizes, best, j)
      {
        if i !in selected && (best == |sizes| || Smaller(sizes, i, best)) { best := i; }
      }
      selected := selected + {best};
    }
  }

  function Min(a: nat, b: nat): nat { if a < b then a else b }

  // ---- writing a segment ----

  /** A segment file is opened again before it gets its name, under the default read limits. One of
      them is the number of documents; `fits` stands for the others: the size of the file, of names
      and texts, and the numbers of fields, terms, postings and positions. */
  const MAXIMUM_SEGMENT_DOCUMENTS: nat := 10_000_000

  predicate Writable(fits: Contents -> bool, c: Contents) {
    |c| <= MAXIMUM_SEGMENT_DOCUMENTS && fits(c)
  }

  /** `merge_segments`: the resolution of the selected segments, written as one. A merged index numbers
      its documents in order of their IDs, so its file is determined by what it holds. */
  method MergeSegments(segments: seq<Segment>, id: nat, fits: Contents -> bool)
    returns (r: Result<Segment, GenerationError>)
    requires segments != [] ==> Usable(segments[0].schema)
    requires forall i :: 0 <= i < |segments| ==> AllStorable(segments[0].schema, segments[i].documents)
    ensures segments == [] ==> r == Err(EmptyGeneration)
    ensures segments != [] && Trouble(segments).Some? ==> r == Err(Trouble(segments).value)
    ensures segments != [] && Trouble(segments).None? ==>
      var merged := JoinAll(Parts(segments));
      r == if |merged| > MAXIMUM_DOCUMENTS then Err(InvalidDocument)
           else if id == 0 || !Writable(fits, merged) then Err(SegmentError)
           else Ok(Segment(id, segments[0].schema, merged))
  {
    hide Trouble, Parts, JoinAll, AllStorable, Usable, ContentsOf;
    var resolved := ResolveSegments(segments);
    if resolved.Err? { return Err(resolved.error); }
    JoinAllStorable(segments[0].schema, segments);
    var index := BuildIndex(segments[0].schema, resolved.value);
    if index.Err? { return Err(InvalidDocument); }
    var documents := Snapshot(index.value);
    if id == 0 || !Writable(fits, documents) { return Err(SegmentError); }
    r := Ok(Segment(id, segments[0].schema, documents));
  }

  lemma JoinAllStorable(schema: Schema, segments: seq<Segment>)
    requires forall i :: 0 <= i < |segments| ==> AllStorable(schema, segments[i].documents)
    ensures AllStorable(schema, JoinAll(Parts(segments)))
  {
    hide JoinAll, Storable;
    var merged := JoinAll(Parts(segments));
    forall id | id in merged ensures merged[id].id == id && Storable(schema, merged[id]) {
      JoinAllIsNewest(Parts(segments), id);
      var i :| 0 <= i < |segments| && id in segments[i].documents && segments[i].documents[id] == merged[id];
    }
  }

  /** A generation the writer can have: one schema, agreeing versions, documents an index accepts. */
  ghost predicate Sound(segments: seq<Segment>) {
    && Agree(Parts(segments))
    && (forall i :: 0 <= i < |segments| ==>
          && segments[i].schema == segments[0].schema && Usable(segments[i].schema)
          && AllStorable(segments[i].schema, segments[i].documents))
    && |JoinAll(Parts(segments))| <= MAXIMUM_DOCUMENTS
  }

  /** What the chosen segments merge to. */
  function MergeOf(segments: seq<Segment>, selected: set<nat>): Contents {
    JoinAll(Parts(Chosen(segments, selected)))
  }

  /** The generation once the chosen segments are one. */
  function CompactedBy(segments: seq<Segment>, selected: set<nat>, id: nat): seq<Segment>
    requires segments != []
  {
    Others(segments, selected) + [Segment(id, segments[0].schema, MergeOf(segments, selected))]
  }

  /** There is one choice of smallest segments. */
  lemma SmallestIsUnique(sizes: seq<nat>, a: set<nat>, b: set<nat>, count: nat)
    requires Smallest(sizes, a, count) && Smallest(sizes, b, count)
    ensures a == b
  {
    forall i | i in a ensures i in b {
      if i !in b { NotWithin(b, a); }
    }
    EqualSize(a, b);
  }

  lemma NotWithin(a: set<nat>, b: set<nat>)
    requires a != b && |a| == |b|
    ensures exists i :: i in a && i !in b
  {
    if a <= b { EqualSize(a, b); }
  }

  lemma EqualSize(a: set<nat>, b: set<nat>)
    requires a <= b && |a| == |b|
    ensures a == b
  {
    assert b == a + (b - a);
    assert |b - a| == 0;
  }

  /** `compact_published`: the smallest segments become one if what they merge to can be written;
      otherwise the call fails and the generation stays what it is. */
  method Compact(segments: seq<Segment>, sizes: seq<nat>, width: nat, id: nat, fits: Contents -> bool)
    returns (r: Result<seq<Segment>, GenerationError>)
    requires Sound(segments) && |sizes| == |segments| && width >= 2 && id > 0
    ensures |segments| <= 1 ==> r == Ok(segments)
    ensures |segments| > 1 ==> exists selected: set<nat> ::
      && Smallest(sizes, selected, Min(width, |segments|))
      && r == (if Writable(fits, MergeOf(segments, selected)) then Ok(CompactedBy(segments, selected, id))
               else Err(SegmentError))
    ensures r.Ok? ==> Sound(r.value) && JoinAll(Parts(r.value)) == JoinAll(Parts(segments))
    ensures r.Ok? && |segments| > 1 ==> |r.value| == |segments| - Min(width, |segments|) + 1
  {
    hide JoinAll, Parts, Trouble, Sound, Chosen, Others, Smallest, Writable;
    if |segments| <= 1 { return Ok(segments); }
    var selected := ChooseSmallest(sizes, Min(width, |segments|));
    ChosenIsSound(segments, selected, sizes, Min(width, |segments|), id);
    var merged := MergeSegments(Chosen(segments, selected), id, fits);
    match merged {
      case Err(e) => return Err(e);
      case Ok(segment) => return Ok(Others(segments, selected) + [segment]);
    }
  }

  lemma {:induction false} ChosenCount<T>(parts: seq<T>, selected: set<nat>)
    requires forall i :: i in selected ==> i < |parts|
    ensures |Chosen(parts, selected)| == |selected|
  {
    if parts == [] {
      assert selected == {};
    } else {
      var n := |parts| - 1;
      ChosenCount(parts[..n], selected - {n});
      ChosenByMembers(parts[..n], selected, selected - {n});
      if n in selected { assert selected == (selected - {n}) + {n}; } else { assert selected == selected - {n}; }
    }
  }

  lemma {:induction false} ChosenByMembers<T>(parts: seq<T>, a: set<nat>, b: set<nat>)
    requires forall i :: 0 <= i < |parts| ==> (i in a <==> i in b)
    ensures Chosen(parts, a) == Chosen(parts, b)
  {
    if parts != [] { ChosenByMembers(parts[..|parts| - 1], a, b); }
  }

  lemma {:induction false} PartsOfChosen(segments: seq<Segment>, selected: set<nat>)
    ensures Parts(Chosen(segments, selected)) == Chosen(Parts(segments), selected)
    ensures Parts(Others(segments, selected)) == Others(Parts(segments), selected)
  {
    if segments != [] {
      var n := |segments| - 1;
      PartsOfChosen(segments[..n], selected);
      assert Parts(segments)[..n] == Parts(segments[..n]);
    }
  }

  lemma ChosenIsSound(segments: seq<Segment>, selected: set<nat>, sizes: seq<nat>, count: nat, id: nat)
    requires Sound(segments) && |sizes| == |segments| && 1 <= count <= |segments| && Smallest(sizes, selected, count)
    ensures var chosen := Chosen(segments, selected);
      && |chosen| == count && |Others(segments, selected)| == |segments| - count
      && chosen[0].schema == segments[0].schema && Usable(chosen[0].schema)
      && (forall i :: 0 <= i < |chosen| ==> AllStorable(chosen[0].schema, chosen[i].documents))
      && Trouble(chosen).None? && |JoinAll(Parts(chosen))| <= MAXIMUM_DOCUMENTS
      && var after := Others(segments, selected) + [Segment(id, segments[0].schema, JoinAll(Parts(chosen)))];
         Sound(after) && JoinAll(Parts(after)) == JoinAll(Parts(segments))
  {
    hide JoinAll, Trouble, Chosen, Others, AllStorable, Usable, Smallest;
    SmallestAreIndices(sizes, selected, count);
    var chosen, others := Chosen(segments, selected), Others(segments, selected);
    ChosenCount(segments, selected);
    ChosenMembers(segments, selected);
    PartsOfChosen(segments, selected);
    forall i | 0 <= i < |chosen|
      ensures chosen[i].schema == segments[0].schema && AllStorable(segments[0].schema, chosen[i].documents)
    {
      assert chosen[i] in chosen;
    }
    forall i | 0 <= i < |others|
      ensures others[i].schema == segments[0].schema && AllStorable(segments[0].schema, others[i].documents)
    {
      assert others[i] in others;
    }
    ChosenAgree(Parts(segments), selected);
    AgreeingSegmentsResolve(chosen);
    JoinAllStorable(segments[0].schema, chosen);
    CompactionPreserves(Parts(segments), selected);
    AgreeCompacted(Parts(segments), selected);
    ChosenFits(Parts(segments), selected);
    var after := others + [Segment(id, segments[0].schema, JoinAll(Parts(chosen)))];
    assert Parts(after) == Parts(others) + [JoinAll(Parts(chosen))];
    assert segments[0].schema == segments[0].schema && Usable(segments[0].schema);
  }

  lemma SmallestAreIndices(sizes: seq<nat>, selected: set<nat>, count: nat)
    requires Smallest(sizes, selected, count)
    ensures |selected| == count && forall i :: i in selected ==> i < |sizes|
  {
  }

  lemma ChosenAgree(parts: seq<Contents>, selected: set<nat>)
    requires Agree(parts)
    ensures Agree(Chosen(parts, selected))
  {
    hide Chosen;
    var chosen := Chosen(parts, selected);
    ChosenMembers(parts, selected);
    forall i | 0 <= i < |chosen| ensures exists k :: 0 <= k < |parts| && parts[k] == chosen[i] {
      assert chosen[i] in chosen;
    }
  }

  lemma ChosenFits(parts: seq<Contents>, selected: set<nat>)
    ensures |JoinAll(Chosen(parts, selected))| <= |JoinAll(parts)|
  {
    hide JoinAll, Chosen;
    var chosen := Chosen(parts, selected);
    ChosenMembers(parts, selected);
    forall id | id in JoinAll(chosen) ensures id in JoinAll(parts) {
      JoinAllIsNewest(chosen, id);
      JoinAllIsNewest(parts, id);
      var i :| 0 <= i < |chosen| && id in chosen[i];
      assert chosen[i] in chosen;
      var k :| 0 <= k < |parts| && parts[k] == chosen[i];
      assert id in parts[k];
    }
    SubsetSize(JoinAll(chosen).Keys, JoinAll(parts).Keys);
    assert |JoinAll(chosen)| == |JoinAll(chosen).Keys| && |JoinAll(parts)| == |JoinAll(parts).Keys|;
  }

  function SizesOf(segments: seq<Segment>, size: Contents -> nat): (r: seq<nat>)
    ensures |r| == |segments|
  {
    if segments == [] then []
    else SizesOf(segments[..|segments| - 1], size) + [size(segments[|segments| - 1].documents)]
  }

  /** Every merge on the way to a single segment can be written. */
  ghost predicate MergesThrough(segments: seq<Segment>, width: nat, id: nat, size: Contents -> nat,
                                fits: Contents -> bool)
    decreases |segments|
  {
    |segments| <= 1 ||
    exists selected: set<nat> ::
      && Smallest(SizesOf(segments, size), selected, Min(width, |segments|))
      && Writable(fits, MergeOf(segments, selected))
      && var next := CompactedBy(segments, selected, id);
         |next| < |segments| && MergesThrough(next, width, id + 1, size, fits)
  }

  /** The next merge cannot be written. */
  ghost predicate Stuck(segments: seq<Segment>, width: nat, size: Contents -> nat, fits: Contents -> bool) {
    |segments| > 1 &&
    exists selected: set<nat> ::
      && Smallest(SizesOf(segments, size), selected, Min(width, |segments|))
      && !Writable(fits, MergeOf(segments, selected))
  }

  lemma MergeStep(segments: seq<Segment>, selected: set<nat>, width: nat, id: nat, size: Contents -> nat,
                  fits: Contents -> bool)
    requires |segments| > 1 && Smallest(SizesOf(segments, size), selected, Min(width, |segments|))
    requires |CompactedBy(segments, selected, id)| < |segments|
    ensures MergesThrough(segments, width, id, size, fits) <==>
      && Writable(fits, MergeOf(segments, selected))
      && MergesThrough(CompactedBy(segments, selected, id), width, id + 1, size, fits)
  {
    hide Smallest, Writable, MergeOf, Others;
    forall other: set<nat> | Smallest(SizesOf(segments, size), other, Min(width, |segments|))
      ensures other == selected
    {
      SmallestIsUnique(SizesOf(segments, size), other, selected, Min(width, |segments|));
    }
  }

  lemma StuckStaysApart(segments: seq<Segment>, width: nat, id: nat, size: Contents -> nat, fits: Contents -> bool)
    requires Stuck(segments, width, size, fits)
    ensures !MergesThrough(segments, width, id, size, fits)
  {
    hide Smallest, Writable, MergeOf, Others;
    var selected: set<nat> :| Smallest(SizesOf(segments, size), selected, Min(width, |segments|))
      && !Writable(fits, MergeOf(segments, selected));
    forall other: set<nat> | Smallest(SizesOf(segments, size), other, Min(width, |segments|))
      ensures other == selected
    {
      SmallestIsUnique(SizesOf(segments, size), other, selected, Min(width, |segments|));
    }
  }

  /** The loop of `merge_all` when nothing else writes. It ends with at most one segment if and only if
      every merge on the way can be written; otherwise it stops with an error before the first that
      cannot. What is left resolves to what the generation resolved to, whichever way it ends. */
  method MergeAll(segments: seq<Segment>, width: nat, nextId: nat, size: Contents -> nat, fits: Contents -> bool)
    returns (r: Result<(), GenerationError>, left: seq<Segment>)
    requires Sound(segments) && width >= 2 && nextId > 0
    ensures Sound(left) && JoinAll(Parts(left)) == JoinAll(Parts(segments)) && (left == [] <==> segments == [])
    ensures r.Ok? <==> MergesThrough(segments, width, nextId, size, fits)
    ensures r.Ok? ==> |left| <= 1
    ensures r.Err? ==> r.error == SegmentError && Stuck(left, width, size, fits)
  {
    hide JoinAll, Parts, Sound, Smallest, Others, Chosen, Writable, MergesThrough;
    var id := nextId;
    left := segments;
    while |left| > 1
      invariant Sound(left) && JoinAll(Parts(left)) == JoinAll(Parts(segments)) && id > 0
      invariant left == [] <==> segments == []
      invariant MergesThrough(left, width, id, size, fits) <==> MergesThrough(segments, width, nextId, size, fits)
      decreases |left|
    {
      var sizes := SizesOf(left, size);
      var compacted := Compact(left, sizes, width, id, fits);
      ghost var selected: set<nat> :| Smallest(sizes, selected, Min(width, |left|))
        && compacted == (if Writable(fits, MergeOf(left, selected)) then Ok(CompactedBy(left, selected, id))
                         else Err(SegmentError));
      match compacted {
        case Err(e) =>
          StuckStaysApart(left, width, id, size, fits);
          return Err(e), left;
        case Ok(next) =>
          MergeStep(left, selected, width, id, size, fits);
          left := next;
      }
      id := id + 1;
    }
    OneIsThrough(left, width, id, size, fits);
    r := Ok(());
  }

  lemma OneIsThrough(segments: seq<Segment>, width: nat, id: nat, size: Contents -> nat, fits: Contents -> bool)
    requires |segments| <= 1
    ensures MergesThrough(segments, width, id, size, fits)
  {
  }

  // ---- when the merges go through ----

  /** The last merge holds everything, so everything has to be writable as one segment. */
  lemma {:induction false} ThroughNeedsWhole(segments: seq<Segment>, width: nat, id: nat, size: Contents -> nat,
                                             fits: Contents -> bool)
    requires Sound(segments) && width >= 2 && |segments| > 1 && MergesThrough(segments, width, id, size, fits)
    ensures Writable(fits, JoinAll(Parts(segments)))
    decreases |segments|
  {
    hide JoinAll, Parts, Sound, Smallest, Others, Chosen, Writable;
    var sizes, count := SizesOf(segments, size), Min(width, |segments|);
    var selected: set<nat> :| Smallest(sizes, selected, count) && Writable(fits, MergeOf(segments, selected))
      && |CompactedBy(segments, selected, id)| < |segments|
      && MergesThrough(CompactedBy(segments, selected, id), width, id + 1, size, fits);
    ChosenIsSound(segments, selected, sizes, count, id);
    var next := CompactedBy(segments, selected, id);
    if |next| > 1 {
      ThroughNeedsWhole(next, width, id + 1, size, fits);
    } else {
      OnePart(next);
    }
  }

  lemma OnePart(segments: seq<Segment>)
    requires |segments| == 1
    ensures JoinAll(Parts(segments)) == segments[0].documents
  {
    var parts := Parts(segments);
    assert parts[..0] == [];
    assert Join(map[], segments[0].documents) == segments[0].documents;
  }

  /** Where only the number of documents matters, the whole decides: no merge on the way has more. */
  lemma {:induction false} ThroughByCount(segments: seq<Segment>, width: nat, id: nat, size: Contents -> nat,
                                          fits: Contents -> bool)
    requires Sound(segments) && width >= 2 && forall c: Contents :: fits(c)
    ensures MergesThrough(segments, width, id, size, fits)
      <==> |segments| <= 1 || |JoinAll(Parts(segments))| <= MAXIMUM_SEGMENT_DOCUMENTS
    decreases |segments|
  {
    hide JoinAll, Parts, Sound, Smallest, Others, Chosen, MergesThrough;
    if |segments| <= 1 {
      OneIsThrough(segments, width, id, size, fits);
    } else if |JoinAll(Parts(segments))| <= MAXIMUM_SEGMENT_DOCUMENTS {
      var sizes, count := SizesOf(segments, size), Min(width, |segments|);
      var selected := SomeSmallest(sizes, count);
      ChosenIsSound(segments, selected, sizes, count, id);
      PartsOfChosen(segments, selected);
      ChosenFits(Parts(segments), selected);
      ThroughByCount(CompactedBy(segments, selected, id), width, id + 1, size, fits);
      MergeStep(segments, selected, width, id, size, fits);
    } else if MergesThrough(segments, width, id, size, fits) {
      ThroughNeedsWhole(segments, width, id, size, fits);
    }
  }

  lemma {:induction false} SomeSmallest(sizes: seq<nat>, count: nat) returns (selected: set<nat>)
    requires count <= |sizes|
    ensures Smallest(sizes, selected, count)
    decreases count
  {
    if count == 0 { return {}; }
    var before := SomeSmallest(sizes, count - 1);
    SomeLeft(|sizes|, before);
    var best := LeastOutside(sizes, before, |sizes|);
    selected := before + {best};
  }

  lemma {:induction false} LeastOutside(sizes: seq<nat>, out: set<nat>, n: nat) returns (best: nat)
    requires n <= |sizes| && exists i: nat :: i < n && i !in out
    ensures best < n && best !in out
    ensures forall j: nat :: j < n && j !in out && j != best ==> Smaller(sizes, best, j)
    decreases n
  {
    if exists i: nat :: i < n - 1 && i !in out {
      best := LeastOutside(sizes, out, n - 1);
      if n - 1 !in out && Smaller(sizes, n - 1, best) { best := n - 1; }
    } else {
      best := n - 1;
    }
  }

  // ---- a generation that cannot become one segment ----

  /** `n` documents without content, numbered from `start`. */
  function Numbered(start: nat, n: nat): Contents
    decreases n
  {
    if n == 0 then map[] else Numbered(start, n - 1)[Decimal(start + n - 1) := Bare(Decimal(start + n - 1))]
  }

  function Bare(id: string): Document {
    Document(id, map[], map[], 1, false)
  }

  predicate Named(start: nat, n: nat, id: string) {
    exists i :: start <= i < start + n && id == Decimal(i)
  }

  lemma NamedNext(start: nat, n: nat, id: string)
    requires n > 0
    ensures Named(start, n, id) <==> Named(start, n - 1, id) || id == Decimal(start + n - 1)
    ensures !Named(start, n - 1, Decimal(start + n - 1)) && Decimal(start + n - 1) != ""
  {
    hide Decimal;
    var last := start + n - 1;
    DecimalRoundTrip(last);
    if Named(start, n - 1, Decimal(last)) {
      var i :| start <= i < last && Decimal(last) == Decimal(i);
      DecimalInjective(i, last);
    }
  }

  lemma {:induction false} NumberedHas(start: nat, n: nat, id: string)
    ensures id in Numbered(start, n) <==> Named(start, n, id)
    ensures id in Numbered(start, n) ==> id != "" && Numbered(start, n)[id] == Bare(id)
    decreases n
  {
    hide Decimal, Named;
    if n > 0 {
      NumberedHas(start, n - 1, id);
      NamedNext(start, n, id);
    } else {
      assert !Named(start, 0, id) by { NoneNamed(start, id); }
    }
  }

  lemma NoneNamed(start: nat, id: string)
    ensures !Named(start, 0, id)
  {
  }

  lemma {:induction false} NumberedCount(start: nat, n: nat)
    ensures |Numbered(start, n)| == n
    decreases n
  {
    hide Decimal, Named;
    if n > 0 {
      var before, last := Numbered(start, n - 1), Decimal(start + n - 1);
      NumberedCount(start, n - 1);
      NumberedHas(start, n - 1, last);
      NamedNext(start, n, last);
      assert |Numbered(start, n)| == |before| + 1;
    }
  }

  lemma NumberedApart(n: nat, id: string)
    requires id in Numbered(0, n)
    ensures id !in Numbered(n, n)
  {
    hide Decimal, Numbered;
    NumberedHas(0, n, id);
    NumberedHas(n, n, id);
    if id in Numbered(n, n) {
      var i :| 0 <= i < n && id == Decimal(i);
      var j :| n <= j < n + n && id == Decimal(j);
      DecimalInjective(i, j);
    }
  }

  /** Two segments of `n` documents each, no document in both. */
  function TwoSegments(n: nat): seq<Segment> {
    [Segment(1, map[], Numbered(0, n))] + [Segment(2, map[], Numbered(n, n))]
  }

  lemma TwoSegmentsAreSound(n: nat)
    requires 2 * n <= MAXIMUM_DOCUMENTS
    ensures Sound(TwoSegments(n)) && |JoinAll(Parts(TwoSegments(n)))| == 2 * n
  {
    hide Numbered, JoinAll, Parts, Agree, AllStorable, Usable;
    var a, b := Numbered(0, n), Numbered(n, n);
    forall id
      ensures id in a ==> id !in b && a[id] == Bare(id) && id != ""
      ensures id in b ==> b[id] == Bare(id) && id != ""
    {
      NumberedHas(0, n, id);
      NumberedHas(n, n, id);
      if id in a { NumberedApart(n, id); }
    }
    NumberedCount(0, n);
    NumberedCount(n, n);
    BareIsStorable(a);
    BareIsStorable(b);
    TwoParts(TwoSegments(n), a, b);
  }

  lemma BareIsStorable(c: Contents)
    requires forall id :: id in c ==> id != "" && c[id] == Bare(id)
    ensures Usable(map[]) && AllStorable(map[], c)
  {
  }

  lemma TwoParts(segments: seq<Segment>, a: Contents, b: Contents)
    requires |segments| == 2 && segments[0].documents == a && segments[1].documents == b && a.Keys !! b.Keys
    ensures |JoinAll(Parts(segments))| == |a| + |b| && Agree(Parts(segments))
  {
    hide JoinAll, Join, Agree;
    assert Parts(segments) == [a, b];
    JoinTwo(a, b);
    JoinCount(a, b);
    AgreeTwo(a, b);
  }

  lemma JoinTwo(a: Contents, b: Contents)
    ensures JoinAll([a, b]) == Join(a, b)
  {
    assert [a, b][..1] == [a] && [a][..0] == [];
    assert Join(map[], a) == a;
    assert JoinAll([a]) == a;
  }

  lemma JoinCount(a: Contents, b: Contents)
    requires a.Keys !! b.Keys
    ensures |Join(a, b)| == |a| + |b|
  {
    var all := Join(a, b);
    assert all.Keys == a.Keys + b.Keys;
    assert |all| == |all.Keys| && |a| == |a.Keys| && |b| == |b.Keys|;
  }

  lemma AgreeTwo(a: Contents, b: Contents)
    requires a.Keys !! b.Keys
    ensures Agree([a, b])
  {
    var parts := [a, b];
    forall i, j, id | 0 <= i < 2 && 0 <= j < 2 && id in parts[i] && id in parts[j] ensures i == j {
      assert parts[0] == a && parts[1] == b;
    }
  }

  /** Two segments of six million documents each are each within every limit and can never be merged:
      `merge_all` fails on every call and leaves both. */
  lemma TwoLargeSegmentsStay(width: nat, id: nat, size: Contents -> nat, fits: Contents -> bool)
    requires width >= 2
    ensures var segments := TwoSegments(6_000_000);
      && Sound(segments) && (forall i :: 0 <= i < |segments| ==> |segments[i].documents| <= MAXIMUM_SEGMENT_DOCUMENTS)
      && !MergesThrough(segments, width, id, size, fits)
  {
    hide Numbered, Sound, JoinAll, Parts, MergesThrough;
    var n: nat := 6_000_000;
    TwoSegmentsAreSound(n);
    NumberedCount(0, n);
    NumberedCount(n, n);
    if MergesThrough(TwoSegments(n), width, id, size, fits) {
      ThroughNeedsWhole(TwoSegments(n), width, id, size, fits);
    }
  }
}

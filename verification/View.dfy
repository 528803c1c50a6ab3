/** What the executor and the planner read of an index (include/dse/index/search_index_view.hpp).
    A view over `local` documents may take its statistics from a larger `global` corpus, as the
    view of one shard does; for a single index the two are the same. */
module Views {
  import opened Basics
  import opened Analysis
  import opened Schemas
  import opened IndexModel
  import opened Plans
  import opened Bm25

  datatype SearchView = SearchView(
    schema: Schema,
    fields: map<string, map<string, TermEntry>>,
    records: map<nat, DocumentRecord>,
    liveIds: seq<nat>,
    liveCount: nat,
    statistics: map<string, (nat, nat)>)
  {
    function Lookup(f: string, t: string): Option<TermEntry> {
      if f in fields && t in fields[f] then Some(fields[f][t]) else None
    }

    function Statistics(f: string): (nat, nat) {
      if f in statistics then statistics[f] else (0, 0)
    }
  }

  ghost predicate Represents(v: SearchView, local: Slots, global: Slots) {
    && Usable(v.schema) && DistinctIds(local) && DistinctIds(global) && |local| < U32_LIMIT
    && (forall i :: 0 <= i < |local| ==> Storable(v.schema, local[i]) && local[i] in global)
    && (forall f, t :: v.Lookup(f, t) == TermEntryOf(v.schema, local, global, f, t))
    && (forall id :: id in v.records <==> 1 <= id <= |local|)
    && (forall i :: 0 <= i < |local| ==> v.records[i + 1] == RecordFor(v.schema, local[i], i + 1))
    && v.liveIds == LiveIds(local)
    && v.liveCount == |LiveIds(global)|
    && (forall f :: v.Statistics(f) == (FieldCount(v.schema, global, f), FieldTotal(v.schema, global, f)))
  }

  // ---- postings and documents ----

  lemma {:induction false} FrequencyIsPositions(tokens: seq<Token>, t: string)
    ensures |Positions(tokens, t)| == Frequency(tokens, t)
    ensures Frequency(tokens, t) > 0 <==> t in Terms(tokens)
  {
    PositionsEmptyIff(tokens, t);
    if tokens != [] { FrequencyIsPositions(tokens[..|tokens| - 1], t); }
  }

  lemma {:induction false} PostingsAreFrequency(schema: Schema, slots: Slots, f: string, t: string)
    ensures |Postings(schema, slots, f, t)| == DocumentFrequency(schema, slots, f, t)
  {
    if slots != [] {
      var n := |slots| - 1;
      PostingsAreFrequency(schema, slots[..n], f, t);
      FrequencyIsPositions(FieldTokens(schema, slots[n], f), t);
    }
  }

  /** Each posting belongs to a document that contains the term. */
  lemma {:induction false} PostingHasSlot(schema: Schema, slots: Slots, f: string, t: string, k: nat)
    requires k < |Postings(schema, slots, f, t)|
    ensures var p := Postings(schema, slots, f, t)[k];
      && 1 <= p.doc <= |slots|
      && ContainsTerm(schema, slots[p.doc - 1], f, t)
      && p == PostingFor(schema, slots[p.doc - 1], f, t, p.doc)
    decreases |slots|
  {
    hide FieldTokens, Positions, Terms;
    var n := |slots| - 1;
    var head := Postings(schema, slots[..n], f, t);
    if k < |head| {
      PostingHasSlot(schema, slots[..n], f, t, k);
    }
  }

  /** Each document that contains the term has a posting. */
  lemma {:induction false} SlotHasPosting(schema: Schema, slots: Slots, f: string, t: string, i: nat) returns (k: nat)
    requires i < |slots| && ContainsTerm(schema, slots[i], f, t)
    ensures k < |Postings(schema, slots, f, t)|
    ensures Postings(schema, slots, f, t)[k] == PostingFor(schema, slots[i], f, t, i + 1)
    decreases |slots|
  {
    hide FieldTokens, Positions, Terms;
    var n := |slots| - 1;
    if i == n {
      k := |Postings(schema, slots[..n], f, t)|;
    } else {
      k := SlotHasPosting(schema, slots[..n], f, t, i);
    }
  }

  lemma {:induction false} LiveIdsAre(slots: Slots, id: nat)
    ensures id in LiveIds(slots) <==> 1 <= id <= |slots| && !slots[id - 1].deleted
    ensures forall i, j :: 0 <= i < j < |LiveIds(slots)| ==> LiveIds(slots)[i] < LiveIds(slots)[j]
    ensures forall i :: 0 <= i < |LiveIds(slots)| ==> 1 <= LiveIds(slots)[i] <= |slots|
    decreases |slots|
  {
    if slots != [] { LiveIdsAre(slots[..|slots| - 1], id); }
  }

  lemma {:induction false} PositionsAre(tokens: seq<Token>, t: string, x: int)
    ensures x in Positions(tokens, t) <==> OccursAt(tokens, t, x)
  {
    if tokens != [] {
      var n := |tokens| - 1;
      PositionsAre(tokens[..n], t, x);
      assert OccursAt(tokens, t, x) <==>
        OccursAt(tokens[..n], t, x) || (tokens[n].term == t && tokens[n].position == x) by {
        if OccursAt(tokens[..n], t, x) {
          var k :| 0 <= k < n && tokens[..n][k].term == t && tokens[..n][k].position == x;
          assert tokens[k].term == t && tokens[k].position == x;
        }
        if OccursAt(tokens, t, x) {
          var k :| 0 <= k < |tokens| && tokens[k].term == t && tokens[k].position == x;
          if k < n { assert tokens[..n][k].term == t; }
        }
      }
    }
  }

  ghost predicate Increasing(s: seq<nat>) {
    forall i, j :: 0 <= i < j < |s| ==> s[i] < s[j]
  }

  lemma {:induction false} PositionsIncrease(tokens: seq<Token>, t: string)
    requires forall i, j :: 0 <= i < j < |tokens| ==> tokens[i].position < tokens[j].position
    ensures Increasing(Positions(tokens, t))
    ensures forall x :: x in Positions(tokens, t) ==> exists k :: 0 <= k < |tokens| && tokens[k].position == x
  {
    if tokens != [] {
      var n := |tokens| - 1;
      PositionsIncrease(tokens[..n], t);
      var head := Positions(tokens[..n], t);
      forall i | 0 <= i < |head| ensures head[i] < tokens[n].position {
        assert head[i] in head;
        var k :| 0 <= k < n && tokens[..n][k].position == head[i];
        assert tokens[k].position == head[i];
      }
      forall x | x in Positions(tokens, t) ensures exists k :: 0 <= k < |tokens| && tokens[k].position == x {
        if x in Positions(tokens[..n], t) {
          var k :| 0 <= k < n && tokens[..n][k].position == x;
          assert tokens[k].position == x;
        } else {
          assert tokens[n].position == x;
        }
      }
    }
  }

  /** The positions of a posting increase and fit in 32 bits. */
  lemma FieldPositions(schema: Schema, d: Document, f: string, t: string)
    requires Storable(schema, d)
    ensures Increasing(Positions(FieldTokens(schema, d, f), t))
    ensures forall k :: 0 <= k < |FieldTokens(schema, d, f)| ==> FieldTokens(schema, d, f)[k].position < U32_LIMIT
  {
    var tokens := FieldTokens(schema, d, f);
    if tokens != [] {
      AnalyzeIsDisciplined(schema[f].analyzer.value, d.fields[f]);
      forall i, j | 0 <= i < j < |tokens| ensures tokens[i].position < tokens[j].position {
        DisciplinedAt(tokens, 0, 0, i);
      }
    }
    PositionsIncrease(tokens, t);
  }

  // ---- the statistics of a matching term are always consistent ----

  lemma ContainsNeedsField(schema: Schema, d: Document, f: string, t: string)
    requires ContainsTerm(schema, d, f, t)
    ensures HasField(schema, d, f) && |FieldTokens(schema, d, f)| > 0
  {
  }

  /** At every scored posting document frequency, count, length and average agree with each other,
      so the scorer never refuses them. */
  lemma StatisticsAreConsistent(schema: Schema, global: Slots, d: Document, f: string, t: string)
    requires d in global && ContainsTerm(schema, d, f, t)
    ensures var tokens := FieldTokens(schema, d, f);
      var count, total := FieldCount(schema, global, f), FieldTotal(schema, global, f);
      && count > 0 && total > 0
      && DocumentFrequency(schema, global, f, t) > 0
      && Consistent(TermStatistics(count, DocumentFrequency(schema, global, f, t), Frequency(tokens, t), |tokens|,
                                   total as real / count as real))
  {
    hide FieldTokens, Positions, Terms, FieldCount, FieldTotal, Postings, DocumentFrequency, Frequency;
    var i :| 0 <= i < |global| && global[i] == d;
    var tokens := FieldTokens(schema, d, f);
    assert HasField(schema, d, f) by { ContainsNeedsField(schema, d, f, t); }
    FrequencyIsPositions(tokens, t);
    PositionsEmptyIff(tokens, t);
    SlotIsCounted(schema, global, i, f);
    var k := SlotHasPosting(schema, global, f, t, i);
    PostingsAreFrequency(schema, global, f, t);
    FrequencyBelowCount(schema, global, f, t);
    var count, total := FieldCount(schema, global, f), FieldTotal(schema, global, f);
    assert total as real / count as real > 0.0;
  }
}

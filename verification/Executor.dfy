/** Posting-list evaluation of plans (src/query/executor.cpp). */
module Execution {
  import opened Basics
  import opened Analysis
  import opened Schemas
  import opened IndexModel
  import opened Bm25
  import opened Plans
  import opened Merging
  import opened Views

  datatype ExecutionError = InvalidOptions | PlanningFailed | InvalidQueryTree | UnknownField | IncompatibleFieldType
    | RankingError

  /** The view serves the documents `local`, scored against corpus `c`. */
  ghost predicate Serves(v: SearchView, c: Corpus, local: Slots) {
    ValidScorer(c.scorer) && c.schema == v.schema && Represents(v, local, c.global)
  }

  function VerdictAt(c: Corpus, local: Slots, plan: Plan, id: nat): Option<real>
    requires ValidScorer(c.scorer)
  {
    if 1 <= id <= |local| then Verdict(c, plan, local[id - 1]) else None
  }

  /** The list holds exactly the matching live documents with their scores, in order of ID. */
  ghost predicate Exact(c: Corpus, local: Slots, plan: Plan, r: Candidates)
    requires ValidScorer(c.scorer)
  {
    Sorted(r) && forall id :: At(r, id) == VerdictAt(c, local, plan, id)
  }

  // ---- scoring one posting ----

  function Average(s: (nat, nat)): real {
    if s.0 == 0 then 0.0 else s.1 as real / s.0 as real
  }

  function ScorePosting(v: SearchView, scorer: Scorer, f: string, entry: TermEntry, posting: Posting, boost: real)
    : Result<real, ExecutionError>
    requires ValidScorer(scorer)
  {
    if posting.doc !in v.records then Err(InvalidQueryTree)
    else
      var record := v.records[posting.doc];
      if f !in record.fieldLengths then Err(InvalidQueryTree)
      else
        var s := v.Statistics(f);
        var t := TermStatistics(s.0, entry.documentFrequency, posting.frequency, record.fieldLengths[f], Average(s));
        match Bm25.Score(scorer, t, boost, 1.0)
        case Ok(score) => Ok(score)
        case Err(_) => Err(RankingError)
  }

  /** A posting of the view is scored without error, with the score its document has in the corpus. */
  lemma ScorePostingIs(v: SearchView, c: Corpus, local: Slots, f: string, t: string, i: nat, entry: TermEntry,
                       boost: real)
    requires Serves(v, c, local) && i < |local| && ContainsTerm(v.schema, local[i], f, t) && boost >= 0.0
    requires entry.documentFrequency == |Postings(v.schema, c.global, f, t)|
    ensures ScorePosting(v, c.scorer, f, entry, PostingFor(v.schema, local[i], f, t, i + 1), boost)
      == Ok(TermScore(c, local[i], f, t, boost))
  {
    hide *;
    var d, tokens := local[i], FieldTokens(v.schema, local[i], f);
    ScoringFacts(v, c, local, f, t, i);
    StatisticsAreConsistent(v.schema, c.global, d, f, t);
    PostingsAreFrequency(v.schema, c.global, f, t);
    var s := v.Statistics(f);
    var stats := TermStatistics(s.0, entry.documentFrequency, Frequency(tokens, t), |tokens|, Average(s));
    AverageIs(s);
    ScoreOfConsistent(c.scorer, stats, boost);
    var p := PostingFor(v.schema, d, f, t, i + 1);
    ScorePostingUnfolds(v, c.scorer, f, entry, p, boost);
    TermScoreUnfolds(c, d, f, t, boost);
    assert entry.documentFrequency == DocumentFrequency(c.schema, c.global, f, t);
    assert TermScore(c, d, f, t, boost) == Idf(c.scorer, s.0, entry.documentFrequency)
      * FrequencyWeight(c.scorer, Frequency(tokens, t), |tokens|, s.1 as real / s.0 as real) * boost;
    var score := Bm25.Score(c.scorer, stats, boost, 1.0);
    assert score.Ok?;
    assert score.value == Idf(c.scorer, s.0, entry.documentFrequency)
      * FrequencyWeight(c.scorer, Frequency(tokens, t), |tokens|, s.1 as real / s.0 as real) * boost;
    assert ScorePosting(v, c.scorer, f, entry, p, boost) == Ok(score.value);
  }

  lemma AverageIs(s: (nat, nat))
    requires s.0 > 0
    ensures Average(s) == s.1 as real / s.0 as real
  {
  }

  lemma ScoringFacts(v: SearchView, c: Corpus, local: Slots, f: string, t: string, i: nat)
    requires Serves(v, c, local) && i < |local| && ContainsTerm(v.schema, local[i], f, t)
    ensures ValidScorer(c.scorer) && c.schema == v.schema && local[i] in c.global
    ensures v.Statistics(f) == (FieldCount(v.schema, c.global, f), FieldTotal(v.schema, c.global, f))
    ensures var tokens, p := FieldTokens(v.schema, local[i], f), PostingFor(v.schema, local[i], f, t, i + 1);
      && Frequency(tokens, t) > 0 && p.doc == i + 1 && p.frequency == Frequency(tokens, t)
      && i + 1 in v.records && f in v.records[i + 1].fieldLengths && v.records[i + 1].fieldLengths[f] == |tokens|
  {
    ContainsNeedsField(v.schema, local[i], f, t);
    FrequencyIsPositions(FieldTokens(v.schema, local[i], f), t);
    assert v.records[i + 1] == RecordFor(v.schema, local[i], i + 1);
  }

  lemma ScorePostingUnfolds(v: SearchView, scorer: Scorer, f: string, entry: TermEntry, p: Posting, boost: real)
    requires ValidScorer(scorer) && p.doc in v.records && f in v.records[p.doc].fieldLengths
    ensures var s := v.Statistics(f);
      var stats := TermStatistics(s.0, entry.documentFrequency, p.frequency, v.records[p.doc].fieldLengths[f],
                                  Average(s));
      var score := Bm25.Score(scorer, stats, boost, 1.0);
      ScorePosting(v, scorer, f, entry, p, boost) == if score.Ok? then Ok(score.value) else Err(RankingError)
  {
    hide Bm25.Score;
  }

  // ---- terms ----

  /** The first `m` postings of the term are scored. */
  ghost predicate TermScored(c: Corpus, local: Slots, f: string, t: string, boost: real, m: nat, r: Candidates)
    requires ValidScorer(c.scorer)
  {
    var postings := Postings(c.schema, local, f, t);
    && m <= |postings| && |r| == m
    && (forall k :: 0 <= k < m ==> 1 <= postings[k].doc <= |local|)
    && (forall k :: 0 <= k < m ==>
          r[k] == Candidate(postings[k].doc, TermScore(c, local[postings[k].doc - 1], f, t, boost)))
  }

  lemma TermVerdict(c: Corpus, local: Slots, f: string, t: string, boost: real, i: nat)
    requires ValidScorer(c.scorer) && i < |local|
    ensures VerdictAt(c, local, Term(f, t, boost, 0), i + 1) ==
      if ContainsTerm(c.schema, local[i], f, t) then Some(TermScore(c, local[i], f, t, boost)) else None
  {
    FrequencyIsPositions(FieldTokens(c.schema, local[i], f), t);
    hide Frequency, TermScore;
  }

  /** All postings scored: the list is exact. */
  lemma TermDone(c: Corpus, local: Slots, f: string, t: string, boost: real, r: Candidates)
    requires ValidScorer(c.scorer)
    requires TermScored(c, local, f, t, boost, |Postings(c.schema, local, f, t)|, r)
    ensures Exact(c, local, Term(f, t, boost, 0), r)
  {
    PostingsAscend(c.schema, local, f, t);
    assert Sorted(r);
    forall id: nat ensures At(r, id) == VerdictAt(c, local, Term(f, t, boost, 0), id) {
      TermAt(c, local, f, t, boost, r, id);
    }
  }

  lemma TermAt(c: Corpus, local: Slots, f: string, t: string, boost: real, r: Candidates, id: nat)
    requires ValidScorer(c.scorer)
    requires TermScored(c, local, f, t, boost, |Postings(c.schema, local, f, t)|, r)
    ensures At(r, id) == VerdictAt(c, local, Term(f, t, boost, 0), id)
  {
    hide Postings, TermScore, At, Matches, ScoreOf, ContainsTerm, PostingFor, Verdict;
    AtSome(r, id);
    if 1 <= id <= |local| { TermVerdict(c, local, f, t, boost, id - 1); }
    ghost var postings := Postings(c.schema, local, f, t);
    if 1 <= id <= |local| && ContainsTerm(c.schema, local[id - 1], f, t) {
      var k := SlotHasPosting(c.schema, local, f, t, id - 1);
      assert PostingFor(c.schema, local[id - 1], f, t, id).doc == id by {
        PostingForDoc(c.schema, local[id - 1], f, t, id);
      }
      assert r[k].doc == id;
    }
    if At(r, id).Some? {
      var k :| 0 <= k < |r| && r[k] == Candidate(id, At(r, id).value);
      PostingHasSlot(c.schema, local, f, t, k);
      assert postings[k].doc == id;
    }
  }

  lemma PostingForDoc(schema: Schema, d: Document, f: string, t: string, id: nat)
    ensures PostingFor(schema, d, f, t, id).doc == id
  {
  }

  /** The next posting is scored. */
  lemma TermStep(v: SearchView, c: Corpus, local: Slots, f: string, t: string, boost: real, m: nat, r: Candidates,
                 entry: TermEntry)
    requires Serves(v, c, local) && boost >= 0.0
    requires v.Lookup(f, t) == Some(entry) && m < |entry.postings|
    requires TermScored(c, local, f, t, boost, m, r)
    ensures var score := ScorePosting(v, c.scorer, f, entry, entry.postings[m], boost);
      score.Ok? && TermScored(c, local, f, t, boost, m + 1, r + [Candidate(entry.postings[m].doc, score.value)])
  {
    hide Represents, Postings, TermScore, ScorePosting, ContainsTerm, PostingFor, SearchView.Lookup;
    NoPostings(v, c, local, f, t);
    PostingHasSlot(v.schema, local, f, t, m);
    ScorePostingIs(v, c, local, f, t, entry.postings[m].doc - 1, entry, boost);
  }

  lemma NoPostings(v: SearchView, c: Corpus, local: Slots, f: string, t: string)
    requires Serves(v, c, local)
    ensures v.Lookup(f, t) == TermEntryOf(v.schema, local, c.global, f, t)
    ensures v.Lookup(f, t).None? ==> Postings(v.schema, local, f, t) == []
    ensures v.Lookup(f, t).Some? ==> v.Lookup(f, t).value.postings == Postings(v.schema, local, f, t)
  {
    assert v.Lookup(f, t) == TermEntryOf(v.schema, local, c.global, f, t);
    hide Postings;
  }

  method EvaluateTerm(v: SearchView, scorer: Scorer, f: string, t: string, boost: real, ghost c: Corpus,
                      ghost local: Slots)
    returns (r: Result<Candidates, ExecutionError>)
    requires Serves(v, c, local) && c.scorer == scorer && boost >= 0.0
    ensures r.Ok? && Exact(c, local, Term(f, t, boost, 0), r.value)
  {
    var found := v.Lookup(f, t);
    NoPostings(v, c, local, f, t);
    assert ValidScorer(scorer) && TermScored(c, local, f, t, boost, 0, []);
    hide *;
    if found.None? {
      TermDone(c, local, f, t, boost, []);
      return Ok([]);
    }
    var entry := found.value;
    var candidates: Candidates := [];
    for m := 0 to |entry.postings|
      invariant TermScored(c, local, f, t, boost, m, candidates)
    {
      TermStep(v, c, local, f, t, boost, m, candidates, entry);
      match ScorePosting(v, scorer, f, entry, entry.postings[m], boost) {
        case Err(e) => return Err(e);
        case Ok(score) => candidates := candidates + [Candidate(entry.postings[m].doc, score)];
      }
    }
    TermDone(c, local, f, t, boost, candidates);
    r := Ok(candidates);
  }

  // ---- the live documents ----

  /** The live documents of the first `m` IDs that satisfy a test, each with score zero. */
  ghost predicate Listed(local: Slots, m: nat, accepted: nat -> bool, r: Candidates) {
    && m <= |LiveIds(local)| && Sorted(r)
    && (forall k :: 0 <= k < |r| ==> r[k].doc in LiveIds(local)[..m])
    && (forall id: nat :: At(r, id) == if id in LiveIds(local)[..m] && accepted(id) then Some(0.0) else None)
  }

  lemma ListStep(local: Slots, m: nat, accepted: nat -> bool, r: Candidates)
    requires Listed(local, m, accepted, r) && m < |LiveIds(local)|
    ensures var id := LiveIds(local)[m];
      Listed(local, m + 1, accepted, if accepted(id) then r + [Candidate(id, 0.0)] else r)
  {
    hide LiveIds, At;
    LiveIdsAre(local, 0);
    var ids := LiveIds(local);
    var id := ids[m];
    OneMoreId(ids, m);
    hide Increasing;
    var next := if accepted(id) then r + [Candidate(id, 0.0)] else r;
    assert forall k :: 0 <= k < |r| ==> r[k].doc in ids[..m];
    forall k | 0 <= k < |r| ensures r[k].doc in ids[..m + 1] { assert r[k].doc in ids[..m]; }
    if accepted(id) { OneMoreListed(r, ids[..m], id); }
    forall other: nat
      ensures At(next, other) == if other in ids[..m + 1] && accepted(other) then Some(0.0) else None
    {
      if accepted(id) { AtAppend(r, Candidate(id, 0.0), other); }
    }
    assert Sorted(next);
    assert forall k :: 0 <= k < |next| ==> next[k].doc in ids[..m + 1];
  }

  lemma OneMoreId(ids: seq<nat>, m: nat)
    requires m < |ids| && Increasing(ids)
    ensures ids[..m + 1] == ids[..m] + [ids[m]]
    ensures forall other :: other in ids[..m] ==> other < ids[m]
    ensures forall other :: other in ids[..m + 1] <==> other in ids[..m] || other == ids[m]
  {
  }

  lemma OneMoreListed(r: Candidates, ids: seq<nat>, id: nat)
    requires Sorted(r) && (forall k :: 0 <= k < |r| ==> r[k].doc in ids) && forall other :: other in ids ==> other < id
    ensures Sorted(r + [Candidate(id, 0.0)])
    ensures forall k :: 0 <= k < |r| + 1 ==> (r + [Candidate(id, 0.0)])[k].doc in ids + [id]
  {
    forall k | 0 <= k < |r| ensures r[k].doc < id { assert r[k].doc in ids; }
    assert (ids + [id])[|ids|] == id;
  }

  lemma ListBegin(local: Slots, accepted: nat -> bool)
    ensures Listed(local, 0, accepted, [])
  {
  }

  /** Every live document, each with score zero. */
  method Universe(v: SearchView, ghost c: Corpus, ghost local: Slots) returns (r: Candidates)
    requires Serves(v, c, local)
    ensures Exact(c, local, MatchAll(0), r)
  {
    hide *;
    LiveIdsOf(v, c, local);
    r := [];
    ghost var every := (id: nat) => true;
    ListBegin(local, every);
    for m := 0 to |v.liveIds|
      invariant Listed(local, m, every, r)
    {
      ListStep(local, m, every, r);
      r := r + [Candidate(v.liveIds[m], 0.0)];
    }
    UniverseDone(c, local, r);
  }

  lemma LiveIdsOf(v: SearchView, c: Corpus, local: Slots)
    requires Serves(v, c, local)
    ensures v.liveIds == LiveIds(local) && ValidScorer(c.scorer)
  {
  }

  lemma UniverseDone(c: Corpus, local: Slots, r: Candidates)
    requires ValidScorer(c.scorer) && Listed(local, |LiveIds(local)|, (id: nat) => true, r)
    ensures Exact(c, local, MatchAll(0), r)
  {
    hide LiveIds, At;
    assert LiveIds(local)[..|LiveIds(local)|] == LiveIds(local);
    forall id: nat ensures At(r, id) == VerdictAt(c, local, MatchAll(0), id) {
      LiveIdsAre(local, id);
    }
  }

  /** Whether the document with this ID satisfies a range node, as the executor reads it. */
  predicate InRange(v: SearchView, range: Plan, id: nat) {
    && range.Range? && range.field in v.schema && id in v.records
    && var value := FieldValue(v.records[id].document, range.field);
       value.Some? && RangeAccepts(v.schema[range.field].kind, value.value, range.lower, range.upper,
                                   range.includeLower, range.includeUpper)
  }

  method EvaluateRange(v: SearchView, range: Plan, ghost c: Corpus, ghost local: Slots)
    returns (r: Result<Candidates, ExecutionError>)
    requires Serves(v, c, local) && range.Range? && range.field in v.schema
    ensures r.Ok? && Exact(c, local, range, r.value)
  {
    hide *;
    LiveIdsOf(v, c, local);
    var candidates: Candidates := [];
    ghost var accepted := (id: nat) => InRange(v, range, id);
    ListBegin(local, accepted);
    for m := 0 to |v.liveIds|
      invariant Listed(local, m, accepted, candidates)
    {
      ListStep(local, m, accepted, candidates);
      if InRange(v, range, v.liveIds[m]) { candidates := candidates + [Candidate(v.liveIds[m], 0.0)]; }
    }
    RangeDone(v, c, local, range, candidates);
    r := Ok(candidates);
  }

  lemma RangeDone(v: SearchView, c: Corpus, local: Slots, range: Plan, r: Candidates)
    requires Serves(v, c, local) && range.Range? && range.field in v.schema
    requires Listed(local, |LiveIds(local)|, (id: nat) => InRange(v, range, id), r)
    ensures Exact(c, local, range, r)
  {
    hide LiveIds, At, RangeAccepts, Represents;
    assert LiveIds(local)[..|LiveIds(local)|] == LiveIds(local);
    forall id: nat ensures At(r, id) == VerdictAt(c, local, range, id) {
      LiveIdsAre(local, id);
      if 1 <= id <= |local| { RecordHere(v, c, local, id); }
    }
  }

  lemma RecordHere(v: SearchView, c: Corpus, local: Slots, id: nat)
    requires Serves(v, c, local) && 1 <= id <= |local|
    ensures id in v.records && v.records[id].document == local[id - 1]
  {
    assert v.records[id - 1 + 1] == RecordFor(v.schema, local[id - 1], id - 1 + 1);
  }

  // ---- Boolean nodes ----

  lemma NotVerdict(c: Corpus, local: Slots, plan: Plan, id: nat)
    requires ValidScorer(c.scorer) && plan.Not?
    ensures VerdictAt(c, local, plan, id)
      == ButNot(VerdictAt(c, local, MatchAll(0), id), VerdictAt(c, local, plan.operand, id))
  {
  }

  lemma NotDone(c: Corpus, local: Slots, plan: Plan, universe: Candidates, operand: Candidates, r: Candidates)
    requires ValidScorer(c.scorer) && plan.Not?
    requires Exact(c, local, MatchAll(0), universe) && Exact(c, local, plan.operand, operand)
    requires Sorted(r) && forall id :: At(r, id) == ButNot(At(universe, id), At(operand, id))
    ensures Exact(c, local, plan, r)
  {
    hide At, VerdictAt;
    forall id: nat ensures At(r, id) == VerdictAt(c, local, plan, id) { NotVerdict(c, local, plan, id); }
  }

  lemma AndVerdict(c: Corpus, local: Slots, children: seq<Plan>, i: nat, id: nat)
    requires ValidScorer(c.scorer) && i < |children|
    ensures VerdictAt(c, local, And(children[..i + 1], 0), id) ==
      if i == 0 then VerdictAt(c, local, children[0], id)
      else Both(VerdictAt(c, local, And(children[..i], 0), id), VerdictAt(c, local, children[i], id))
  {
    if 1 <= id <= |local| {
      var d, head, upTo := local[id - 1], children[..i], children[..i + 1];
      assert upTo == head + [children[i]] && upTo[..i] == head;
      assert ScoreSum(c, upTo, d) == ScoreSum(c, head, d) + ScoreOf(c, children[i], d);
      assert Matches(c.schema, And(upTo, 0), d) <==>
        (i == 0 || Matches(c.schema, And(head, 0), d)) && Matches(c.schema, children[i], d) by {
        if i > 0 && Matches(c.schema, And(upTo, 0), d) {
          forall k | 0 <= k < i ensures Matches(c.schema, head[k], d) { assert upTo[k] == head[k]; }
          assert upTo[i] == children[i];
        }
        if i == 0 { assert upTo[0] == children[0]; }
      }
    }
  }

  lemma AndStep(c: Corpus, local: Slots, children: seq<Plan>, i: nat, before: Candidates, child: Candidates,
                r: Candidates)
    requires ValidScorer(c.scorer) && 0 < i < |children|
    requires Exact(c, local, And(children[..i], 0), before) && Exact(c, local, children[i], child)
    requires Sorted(r) && forall id :: At(r, id) == Both(At(before, id), At(child, id))
    ensures Exact(c, local, And(children[..i + 1], 0), r)
  {
    hide At, VerdictAt;
    forall id: nat ensures At(r, id) == VerdictAt(c, local, And(children[..i + 1], 0), id) {
      AndVerdict(c, local, children, i, id);
    }
  }

  lemma AndFirst(c: Corpus, local: Slots, children: seq<Plan>, r: Candidates)
    requires ValidScorer(c.scorer) && |children| > 0 && Exact(c, local, children[0], r)
    ensures Exact(c, local, And(children[..1], 0), r)
  {
    hide At, VerdictAt;
    forall id: nat ensures At(r, id) == VerdictAt(c, local, And(children[..1], 0), id) {
      AndVerdict(c, local, children, 0, id);
    }
  }

  /** Once no document is left, the remaining clauses cannot bring one back. */
  lemma AndEmpty(c: Corpus, local: Slots, children: seq<Plan>, i: nat)
    requires ValidScorer(c.scorer) && 0 < i <= |children| && Exact(c, local, And(children[..i], 0), [])
    ensures Exact(c, local, And(children, 0), [])
  {
    forall id: nat ensures VerdictAt(c, local, And(children, 0), id).None? {
      assert At([], id) == VerdictAt(c, local, And(children[..i], 0), id);
      if VerdictAt(c, local, And(children, 0), id).Some? {
        var d := local[id - 1];
        forall k | 0 <= k < i ensures Matches(c.schema, children[..i][k], d) {}
        assert Matches(c.schema, And(children[..i], 0), d);
      }
    }
  }

  lemma OrVerdict(c: Corpus, local: Slots, children: seq<Plan>, i: nat, id: nat)
    requires ValidScorer(c.scorer) && i < |children|
    ensures VerdictAt(c, local, Or(children[..i + 1], 0), id) ==
      Either(VerdictAt(c, local, Or(children[..i], 0), id), VerdictAt(c, local, children[i], id))
  {
    if 1 <= id <= |local| {
      var d, head, upTo := local[id - 1], children[..i], children[..i + 1];
      assert upTo == head + [children[i]] && upTo[..i] == head;
      assert ScoreSum(c, upTo, d) == ScoreSum(c, head, d) + ScoreOf(c, children[i], d);
      assert Matches(c.schema, Or(upTo, 0), d) <==>
        Matches(c.schema, Or(head, 0), d) || Matches(c.schema, children[i], d) by {
        OrSplit(c.schema, head, children[i], d);
      }
      if !Matches(c.schema, Or(head, 0), d) { UnmatchedScoresZero(c, Or(head, 0), d); }
      if !Matches(c.schema, children[i], d) { UnmatchedScoresZero(c, children[i], d); }
    }
  }

  lemma OrSplit(schema: Schema, head: seq<Plan>, last: Plan, d: Document)
    ensures Matches(schema, Or(head + [last], 0), d) <==> Matches(schema, Or(head, 0), d) || Matches(schema, last, d)
  {
    var all := head + [last];
    if Matches(schema, Or(head, 0), d) {
      var k :| 0 <= k < |head| && Matches(schema, head[k], d);
      assert Matches(schema, all[k], d);
    }
    if Matches(schema, last, d) { assert Matches(schema, all[|head|], d); }
  }

  lemma OrStep(c: Corpus, local: Slots, children: seq<Plan>, i: nat, before: Candidates, child: Candidates,
               r: Candidates)
    requires ValidScorer(c.scorer) && i < |children|
    requires Exact(c, local, Or(children[..i], 0), before) && Exact(c, local, children[i], child)
    requires Sorted(r) && forall id :: At(r, id) == Either(At(before, id), At(child, id))
    ensures Exact(c, local, Or(children[..i + 1], 0), r)
  {
    hide At, VerdictAt;
    forall id: nat ensures At(r, id) == VerdictAt(c, local, Or(children[..i + 1], 0), id) {
      OrVerdict(c, local, children, i, id);
    }
  }

  lemma NothingMatches(c: Corpus, local: Slots)
    requires ValidScorer(c.scorer)
    ensures Exact(c, local, Or([], 0), []) && Exact(c, local, And([], 0), [])
  {
  }

  predicate SameButEstimate(a: Plan, b: Plan) {
    match (a, b)
    case (Term(f, t, x, _), Term(g, u, y, _)) => f == g && t == u && x == y
    case (Phrase(f, p, x, _), Phrase(g, q, y, _)) => f == g && p == q && x == y
    case (And(cs, _), And(ds, _)) => cs == ds
    case (Or(cs, _), Or(ds, _)) => cs == ds
    case (MatchAll(_), MatchAll(_)) => true
    case _ => a == b
  }

  /** Estimates do not take part in the meaning of a plan. */
  lemma EstimateIsIrrelevant(c: Corpus, local: Slots, a: Plan, b: Plan, r: Candidates)
    requires ValidScorer(c.scorer) && Exact(c, local, a, r) && SameButEstimate(a, b)
    ensures Exact(c, local, b, r)
  {
    hide At;
    forall id: nat ensures VerdictAt(c, local, a, id) == VerdictAt(c, local, b, id) {}
  }

  // ---- phrases ----

  method BinarySearch(s: seq<nat>, x: nat) returns (found: bool)
    requires Increasing(s)
    ensures found == (x in s)
  {
    var low, high := 0, |s|;
    while low < high
      invariant 0 <= low <= high <= |s|
      invariant forall k :: 0 <= k < low ==> s[k] < x
      invariant forall k :: high <= k < |s| ==> x < s[k]
    {
      var mid := low + (high - low) / 2;
      if s[mid] < x { low := mid + 1; }
      else if x < s[mid] { high := mid; }
      else { return true; }
    }
    found := false;
  }

  /** `posting_for`: the posting of a document, found by its ID in the sorted list. */
  method FindPosting(postings: seq<Posting>, id: nat) returns (r: Option<Posting>)
    requires Ascending(postings)
    ensures r.None? ==> forall k :: 0 <= k < |postings| ==> postings[k].doc != id
    ensures r.Some? ==> r.value in postings && r.value.doc == id
  {
    var low, high := 0, |postings|;
    while low < high
      invariant 0 <= low <= high <= |postings|
      invariant forall k :: 0 <= k < low ==> postings[k].doc < id
      invariant forall k :: high <= k < |postings| ==> id <= postings[k].doc
    {
      var mid := low + (high - low) / 2;
      if postings[mid].doc < id { low := mid + 1; } else { high := mid; }
    }
    if low == |postings| || postings[low].doc != id { return None; }
    r := Some(postings[low]);
  }

  /** The positions in which the phrase can stand: token `i` at distance `Offset(tokens, i)`. */
  predicate StandsAt(postings: seq<Posting>, tokens: seq<Token>, base: nat)
    requires |postings| == |tokens|
  {
    forall i :: 0 < i < |postings| ==>
      base + Offset(tokens, i) < U32_LIMIT && base + Offset(tokens, i) in postings[i].positions
  }

  method PositionsMatch(postings: seq<Posting>, tokens: seq<Token>) returns (found: bool)
    requires |postings| == |tokens|
    requires forall i :: 0 <= i < |postings| ==> Increasing(postings[i].positions)
    ensures found == (|tokens| > 0 && exists b :: b in postings[0].positions && StandsAt(postings, tokens, b))
  {
    if |tokens| == 0 { return false; }
    var bases := postings[0].positions;
    for m := 0 to |bases|
      invariant forall b :: b in bases[..m] ==> !StandsAt(postings, tokens, b)
    {
      var base, match_ := bases[m], true;
      var i := 1;
      while i < |postings|
        invariant 1 <= i <= |postings|
        invariant match_ && forall k :: 0 < k < i ==>
          base + Offset(tokens, k) < U32_LIMIT && base + Offset(tokens, k) in postings[k].positions
      {
        var offset := Offset(tokens, i);
        var there := false;
        if base <= U32_LIMIT - 1 - offset { there := BinarySearch(postings[i].positions, base + offset); }
        if !there {
          match_ := false;
          break;
        }
        i := i + 1;
      }
      if match_ {
        assert StandsAt(postings, tokens, base);
        return true;
      }
      assert bases[..m + 1] == bases[..m] + [base];
    }
    assert bases[..|bases|] == bases;
    found := false;
  }

  /** One posting per phrase token, all of the same document. */
  ghost predicate PhrasePostings(schema: Schema, d: Document, f: string, tokens: seq<Token>, id: nat,
                                 postings: seq<Posting>) {
    |postings| == |tokens| && forall i :: 0 <= i < |tokens| ==>
      postings[i] == PostingFor(schema, d, f, tokens[i].term, id)
  }

  /** The test on posting positions decides whether the phrase occurs in the text. */
  lemma PositionsDecide(schema: Schema, d: Document, f: string, tokens: seq<Token>, id: nat, postings: seq<Posting>)
    requires Storable(schema, d) && |tokens| > 0 && PhrasePostings(schema, d, f, tokens, id, postings)
    ensures (exists b :: b in postings[0].positions && StandsAt(postings, tokens, b))
      <==> PhraseOccurs(FieldTokens(schema, d, f), tokens)
  {
    hide FieldTokens, Positions, Storable, StandsAt;
    var text := FieldTokens(schema, d, f);
    if b :| b in postings[0].positions && StandsAt(postings, tokens, b) {
      StandsIsPhrase(schema, d, f, tokens, id, postings, b);
      PositionsAre(text, tokens[0].term, b);
      var k :| 0 <= k < |text| && text[k].term == tokens[0].term && text[k].position == b;
      assert PhraseAt(text, tokens, text[k].position);
    }
    if PhraseOccurs(text, tokens) {
      var k :| 0 <= k < |text| && PhraseAt(text, tokens, text[k].position);
      var b := text[k].position;
      assert Offset(tokens, 0) == 0;
      assert OccursAt(text, tokens[0].term, b + Offset(tokens, 0));
      PositionsAre(text, tokens[0].term, b);
      assert postings[0] == PostingFor(schema, d, f, tokens[0].term, id);
      StandsIsPhrase(schema, d, f, tokens, id, postings, b);
    }
  }

  lemma StandsIsPhrase(schema: Schema, d: Document, f: string, tokens: seq<Token>, id: nat, postings: seq<Posting>,
                       b: nat)
    requires Storable(schema, d) && |tokens| > 0 && PhrasePostings(schema, d, f, tokens, id, postings)
    requires OccursAt(FieldTokens(schema, d, f), tokens[0].term, b) || b in postings[0].positions
    ensures StandsAt(postings, tokens, b) <==> PhraseAt(FieldTokens(schema, d, f), tokens, b)
  {
    hide FieldTokens, Positions, Storable;
    var text := FieldTokens(schema, d, f);
    forall i | 0 <= i < |tokens|
      ensures OccursAt(text, tokens[i].term, b + Offset(tokens, i)) <==> b + Offset(tokens, i) in postings[i].positions
      ensures OccursAt(text, tokens[i].term, b + Offset(tokens, i)) ==> b + Offset(tokens, i) < U32_LIMIT
    {
      assert postings[i] == PostingFor(schema, d, f, tokens[i].term, id);
      PositionsAre(text, tokens[i].term, b + Offset(tokens, i));
      FieldPositions(schema, d, f, tokens[i].term);
    }
    assert Offset(tokens, 0) == 0;
  }

  /** Looks up every token of the phrase; a missing term ends the evaluation. */
  method PhraseEntries(v: SearchView, f: string, tokens: seq<Token>, ghost c: Corpus, ghost local: Slots)
    returns (r: Option<seq<TermEntry>>)
    requires Serves(v, c, local)
    ensures r.None? ==> exists i :: 0 <= i < |tokens| && v.Lookup(f, tokens[i].term).None?
    ensures r.Some? ==> |r.value| == |tokens|
    ensures r.Some? ==> forall i :: 0 <= i < |tokens| ==> v.Lookup(f, tokens[i].term) == Some(r.value[i])
  {
    hide *;
    var entries: seq<TermEntry> := [];
    for i := 0 to |tokens|
      invariant |entries| == i
      invariant forall k :: 0 <= k < i ==> v.Lookup(f, tokens[k].term) == Some(entries[k])
    {
      var entry := v.Lookup(f, tokens[i].term);
      if entry.None? { return None; }
      entries := entries + [entry.value];
    }
    r := Some(entries);
  }

  /** The rarest term of the phrase. */
  method ChooseAnchor(entries: seq<TermEntry>) returns (anchor: nat)
    requires |entries| > 0
    ensures anchor < |entries|
    ensures forall i :: 0 <= i < |entries| ==> |entries[anchor].postings| <= |entries[i].postings|
  {
    anchor := 0;
    for i := 1 to |entries|
      invariant anchor < i
      invariant forall k :: 0 <= k < i ==> |entries[anchor].postings| <= |entries[k].postings|
    {
      if |entries[i].postings| < |entries[anchor].postings| { anchor := i; }
    }
  }

  /** `entries` are the dictionary entries of the phrase tokens. */
  ghost predicate AreEntries(v: SearchView, f: string, tokens: seq<Token>, entries: seq<TermEntry>) {
    |entries| == |tokens| && forall i :: 0 <= i < |tokens| ==> v.Lookup(f, tokens[i].term) == Some(entries[i])
  }

  lemma EntryFacts(v: SearchView, c: Corpus, local: Slots, f: string, tokens: seq<Token>, entries: seq<TermEntry>,
                   i: nat)
    requires Serves(v, c, local) && AreEntries(v, f, tokens, entries) && i < |tokens|
    ensures entries[i].postings == Postings(v.schema, local, f, tokens[i].term)
    ensures entries[i].documentFrequency == |Postings(v.schema, c.global, f, tokens[i].term)|
    ensures Ascending(entries[i].postings)
  {
    NoPostings(v, c, local, f, tokens[i].term);
    PostingsAscend(v.schema, local, f, tokens[i].term);
    hide Postings;
  }

  /** What a document's posting looks like in each token's list, or that it has none. */
  lemma PostingInList(v: SearchView, c: Corpus, local: Slots, f: string, t: string, id: nat, p: Option<Posting>)
    requires Serves(v, c, local) && 1 <= id <= |local|
    requires p.None? ==> forall k :: 0 <= k < |Postings(v.schema, local, f, t)| ==>
      Postings(v.schema, local, f, t)[k].doc != id
    requires p.Some? ==> p.value in Postings(v.schema, local, f, t) && p.value.doc == id
    ensures p.Some? <==> ContainsTerm(v.schema, local[id - 1], f, t)
    ensures p.Some? ==> p.value == PostingFor(v.schema, local[id - 1], f, t, id)
  {
    hide Represents, Postings, ContainsTerm, PostingFor;
    if p.Some? {
      var k :| 0 <= k < |Postings(v.schema, local, f, t)| && Postings(v.schema, local, f, t)[k] == p.value;
      PostingHasSlot(v.schema, local, f, t, k);
    } else if ContainsTerm(v.schema, local[id - 1], f, t) {
      var k := SlotHasPosting(v.schema, local, f, t, id - 1);
      PostingForDoc(v.schema, local[id - 1], f, t, id);
      assert false;
    }
  }

  /** Collects the postings of one document for all tokens, the anchor's being known. */
  method GatherPostings(v: SearchView, f: string, tokens: seq<Token>, entries: seq<TermEntry>, anchor: nat,
                        anchorPosting: Posting, ghost c: Corpus, ghost local: Slots)
    returns (r: Option<seq<Posting>>)
    requires Serves(v, c, local) && AreEntries(v, f, tokens, entries) && anchor < |tokens|
    requires anchorPosting in entries[anchor].postings && 1 <= anchorPosting.doc <= |local|
    ensures r.Some? ==> PhrasePostings(v.schema, local[anchorPosting.doc - 1], f, tokens, anchorPosting.doc, r.value)
    ensures r.Some? ==> forall i :: 0 <= i < |tokens| ==>
      ContainsTerm(v.schema, local[anchorPosting.doc - 1], f, tokens[i].term)
    ensures r.None? ==>
      exists i :: 0 <= i < |tokens| && !ContainsTerm(v.schema, local[anchorPosting.doc - 1], f, tokens[i].term)
  {
    hide Serves, ContainsTerm, PostingFor, Ascending, Postings, SearchView.Lookup;
    var id := anchorPosting.doc;
    var postings: seq<Posting> := [];
    for i := 0 to |entries|
      invariant |postings| == i <= |tokens|
      invariant |entries| == |tokens|
      invariant forall k :: 0 <= k < i ==> postings[k] == PostingFor(v.schema, local[id - 1], f, tokens[k].term, id)
      invariant forall k :: 0 <= k < i ==> ContainsTerm(v.schema, local[id - 1], f, tokens[k].term)
    {
      EntryFacts(v, c, local, f, tokens, entries, i);
      var posting := Some(anchorPosting);
      if i != anchor { posting := FindPosting(entries[i].postings, id); }
      PostingInList(v, c, local, f, tokens[i].term, id, posting);
      if posting.None? { return None; }
      postings := postings + [posting.value];
    }
    r := Some(postings);
  }

  lemma PhraseContains(schema: Schema, d: Document, f: string, tokens: seq<Token>)
    ensures PhraseOccurs(FieldTokens(schema, d, f), tokens) ==>
      forall i :: 0 <= i < |tokens| ==> ContainsTerm(schema, d, f, tokens[i].term)
  {
    hide FieldTokens;
    var text := FieldTokens(schema, d, f);
    if PhraseOccurs(text, tokens) {
      var k :| 0 <= k < |text| && PhraseAt(text, tokens, text[k].position);
      forall i | 0 <= i < |tokens| ensures ContainsTerm(schema, d, f, tokens[i].term) {
        assert OccursAt(text, tokens[i].term, text[k].position + Offset(tokens, i));
      }
    }
  }

  /** Sums the scores of the phrase's postings. */
  method ScorePhrase(v: SearchView, scorer: Scorer, f: string, tokens: seq<Token>, boost: real, entries: seq<TermEntry>,
                     postings: seq<Posting>, ghost i: nat, ghost c: Corpus, ghost local: Slots)
    returns (r: Result<real, ExecutionError>)
    requires Serves(v, c, local) && c.scorer == scorer && boost >= 0.0 && AreEntries(v, f, tokens, entries)
    requires i < |local|
    requires PhrasePostings(v.schema, local[i], f, tokens, i + 1, postings)
    requires forall k :: 0 <= k < |tokens| ==> ContainsTerm(v.schema, local[i], f, tokens[k].term)
    ensures ValidScorer(c.scorer) && r == Ok(PhraseScore(c, local[i], f, tokens, boost))
  {
    hide Serves, ContainsTerm, PostingFor, Ascending, Postings, SearchView.Lookup, TermScore, ScorePosting, ValidScorer;
    LiveIdsOf(v, c, local);
    var score := 0.0;
    for k := 0 to |entries|
      invariant |entries| == |postings| == |tokens|
      invariant score == PhraseScore(c, local[i], f, tokens[..k], boost)
    {
      EntryFacts(v, c, local, f, tokens, entries, k);
      ScorePostingIs(v, c, local, f, tokens[k].term, i, entries[k], boost);
      assert tokens[..k + 1][..k] == tokens[..k];
      match ScorePosting(v, scorer, f, entries[k], postings[k], boost) {
        case Err(e) => return Err(e);
        case Ok(s) => score := score + s;
      }
    }
    assert tokens[..|tokens|] == tokens;
    r := Ok(score);
  }

  /** One of the first `m` postings belongs to the document. */
  ghost predicate Anchored(anchors: seq<Posting>, m: nat, id: nat)
    requires m <= |anchors|
  {
    exists a :: 0 <= a < m && anchors[a].doc == id
  }

  lemma AnchoredNext(anchors: seq<Posting>, m: nat, id: nat)
    requires Ascending(anchors) && m < |anchors|
    ensures Anchored(anchors, m + 1, id) <==> Anchored(anchors, m, id) || anchors[m].doc == id
    ensures Anchored(anchors, m, id) ==> id < anchors[m].doc
  {
  }

  /** The candidates found among the first `m` postings of the anchor. */
  ghost predicate PhraseScanned(c: Corpus, local: Slots, plan: Plan, anchors: seq<Posting>, m: nat, r: Candidates)
    requires ValidScorer(c.scorer)
  {
    && m <= |anchors| && Sorted(r)
    && (forall k :: 0 <= k < |r| ==> Anchored(anchors, m, r[k].doc))
    && (forall id: nat :: At(r, id) == if Anchored(anchors, m, id) then VerdictAt(c, local, plan, id) else None)
  }

  lemma PhraseStep(c: Corpus, local: Slots, plan: Plan, anchors: seq<Posting>, m: nat, r: Candidates)
    requires ValidScorer(c.scorer) && Ascending(anchors) && m < |anchors|
    requires PhraseScanned(c, local, plan, anchors, m, r)
    ensures var found := VerdictAt(c, local, plan, anchors[m].doc);
      PhraseScanned(c, local, plan, anchors, m + 1,
                    if found.Some? then r + [Candidate(anchors[m].doc, found.value)] else r)
  {
    hide VerdictAt, At, Anchored, Ascending;
    var found := VerdictAt(c, local, plan, anchors[m].doc);
    var here := anchors[m].doc;
    var next := if found.Some? then r + [Candidate(here, found.value)] else r;
    forall k | 0 <= k < |next| ensures Anchored(anchors, m + 1, next[k].doc) && (k < |r| ==> next[k].doc < here) {
      AnchoredNext(anchors, m, next[k].doc);
      if k < |r| { assert Anchored(anchors, m, r[k].doc); }
    }
    forall id: nat
      ensures At(next, id) == if Anchored(anchors, m + 1, id) then VerdictAt(c, local, plan, id) else None
    {
      AnchoredNext(anchors, m, id);
      if found.Some? { AtAppend(r, Candidate(here, found.value), id); }
      if id == here { AtNone(r, id); }
    }
  }

  lemma PhraseVerdict(c: Corpus, local: Slots, plan: Plan, id: nat)
    requires ValidScorer(c.scorer) && plan.Phrase?
    ensures VerdictAt(c, local, plan, id) ==
      if 1 <= id <= |local| && !local[id - 1].deleted
        && PhraseOccurs(FieldTokens(c.schema, local[id - 1], plan.field), plan.tokens)
      then Some(PhraseScore(c, local[id - 1], plan.field, plan.tokens, plan.boost)) else None
  {
    hide FieldTokens, PhraseScore, PhraseOccurs;
  }

  lemma NotDeleted(schema: Schema, d: Document, f: string, t: string)
    requires ContainsTerm(schema, d, f, t)
    ensures !d.deleted
  {
  }

  /** All anchor postings scanned: a phrase stands only where its anchor does. */
  lemma PhraseDone(v: SearchView, c: Corpus, local: Slots, plan: Plan, anchor: nat, r: Candidates)
    requires Serves(v, c, local) && plan.Phrase? && anchor < |plan.tokens|
    requires var anchors := Postings(v.schema, local, plan.field, plan.tokens[anchor].term);
      PhraseScanned(c, local, plan, anchors, |anchors|, r)
    ensures Exact(c, local, plan, r)
  {
    hide Represents, Postings, At, VerdictAt, FieldTokens, ContainsTerm, PostingFor, PhraseOccurs;
    var t := plan.tokens[anchor].term;
    var anchors := Postings(v.schema, local, plan.field, t);
    forall id: nat ensures At(r, id) == VerdictAt(c, local, plan, id) {
      PhraseVerdict(c, local, plan, id);
      if VerdictAt(c, local, plan, id).Some? {
        PhraseContains(v.schema, local[id - 1], plan.field, plan.tokens);
        assert ContainsTerm(v.schema, local[id - 1], plan.field, plan.tokens[anchor].term);
        var k := SlotHasPosting(v.schema, local, plan.field, t, id - 1);
        PostingForDoc(v.schema, local[id - 1], plan.field, t, id);
        assert anchors[k].doc == id;
      }
    }
  }

  /** A phrase with a term the view lacks matches nowhere. */
  lemma PhraseMissing(v: SearchView, c: Corpus, local: Slots, plan: Plan, i: nat)
    requires Serves(v, c, local) && plan.Phrase? && i < |plan.tokens|
    requires v.Lookup(plan.field, plan.tokens[i].term).None?
    ensures Exact(c, local, plan, [])
  {
    hide Represents, Postings, FieldTokens, ContainsTerm, VerdictAt, SearchView.Lookup, PhraseOccurs;
    NoPostings(v, c, local, plan.field, plan.tokens[i].term);
    forall id: nat ensures VerdictAt(c, local, plan, id).None? {
      PhraseVerdict(c, local, plan, id);
      if VerdictAt(c, local, plan, id).Some? {
        PhraseContains(v.schema, local[id - 1], plan.field, plan.tokens);
        assert ContainsTerm(v.schema, local[id - 1], plan.field, plan.tokens[i].term);
        var k := SlotHasPosting(v.schema, local, plan.field, plan.tokens[i].term, id - 1);
      }
    }
  }

  lemma PhraseEmpty(c: Corpus, local: Slots, plan: Plan)
    requires ValidScorer(c.scorer) && plan.Phrase? && plan.tokens == []
    ensures Exact(c, local, plan, [])
  {
  }

  /** Decides one anchor posting: the phrase's verdict on its document. */
  method JudgePhrase(v: SearchView, scorer: Scorer, plan: Plan, entries: seq<TermEntry>, anchor: nat, m: nat,
                     ghost c: Corpus, ghost local: Slots)
    returns (r: Result<Option<real>, ExecutionError>)
    requires Serves(v, c, local) && c.scorer == scorer && plan.Phrase? && plan.boost >= 0.0
    requires AreEntries(v, plan.field, plan.tokens, entries) && anchor < |plan.tokens| && m < |entries[anchor].postings|
    ensures ValidScorer(c.scorer) && r == Ok(VerdictAt(c, local, plan, entries[anchor].postings[m].doc))
  {
    hide Serves, Postings, ContainsTerm, PostingFor, FieldTokens, PhraseOccurs, VerdictAt, SearchView.Lookup,
         PhraseScore, Storable, Increasing, Positions, ValidScorer;
    LiveIdsOf(v, c, local);
    EntryFacts(v, c, local, plan.field, plan.tokens, entries, anchor);
    PostingHasSlot(v.schema, local, plan.field, plan.tokens[anchor].term, m);
    var posting := entries[anchor].postings[m];
    ghost var d := local[posting.doc - 1];
    SlotIsStorable(v, c, local, posting.doc - 1);
    NotDeleted(v.schema, d, plan.field, plan.tokens[anchor].term);
    PhraseVerdict(c, local, plan, posting.doc);
    PhraseContains(v.schema, d, plan.field, plan.tokens);
    var gathered := GatherPostings(v, plan.field, plan.tokens, entries, anchor, posting, c, local);
    if gathered.None? { return Ok(None); }
    PostingsIncrease(v.schema, d, plan.field, plan.tokens, posting.doc, gathered.value);
    PositionsDecide(v.schema, d, plan.field, plan.tokens, posting.doc, gathered.value);
    var stands := PositionsMatch(gathered.value, plan.tokens);
    if !stands { return Ok(None); }
    var score := ScorePhrase(v, scorer, plan.field, plan.tokens, plan.boost, entries, gathered.value, posting.doc - 1,
                             c, local);
    match score {
      case Err(e) => return Err(e);
      case Ok(s) => return Ok(Some(s));
    }
  }

  lemma SlotIsStorable(v: SearchView, c: Corpus, local: Slots, i: nat)
    requires Serves(v, c, local) && i < |local|
    ensures Storable(v.schema, local[i]) && v.schema == c.schema
  {
  }

  lemma PostingsIncrease(schema: Schema, d: Document, f: string, tokens: seq<Token>, id: nat, postings: seq<Posting>)
    requires Storable(schema, d) && PhrasePostings(schema, d, f, tokens, id, postings)
    ensures forall i :: 0 <= i < |postings| ==> Increasing(postings[i].positions)
  {
    hide Storable, FieldTokens, Positions, Increasing;
    forall i | 0 <= i < |postings| ensures Increasing(postings[i].positions) {
      FieldPositions(schema, d, f, tokens[i].term);
    }
  }

  method EvaluatePhrase(v: SearchView, scorer: Scorer, plan: Plan, ghost c: Corpus, ghost local: Slots)
    returns (r: Result<Candidates, ExecutionError>)
    requires Serves(v, c, local) && c.scorer == scorer && plan.Phrase? && plan.boost >= 0.0
    ensures r.Ok? && Exact(c, local, plan, r.value)
  {
    hide Serves, Postings, VerdictAt, SearchView.Lookup, Ascending, Exact, PhraseScanned, ValidScorer;
    LiveIdsOf(v, c, local);
    if |plan.tokens| == 0 {
      PhraseEmpty(c, local, plan);
      return Ok([]);
    }
    var found := PhraseEntries(v, plan.field, plan.tokens, c, local);
    if found.None? {
      ghost var i :| 0 <= i < |plan.tokens| && v.Lookup(plan.field, plan.tokens[i].term).None?;
      PhraseMissing(v, c, local, plan, i);
      return Ok([]);
    }
    var entries := found.value;
    var anchor := ChooseAnchor(entries);
    EntryFacts(v, c, local, plan.field, plan.tokens, entries, anchor);
    var anchors := entries[anchor].postings;
    var candidates: Candidates := [];
    PhraseBegin(c, local, plan, anchors);
    for m := 0 to |anchors|
      invariant PhraseScanned(c, local, plan, anchors, m, candidates)
    {
      PhraseStep(c, local, plan, anchors, m, candidates);
      var judged := JudgePhrase(v, scorer, plan, entries, anchor, m, c, local);
      match judged {
        case Err(e) => return Err(e);
        case Ok(verdict) =>
          if verdict.Some? { candidates := candidates + [Candidate(anchors[m].doc, verdict.value)]; }
      }
    }
    PhraseDone(v, c, local, plan, anchor, candidates);
    r := Ok(candidates);
  }

  lemma PhraseBegin(c: Corpus, local: Slots, plan: Plan, anchors: seq<Posting>)
    requires ValidScorer(c.scorer)
    ensures PhraseScanned(c, local, plan, anchors, 0, [])
  {
  }

  // ---- the evaluator ----

  /** The merge-based evaluation of a plan returns, in order of internal ID, exactly the live
      documents that match it one by one, each with its document-at-a-time score. */
  method Evaluate(v: SearchView, scorer: Scorer, plan: Plan, ghost c: Corpus, ghost local: Slots)
    returns (r: Result<Candidates, ExecutionError>)
    requires Serves(v, c, local) && c.scorer == scorer && Executable(v.schema, plan)
    ensures ValidScorer(c.scorer) && r.Ok? && Exact(c, local, plan, r.value)
    decreases plan, 1
  {
    hide Serves, Exact, ValidScorer;
    LiveIdsOf(v, c, local);
    match plan {
      case Term(f, t, boost, _) =>
        r := EvaluateTerm(v, scorer, f, t, boost, c, local);
        EstimateIsIrrelevant(c, local, Term(f, t, boost, 0), plan, r.value);
      case Phrase(_, _, _, _) =>
        r := EvaluatePhrase(v, scorer, plan, c, local);
      case And(children, _) =>
        r := EvaluateAnd(v, scorer, children, plan, c, local);
        EstimateIsIrrelevant(c, local, And(children, 0), plan, r.value);
      case Or(children, _) =>
        r := EvaluateOr(v, scorer, children, plan, c, local);
        EstimateIsIrrelevant(c, local, Or(children, 0), plan, r.value);
      case Not(operand, _) =>
        r := EvaluateNot(v, scorer, plan, c, local);
      case Range(_, _, _, _, _, _) =>
        r := EvaluateRange(v, plan, c, local);
      case MatchAll(_) =>
        var all := Universe(v, c, local);
        EstimateIsIrrelevant(c, local, MatchAll(0), plan, all);
        r := Ok(all);
    }
  }

  method EvaluateNot(v: SearchView, scorer: Scorer, plan: Plan, ghost c: Corpus, ghost local: Slots)
    returns (r: Result<Candidates, ExecutionError>)
    requires Serves(v, c, local) && c.scorer == scorer && plan.Not? && Executable(v.schema, plan.operand)
    ensures ValidScorer(c.scorer) && r.Ok? && Exact(c, local, plan, r.value)
    decreases plan, 0
  {
    hide Serves, At, ValidScorer, VerdictAt;
    LiveIdsOf(v, c, local);
    r := Evaluate(v, scorer, plan.operand, c, local);
    match r {
      case Err(_) => return;
      case Ok(operand) =>
        var universe := Universe(v, c, local);
        var rest := Exclude(universe, operand);
        NotDone(c, local, plan, universe, operand, rest);
        r := Ok(rest);
    }
  }

  method EvaluateAnd(v: SearchView, scorer: Scorer, children: seq<Plan>, ghost plan: Plan, ghost c: Corpus,
                     ghost local: Slots)
    returns (r: Result<Candidates, ExecutionError>)
    requires Serves(v, c, local) && c.scorer == scorer
    requires forall i :: 0 <= i < |children| ==> Executable(v.schema, children[i]) && children[i] < plan
    ensures ValidScorer(c.scorer) && r.Ok? && Exact(c, local, And(children, 0), r.value)
    decreases plan, 0
  {
    hide Serves, At, ValidScorer, VerdictAt, Executable;
    LiveIdsOf(v, c, local);
    if |children| == 0 {
      NothingMatches(c, local);
      return Ok([]);
    }
    r := Evaluate(v, scorer, children[0], c, local);
    AndFirst(c, local, children, r.value);
    var i := 1;
    while i < |children|
      invariant 1 <= i <= |children|
      invariant r.Ok? && Exact(c, local, And(children[..i], 0), r.value)
    {
      var child := Evaluate(v, scorer, children[i], c, local);
      match child {
        case Err(_) => return child;
        case Ok(list) =>
          var both := Intersect(r.value, list);
          AndStep(c, local, children, i, r.value, list, both);
          r := Ok(both);
      }
      i := i + 1;
      if |r.value| == 0 {
        assert r.value == [];
        AndEmpty(c, local, children, i);
        return;
      }
    }
    assert children[..i] == children;
  }

  method EvaluateOr(v: SearchView, scorer: Scorer, children: seq<Plan>, ghost plan: Plan, ghost c: Corpus,
                    ghost local: Slots)
    returns (r: Result<Candidates, ExecutionError>)
    requires Serves(v, c, local) && c.scorer == scorer
    requires forall i :: 0 <= i < |children| ==> Executable(v.schema, children[i]) && children[i] < plan
    ensures ValidScorer(c.scorer) && r.Ok? && Exact(c, local, Or(children, 0), r.value)
    decreases plan, 0
  {
    hide Serves, At, ValidScorer, VerdictAt, Executable;
    LiveIdsOf(v, c, local);
    var result: Candidates := [];
    NothingMatches(c, local);
    assert children[..0] == [];
    for i := 0 to |children|
      invariant Exact(c, local, Or(children[..i], 0), result)
    {
      var child := Evaluate(v, scorer, children[i], c, local);
      match child {
        case Err(_) => return child;
        case Ok(list) =>
          var either := Unite(result, list);
          OrStep(c, local, children, i, result, list, either);
          result := either;
      }
    }
    assert children[..|children|] == children;
    r := Ok(result);
  }

  // ---- agreement with a scan of the documents ----

  /** The reference: judge every document in turn. */
  function Scan(c: Corpus, local: Slots, plan: Plan): Candidates
    requires ValidScorer(c.scorer)
  {
    if local == [] then []
    else
      var n := |local| - 1;
      Scan(c, local[..n], plan) +
      match Verdict(c, plan, local[n])
      case Some(score) => [Candidate(n + 1, score)]
      case None => []
  }

  lemma {:induction false} ScanIsExact(c: Corpus, local: Slots, plan: Plan)
    requires ValidScorer(c.scorer)
    ensures Exact(c, local, plan, Scan(c, local, plan))
    ensures forall k :: 0 <= k < |Scan(c, local, plan)| ==> 1 <= Scan(c, local, plan)[k].doc <= |local|
  {
    hide At, Verdict;
    if local == [] {
      assert forall id: nat :: At([], id).None? by { forall id: nat ensures At([], id).None? { AtNone([], id); } }
    } else {
      var n := |local| - 1;
      var head := Scan(c, local[..n], plan);
      ScanIsExact(c, local[..n], plan);
      forall id: nat ensures At(Scan(c, local, plan), id) == VerdictAt(c, local, plan, id) {
        var v := Verdict(c, plan, local[n]);
        if v.Some? { AtAppend(head, Candidate(n + 1, v.value), id); } else { assert Scan(c, local, plan) == head; }
        assert At(head, id) == VerdictAt(c, local[..n], plan, id);
      }
    }
  }

  /** Whatever the phrase anchors and clause orders were, evaluation equals the scan. */
  lemma ExactIsScan(c: Corpus, local: Slots, plan: Plan, r: Candidates)
    requires ValidScorer(c.scorer) && Exact(c, local, plan, r)
    ensures r == Scan(c, local, plan)
  {
    hide At, VerdictAt;
    ScanIsExact(c, local, plan);
    SortedUnique(r, Scan(c, local, plan));
  }
}

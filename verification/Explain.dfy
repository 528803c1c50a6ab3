/** Score explanations (src/query/executor.cpp): a tree that mirrors the plan, and whose numbers add
    up to the score a search reports. */
module Explanations {
  import opened Basics
  import opened Analysis
  import opened Schemas
  import opened IndexModel
  import opened Bm25
  import opened Plans
  import opened Merging
  import opened Views
  import opened Canonicalization
  import opened Execution

  datatype NodeType = TermNode | PhraseNode | AndNode | OrNode | NotNode | RangeNode | MatchAllNode

  /** The inputs of the scoring formula at a term. */
  datatype Inputs = Inputs(corpusDocuments: nat, averageLength: real, documentFrequency: nat, termFrequency: nat,
                           documentLength: nat)

  datatype Explanation = Explanation(
    kind: NodeType,
    description: string,
    field: string,
    term: string,
    boost: real,
    matched: bool,
    score: real,
    inputs: Inputs,
    children: seq<Explanation>)

  const NO_INPUTS: Inputs := Inputs(0, 0.0, 0, 0, 0)

  // ---- what an explanation has to say ----

  function InputsOf(c: Corpus, local: Slots, d: Document, f: string, t: string): Inputs {
    var lengths := FieldLengths(c.schema, d);
    Inputs(FieldCount(c.schema, c.global, f),
           Average((FieldCount(c.schema, c.global, f), FieldTotal(c.schema, c.global, f))),
           var entry := TermEntryOf(c.schema, local, c.global, f, t);
           if entry.Some? then entry.value.documentFrequency else 0,
           Frequency(FieldTokens(c.schema, d, f), t),
           if f in lengths then lengths[f] else 0)
  }

  /** The node's own line: whether the document matches it, and with what score. */
  ghost predicate Judges(c: Corpus, d: Document, show: Printer, plan: Plan, e: Explanation)
    requires ValidScorer(c.scorer)
  {
    && e.description == Canonical(show, plan)
    && e.matched == Verdict(c, plan, d).Some?
    && e.score == if e.matched then Verdict(c, plan, d).value else 0.0
  }

  ghost predicate ExplainsTerm(c: Corpus, local: Slots, d: Document, show: Printer, plan: Plan, e: Explanation)
    requires ValidScorer(c.scorer) && plan.Term?
  {
    && Judges(c, d, show, plan, e) && e.kind == TermNode && e.children == []
    && e.field == plan.field && e.term == plan.term && e.boost == plan.boost
    && e.inputs == InputsOf(c, local, d, plan.field, plan.term)
  }

  ghost predicate Explains(c: Corpus, local: Slots, d: Document, show: Printer, plan: Plan, e: Explanation)
    requires ValidScorer(c.scorer)
    decreases plan
  {
    && Judges(c, d, show, plan, e)
    && match plan
       case Term(_, _, _, _) => ExplainsTerm(c, local, d, show, plan, e)
       case Phrase(f, tokens, boost, _) =>
         && e.kind == PhraseNode && e.field == f && e.boost == boost && |e.children| == |tokens|
         && forall i :: 0 <= i < |tokens| ==>
           ExplainsTerm(c, local, d, show, Term(f, tokens[i].term, boost, 0), e.children[i])
       case And(children, _) =>
         && e.kind == AndNode && |e.children| == |children|
         && forall i :: 0 <= i < |children| ==> Explains(c, local, d, show, children[i], e.children[i])
       case Or(children, _) =>
         && e.kind == OrNode && |e.children| == |children|
         && forall i :: 0 <= i < |children| ==> Explains(c, local, d, show, children[i], e.children[i])
       case Not(operand, _) =>
         e.kind == NotNode && |e.children| == 1 && Explains(c, local, d, show, operand, e.children[0])
       case Range(f, _, _, _, _, _) => e.kind == RangeNode && e.field == f && e.children == []
       case MatchAll(_) => e.kind == MatchAllNode && e.children == []
  }

  // ---- building one ----

  /** `std::ranges::lower_bound` by document ID. */
  method FindCandidate(list: Candidates, id: nat) returns (r: Option<real>)
    requires Sorted(list)
    ensures r == At(list, id)
  {
    hide At;
    var low, high := 0, |list|;
    while low < high
      invariant 0 <= low <= high <= |list|
      invariant forall k :: 0 <= k < low ==> list[k].doc < id
      invariant forall k :: high <= k < |list| ==> id <= list[k].doc
    {
      var mid := low + (high - low) / 2;
      if list[mid].doc < id { low := mid + 1; } else { high := mid; }
    }
    if low == |list| || list[low].doc != id {
      AtSome(list, id);
      return None;
    }
    AtIndex(list, low);
    r := Some(list[low].score);
  }

  /** The line of one node. */
  method Judge(v: SearchView, scorer: Scorer, plan: Plan, id: nat, ghost c: Corpus, ghost local: Slots)
    returns (r: Result<Option<real>, ExecutionError>)
    requires Serves(v, c, local) && c.scorer == scorer && Executable(v.schema, plan) && 1 <= id <= |local|
    ensures ValidScorer(c.scorer) && r == Ok(Verdict(c, plan, local[id - 1]))
  {
    hide Serves, Executable, At, Verdict;
    var candidates := Evaluate(v, scorer, plan, c, local);
    match candidates {
      case Err(e) => return Err(e);
      case Ok(list) =>
        var found := FindCandidate(list, id);
        assert At(list, id) == VerdictAt(c, local, plan, id);
        r := Ok(found);
    }
  }

  function Line(kind: NodeType, show: Printer, plan: Plan, verdict: Option<real>, children: seq<Explanation>)
    : Explanation {
    Explanation(kind, Canonical(show, plan), "", "", 1.0, verdict.Some?, if verdict.Some? then verdict.value else 0.0,
                NO_INPUTS, children)
  }

  /** The inputs of the formula, read from the index. */
  method ReadInputs(v: SearchView, f: string, t: string, id: nat, ghost c: Corpus, ghost local: Slots)
    returns (r: Inputs)
    requires Serves(v, c, local) && 1 <= id <= |local|
    ensures r == InputsOf(c, local, local[id - 1], f, t)
  {
    hide FieldLengths, FieldTokens, Frequency, FieldCount, FieldTotal, Postings, Ascending, ContainsTerm;
    var statistics := v.Statistics(f);
    var documentFrequency, termFrequency, length := 0, 0, 0;
    var entry := v.Lookup(f, t);
    if entry.Some? {
      documentFrequency := entry.value.documentFrequency;
      PostingsAscend(v.schema, local, f, t);
      var posting := FindPosting(entry.value.postings, id);
      PostingInList(v, c, local, f, t, id, posting);
      PostingFrequency(v.schema, local[id - 1], f, t, id);
      if posting.Some? { termFrequency := posting.value.frequency; }
    } else {
      assert Postings(v.schema, local, f, t) == [];
      PostingInList(v, c, local, f, t, id, None);
      PostingFrequency(v.schema, local[id - 1], f, t, id);
    }
    RecordLengths(v, c, local, id);
    if f in v.records[id].fieldLengths { length := v.records[id].fieldLengths[f]; }
    r := Inputs(statistics.0, Average(statistics), documentFrequency, termFrequency, length);
  }

  lemma RecordLengths(v: SearchView, c: Corpus, local: Slots, id: nat)
    requires Serves(v, c, local) && 1 <= id <= |local|
    ensures id in v.records && v.records[id].fieldLengths == FieldLengths(v.schema, local[id - 1])
  {
    assert v.records[id - 1 + 1] == RecordFor(v.schema, local[id - 1], id - 1 + 1);
  }

  lemma PostingFrequency(schema: Schema, d: Document, f: string, t: string, id: nat)
    ensures PostingFor(schema, d, f, t, id).frequency == Frequency(FieldTokens(schema, d, f), t)
    ensures ContainsTerm(schema, d, f, t) <==> Frequency(FieldTokens(schema, d, f), t) > 0
  {
    FrequencyIsPositions(FieldTokens(schema, d, f), t);
  }

  method ExplainTerm(v: SearchView, scorer: Scorer, show: Printer, plan: Plan, id: nat, ghost c: Corpus,
                     ghost local: Slots)
    returns (r: Result<Explanation, ExecutionError>)
    requires Serves(v, c, local) && c.scorer == scorer && plan.Term? && plan.boost >= 0.0 && 1 <= id <= |local|
    ensures ValidScorer(c.scorer) && r.Ok? && ExplainsTerm(c, local, local[id - 1], show, plan, r.value)
  {
    hide Serves, Verdict, InputsOf, Canonical;
    var verdict := Judge(v, scorer, plan, id, c, local);
    match verdict {
      case Err(e) => return Err(e);
      case Ok(verdict) =>
        var inputs := ReadInputs(v, plan.field, plan.term, id, c, local);
        r := Ok(Line(TermNode, show, plan, verdict, []).(field := plan.field, term := plan.term, boost := plan.boost,
                                                         inputs := inputs));
    }
  }

  method ExplainPhrase(v: SearchView, scorer: Scorer, show: Printer, plan: Plan, id: nat, ghost c: Corpus,
                       ghost local: Slots)
    returns (r: Result<Explanation, ExecutionError>)
    requires Serves(v, c, local) && c.scorer == scorer && plan.Phrase? && plan.boost >= 0.0 && 1 <= id <= |local|
    ensures ValidScorer(c.scorer) && r.Ok? && Explains(c, local, local[id - 1], show, plan, r.value)
  {
    hide Serves, Verdict, ExplainsTerm, Canonical;
    var verdict := Judge(v, scorer, plan, id, c, local);
    match verdict {
      case Err(e) => return Err(e);
      case Ok(verdict) =>
        var children: seq<Explanation> := [];
        for i := 0 to |plan.tokens|
          invariant |children| == i
          invariant forall k :: 0 <= k < i ==>
            ExplainsTerm(c, local, local[id - 1], show, Term(plan.field, plan.tokens[k].term, plan.boost, 0),
                         children[k])
        {
          var child := ExplainTerm(v, scorer, show, Term(plan.field, plan.tokens[i].term, plan.boost, 0), id, c, local);
          match child {
            case Err(e) => return Err(e);
            case Ok(explained) => children := children + [explained];
          }
        }
        r := Ok(Line(PhraseNode, show, plan, verdict, children).(field := plan.field, boost := plan.boost));
    }
  }

  /** The explanations of a node's children, in order. */
  method ExplainAll(v: SearchView, scorer: Scorer, show: Printer, children: seq<Plan>, ghost parent: Plan, id: nat,
                    ghost c: Corpus, ghost local: Slots)
    returns (r: Result<seq<Explanation>, ExecutionError>)
    requires Serves(v, c, local) && c.scorer == scorer && 1 <= id <= |local|
    requires forall i :: 0 <= i < |children| ==> children[i] < parent && Executable(v.schema, children[i])
    ensures ValidScorer(c.scorer) && r.Ok? && |r.value| == |children|
    ensures forall i :: 0 <= i < |children| ==> Explains(c, local, local[id - 1], show, children[i], r.value[i])
    decreases parent, 0
  {
    hide Explains, Executable;
    var explained: seq<Explanation> := [];
    for i := 0 to |children|
      invariant |explained| == i
      invariant forall k :: 0 <= k < i ==> Explains(c, local, local[id - 1], show, children[k], explained[k])
    {
      var child := ExplainNode(v, scorer, show, children[i], id, c, local);
      match child {
        case Err(e) => return Err(e);
        case Ok(e) => explained := explained + [e];
      }
    }
    r := Ok(explained);
  }

  method ExplainNode(v: SearchView, scorer: Scorer, show: Printer, plan: Plan, id: nat, ghost c: Corpus,
                     ghost local: Slots)
    returns (r: Result<Explanation, ExecutionError>)
    requires Serves(v, c, local) && c.scorer == scorer && Executable(v.schema, plan) && 1 <= id <= |local|
    ensures ValidScorer(c.scorer) && r.Ok? && Explains(c, local, local[id - 1], show, plan, r.value)
    decreases plan, 1
  {
    hide Serves, Verdict, Canonical, ExplainsTerm;
    if plan.Term? {
      r := ExplainTerm(v, scorer, show, plan, id, c, local);
      TermIsExplained(c, local, local[id - 1], show, plan, r.value);
      return;
    }
    if plan.Phrase? {
      r := ExplainPhrase(v, scorer, show, plan, id, c, local);
      return;
    }
    var verdict := Judge(v, scorer, plan, id, c, local);
    match verdict {
      case Err(e) => return Err(e);
      case Ok(verdict) =>
        var below := Children(plan);
        var children := ExplainAll(v, scorer, show, below, plan, id, c, local);
        match children {
          case Err(e) => return Err(e);
          case Ok(children) =>
            var field := if plan.Range? then plan.field else "";
            r := Ok(Line(KindOf(plan), show, plan, verdict, children).(field := field));
        }
    }
  }

  lemma TermIsExplained(c: Corpus, local: Slots, d: Document, show: Printer, plan: Plan, e: Explanation)
    requires ValidScorer(c.scorer) && plan.Term? && ExplainsTerm(c, local, d, show, plan, e)
    ensures Explains(c, local, d, show, plan, e)
  {
    hide Verdict, Canonical;
  }

  function Children(plan: Plan): (r: seq<Plan>)
    ensures forall i :: 0 <= i < |r| ==> r[i] < plan
  {
    match plan
    case And(children, _) => children
    case Or(children, _) => children
    case Not(operand, _) => [operand]
    case Term(_, _, _, _) => []
    case Phrase(_, _, _, _) => []
    case Range(_, _, _, _, _, _) => []
    case MatchAll(_) => []
  }

  function KindOf(plan: Plan): NodeType {
    match plan
    case Term(_, _, _, _) => TermNode
    case Phrase(_, _, _, _) => PhraseNode
    case And(_, _) => AndNode
    case Or(_, _) => OrNode
    case Not(_, _) => NotNode
    case Range(_, _, _, _, _, _) => RangeNode
    case MatchAll(_) => MatchAllNode
  }

  /** `QueryExecutor::explain`; `located` is what the index's ID map holds for the document. */
  method Explain(v: SearchView, scorer: Result<Scorer, Bm25Error>, show: Printer, plan: Plan, located: Option<nat>,
                 ghost c: Corpus, ghost local: Slots)
    returns (r: Result<Explanation, ExecutionError>)
    requires Executable(v.schema, plan) && (located.Some? ==> 1 <= located.value <= |local|)
    requires scorer.Ok? ==> Serves(v, c, local) && c.scorer == scorer.value
    ensures scorer.Err? ==> r == Err(ExecutionError.InvalidOptions)
    ensures scorer.Ok? && located.None? ==> r == Err(ExecutionError.InvalidQueryTree)
    ensures scorer.Ok? && located.Some? ==>
      ValidScorer(c.scorer) && r.Ok? && Explains(c, local, local[located.value - 1], show, plan, r.value)
  {
    if scorer.Err? { return Err(ExecutionError.InvalidOptions); }
    if located.None? { return Err(ExecutionError.InvalidQueryTree); }
    r := ExplainNode(v, scorer.value, show, plan, located.value, c, local);
  }

  // ---- the numbers add up ----

  function Total(es: seq<Explanation>): real {
    if es == [] then 0.0 else Total(es[..|es| - 1]) + es[|es| - 1].score
  }

  predicate AllMatched(es: seq<Explanation>) { forall i :: 0 <= i < |es| ==> es[i].matched }
  predicate SomeMatched(es: seq<Explanation>) { exists i :: 0 <= i < |es| && es[i].matched }

  /** What a reader of an explanation can check without the index: every score follows from the
      lines below it. */
  predicate AddsUp(scorer: Scorer, live: bool, e: Explanation)
    requires ValidScorer(scorer)
  {
    && (!e.matched ==> e.score == 0.0)
    && (e.matched ==> live)
    && (forall i :: 0 <= i < |e.children| ==> AddsUp(scorer, live, e.children[i]))
    && match e.kind
       case TermNode => e.matched ==> Reproduces(scorer, e)
       case PhraseNode => e.matched ==> AllMatched(e.children) && e.score == Total(e.children)
       case AndNode =>
         (e.matched <==> e.children != [] && AllMatched(e.children)) && (e.matched ==> e.score == Total(e.children))
       case OrNode => (e.matched <==> SomeMatched(e.children)) && e.score == Total(e.children)
       case NotNode => |e.children| == 1 && (e.matched <==> live && !e.children[0].matched) && e.score == 0.0
       case RangeNode => e.score == 0.0
       case MatchAllNode => e.score == 0.0 && (e.matched <==> live)
  }

  /** The inputs shown give the score shown. */
  predicate Reproduces(scorer: Scorer, e: Explanation)
    requires ValidScorer(scorer)
  {
    var x := e.inputs;
    && x.termFrequency > 0 && x.averageLength > 0.0
    && e.score == Idf(scorer, x.corpusDocuments, x.documentFrequency)
         * FrequencyWeight(scorer, x.termFrequency, x.documentLength, x.averageLength) * e.boost
  }

  lemma TermAddsUp(c: Corpus, local: Slots, i: nat, v: SearchView, show: Printer, plan: Plan, e: Explanation)
    requires Serves(v, c, local) && i < |local| && plan.Term? && ValidScorer(c.scorer)
    requires ExplainsTerm(c, local, local[i], show, plan, e)
    ensures AddsUp(c.scorer, !local[i].deleted, e)
  {
    hide Canonical, FieldTokens, Frequency, FieldCount, FieldTotal, DocumentFrequency, Idf, FrequencyWeight,
         FieldLengths, Postings;
    var d, f, t := local[i], plan.field, plan.term;
    if e.matched {
      PostingFrequency(c.schema, d, f, t, i + 1);
      ScoringFacts(v, c, local, f, t, i);
      RecordLengths(v, c, local, i + 1);
      StatisticsAreConsistent(c.schema, c.global, d, f, t);
      PostingsAreFrequency(c.schema, c.global, f, t);
      var k := SlotHasPosting(c.schema, local, f, t, i);
      TermScoreUnfolds(c, d, f, t, plan.boost);
      AverageIs(v.Statistics(f));
      var x := e.inputs;
      assert x.averageLength > 0.0 by {
        PositiveRatio(FieldTotal(c.schema, c.global, f), FieldCount(c.schema, c.global, f));
      }
    }
  }

  lemma PositiveRatio(a: nat, b: nat)
    requires a > 0 && b > 0
    ensures a as real / b as real > 0.0
  {
  }

  lemma {:induction false} PhraseTotal(c: Corpus, local: Slots, d: Document, show: Printer, f: string,
                                       tokens: seq<Token>, boost: real, es: seq<Explanation>)
    requires ValidScorer(c.scorer) && |es| == |tokens|
    requires forall i :: 0 <= i < |tokens| ==>
      ExplainsTerm(c, local, d, show, Term(f, tokens[i].term, boost, 0), es[i]) && es[i].matched
    ensures Total(es) == PhraseScore(c, d, f, tokens, boost)
    decreases |es|
  {
    hide TermScore, InputsOf, Canonical;
    if es != [] {
      var n := |es| - 1;
      assert ExplainsTerm(c, local, d, show, Term(f, tokens[n].term, boost, 0), es[n]);
      PhraseTotal(c, local, d, show, f, tokens[..n], boost, es[..n]);
    }
  }

  lemma PhraseAddsUp(c: Corpus, local: Slots, i: nat, v: SearchView, show: Printer, plan: Plan, e: Explanation)
    requires Serves(v, c, local) && i < |local| && plan.Phrase? && ValidScorer(c.scorer)
    requires Explains(c, local, local[i], show, plan, e)
    ensures AddsUp(c.scorer, !local[i].deleted, e)
  {
    hide Serves, InputsOf, Canonical, Reproduces, PhraseOccurs, TermScore;
    var d := local[i];
    forall k | 0 <= k < |e.children| ensures AddsUp(c.scorer, !d.deleted, e.children[k]) {
      TermAddsUp(c, local, i, v, show, Term(plan.field, plan.tokens[k].term, plan.boost, 0), e.children[k]);
    }
    if e.matched {
      PhraseContains(c.schema, d, plan.field, plan.tokens);
      forall k | 0 <= k < |e.children| ensures e.children[k].matched {
        assert ExplainsTerm(c, local, d, show, Term(plan.field, plan.tokens[k].term, plan.boost, 0), e.children[k]);
        PostingFrequency(c.schema, d, plan.field, plan.tokens[k].term, i + 1);
      }
      PhraseTotal(c, local, d, show, plan.field, plan.tokens, plan.boost, e.children);
    }
  }

  /** Unmatched clauses show zero, so the sum over all lines is the score. */
  lemma {:induction false} ChildrenTotal(c: Corpus, local: Slots, d: Document, show: Printer, children: seq<Plan>,
                                         es: seq<Explanation>)
    requires ValidScorer(c.scorer) && |es| == |children| && !d.deleted
    requires forall i :: 0 <= i < |children| ==> Judges(c, d, show, children[i], es[i])
    ensures Total(es) == ScoreSum(c, children, d)
    decreases |es|
  {
    hide ScoreOf, Matches, Canonical;
    if es != [] {
      var n := |es| - 1;
      if !Matches(c.schema, children[n], d) { UnmatchedScoresZero(c, children[n], d); }
      assert Judges(c, d, show, children[n], es[n]);
      ChildrenTotal(c, local, d, show, children[..n], es[..n]);
    }
  }

  lemma {:induction false} NothingShown(es: seq<Explanation>)
    requires forall i :: 0 <= i < |es| ==> es[i].score == 0.0
    ensures Total(es) == 0.0
  {
    if es != [] { NothingShown(es[..|es| - 1]); }
  }

  lemma ExplainedIsJudged(c: Corpus, local: Slots, d: Document, show: Printer, plan: Plan, e: Explanation)
    requires ValidScorer(c.scorer) && Explains(c, local, d, show, plan, e)
    ensures Judges(c, d, show, plan, e)
  {
  }

  /** Every explanation adds up: a term's inputs give its score, a phrase and a conjunction show the
      sum of what they consist of, a disjunction the sum of its matching clauses. */
  lemma {:induction false} ExplanationAddsUp(c: Corpus, local: Slots, i: nat, v: SearchView, show: Printer, plan: Plan,
                                             e: Explanation)
    requires Serves(v, c, local) && i < |local| && ValidScorer(c.scorer)
    requires Explains(c, local, local[i], show, plan, e)
    ensures AddsUp(c.scorer, !local[i].deleted, e)
    decreases plan
  {
    hide Serves, InputsOf, Canonical, Reproduces, ExplainsTerm, ScoreSum, Total;
    var d := local[i];
    match plan {
      case Term(_, _, _, _) => TermAddsUp(c, local, i, v, show, plan, e);
      case Phrase(_, _, _, _) => PhraseAddsUp(c, local, i, v, show, plan, e);
      case And(children, _) => BooleanAddsUp(c, local, i, v, show, plan, children, e);
      case Or(children, _) => BooleanAddsUp(c, local, i, v, show, plan, children, e);
      case Not(operand, _) =>
        ExplanationAddsUp(c, local, i, v, show, operand, e.children[0]);
        ExplainedIsJudged(c, local, d, show, operand, e.children[0]);
      case Range(_, _, _, _, _, _) =>
      case MatchAll(_) =>
    }
  }

  lemma {:induction false} BooleanAddsUp(c: Corpus, local: Slots, i: nat, v: SearchView, show: Printer, plan: Plan,
                                         children: seq<Plan>, e: Explanation)
    requires Serves(v, c, local) && i < |local| && ValidScorer(c.scorer)
    requires (plan.And? || plan.Or?) && plan.children == children && Explains(c, local, local[i], show, plan, e)
    ensures AddsUp(c.scorer, !local[i].deleted, e)
    decreases plan, 0
  {
    hide Serves, InputsOf, Canonical, Reproduces, ExplainsTerm, ScoreSum, Total;
    var d := local[i];
    forall k | 0 <= k < |children|
      ensures Judges(c, d, show, children[k], e.children[k]) && AddsUp(c.scorer, !d.deleted, e.children[k])
      ensures e.children[k].matched <==> !d.deleted && Matches(c.schema, children[k], d)
    {
      ExplainedIsJudged(c, local, d, show, children[k], e.children[k]);
      ExplanationAddsUp(c, local, i, v, show, children[k], e.children[k]);
    }
    if d.deleted {
      NothingShown(e.children);
      if children != [] { assert !e.children[0].matched; }
    } else {
      ChildrenTotal(c, local, d, show, children, e.children);
      if !Matches(c.schema, plan, d) { UnmatchedScoresZero(c, plan, d); }
      if plan.Or? && Matches(c.schema, plan, d) {
        var k :| 0 <= k < |children| && Matches(c.schema, children[k], d);
        assert e.children[k].matched;
      }
    }
    if e.matched { BooleanSum(c, d, show, plan, e); }
  }

  lemma BooleanSum(c: Corpus, d: Document, show: Printer, plan: Plan, e: Explanation)
    requires ValidScorer(c.scorer) && (plan.And? || plan.Or?) && Judges(c, d, show, plan, e) && e.matched
    ensures e.score == ScoreSum(c, plan.children, d)
  {
    hide Matches, Canonical;
  }
}

/** How a query tree scores a document, said of the tree itself: the sums, the products of boosts and the
    clauses that count once. Any plan of the tree gives the same score. */
module QueryScores {
  import opened Basics
  import opened Analysis
  import opened Schemas
  import opened IndexModel
  import opened Bm25
  import opened Plans
  import opened Canonicalization
  import opened Shapes
  import opened Queries
  import opened Outlines

  // ---- a plan read off the tree, without an index ----

  /** A Boolean node over clauses; a single clause stands for itself. */
  function Joined(conjunction: bool, clauses: seq<Plan>): Plan {
    if |clauses| == 1 then clauses[0] else if conjunction then And(clauses, 0) else Or(clauses, 0)
  }

  predicate Repeats(clauses: seq<Plan>, p: Plan) {
    ShapeOf(p) in ShapesOf(clauses)
  }

  /** One more clause, unless it is there. */
  function With(clauses: seq<Plan>, p: Plan): seq<Plan> {
    if Repeats(clauses, p) then clauses else clauses + [p]
  }

  /** The distinct terms of an analysed text. */
  function TermPlans(f: string, tokens: seq<Token>, boost: real): seq<Plan> {
    if tokens == [] then []
    else
      var n := |tokens| - 1;
      TermPlans(f, tokens[..n], boost)
      + if tokens[n].term in Terms(tokens[..n]) then [] else [Term(f, tokens[n].term, boost, 0)]
  }

  function FieldBoost(schema: Schema, f: string, boost: real): real {
    if f in schema then Times(boost, schema[f].boost) else boost
  }

  function TextPlan(schema: Schema, f: string, text: string, phrase: bool, boost: real): Plan {
    var tokens, b := QueryTokens(schema, f, text), FieldBoost(schema, f, boost);
    if phrase then Phrase(f, tokens, b, 0) else Joined(false, TermPlans(f, tokens, b))
  }

  function FieldPlans(schema: Schema, fields: seq<SearchField>, text: string, phrase: bool, boost: real): seq<Plan> {
    if fields == [] then []
    else
      var k := |fields| - 1;
      With(FieldPlans(schema, fields[..k], text, phrase, boost),
           TextPlan(schema, fields[k].name, text, phrase, Times(boost, fields[k].boost)))
  }

  function LeafPlan(schema: Schema, fields: seq<SearchField>, field: Option<string>, text: string, phrase: bool,
                    boost: real): Plan {
    match field
    case Some(f) => TextPlan(schema, f, text, phrase, boost)
    case None => Joined(false, FieldPlans(schema, fields, text, phrase, boost))
  }

  function BoundOf(schema: Schema, f: string, bound: string): string {
    if f in schema && CanonicalBound(schema, f, bound).Ok? then CanonicalBound(schema, f, bound).value else bound
  }

  function TreePlan(schema: Schema, fields: seq<SearchField>, q: Query, field: Option<string>, boost: real): Plan {
    match q
    case TermQuery(text) => LeafPlan(schema, fields, field, text, false, boost)
    case PhraseQuery(text) => LeafPlan(schema, fields, field, text, true, boost)
    case AndQuery(l, r) =>
      Joined(true, With([TreePlan(schema, fields, l, field, boost)], TreePlan(schema, fields, r, field, boost)))
    case OrQuery(l, r) =>
      Joined(false, With([TreePlan(schema, fields, l, field, boost)], TreePlan(schema, fields, r, field, boost)))
    case NotQuery(operand) => Not(TreePlan(schema, fields, operand, field, boost), 0)
    case FieldQuery(f, inner) => TreePlan(schema, fields, inner, Some(f), boost)
    case RangeFilter(f, lower, upper, il, iu) =>
      Range(f, BoundOf(schema, f, lower), BoundOf(schema, f, upper), il, iu, 0)
    case BoostQuery(inner, b) => TreePlan(schema, fields, inner, field, Times(boost, b))
    case MatchAllQuery => MatchAll(0)
  }

  // ---- it has the outlined shape and repeats nothing ----

  ghost predicate Clean(clauses: seq<Plan>) {
    AllApart(clauses) && forall i :: 0 <= i < |clauses| ==> Distinct(clauses[i])
  }

  lemma ShapesOfMore(clauses: seq<Plan>, p: Plan)
    ensures ShapesOf(clauses + [p]) == ShapesOf(clauses) + {ShapeOf(p)}
  {
    hide ShapeOf;
    var more := clauses + [p];
    forall s | s in ShapesOf(clauses) ensures s in ShapesOf(more) {
      var i :| 0 <= i < |clauses| && ShapeOf(clauses[i]) == s;
      assert more[i] == clauses[i];
    }
    assert more[|clauses|] == p;
  }

  lemma WithIs(clauses: seq<Plan>, p: Plan)
    requires Clean(clauses) && Distinct(p)
    ensures Clean(With(clauses, p)) && ShapesOf(With(clauses, p)) == ShapesOf(clauses) + {ShapeOf(p)}
  {
    ShapesOfMore(clauses, p);
    hide ShapeOf, Distinct;
    if !Repeats(clauses, p) {
      forall i | 0 <= i < |clauses| ensures ShapeOf(clauses[i]) != ShapeOf(p) {
        assert ShapeOf(clauses[i]) in ShapesOf(clauses);
      }
    }
  }

  lemma {:induction false} ApartCount(clauses: seq<Plan>)
    requires AllApart(clauses)
    ensures |ShapesOf(clauses)| == |clauses|
  {
    hide ShapeOf;
    if clauses != [] {
      var n := |clauses| - 1;
      ApartCount(clauses[..n]);
      ShapesOfMore(clauses[..n], clauses[n]);
      assert clauses == clauses[..n] + [clauses[n]];
      assert ShapeOf(clauses[n]) !in ShapesOf(clauses[..n]);
    }
  }

  lemma JoinedIsNormalized(limits: Limits, conjunction: bool, clauses: seq<Plan>, n: Counters)
    requires Clean(clauses) && Normalized(limits, conjunction, ShapesOf(clauses), n).Ok?
    ensures ShapeOf(Joined(conjunction, clauses)) == Normalized(limits, conjunction, ShapesOf(clauses), n).value.0
    ensures Distinct(Joined(conjunction, clauses))
  {
    ApartCount(clauses);
    if |clauses| == 1 {
      assert ShapeOf(clauses[0]) in ShapesOf(clauses);
      OnlyOne(ShapesOf(clauses));
    }
  }

  lemma {:induction false} TermPlansAre(f: string, tokens: seq<Token>, boost: real)
    ensures Clean(TermPlans(f, tokens, boost))
    ensures ShapesOf(TermPlans(f, tokens, boost)) == TermShapes(f, Terms(tokens), boost)
    ensures forall p :: p in TermPlans(f, tokens, boost) ==> p.Term?
  {
    if tokens != [] {
      var n := |tokens| - 1;
      TermPlansAre(f, tokens[..n], boost);
      var head, t := TermPlans(f, tokens[..n], boost), tokens[n].term;
      var p := Term(f, t, boost, 0);
      TermsOfMore(tokens);
      WithIs(head, p);
      assert Repeats(head, p) <==> t in Terms(tokens[..n]) by {
        if Repeats(head, p) {
          var u :| u in Terms(tokens[..n]) && TermShape(f, u, boost) == ShapeOf(p);
        }
      }
      assert TermPlans(f, tokens, boost) == With(head, p);
    }
  }

  lemma TermsOfMore(tokens: seq<Token>)
    requires tokens != []
    ensures Terms(tokens) == Terms(tokens[..|tokens| - 1]) + {tokens[|tokens| - 1].term}
  {
    var n := |tokens| - 1;
    forall t | t in Terms(tokens) ensures t in Terms(tokens[..n]) + {tokens[n].term} {
      var i :| 0 <= i < |tokens| && tokens[i].term == t;
      if i < n { assert tokens[..n][i].term == t; }
    }
  }

  lemma TextPlanIs(schema: Schema, limits: Limits, f: string, text: string, phrase: bool, boost: real, n: Counters)
    requires OutlineText(schema, limits, f, text, phrase, boost, n).Ok?
    ensures ShapeOf(TextPlan(schema, f, text, phrase, boost))
      == OutlineText(schema, limits, f, text, phrase, boost, n).value.0
    ensures Distinct(TextPlan(schema, f, text, phrase, boost))
  {
    hide Normalized, Joined, TermPlans, TermShapes, Terms;
    var tokens, b := QueryTokens(schema, f, text), FieldBoost(schema, f, boost);
    if !phrase {
      var (_, m) := AnalyzeQuery(schema[f], limits, text, false, n).value;
      TermPlansAre(f, tokens, b);
      JoinedIsNormalized(limits, false, TermPlans(f, tokens, b), m.(planned := m.planned + |Terms(tokens)|));
    }
  }

  lemma {:induction false} FieldPlansAre(schema: Schema, limits: Limits, fields: seq<SearchField>, text: string,
                                         phrase: bool, boost: real, n: Counters)
    requires OutlineFields(schema, limits, fields, text, phrase, boost, n).Ok?
    ensures Clean(FieldPlans(schema, fields, text, phrase, boost))
    ensures ShapesOf(FieldPlans(schema, fields, text, phrase, boost))
      == OutlineFields(schema, limits, fields, text, phrase, boost, n).value.0
  {
    hide OutlineText, TextPlan, With, Clean;
    if fields == [] {
      assert Clean([]) by { NoClauses(); }
    } else {
      var k := |fields| - 1;
      FieldPlansAre(schema, limits, fields[..k], text, phrase, boost, n);
      var (_, m) := OutlineFields(schema, limits, fields[..k], text, phrase, boost, n).value;
      var b := Times(boost, fields[k].boost);
      TextPlanIs(schema, limits, fields[k].name, text, phrase, b, m);
      WithIs(FieldPlans(schema, fields[..k], text, phrase, boost),
             TextPlan(schema, fields[k].name, text, phrase, b));
    }
  }

  lemma NoClauses()
    ensures Clean([])
  {
  }

  lemma LeafPlanIs(schema: Schema, options: Options, field: Option<string>, text: string, phrase: bool, boost: real,
                   n: Counters)
    requires OutlineLeaf(schema, options, field, text, phrase, boost, n).Ok?
    ensures var p := LeafPlan(schema, options.defaultFields, field, text, phrase, boost);
      ShapeOf(p) == OutlineLeaf(schema, options, field, text, phrase, boost, n).value.0 && Distinct(p)
  {
    hide OutlineText, OutlineFields, TextPlan, FieldPlans, Normalized, Joined, Clean;
    match field
    case Some(f) => TextPlanIs(schema, options.limits, f, text, phrase, boost, n);
    case None =>
      FieldPlansAre(schema, options.limits, options.defaultFields, text, phrase, boost, n);
      var (_, m) := OutlineFields(schema, options.limits, options.defaultFields, text, phrase, boost, n).value;
      JoinedIsNormalized(options.limits, false, FieldPlans(schema, options.defaultFields, text, phrase, boost), m);
  }

  lemma PairPlanIs(limits: Limits, conjunction: bool, l: Plan, r: Plan, n: Counters)
    requires Distinct(l) && Distinct(r) && Pair(limits, conjunction, ShapeOf(l), ShapeOf(r), n).Ok?
    ensures var p := Joined(conjunction, With([l], r));
      ShapeOf(p) == Pair(limits, conjunction, ShapeOf(l), ShapeOf(r), n).value.0 && Distinct(p)
  {
    hide Normalized, Joined;
    assert ShapesOf([l]) == {ShapeOf(l)} by { assert [l][0] == l; }
    assert Clean([l]);
    hide ShapeOf, Distinct;
    WithIs([l], r);
    assert ShapesOf(With([l], r)) == {ShapeOf(l), ShapeOf(r)};
    JoinedIsNormalized(limits, conjunction, With([l], r), n);
  }

  /** Whatever outlines has the shape of the plan read off the tree. */
  lemma {:induction false} TreePlanIsOutlined(schema: Schema, options: Options, q: Query, field: Option<string>,
                                              boost: real, depth: nat, n: Counters)
    requires Outline(schema, options, q, field, boost, depth, n).Ok?
    ensures var p := TreePlan(schema, options.defaultFields, q, field, boost);
      ShapeOf(p) == Outline(schema, options, q, field, boost, depth, n).value.0 && Distinct(p)
    decreases q
  {
    hide OutlineLeaf, LeafPlan, Pair, Joined, With, CanonicalBound;
    var m := n.(source := n.source + 1);
    match q
    case TermQuery(text) => LeafPlanIs(schema, options, field, text, false, boost, m);
    case PhraseQuery(text) => LeafPlanIs(schema, options, field, text, true, boost, m);
    case AndQuery(l, r) =>
      var (left, ml) := Outline(schema, options, l, field, boost, depth + 1, m).value;
      var (right, mr) := Outline(schema, options, r, field, boost, depth + 1, ml).value;
      TreePlanIsOutlined(schema, options, l, field, boost, depth + 1, m);
      TreePlanIsOutlined(schema, options, r, field, boost, depth + 1, ml);
      PairPlanIs(options.limits, true, TreePlan(schema, options.defaultFields, l, field, boost),
                 TreePlan(schema, options.defaultFields, r, field, boost), mr);
    case OrQuery(l, r) =>
      var (left, ml) := Outline(schema, options, l, field, boost, depth + 1, m).value;
      var (right, mr) := Outline(schema, options, r, field, boost, depth + 1, ml).value;
      TreePlanIsOutlined(schema, options, l, field, boost, depth + 1, m);
      TreePlanIsOutlined(schema, options, r, field, boost, depth + 1, ml);
      PairPlanIs(options.limits, false, TreePlan(schema, options.defaultFields, l, field, boost),
                 TreePlan(schema, options.defaultFields, r, field, boost), mr);
    case NotQuery(operand) => TreePlanIsOutlined(schema, options, operand, field, boost, depth + 1, m);
    case FieldQuery(f, inner) => TreePlanIsOutlined(schema, options, inner, Some(f), boost, depth + 1, m);
    case RangeFilter(_, _, _, _, _) =>
    case BoostQuery(inner, b) =>
      TreePlanIsOutlined(schema, options, inner, field, Times(boost, b), depth + 1, m);
    case MatchAllQuery =>
  }

  // ---- the score of a tree ----

  /** The distinct terms of a text, each with the score it has in the document. */
  function TermsScore(c: Corpus, d: Document, f: string, tokens: seq<Token>, boost: real): real
    requires ValidScorer(c.scorer)
  {
    if tokens == [] then 0.0
    else
      var n := |tokens| - 1;
      TermsScore(c, d, f, tokens[..n], boost)
      + if tokens[n].term in Terms(tokens[..n]) then 0.0 else TermScore(c, d, f, tokens[n].term, boost)
  }

  /** A text in one field: the search boost times the schema's boost of the field. */
  function TextScore(c: Corpus, d: Document, f: string, text: string, phrase: bool, boost: real): real
    requires ValidScorer(c.scorer)
  {
    var tokens, b := QueryTokens(c.schema, f, text), FieldBoost(c.schema, f, boost);
    if !phrase then TermsScore(c, d, f, tokens, b)
    else if PhraseOccurs(FieldTokens(c.schema, d, f), tokens) then PhraseScore(c, d, f, tokens, b)
    else 0.0
  }

  /** An unfielded text: the sum over the default fields, each with its boost; one that plans to the same
      clause as an earlier one counts once. */
  function FieldsScore(c: Corpus, d: Document, fields: seq<SearchField>, text: string, phrase: bool, boost: real): real
    requires ValidScorer(c.scorer)
  {
    if fields == [] then 0.0
    else
      var k := |fields| - 1;
      var b := Times(boost, fields[k].boost);
      FieldsScore(c, d, fields[..k], text, phrase, boost)
      + if Repeats(FieldPlans(c.schema, fields[..k], text, phrase, boost),
                   TextPlan(c.schema, fields[k].name, text, phrase, b)) then 0.0
        else TextScore(c, d, fields[k].name, text, phrase, b)
  }

  function LeafScore(c: Corpus, d: Document, fields: seq<SearchField>, field: Option<string>, text: string,
                     phrase: bool, boost: real): real
    requires ValidScorer(c.scorer)
  {
    match field
    case Some(f) => TextScore(c, d, f, text, phrase, boost)
    case None => FieldsScore(c, d, fields, text, phrase, boost)
  }

  /** Two operands plan to the same clause. */
  predicate Alike(schema: Schema, fields: seq<SearchField>, l: Query, r: Query, field: Option<string>, boost: real) {
    ShapeOf(TreePlan(schema, fields, l, field, boost)) == ShapeOf(TreePlan(schema, fields, r, field, boost))
  }

  /** The score of a query tree. Operands that plan to the same clause count once, a conjunction scores
      only where it matches, and boosts multiply on the way down. */
  function QueryScore(c: Corpus, fields: seq<SearchField>, q: Query, field: Option<string>, boost: real,
                      d: Document): real
    requires ValidScorer(c.scorer)
    decreases q, 1
  {
    match q
    case TermQuery(text) => LeafScore(c, d, fields, field, text, false, boost)
    case PhraseQuery(text) => LeafScore(c, d, fields, field, text, true, boost)
    case AndQuery(l, r) =>
      if QueryMatches(c.schema, fields, q, field, d) then
        QueryScore(c, fields, l, field, boost, d)
        + if Alike(c.schema, fields, l, r, field, boost) then 0.0 else QueryScore(c, fields, r, field, boost, d)
      else 0.0
    case OrQuery(l, r) =>
      QueryScore(c, fields, l, field, boost, d)
      + if Alike(c.schema, fields, l, r, field, boost) then 0.0 else QueryScore(c, fields, r, field, boost, d)
    case NotQuery(_) => 0.0
    case FieldQuery(f, inner) => QueryScore(c, fields, inner, Some(f), boost, d)
    case RangeFilter(_, _, _, _, _) => 0.0
    case BoostQuery(inner, b) => QueryScore(c, fields, inner, field, Times(boost, b), d)
    case MatchAllQuery => 0.0
  }

  // ---- plans score what their tree scores ----

  lemma SumOfMore(c: Corpus, clauses: seq<Plan>, p: Plan, d: Document)
    requires ValidScorer(c.scorer)
    ensures ScoreSum(c, clauses + [p], d) == ScoreSum(c, clauses, d) + ScoreOf(c, p, d)
  {
    hide ScoreOf;
    assert (clauses + [p])[..|clauses|] == clauses;
  }

  lemma SumOfWith(c: Corpus, clauses: seq<Plan>, p: Plan, d: Document)
    requires ValidScorer(c.scorer)
    ensures ScoreSum(c, With(clauses, p), d)
      == ScoreSum(c, clauses, d) + if Repeats(clauses, p) then 0.0 else ScoreOf(c, p, d)
  {
    hide ScoreOf, Repeats;
    SumOfMore(c, clauses, p, d);
  }

  /** A disjunction scores the sum of its clauses, a conjunction does where it matches. */
  lemma JoinedScore(c: Corpus, conjunction: bool, clauses: seq<Plan>, d: Document)
    requires ValidScorer(c.scorer)
    ensures ScoreOf(c, Joined(conjunction, clauses), d) ==
      if conjunction && !Matches(c.schema, Joined(conjunction, clauses), d) then 0.0 else ScoreSum(c, clauses, d)
  {
    hide TermScore, PhraseScore;
    var p := Joined(conjunction, clauses);
    if |clauses| == 1 {
      assert clauses[..0] == [];
      assert ScoreSum(c, [], d) == 0.0;
      assert ScoreSum(c, clauses, d) == ScoreOf(c, p, d);
      if !Matches(c.schema, p, d) { UnmatchedScoresZero(c, p, d); }
    }
  }

  lemma {:induction false} TermPlansScore(c: Corpus, d: Document, f: string, tokens: seq<Token>, boost: real)
    requires ValidScorer(c.scorer)
    ensures ScoreSum(c, TermPlans(f, tokens, boost), d) == TermsScore(c, d, f, tokens, boost)
  {
    hide TermScore, Terms;
    if tokens != [] {
      var n := |tokens| - 1;
      TermPlansScore(c, d, f, tokens[..n], boost);
      var head := TermPlans(f, tokens[..n], boost);
      SumOfMore(c, head, Term(f, tokens[n].term, boost, 0), d);
      assert head + [] == head;
    }
  }

  lemma TextPlanScore(c: Corpus, d: Document, f: string, text: string, phrase: bool, boost: real)
    requires ValidScorer(c.scorer)
    ensures ScoreOf(c, TextPlan(c.schema, f, text, phrase, boost), d) == TextScore(c, d, f, text, phrase, boost)
  {
    hide Joined, TermPlans, TermsScore, TermScore, PhraseScore, PhraseOccurs;
    var tokens, b := QueryTokens(c.schema, f, text), FieldBoost(c.schema, f, boost);
    if !phrase {
      JoinedScore(c, false, TermPlans(f, tokens, b), d);
      TermPlansScore(c, d, f, tokens, b);
    }
  }

  lemma {:induction false} FieldPlansScore(c: Corpus, d: Document, fields: seq<SearchField>, text: string,
                                           phrase: bool, boost: real)
    requires ValidScorer(c.scorer)
    ensures ScoreSum(c, FieldPlans(c.schema, fields, text, phrase, boost), d)
      == FieldsScore(c, d, fields, text, phrase, boost)
  {
    hide TextPlan, TextScore, With, Repeats, ScoreOf;
    if fields != [] {
      var k := |fields| - 1;
      var b := Times(boost, fields[k].boost);
      FieldPlansScore(c, d, fields[..k], text, phrase, boost);
      TextPlanScore(c, d, fields[k].name, text, phrase, b);
      SumOfWith(c, FieldPlans(c.schema, fields[..k], text, phrase, boost),
                TextPlan(c.schema, fields[k].name, text, phrase, b), d);
    }
  }

  lemma LeafPlanScore(c: Corpus, d: Document, fields: seq<SearchField>, field: Option<string>, text: string,
                      phrase: bool, boost: real)
    requires ValidScorer(c.scorer)
    ensures ScoreOf(c, LeafPlan(c.schema, fields, field, text, phrase, boost), d)
      == LeafScore(c, d, fields, field, text, phrase, boost)
  {
    hide TextPlan, TextScore, FieldPlans, FieldsScore, Joined, ScoreOf;
    match field
    case Some(f) => TextPlanScore(c, d, f, text, phrase, boost);
    case None =>
      JoinedScore(c, false, FieldPlans(c.schema, fields, text, phrase, boost), d);
      FieldPlansScore(c, d, fields, text, phrase, boost);
  }

  lemma PairPlanScore(c: Corpus, conjunction: bool, l: Plan, r: Plan, d: Document)
    requires ValidScorer(c.scorer)
    ensures var p := Joined(conjunction, With([l], r));
      ScoreOf(c, p, d) ==
      if conjunction && !Matches(c.schema, p, d) then 0.0
      else ScoreOf(c, l, d) + if ShapeOf(l) == ShapeOf(r) then 0.0 else ScoreOf(c, r, d)
  {
    assert ShapesOf([l]) == {ShapeOf(l)} by { assert [l][0] == l; }
    assert [l][..0] == [];
    assert ScoreSum(c, [l], d) == ScoreSum(c, [], d) + ScoreOf(c, l, d);
    hide ScoreOf, ShapeOf, Joined, Matches, With;
    JoinedScore(c, conjunction, With([l], r), d);
    SumOfWith(c, [l], r, d);
  }

  lemma TreePlanMatches(schema: Schema, options: Options, q: Query, field: Option<string>, boost: real, depth: nat,
                        n: Counters, d: Document)
    requires Outline(schema, options, q, field, boost, depth, n).Ok?
    ensures Matches(schema, TreePlan(schema, options.defaultFields, q, field, boost), d)
      <==> QueryMatches(schema, options.defaultFields, q, field, d)
  {
    hide Outline, TreePlan, ShapeOf, Matches, MatchesShape, QueryMatches, Distinct;
    TreePlanIsOutlined(schema, options, q, field, boost, depth, n);
    OutlineMatches(schema, options, q, field, boost, depth, n, d);
    MatchIsOfShape(schema, TreePlan(schema, options.defaultFields, q, field, boost), d);
  }

  /** The plan read off a tree that outlines scores what the tree scores. */
  lemma {:induction false} TreePlanScores(c: Corpus, options: Options, q: Query, field: Option<string>, boost: real,
                                          depth: nat, n: Counters, d: Document)
    requires ValidScorer(c.scorer) && Outline(c.schema, options, q, field, boost, depth, n).Ok?
    ensures ScoreOf(c, TreePlan(c.schema, options.defaultFields, q, field, boost), d)
      == QueryScore(c, options.defaultFields, q, field, boost, d)
    decreases q
  {
    hide OutlineLeaf, OutlineRange, LeafPlan, LeafScore, Pair, Joined, With, ShapeOf, TermScore, PhraseScore, Matches,
         QueryMatches, CanonicalBound;
    TreePlanMatches(c.schema, options, q, field, boost, depth, n, d);
    var m := n.(source := n.source + 1);
    match q
    case TermQuery(text) => LeafPlanScore(c, d, options.defaultFields, field, text, false, boost);
    case PhraseQuery(text) => LeafPlanScore(c, d, options.defaultFields, field, text, true, boost);
    case AndQuery(l, r) =>
      var ml := Outline(c.schema, options, l, field, boost, depth + 1, m).value.1;
      TreePlanScores(c, options, l, field, boost, depth + 1, m, d);
      TreePlanScores(c, options, r, field, boost, depth + 1, ml, d);
      PairPlanScore(c, true, TreePlan(c.schema, options.defaultFields, l, field, boost),
                    TreePlan(c.schema, options.defaultFields, r, field, boost), d);
    case OrQuery(l, r) =>
      var ml := Outline(c.schema, options, l, field, boost, depth + 1, m).value.1;
      TreePlanScores(c, options, l, field, boost, depth + 1, m, d);
      TreePlanScores(c, options, r, field, boost, depth + 1, ml, d);
      PairPlanScore(c, false, TreePlan(c.schema, options.defaultFields, l, field, boost),
                    TreePlan(c.schema, options.defaultFields, r, field, boost), d);
    case FieldQuery(f, inner) => TreePlanScores(c, options, inner, Some(f), boost, depth + 1, m, d);
    case BoostQuery(inner, b) =>
      TreePlanScores(c, options, inner, field, Times(boost, b), depth + 1, m, d);
    case _ =>
  }

  // ---- boosts ----

  /** Every boost times `b`. */
  function Scaled(p: Plan, b: real): Plan
    decreases p
  {
    match p
    case Term(f, t, boost, e) => Term(f, t, Times(boost, b), e)
    case Phrase(f, tokens, boost, e) => Phrase(f, tokens, Times(boost, b), e)
    case And(children, e) => And(seq(|children|, i requires 0 <= i < |children| => Scaled(children[i], b)), e)
    case Or(children, e) => Or(seq(|children|, i requires 0 <= i < |children| => Scaled(children[i], b)), e)
    case Not(operand, e) => Not(Scaled(operand, b), e)
    case _ => p
  }

  function ScaledAll(plans: seq<Plan>, b: real): (r: seq<Plan>)
    ensures |r| == |plans|
  {
    seq(|plans|, i requires 0 <= i < |plans| => Scaled(plans[i], b))
  }

  lemma TermScoreScales(c: Corpus, d: Document, f: string, t: string, boost: real, b: real)
    requires ValidScorer(c.scorer)
    ensures TermScore(c, d, f, t, Times(boost, b)) == TermScore(c, d, f, t, boost) * b
  {
    hide FieldTokens, Frequency, FieldCount, FieldTotal, DocumentFrequency, Idf, FrequencyWeight;
    var tokens := FieldTokens(c.schema, d, f);
    var tf, df := Frequency(tokens, t), DocumentFrequency(c.schema, c.global, f, t);
    var count, total := FieldCount(c.schema, c.global, f), FieldTotal(c.schema, c.global, f);
    if !(tf == 0 || count == 0 || df == 0 || total == 0) {
      Associates(Idf(c.scorer, count, df) * FrequencyWeight(c.scorer, tf, |tokens|, total as real / count as real),
                 boost, b);
    }
  }

  lemma Associates(x: real, y: real, z: real)
    ensures x * Times(y, z) == x * y * z
  {
  }

  lemma {:induction false} PhraseScoreScales(c: Corpus, d: Document, f: string, phrase: seq<Token>, boost: real,
                                             b: real)
    requires ValidScorer(c.scorer)
    ensures PhraseScore(c, d, f, phrase, Times(boost, b)) == PhraseScore(c, d, f, phrase, boost) * b
  {
    hide TermScore;
    if phrase != [] {
      var n := |phrase| - 1;
      PhraseScoreScales(c, d, f, phrase[..n], boost, b);
      TermScoreScales(c, d, f, phrase[n].term, boost, b);
      Distributes(PhraseScore(c, d, f, phrase[..n], boost), TermScore(c, d, f, phrase[n].term, boost), b);
    }
  }

  lemma Distributes(x: real, y: real, z: real)
    ensures (x + y) * z == x * z + y * z
  {
  }

  /** Scaling decides nothing about matching. */
  lemma {:induction false} ScaledMatches(schema: Schema, p: Plan, b: real, d: Document)
    ensures Matches(schema, Scaled(p, b), d) <==> Matches(schema, p, d)
    decreases p
  {
    hide Frequency, PhraseOccurs, RangeAccepts;
    match p
    case And(children, _) =>
      var kids := Scaled(p, b).children;
      forall i | 0 <= i < |children| ensures Matches(schema, kids[i], d) <==> Matches(schema, children[i], d) {
        ScaledMatches(schema, children[i], b, d);
      }
    case Or(children, _) =>
      var kids := Scaled(p, b).children;
      forall i | 0 <= i < |children| ensures Matches(schema, kids[i], d) <==> Matches(schema, children[i], d) {
        ScaledMatches(schema, children[i], b, d);
      }
    case Not(operand, _) => ScaledMatches(schema, operand, b, d);
    case _ =>
  }

  lemma {:induction false} ScaledScore(c: Corpus, p: Plan, b: real, d: Document)
    requires ValidScorer(c.scorer)
    ensures ScoreOf(c, Scaled(p, b), d) == ScoreOf(c, p, d) * b
    decreases p, 1
  {
    ScaledMatches(c.schema, p, b, d);
    hide Matches, TermScore, PhraseScore;
    match p
    case Term(f, t, boost, _) => TermScoreScales(c, d, f, t, boost, b);
    case Phrase(f, tokens, boost, _) => PhraseScoreScales(c, d, f, tokens, boost, b);
    case And(children, _) => ScaledSum(c, p, children, b, d);
    case Or(children, _) => ScaledSum(c, p, children, b, d);
    case _ =>
  }

  lemma {:induction false} ScaledSum(c: Corpus, parent: Plan, children: seq<Plan>, b: real, d: Document)
    requires ValidScorer(c.scorer) && forall i :: 0 <= i < |children| ==> children[i] < parent
    ensures ScoreSum(c, ScaledAll(children, b), d) == ScoreSum(c, children, d) * b
    decreases parent, 0, |children|
  {
    hide ScoreOf, Scaled;
    if children != [] {
      var n := |children| - 1;
      ScaledSum(c, parent, children[..n], b, d);
      ScaledScore(c, children[n], b, d);
      assert ScaledAll(children, b)[..n] == ScaledAll(children[..n], b);
      Distributes(ScoreSum(c, children[..n], d), ScoreOf(c, children[n], d), b);
    }
  }

  lemma TimesCancels(x: real, y: real, b: real)
    requires b > 0.0
    ensures Times(x, b) == Times(y, b) <==> x == y
  {
    if x < y { assert (y - x) * b > 0.0; } else if y < x { assert (x - y) * b > 0.0; }
  }

  /** Scaling by a positive factor keeps plans of one shape together and others apart. */
  lemma {:induction false} ScaledAlike(p: Plan, q: Plan, b: real)
    requires b > 0.0
    ensures ShapeOf(Scaled(p, b)) == ShapeOf(Scaled(q, b)) <==> ShapeOf(p) == ShapeOf(q)
    decreases p, 1
  {
    hide Times;
    match (p, q)
    case (Term(_, _, x, _), Term(_, _, y, _)) => TimesCancels(x, y, b);
    case (Phrase(_, _, x, _), Phrase(_, _, y, _)) => TimesCancels(x, y, b);
    case (And(cs, _), And(ds, _)) => ScaledSets(p, cs, ds, b);
    case (Or(cs, _), Or(ds, _)) => ScaledSets(p, cs, ds, b);
    case (Not(x, _), Not(y, _)) => ScaledAlike(x, y, b);
    case _ =>
  }

  lemma {:induction false} ScaledSets(parent: Plan, cs: seq<Plan>, ds: seq<Plan>, b: real)
    requires b > 0.0 && forall i :: 0 <= i < |cs| ==> cs[i] < parent
    ensures ShapesOf(ScaledAll(cs, b)) == ShapesOf(ScaledAll(ds, b)) <==> ShapesOf(cs) == ShapesOf(ds)
    decreases parent, 0
  {
    hide ShapeOf, Scaled, Repeats;
    forall i, j | 0 <= i < |cs| && 0 <= j < |ds| ensures AlikeAfter(cs[i], ds[j], b) { ScaledAlike(cs[i], ds[j], b); }
    forall i | 0 <= i < |cs| ensures Repeats(ScaledAll(ds, b), ScaledAll(cs, b)[i]) <==> Repeats(ds, cs[i]) {
      ScaledRepeats(ds, cs[i], b);
    }
    forall j | 0 <= j < |ds| ensures Repeats(ScaledAll(cs, b), ScaledAll(ds, b)[j]) <==> Repeats(cs, ds[j]) {
      forall i | 0 <= i < |cs| ensures AlikeAfter(ds[j], cs[i], b) { assert AlikeAfter(cs[i], ds[j], b); }
      ScaledRepeats(cs, ds[j], b);
    }
    SetsByMembers(cs, ds);
    SetsByMembers(ScaledAll(cs, b), ScaledAll(ds, b));
  }

  ghost predicate AlikeAfter(p: Plan, q: Plan, b: real) {
    ShapeOf(Scaled(p, b)) == ShapeOf(Scaled(q, b)) <==> ShapeOf(p) == ShapeOf(q)
  }

  lemma ScaledRepeats(clauses: seq<Plan>, p: Plan, b: real)
    requires forall i :: 0 <= i < |clauses| ==> AlikeAfter(p, clauses[i], b)
    ensures Repeats(ScaledAll(clauses, b), Scaled(p, b)) <==> Repeats(clauses, p)
  {
    hide ShapeOf, Scaled;
    if Repeats(clauses, p) {
      var i :| 0 <= i < |clauses| && ShapeOf(clauses[i]) == ShapeOf(p);
      assert AlikeAfter(p, clauses[i], b);
      assert ShapeOf(ScaledAll(clauses, b)[i]) == ShapeOf(Scaled(p, b));
    }
    if Repeats(ScaledAll(clauses, b), Scaled(p, b)) {
      var i :| 0 <= i < |clauses| && ShapeOf(ScaledAll(clauses, b)[i]) == ShapeOf(Scaled(p, b));
      assert AlikeAfter(p, clauses[i], b);
      assert ShapeOf(clauses[i]) == ShapeOf(p);
    }
  }

  lemma SetsByMembers(cs: seq<Plan>, ds: seq<Plan>)
    ensures ShapesOf(cs) == ShapesOf(ds) <==>
      && (forall i :: 0 <= i < |cs| ==> Repeats(ds, cs[i]))
      && (forall j :: 0 <= j < |ds| ==> Repeats(cs, ds[j]))
  {
    hide ShapeOf;
    if ShapesOf(cs) == ShapesOf(ds) {
      forall i | 0 <= i < |cs| ensures Repeats(ds, cs[i]) { assert ShapeOf(cs[i]) in ShapesOf(cs); }
      forall j | 0 <= j < |ds| ensures Repeats(cs, ds[j]) { assert ShapeOf(ds[j]) in ShapesOf(ds); }
    }
  }

  // ---- boosts of whole trees ----

  lemma TimesOrder(x: real, y: real, b: real)
    ensures Times(Times(x, b), y) == Times(Times(x, y), b)
  {
    assert x * b * y == x * y * b;
  }

  lemma ScaledJoined(conjunction: bool, clauses: seq<Plan>, b: real)
    ensures Scaled(Joined(conjunction, clauses), b) == Joined(conjunction, ScaledAll(clauses, b))
  {
  }

  lemma ScaledWith(clauses: seq<Plan>, p: Plan, b: real)
    requires b > 0.0
    ensures ScaledAll(With(clauses, p), b) == With(ScaledAll(clauses, b), Scaled(p, b))
  {
    forall i | 0 <= i < |clauses| ensures AlikeAfter(p, clauses[i], b) { ScaledAlike(p, clauses[i], b); }
    hide ShapeOf, Scaled, Repeats, AlikeAfter;
    ScaledRepeats(clauses, p, b);
    assert ScaledAll(clauses + [p], b) == ScaledAll(clauses, b) + [Scaled(p, b)];
  }

  lemma {:induction false} ScaledTerms(f: string, tokens: seq<Token>, boost: real, b: real)
    ensures ScaledAll(TermPlans(f, tokens, boost), b) == TermPlans(f, tokens, Times(boost, b))
  {
    hide Times, Terms;
    if tokens != [] {
      var n := |tokens| - 1;
      ScaledTerms(f, tokens[..n], boost, b);
      var head := TermPlans(f, tokens[..n], boost);
      var p := Term(f, tokens[n].term, boost, 0);
      assert ScaledAll(head + [p], b) == ScaledAll(head, b) + [Scaled(p, b)];
      assert head + [] == head && ScaledAll(head, b) + [] == ScaledAll(head, b);
    }
  }

  lemma ScaledText(schema: Schema, f: string, text: string, phrase: bool, boost: real, b: real)
    ensures Scaled(TextPlan(schema, f, text, phrase, boost), b) == TextPlan(schema, f, text, phrase, Times(boost, b))
  {
    var tokens, x := QueryTokens(schema, f, text), FieldBoost(schema, f, boost);
    if f in schema { TimesOrder(boost, schema[f].boost, b); }
    assert FieldBoost(schema, f, Times(boost, b)) == Times(x, b);
    hide QueryTokens, FieldBoost, Joined, TermPlans, Times;
    ScaledTerms(f, tokens, x, b);
    ScaledJoined(false, TermPlans(f, tokens, x), b);
  }

  lemma {:induction false} ScaledFields(schema: Schema, fields: seq<SearchField>, text: string, phrase: bool,
                                        boost: real, b: real)
    requires b > 0.0
    ensures ScaledAll(FieldPlans(schema, fields, text, phrase, boost), b)
      == FieldPlans(schema, fields, text, phrase, Times(boost, b))
  {
    hide TextPlan, With, Scaled, Times;
    if fields != [] {
      var k := |fields| - 1;
      ScaledFields(schema, fields[..k], text, phrase, boost, b);
      TimesOrder(boost, fields[k].boost, b);
      ScaledText(schema, fields[k].name, text, phrase, Times(boost, fields[k].boost), b);
      ScaledWith(FieldPlans(schema, fields[..k], text, phrase, boost),
                 TextPlan(schema, fields[k].name, text, phrase, Times(boost, fields[k].boost)), b);
    }
  }

  lemma ScaledLeaf(schema: Schema, fields: seq<SearchField>, field: Option<string>, text: string, phrase: bool,
                   boost: real, b: real)
    requires b > 0.0
    ensures Scaled(LeafPlan(schema, fields, field, text, phrase, boost), b)
      == LeafPlan(schema, fields, field, text, phrase, Times(boost, b))
  {
    hide TextPlan, FieldPlans, Joined, Scaled, Times;
    match field
    case Some(f) => ScaledText(schema, f, text, phrase, boost, b);
    case None =>
      ScaledFields(schema, fields, text, phrase, boost, b);
      ScaledJoined(false, FieldPlans(schema, fields, text, phrase, boost), b);
  }

  lemma ScaledPair(conjunction: bool, l: Plan, r: Plan, b: real)
    requires b > 0.0
    ensures Scaled(Joined(conjunction, With([l], r)), b) == Joined(conjunction, With([Scaled(l, b)], Scaled(r, b)))
  {
    assert ScaledAll([l], b) == [Scaled(l, b)];
    hide Joined, With, Scaled;
    ScaledWith([l], r, b);
    ScaledJoined(conjunction, With([l], r), b);
  }

  /** A tree under a greater boost is its plan with every boost multiplied. */
  lemma {:induction false} ScaledTree(schema: Schema, fields: seq<SearchField>, q: Query, field: Option<string>,
                                      boost: real, b: real)
    requires b > 0.0
    ensures Scaled(TreePlan(schema, fields, q, field, boost), b)
      == TreePlan(schema, fields, q, field, Times(boost, b))
    decreases q
  {
    hide LeafPlan, Joined, With, Times, BoundOf;
    match q
    case TermQuery(text) => ScaledLeaf(schema, fields, field, text, false, boost, b);
    case PhraseQuery(text) => ScaledLeaf(schema, fields, field, text, true, boost, b);
    case AndQuery(l, r) =>
      ScaledTree(schema, fields, l, field, boost, b);
      ScaledTree(schema, fields, r, field, boost, b);
      ScaledPair(true, TreePlan(schema, fields, l, field, boost), TreePlan(schema, fields, r, field, boost), b);
    case OrQuery(l, r) =>
      ScaledTree(schema, fields, l, field, boost, b);
      ScaledTree(schema, fields, r, field, boost, b);
      ScaledPair(false, TreePlan(schema, fields, l, field, boost), TreePlan(schema, fields, r, field, boost), b);
    case NotQuery(operand) => ScaledTree(schema, fields, operand, field, boost, b);
    case FieldQuery(f, inner) => ScaledTree(schema, fields, inner, Some(f), boost, b);
    case BoostQuery(inner, x) =>
      TimesOrder(boost, x, b);
      ScaledTree(schema, fields, inner, field, Times(boost, x), b);
    case _ =>
  }

  lemma LeafScales(c: Corpus, d: Document, fields: seq<SearchField>, field: Option<string>, text: string,
                   phrase: bool, boost: real, b: real)
    requires ValidScorer(c.scorer) && b > 0.0
    ensures LeafScore(c, d, fields, field, text, phrase, Times(boost, b))
      == LeafScore(c, d, fields, field, text, phrase, boost) * b
  {
    hide LeafPlan, LeafScore, Scaled, Times, ScoreOf;
    LeafPlanScore(c, d, fields, field, text, phrase, boost);
    LeafPlanScore(c, d, fields, field, text, phrase, Times(boost, b));
    ScaledLeaf(c.schema, fields, field, text, phrase, boost, b);
    ScaledScore(c, LeafPlan(c.schema, fields, field, text, phrase, boost), b, d);
  }

  lemma AlikeScales(schema: Schema, fields: seq<SearchField>, l: Query, r: Query, field: Option<string>, boost: real,
                    b: real)
    requires b > 0.0
    ensures Alike(schema, fields, l, r, field, Times(boost, b)) <==> Alike(schema, fields, l, r, field, boost)
  {
    hide TreePlan, Scaled, ShapeOf, Times;
    ScaledTree(schema, fields, l, field, boost, b);
    ScaledTree(schema, fields, r, field, boost, b);
    ScaledAlike(TreePlan(schema, fields, l, field, boost), TreePlan(schema, fields, r, field, boost), b);
  }

  /** A positive boost multiplies the score of the whole tree it stands on, for every document. */
  lemma {:induction false} BoostMultiplies(c: Corpus, fields: seq<SearchField>, q: Query, field: Option<string>,
                                           boost: real, b: real, d: Document)
    requires ValidScorer(c.scorer) && b > 0.0
    ensures QueryScore(c, fields, q, field, Times(boost, b), d) == QueryScore(c, fields, q, field, boost, d) * b
    decreases q
  {
    hide LeafScore, Alike, QueryMatches, Times;
    match q
    case TermQuery(text) => LeafScales(c, d, fields, field, text, false, boost, b);
    case PhraseQuery(text) => LeafScales(c, d, fields, field, text, true, boost, b);
    case AndQuery(l, r) =>
      AlikeScales(c.schema, fields, l, r, field, boost, b);
      BoostMultiplies(c, fields, l, field, boost, b, d);
      BoostMultiplies(c, fields, r, field, boost, b, d);
      Distributes(QueryScore(c, fields, l, field, boost, d), QueryScore(c, fields, r, field, boost, d), b);
    case OrQuery(l, r) =>
      AlikeScales(c.schema, fields, l, r, field, boost, b);
      BoostMultiplies(c, fields, l, field, boost, b, d);
      BoostMultiplies(c, fields, r, field, boost, b, d);
      Distributes(QueryScore(c, fields, l, field, boost, d), QueryScore(c, fields, r, field, boost, d), b);
    case FieldQuery(f, inner) => BoostMultiplies(c, fields, inner, Some(f), boost, b, d);
    case BoostQuery(inner, x) =>
      TimesOrder(boost, x, b);
      BoostMultiplies(c, fields, inner, field, Times(boost, x), b, d);
    case _ =>
  }

  // ---- one term ----

  /** The text has one term in the field, stop words aside. */
  predicate HasOneTerm(schema: Schema, f: string, text: string, t: string) {
    f in schema && Terms(QueryTokens(schema, f, text)) == {t}
  }

  /** Fields of different names, in each of which the text has one term. */
  ghost predicate OneEach(schema: Schema, fields: seq<SearchField>, text: string, terms: seq<string>) {
    && |terms| == |fields|
    && (forall i :: 0 <= i < |fields| ==> HasOneTerm(schema, fields[i].name, text, terms[i]))
    && (forall i, j :: 0 <= i < j < |fields| ==> fields[i].name != fields[j].name)
  }

  /** The sum over the fields of the score at boost 1, times the field's search boost and schema boost. */
  function OneTermScore(c: Corpus, d: Document, fields: seq<SearchField>, terms: seq<string>): real
    requires ValidScorer(c.scorer) && |terms| == |fields|
  {
    if fields == [] then 0.0
    else
      var k := |fields| - 1;
      var f := fields[k];
      OneTermScore(c, d, fields[..k], terms[..k])
      + if f.name in c.schema then TermScore(c, d, f.name, terms[k], 1.0) * f.boost * c.schema[f.name].boost else 0.0
  }

  lemma {:induction false} OneTermPlans(f: string, tokens: seq<Token>, t: string, boost: real)
    requires Terms(tokens) <= {t}
    ensures TermPlans(f, tokens, boost) == if tokens == [] then [] else [Term(f, t, boost, 0)]
  {
    if tokens != [] {
      var n := |tokens| - 1;
      TermsOfMore(tokens);
      assert tokens[n].term in Terms(tokens);
      OneTermPlans(f, tokens[..n], t, boost);
      if n > 0 { assert tokens[..n][0].term in Terms(tokens[..n]); }
    }
  }

  lemma TermsOfNothing(tokens: seq<Token>, t: string)
    requires Terms(tokens) == {t}
    ensures tokens != []
  {
    assert t in Terms(tokens);
  }

  lemma OneTermPlan(schema: Schema, f: string, text: string, t: string, boost: real)
    requires HasOneTerm(schema, f, text, t)
    ensures TextPlan(schema, f, text, false, boost) == Term(f, t, Times(boost, schema[f].boost), 0)
  {
    hide QueryTokens, Terms, TermPlans;
    TermsOfNothing(QueryTokens(schema, f, text), t);
    OneTermPlans(f, QueryTokens(schema, f, text), t, FieldBoost(schema, f, boost));
  }

  lemma OneTermText(c: Corpus, d: Document, f: string, text: string, t: string, boost: real)
    requires ValidScorer(c.scorer) && HasOneTerm(c.schema, f, text, t)
    ensures TextScore(c, d, f, text, false, boost) == TermScore(c, d, f, t, 1.0) * boost * c.schema[f].boost
  {
    hide TermScore, TextScore, TextPlan, Terms;
    var b := Times(boost, c.schema[f].boost);
    OneTermPlan(c.schema, f, text, t, boost);
    TextPlanScore(c, d, f, text, false, boost);
    TermScoreScales(c, d, f, t, 1.0, b);
    assert Times(1.0, b) == b;
    Associates(TermScore(c, d, f, t, 1.0), boost, c.schema[f].boost);
  }

  ghost predicate TermsIn(plans: seq<Plan>, fields: seq<SearchField>) {
    forall i :: 0 <= i < |plans| ==> plans[i].Term? && exists j :: 0 <= j < |fields| && plans[i].field == fields[j].name
  }

  lemma OneMoreTerm(plans: seq<Plan>, fields: seq<SearchField>, p: Plan)
    requires fields != [] && TermsIn(plans, fields[..|fields| - 1])
    requires p.Term? && p.field == fields[|fields| - 1].name
    requires forall i, j :: 0 <= i < j < |fields| ==> fields[i].name != fields[j].name
    ensures !Repeats(plans, p) && TermsIn(plans + [p], fields)
  {
    var k := |fields| - 1;
    forall i | 0 <= i < |plans|
      ensures ShapeOf(plans[i]) != ShapeOf(p) && exists j :: 0 <= j < |fields| && plans[i].field == fields[j].name
    {
      var j :| 0 <= j < |fields[..k]| && plans[i].field == fields[..k][j].name;
      assert plans[i].field == fields[j].name;
    }
    assert p.field == fields[k].name;
  }

  lemma OneEachPrefix(schema: Schema, fields: seq<SearchField>, text: string, terms: seq<string>)
    requires OneEach(schema, fields, text, terms) && fields != []
    ensures var k := |fields| - 1;
      OneEach(schema, fields[..k], text, terms[..k]) && HasOneTerm(schema, fields[k].name, text, terms[k])
  {
    hide HasOneTerm;
  }

  lemma {:induction false} OneTermPlansOfFields(schema: Schema, fields: seq<SearchField>, text: string,
                                                terms: seq<string>)
    requires OneEach(schema, fields, text, terms)
    ensures TermsIn(FieldPlans(schema, fields, text, false, 1.0), fields)
    ensures fields != [] ==>
      var k := |fields| - 1;
      !Repeats(FieldPlans(schema, fields[..k], text, false, 1.0),
               TextPlan(schema, fields[k].name, text, false, Times(1.0, fields[k].boost)))
  {
    hide TextPlan, HasOneTerm, Repeats, Times;
    if fields != [] {
      var k := |fields| - 1;
      OneEachPrefix(schema, fields, text, terms);
      OneTermPlansOfFields(schema, fields[..k], text, terms[..k]);
      OneTermPlan(schema, fields[k].name, text, terms[k], Times(1.0, fields[k].boost));
      OneMoreTerm(FieldPlans(schema, fields[..k], text, false, 1.0), fields,
                  TextPlan(schema, fields[k].name, text, false, Times(1.0, fields[k].boost)));
    }
  }

  lemma {:induction false} OneTermFields(c: Corpus, d: Document, fields: seq<SearchField>, text: string,
                                         terms: seq<string>)
    requires ValidScorer(c.scorer) && OneEach(c.schema, fields, text, terms)
    ensures FieldsScore(c, d, fields, text, false, 1.0) == OneTermScore(c, d, fields, terms)
  {
    hide TextScore, TextPlan, FieldPlans, HasOneTerm, TermScore, Repeats, Times;
    if fields != [] {
      var k := |fields| - 1;
      OneEachPrefix(c.schema, fields, text, terms);
      OneTermFields(c, d, fields[..k], text, terms[..k]);
      OneTermPlansOfFields(c.schema, fields, text, terms);
      OneTermText(c, d, fields[k].name, text, terms[k], Times(1.0, fields[k].boost));
      TimesOne(fields[k].boost);
      OneTermIsKnown(c.schema, fields[k].name, text, terms[k]);
    }
  }

  lemma TimesOne(x: real)
    ensures Times(1.0, x) == x
  {
  }

  lemma OneTermIsKnown(schema: Schema, f: string, text: string, t: string)
    requires HasOneTerm(schema, f, text, t)
    ensures f in schema
  {
  }

  /** A search for one term over distinct default fields scores, field by field, what the term scores
      there at boost 1, times the search boost and the schema boost of the field; a boost behind the term
      multiplies that. */
  lemma OneTermScores(c: Corpus, d: Document, fields: seq<SearchField>, text: string, terms: seq<string>, b: real)
    requires ValidScorer(c.scorer) && OneEach(c.schema, fields, text, terms) && b > 0.0
    ensures QueryScore(c, fields, TermQuery(text), None, 1.0, d) == OneTermScore(c, d, fields, terms)
    ensures QueryScore(c, fields, BoostQuery(TermQuery(text), b), None, 1.0, d)
      == b * OneTermScore(c, d, fields, terms)
  {
    hide FieldsScore, OneTermScore, OneEach, Times;
    OneTermFields(c, d, fields, text, terms);
    BoostMultiplies(c, fields, TermQuery(text), None, 1.0, b, d);
  }

  // ---- lengths ----

  lemma {:induction false} TotalOfEqualLengths(schema: Schema, slots: Slots, f: string, length: nat)
    requires forall i :: 0 <= i < |slots| && HasField(schema, slots[i], f) ==>
      |FieldTokens(schema, slots[i], f)| == length
    ensures FieldTotal(schema, slots, f) == length * FieldCount(schema, slots, f)
  {
    if slots != [] {
      var n := |slots| - 1;
      TotalOfEqualLengths(schema, slots[..n], f, length);
      hide FieldTotal, FieldCount;
      NextLength(length, FieldCount(schema, slots[..n], f));
      assert !HasField(schema, slots[n], f) ==> FieldTokens(schema, slots[n], f) == [];
    }
  }

  lemma NextLength(length: nat, count: nat)
    ensures length * (count + 1) == length * count + length
  {
  }

  /** Where all documents of a field are equally long, length plays no part: the weight of a term is
      tf (k1 + 1) / (tf + k1), so the average is that of the documents that have the field. */
  lemma EqualLengthsDoNotMatter(c: Corpus, d: Document, f: string, t: string, boost: real, length: nat)
    requires ValidScorer(c.scorer) && d in c.global && Frequency(FieldTokens(c.schema, d, f), t) > 0
    requires DocumentFrequency(c.schema, c.global, f, t) > 0 && HasField(c.schema, d, f) && length > 0
    requires forall i :: 0 <= i < |c.global| && HasField(c.schema, c.global[i], f) ==>
      |FieldTokens(c.schema, c.global[i], f)| == length
    ensures var tf, k1 := Frequency(FieldTokens(c.schema, d, f), t) as real, c.scorer.k1;
      TermScore(c, d, f, t, boost) ==
      Idf(c.scorer, FieldCount(c.schema, c.global, f), DocumentFrequency(c.schema, c.global, f, t))
      * (tf * (k1 + 1.0) / (tf + k1)) * boost
  {
    hide TermScore, FieldTokens, Frequency, FieldCount, FieldTotal, DocumentFrequency, Idf, HasField, FrequencyWeight;
    EqualCounts(c.schema, c.global, d, f, length);
    var count, total := FieldCount(c.schema, c.global, f), FieldTotal(c.schema, c.global, f);
    var tf, df := Frequency(FieldTokens(c.schema, d, f), t), DocumentFrequency(c.schema, c.global, f, t);
    AverageOfEqual(length, count, total);
    TermScoreUnfolds(c, d, f, t, boost);
    AtTheAverage(c.scorer, tf, length);
    assert TermScore(c, d, f, t, boost)
      == Idf(c.scorer, count, df) * FrequencyWeight(c.scorer, tf, length, length as real) * boost;
  }

  lemma EqualCounts(schema: Schema, slots: Slots, d: Document, f: string, length: nat)
    requires d in slots && HasField(schema, d, f)
    requires forall i :: 0 <= i < |slots| && HasField(schema, slots[i], f) ==>
      |FieldTokens(schema, slots[i], f)| == length
    ensures FieldCount(schema, slots, f) > 0 && |FieldTokens(schema, d, f)| == length
    ensures FieldTotal(schema, slots, f) == length * FieldCount(schema, slots, f)
  {
    hide HasField, FieldTokens, FieldCount, FieldTotal;
    TotalOfEqualLengths(schema, slots, f, length);
    var i :| 0 <= i < |slots| && slots[i] == d;
    SlotIsCounted(schema, slots, i, f);
  }

  lemma AverageOfEqual(length: nat, count: nat, total: nat)
    requires total == length * count && count > 0 && length > 0
    ensures total > 0 && total as real / count as real == length as real
  {
    assert total as real == length as real * count as real;
  }

  lemma AtTheAverage(s: Scorer, tf: nat, length: nat)
    requires ValidScorer(s) && tf > 0 && length > 0
    ensures FrequencyWeight(s, tf, length, length as real) == tf as real * (s.k1 + 1.0) / (tf as real + s.k1)
  {
    var ratio := length as real / length as real;
    assert ratio == 1.0;
    assert s.k1 * (1.0 - s.b + s.b * ratio) == s.k1;
  }

  /** A phrase scores what its terms score. */
  lemma {:induction false} PhraseScoreAdds(c: Corpus, d: Document, f: string, p: seq<Token>, q: seq<Token>,
                                           boost: real)
    requires ValidScorer(c.scorer)
    ensures PhraseScore(c, d, f, p + q, boost) == PhraseScore(c, d, f, p, boost) + PhraseScore(c, d, f, q, boost)
    ensures |p| == 1 ==> PhraseScore(c, d, f, p, boost) == TermScore(c, d, f, p[0].term, boost)
    decreases |q|
  {
    hide TermScore;
    if |p| == 1 { assert PhraseScore(c, d, f, p[..0], boost) == 0.0; }
    if q == [] {
      assert p + q == p;
    } else {
      var n := |q| - 1;
      assert (p + q)[..|p| + n] == p + q[..n];
      PhraseScoreAdds(c, d, f, p, q[..n], boost);
    }
  }
}

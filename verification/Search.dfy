/** Planning a whole query and searching one view (src/query/planner.cpp, src/query/executor.cpp). */
module Searching {
  import opened Basics
  import opened Analysis
  import opened Schemas
  import opened IndexModel
  import opened Bm25
  import opened Plans
  import opened Canonicalization
  import opened Shapes
  import opened Views
  import opened NormalForms
  import opened Queries
  import opened Outlines
  import opened QueryScores
  import opened Planning
  import opened Merging
  import opened Execution
  import opened TopK

  // ---- planning ----

  predicate OptionsValid(options: Options) {
    && |options.defaultFields| > 0 && options.limits.nodes != 0 && options.limits.tokens != 0
    && options.limits.depth != 0
    && forall i :: 0 <= i < |options.defaultFields| ==>
      options.defaultFields[i].name != "" && options.defaultFields[i].boost >= 0.0
  }

  /** The shape a query plans to, or why it does not plan. No index takes part. */
  function PlanOutline(schema: Schema, options: Options, q: Query): Result<Shape, PlanningError> {
    if !OptionsValid(options) then Err(PlanningError.InvalidOptions)
    else
      match Outline(schema, options, q, None, 1.0, 0, Counters(0, 0, 0))
      case Err(e) => Err(e)
      case Ok((shape, _)) => Ok(shape)
  }

  /** The setting in which a query is planned: boosts print faithfully. */
  ghost predicate Plannable(schema: Schema, options: Options, q: Query, show: Printer, domain: iset<real>) {
    && Usable(schema) && Faithful(show, domain) && Closed(domain) && QueryBoostsIn(q, domain)
    && (OptionsValid(options) ==> BoostsKnown(schema, options, domain))
  }

  /** `QueryPlanner::plan`: the plan matches exactly the documents the query tree means, each
      estimate bounds its node's matches, and the plan is executable. */
  method PlanQuery(v: SearchView, options: Options, q: Query, show: Printer, ghost domain: iset<real>)
    returns (r: Result<Plan, PlanningError>)
    requires Plannable(v.schema, options, q, show, domain)
    ensures match PlanOutline(v.schema, options, q)
      case Err(e) => r == Err(e)
      case Ok(shape) => r.Ok? && ShapeOf(r.value) == shape && Good(v, show, domain, r.value)
  {
    hide Outline, Good;
    if |options.defaultFields| == 0 || options.limits.nodes == 0 || options.limits.tokens == 0
      || options.limits.depth == 0 {
      return Err(PlanningError.InvalidOptions);
    }
    for i := 0 to |options.defaultFields|
      invariant forall k :: 0 <= k < i ==> options.defaultFields[k].name != "" && options.defaultFields[k].boost >= 0.0
    {
      if options.defaultFields[i].name == "" || options.defaultFields[i].boost < 0.0 {
        return Err(PlanningError.InvalidOptions);
      }
    }
    var builder := new Builder(v, options, show, domain);
    r := builder.Build(q, None, 1.0, 0);
  }

  /** Planning preserves meaning. */
  lemma PlanningPreservesMeaning(schema: Schema, options: Options, q: Query, plan: Plan, d: Document)
    requires PlanOutline(schema, options, q) == Ok(ShapeOf(plan))
    ensures Matches(schema, plan, d) <==> QueryMatches(schema, options.defaultFields, q, None, d)
  {
    hide Matches, MatchesShape, ShapeOf;
    OutlineMatches(schema, options, q, None, 1.0, 0, Counters(0, 0, 0), d);
    MatchIsOfShape(schema, plan, d);
  }

  /** Planning preserves scores: whatever plan is built, a document scores what the query tree scores it. */
  lemma PlanningPreservesScores(c: Corpus, options: Options, q: Query, plan: Plan, d: Document)
    requires ValidScorer(c.scorer) && PlanOutline(c.schema, options, q) == Ok(ShapeOf(plan)) && Distinct(plan)
    ensures ScoreOf(c, plan, d) == QueryScore(c, options.defaultFields, q, None, 1.0, d)
  {
    hide Outline, TreePlan, ScoreOf, ShapeOf, Distinct, QueryScore;
    TreePlanIsOutlined(c.schema, options, q, None, 1.0, 0, Counters(0, 0, 0));
    TreePlanScores(c, options, q, None, 1.0, 0, Counters(0, 0, 0), d);
    ScoreIsOfShape(c, plan, TreePlan(c.schema, options.defaultFields, q, None, 1.0), d);
  }

  lemma BoostIsPositive(schema: Schema, options: Options, q: Query, b: real)
    requires PlanOutline(schema, options, BoostQuery(q, b)).Ok?
    ensures b > 0.0
  {
  }

  lemma BoostGoesDown(c: Corpus, fields: seq<SearchField>, q: Query, b: real, d: Document)
    requires ValidScorer(c.scorer)
    ensures QueryScore(c, fields, BoostQuery(q, b), None, 1.0, d) == QueryScore(c, fields, q, None, Times(1.0, b), d)
  {
  }

  /** A boost multiplies scores: with any plans of a query and of the query boosted by `b`, every document
      scores `b` times as much with the second. */
  lemma BoostedPlanScores(c: Corpus, options: Options, q: Query, b: real, plan: Plan, boosted: Plan, d: Document)
    requires ValidScorer(c.scorer)
    requires PlanOutline(c.schema, options, q) == Ok(ShapeOf(plan)) && Distinct(plan)
    requires PlanOutline(c.schema, options, BoostQuery(q, b)) == Ok(ShapeOf(boosted)) && Distinct(boosted)
    ensures ScoreOf(c, boosted, d) == b * ScoreOf(c, plan, d)
  {
    hide PlanOutline, ScoreOf, QueryScore, ShapeOf, Distinct, Times;
    BoostIsPositive(c.schema, options, q, b);
    PlanningPreservesScores(c, options, q, plan, d);
    PlanningPreservesScores(c, options, BoostQuery(q, b), boosted, d);
    BoostGoesDown(c, options.defaultFields, q, b, d);
    BoostMultiplies(c, options.defaultFields, q, None, 1.0, b, d);
  }

  /** At every node the attached estimate is at least the number of live documents that match it. */
  ghost predicate EstimatesBound(schema: Schema, local: Slots, plan: Plan) {
    && MatchCount(schema, plan, local) <= plan.estimate
    && match plan
       case And(children, _) => forall i :: 0 <= i < |children| ==> EstimatesBound(schema, local, children[i])
       case Or(children, _) => forall i :: 0 <= i < |children| ==> EstimatesBound(schema, local, children[i])
       case Not(operand, _) => EstimatesBound(schema, local, operand)
       case _ => true
  }

  /** Every estimate in a plan the builder returns is an upper bound, at every node. */
  lemma PlannedEstimateBounds(v: SearchView, local: Slots, global: Slots, show: Printer, domain: iset<real>, plan: Plan)
    requires Represents(v, local, global) && Good(v, show, domain, plan)
    ensures EstimatesBound(v.schema, local, plan)
  {
    hide Represents;
    NormalEstimatesBound(v, local, global, show, plan);
  }

  lemma {:induction false} NormalEstimatesBound(v: SearchView, local: Slots, global: Slots, show: Printer, plan: Plan)
    requires Represents(v, local, global) && Normal(v, show, plan)
    ensures EstimatesBound(v.schema, local, plan)
  {
    hide Represents, MatchCount, Estimate;
    EstimateBoundsMatches(v, local, global, plan);
    match plan
    case And(children, _) =>
      forall i | 0 <= i < |children| ensures EstimatesBound(v.schema, local, children[i]) {
        NormalEstimatesBound(v, local, global, show, children[i]);
      }
    case Or(children, _) =>
      forall i | 0 <= i < |children| ensures EstimatesBound(v.schema, local, children[i]) {
        NormalEstimatesBound(v, local, global, show, children[i]);
      }
    case Not(operand, _) => NormalEstimatesBound(v, local, global, show, operand);
    case _ =>
  }

  /** Both operands outlined in sequence. */
  function BothOutlined(schema: Schema, options: Options, l: Query, r: Query, field: Option<string>, boost: real,
                        depth: nat, n: Counters)
    : Outcome<(Shape, Shape)>
  {
    match Outline(schema, options, l, field, boost, depth + 1, n)
    case Err(e) => Err(e)
    case Ok((left, nl)) =>
      match Outline(schema, options, r, field, boost, depth + 1, nl)
      case Err(e) => Err(e)
      case Ok((right, nr)) => Ok(((left, right), nr))
  }

  // ---- what a query costs ----

  predicate Within(limits: Limits, n: Counters) {
    n.source <= limits.nodes && n.planned <= limits.nodes && n.tokens <= limits.tokens
  }

  predicate UpTo(n: Counters, m: Counters) {
    n.source <= m.source && n.planned <= m.planned && n.tokens <= m.tokens
  }

  /** `k` with what lies between `n` and `m` added. */
  function Moved(n: Counters, m: Counters, k: Counters): Counters
    requires UpTo(n, m)
  {
    Counters(k.source + (m.source - n.source), k.planned + (m.planned - n.planned), k.tokens + (m.tokens - n.tokens))
  }

  /** The outcome only adds to the counters and stays within the limits. */
  ghost predicate Grows<T>(limits: Limits, r: Outcome<T>, n: Counters) {
    r.Ok? ==> UpTo(n, r.value.1) && Within(limits, r.value.1)
  }

  /** Wherever there is room for what the outcome adds, the outcome is the same and adds the same. */
  ghost predicate Repeats<T>(limits: Limits, r: Outcome<T>, n: Counters, again: Outcome<T>, k: Counters) {
    r.Ok? && UpTo(n, r.value.1) && Within(limits, Moved(n, r.value.1, k)) ==>
      again == Ok((r.value.0, Moved(n, r.value.1, k)))
  }

  lemma NormalizedCost(limits: Limits, conjunction: bool, clauses: set<Shape>, n: Counters, k: Counters)
    requires Within(limits, n)
    ensures Grows(limits, Normalized(limits, conjunction, clauses, n), n)
    ensures Repeats(limits, Normalized(limits, conjunction, clauses, n), n,
                    Normalized(limits, conjunction, clauses, k), k)
  {
  }

  lemma TermCost(schema: Schema, limits: Limits, f: string, text: string, boost: real, n: Counters, k: Counters)
    requires Within(limits, n)
    ensures Grows(limits, OutlineTerm(schema, limits, f, text, boost, n), n)
    ensures Repeats(limits, OutlineTerm(schema, limits, f, text, boost, n), n,
                    OutlineTerm(schema, limits, f, text, boost, k), k)
  {
    hide Normalized, Analyze, Terms, TermShapes;
    if Searchable(schema, f).Ok? && Analyze(schema[f].analyzer.value, text).Some? {
      var tokens := Analyze(schema[f].analyzer.value, text).value;
      var terms := Terms(tokens);
      var n' := Counters(n.source, n.planned + |terms|, n.tokens + |tokens|);
      var k' := Counters(k.source, k.planned + |terms|, k.tokens + |tokens|);
      var shapes := TermShapes(f, terms, Times(boost, schema[f].boost));
      if Within(limits, n') { NormalizedCost(limits, false, shapes, n', k'); }
    }
  }

  lemma PhraseCost(schema: Schema, limits: Limits, f: string, text: string, boost: real, n: Counters, k: Counters)
    requires Within(limits, n)
    ensures Grows(limits, OutlinePhrase(schema, limits, f, text, boost, n), n)
    ensures Repeats(limits, OutlinePhrase(schema, limits, f, text, boost, n), n,
                    OutlinePhrase(schema, limits, f, text, boost, k), k)
  {
    hide Analyze, EraseTokens;
  }

  lemma TextCost(schema: Schema, limits: Limits, f: string, text: string, phrase: bool, boost: real, n: Counters,
                 k: Counters)
    requires Within(limits, n)
    ensures Grows(limits, OutlineText(schema, limits, f, text, phrase, boost, n), n)
    ensures Repeats(limits, OutlineText(schema, limits, f, text, phrase, boost, n), n,
                    OutlineText(schema, limits, f, text, phrase, boost, k), k)
  {
    hide OutlineTerm, OutlinePhrase, Grows, Repeats;
    TermCost(schema, limits, f, text, boost, n, k);
    PhraseCost(schema, limits, f, text, boost, n, k);
  }

  lemma {:induction false} FieldsCost(schema: Schema, limits: Limits, fields: seq<SearchField>, text: string,
                                      phrase: bool, boost: real, n: Counters, k: Counters)
    requires Within(limits, n)
    ensures Grows(limits, OutlineFields(schema, limits, fields, text, phrase, boost, n), n)
    ensures Repeats(limits, OutlineFields(schema, limits, fields, text, phrase, boost, n), n,
                    OutlineFields(schema, limits, fields, text, phrase, boost, k), k)
    decreases |fields|
  {
    hide OutlineText;
    if fields != [] {
      var last := |fields| - 1;
      FieldsCost(schema, limits, fields[..last], text, phrase, boost, n, k);
      var head := OutlineFields(schema, limits, fields[..last], text, phrase, boost, n);
      if head.Ok? {
        var m := head.value.1;
        TextCost(schema, limits, fields[last].name, text, phrase, Times(boost, fields[last].boost), m, Moved(n, m, k));
      }
    }
  }

  lemma LeafCost(schema: Schema, options: Options, field: Option<string>, text: string, phrase: bool, boost: real,
                 n: Counters, k: Counters)
    requires Within(options.limits, n)
    ensures Grows(options.limits, OutlineLeaf(schema, options, field, text, phrase, boost, n), n)
    ensures Repeats(options.limits, OutlineLeaf(schema, options, field, text, phrase, boost, n), n,
                    OutlineLeaf(schema, options, field, text, phrase, boost, k), k)
  {
    hide OutlineText, OutlineFields, Normalized;
    match field
    case Some(f) => TextCost(schema, options.limits, f, text, phrase, boost, n, k);
    case None =>
      FieldsCost(schema, options.limits, options.defaultFields, text, phrase, boost, n, k);
      var all := OutlineFields(schema, options.limits, options.defaultFields, text, phrase, boost, n);
      if all.Ok? {
        var (shapes, m) := all.value;
        NormalizedCost(options.limits, false, shapes, m, Moved(n, m, k));
      }
  }

  lemma RangeCost(schema: Schema, limits: Limits, f: string, lower: string, upper: string, il: bool, iu: bool,
                  n: Counters, k: Counters)
    requires Within(limits, n)
    ensures Grows(limits, OutlineRange(schema, limits, f, lower, upper, il, iu, n), n)
    ensures Repeats(limits, OutlineRange(schema, limits, f, lower, upper, il, iu, n), n,
                    OutlineRange(schema, limits, f, lower, upper, il, iu, k), k)
  {
    hide CanonicalBound;
  }

  /** Two outcomes in sequence, from `n` and from `k`. */
  lemma Chain<S, T>(limits: Limits, a: Outcome<S>, n: Counters, a': Outcome<S>, k: Counters, b: Outcome<T>,
                    b': Outcome<T>, whole: Outcome<T>, whole': Outcome<T>)
    requires Grows(limits, a, n) && Repeats(limits, a, n, a', k)
    requires a.Err? ==> whole.Err?
    requires a.Ok? ==>
      && whole == b && Grows(limits, b, a.value.1)
      && (UpTo(n, a.value.1) ==>
            && Repeats(limits, b, a.value.1, b', Moved(n, a.value.1, k))
            && (a' == Ok((a.value.0, Moved(n, a.value.1, k))) ==> whole' == b'))
    ensures Grows(limits, whole, n) && Repeats(limits, whole, n, whole', k)
  {
  }

  /** The node itself is counted first. */
  lemma NodeFirst<T>(limits: Limits, r: Outcome<T>, n: Counters, r': Outcome<T>, k: Counters)
    requires var n1, k1 := n.(source := n.source + 1), k.(source := k.source + 1);
      Grows(limits, r, n1) && Repeats(limits, r, n1, r', k1)
    ensures Grows(limits, r, n) && Repeats(limits, r, n, r', k)
    ensures r.Ok? && Within(limits, Moved(n, r.value.1, k)) ==> k.source + 1 <= limits.nodes
  {
  }

  /** What a query outlines to once its own node is counted. */
  function InnerOutline(schema: Schema, options: Options, q: Query, field: Option<string>, boost: real, depth: nat,
                        n: Counters)
    : Outcome<Shape>
  {
    match q
    case TermQuery(text) => OutlineLeaf(schema, options, field, text, false, boost, n)
    case PhraseQuery(text) => OutlineLeaf(schema, options, field, text, true, boost, n)
    case AndQuery(l, r) => PairOutlined(schema, options, l, r, field, boost, depth, n, true)
    case OrQuery(l, r) => PairOutlined(schema, options, l, r, field, boost, depth, n, false)
    case NotQuery(operand) => NotOutlined(options.limits, Outline(schema, options, operand, field, boost, depth + 1, n))
    case FieldQuery(f, inner) =>
      if f == "" then Err(PlanningError.InvalidQueryTree)
      else if f !in schema then Err(PlanningError.UnknownField)
      else Outline(schema, options, inner, Some(f), boost, depth + 1, n)
    case RangeFilter(f, lower, upper, il, iu) => OutlineRange(schema, options.limits, f, lower, upper, il, iu, n)
    case BoostQuery(inner, b) =>
      if b <= 0.0 then Err(PlanningError.InvalidQueryTree)
      else Outline(schema, options, inner, field, Times(boost, b), depth + 1, n)
    case MatchAllQuery =>
      match Make(options.limits, n)
      case Err(e) => Err(e)
      case Ok(m) => Ok((AllShape, m))
  }

  function NotOutlined(limits: Limits, operand: Outcome<Shape>): Outcome<Shape> {
    match operand
    case Err(e) => Err(e)
    case Ok((shape, n)) =>
      match Make(limits, n)
      case Err(e) => Err(e)
      case Ok(m) => Ok((NotShape(shape), m))
  }

  lemma OutlineIs(schema: Schema, options: Options, q: Query, field: Option<string>, boost: real, depth: nat,
                  n: Counters)
    ensures Outline(schema, options, q, field, boost, depth, n) ==
      if depth > options.limits.depth || n.source + 1 > options.limits.nodes then Err(PlanningError.ResourceLimit)
      else InnerOutline(schema, options, q, field, boost, depth, n.(source := n.source + 1))
  {
    hide OutlineLeaf, OutlineRange, Normalized;
  }

  /** A query adds a fixed amount to the counters, and plans wherever there is room for it. */
  lemma {:induction false} CostIsFixed(schema: Schema, options: Options, q: Query, field: Option<string>, boost: real,
                                       depth: nat, n: Counters, k: Counters)
    requires Within(options.limits, n)
    ensures Grows(options.limits, Outline(schema, options, q, field, boost, depth, n), n)
    ensures Repeats(options.limits, Outline(schema, options, q, field, boost, depth, n), n,
                    Outline(schema, options, q, field, boost, depth, k), k)
    decreases q, 2
  {
    hide Outline, InnerOutline;
    OutlineIs(schema, options, q, field, boost, depth, n);
    OutlineIs(schema, options, q, field, boost, depth, k);
    var n1, k1 := n.(source := n.source + 1), k.(source := k.source + 1);
    if depth <= options.limits.depth && n1.source <= options.limits.nodes {
      InnerCost(schema, options, q, field, boost, depth, n1, k1);
      NodeFirst(options.limits, InnerOutline(schema, options, q, field, boost, depth, n1), n,
                InnerOutline(schema, options, q, field, boost, depth, k1), k);
    }
  }

  lemma {:induction false} InnerCost(schema: Schema, options: Options, q: Query, field: Option<string>, boost: real,
                                     depth: nat, n: Counters, k: Counters)
    requires Within(options.limits, n)
    ensures Grows(options.limits, InnerOutline(schema, options, q, field, boost, depth, n), n)
    ensures Repeats(options.limits, InnerOutline(schema, options, q, field, boost, depth, n), n,
                    InnerOutline(schema, options, q, field, boost, depth, k), k)
    decreases q, 1
  {
    hide Outline, OutlineLeaf, OutlineRange, PairOutlined, NotOutlined;
    match q
    case TermQuery(text) => LeafCost(schema, options, field, text, false, boost, n, k);
    case PhraseQuery(text) => LeafCost(schema, options, field, text, true, boost, n, k);
    case AndQuery(l, r) => PairCost(schema, options, q, l, r, field, boost, depth, n, k, true);
    case OrQuery(l, r) => PairCost(schema, options, q, l, r, field, boost, depth, n, k, false);
    case NotQuery(operand) =>
      CostIsFixed(schema, options, operand, field, boost, depth + 1, n, k);
      NotCost(options.limits, Outline(schema, options, operand, field, boost, depth + 1, n), n,
              Outline(schema, options, operand, field, boost, depth + 1, k), k);
    case FieldQuery(f, inner) => CostIsFixed(schema, options, inner, Some(f), boost, depth + 1, n, k);
    case RangeFilter(f, lower, upper, il, iu) => RangeCost(schema, options.limits, f, lower, upper, il, iu, n, k);
    case BoostQuery(inner, b) => CostIsFixed(schema, options, inner, field, Times(boost, b), depth + 1, n, k);
    case MatchAllQuery =>
  }

  lemma NotCost(limits: Limits, r: Outcome<Shape>, n: Counters, r': Outcome<Shape>, k: Counters)
    requires Within(limits, n) && Grows(limits, r, n) && Repeats(limits, r, n, r', k)
    ensures Grows(limits, NotOutlined(limits, r), n)
    ensures Repeats(limits, NotOutlined(limits, r), n, NotOutlined(limits, r'), k)
  {
  }

  /** A pair of operands and the node over them. */
  function PairOutlined(schema: Schema, options: Options, l: Query, r: Query, field: Option<string>, boost: real,
                        depth: nat, n: Counters, conjunction: bool): Outcome<Shape>
  {
    match BothOutlined(schema, options, l, r, field, boost, depth, n)
    case Err(e) => Err(e)
    case Ok(((left, right), m)) => Pair(options.limits, conjunction, left, right, m)
  }

  lemma {:induction false} PairCost(schema: Schema, options: Options, parent: Query, l: Query, r: Query,
                                    field: Option<string>, boost: real, depth: nat, n: Counters, k: Counters,
                                    conjunction: bool)
    requires l < parent && r < parent && Within(options.limits, n)
    ensures Grows(options.limits, PairOutlined(schema, options, l, r, field, boost, depth, n, conjunction), n)
    ensures Repeats(options.limits, PairOutlined(schema, options, l, r, field, boost, depth, n, conjunction), n,
                    PairOutlined(schema, options, l, r, field, boost, depth, k, conjunction), k)
    decreases parent, 0, 1
  {
    hide BothOutlined, Pair, Within, Grows, Repeats;
    BothCost(schema, options, parent, l, r, field, boost, depth, n, k);
    var both, both' := BothOutlined(schema, options, l, r, field, boost, depth, n), BothOutlined(schema, options, l, r,
                                    field, boost, depth, k);
    var whole := PairOutlined(schema, options, l, r, field, boost, depth, n, conjunction);
    var whole' := PairOutlined(schema, options, l, r, field, boost, depth, k, conjunction);
    if both.Ok? {
      var ((left, right), m) := both.value;
      GrownWithin(options.limits, both, n);
      var m' := Moved(n, m, k);
      PairNodeCost(options.limits, conjunction, left, right, m, m');
      Chain(options.limits, both, n, both', k, Pair(options.limits, conjunction, left, right, m),
            Pair(options.limits, conjunction, left, right, m'), whole, whole');
    } else {
      Chain(options.limits, both, n, both', k, whole, whole', whole, whole');
    }
  }

  lemma PairNodeCost(limits: Limits, conjunction: bool, left: Shape, right: Shape, n: Counters, k: Counters)
    requires Within(limits, n)
    ensures Grows(limits, Pair(limits, conjunction, left, right, n), n)
    ensures Repeats(limits, Pair(limits, conjunction, left, right, n), n, Pair(limits, conjunction, left, right, k), k)
  {
    hide Normalized;
    NormalizedCost(limits, conjunction, {left, right}, n, k);
  }

  lemma GrownWithin<T>(limits: Limits, r: Outcome<T>, n: Counters)
    requires Grows(limits, r, n) && r.Ok?
    ensures UpTo(n, r.value.1) && Within(limits, r.value.1)
  {
  }

  /** A second operand joined to the first. */
  function Joined(left: Shape, r: Outcome<Shape>): Outcome<(Shape, Shape)> {
    match r
    case Err(e) => Err(e)
    case Ok((right, n)) => Ok(((left, right), n))
  }

  lemma JoinedCost(limits: Limits, left: Shape, r: Outcome<Shape>, n: Counters, r': Outcome<Shape>, k: Counters)
    requires Grows(limits, r, n) && Repeats(limits, r, n, r', k)
    ensures Grows(limits, Joined(left, r), n) && Repeats(limits, Joined(left, r), n, Joined(left, r'), k)
  {
  }

  lemma {:induction false} BothCost(schema: Schema, options: Options, parent: Query, l: Query, r: Query,
                                    field: Option<string>, boost: real, depth: nat, n: Counters, k: Counters)
    requires l < parent && r < parent && Within(options.limits, n)
    ensures Grows(options.limits, BothOutlined(schema, options, l, r, field, boost, depth, n), n)
    ensures Repeats(options.limits, BothOutlined(schema, options, l, r, field, boost, depth, n), n,
                    BothOutlined(schema, options, l, r, field, boost, depth, k), k)
    decreases parent, 0, 0
  {
    hide Outline, Within, Grows, Repeats;
    CostIsFixed(schema, options, l, field, boost, depth + 1, n, k);
    var first, first' := Outline(schema, options, l, field, boost, depth + 1, n), Outline(schema, options, l, field,
                                 boost, depth + 1, k);
    var whole := BothOutlined(schema, options, l, r, field, boost, depth, n);
    var whole' := BothOutlined(schema, options, l, r, field, boost, depth, k);
    if first.Ok? {
      var (left, m) := first.value;
      GrownWithin(options.limits, first, n);
      var m' := Moved(n, m, k);
      CostIsFixed(schema, options, r, field, boost, depth + 1, m, m');
      var second, second' := Outline(schema, options, r, field, boost, depth + 1, m), Outline(schema, options, r,
                                     field, boost, depth + 1, m');
      JoinedCost(options.limits, left, second, m, second', m');
      Chain(options.limits, first, n, first', k, Joined(left, second), Joined(left, second'), whole, whole');
    } else {
      Chain(options.limits, first, n, first', k, whole, whole', whole, whole');
    }
  }

  // ---- the order of operands ----

  /** The second tree is the first with the operands of any number of its AND and OR nodes exchanged. */
  predicate Reordered(a: Query, b: Query) {
    match (a, b)
    case (AndQuery(l, r), AndQuery(x, y)) =>
      (Reordered(l, x) && Reordered(r, y)) || (Reordered(l, y) && Reordered(r, x))
    case (OrQuery(l, r), OrQuery(x, y)) => (Reordered(l, x) && Reordered(r, y)) || (Reordered(l, y) && Reordered(r, x))
    case (NotQuery(p), NotQuery(q)) => Reordered(p, q)
    case (FieldQuery(f, p), FieldQuery(g, q)) => f == g && Reordered(p, q)
    case (BoostQuery(p, x), BoostQuery(q, y)) => x == y && Reordered(p, q)
    case _ => a == b
  }

  lemma {:induction false} ReorderedBack(a: Query, b: Query)
    requires Reordered(a, b)
    ensures Reordered(b, a)
  {
    match (a, b)
    case (AndQuery(l, r), AndQuery(x, y)) =>
      if Reordered(l, x) && Reordered(r, y) { ReorderedBack(l, x); ReorderedBack(r, y); } else {
        ReorderedBack(l, y); ReorderedBack(r, x);
      }
    case (OrQuery(l, r), OrQuery(x, y)) =>
      if Reordered(l, x) && Reordered(r, y) { ReorderedBack(l, x); ReorderedBack(r, y); } else {
        ReorderedBack(l, y); ReorderedBack(r, x);
      }
    case (NotQuery(p), NotQuery(q)) => ReorderedBack(p, q);
    case (FieldQuery(_, p), FieldQuery(_, q)) => ReorderedBack(p, q);
    case (BoostQuery(p, _), BoostQuery(q, _)) => ReorderedBack(p, q);
    case _ =>
  }

  lemma {:induction false} ReorderedOutline(schema: Schema, options: Options, a: Query, b: Query,
                                            field: Option<string>, boost: real, depth: nat, n: Counters)
    requires Reordered(a, b) && Within(options.limits, n) && Outline(schema, options, a, field, boost, depth, n).Ok?
    ensures Outline(schema, options, b, field, boost, depth, n) == Outline(schema, options, a, field, boost, depth, n)
    decreases a, 1, 1
  {
    hide Outline, InnerOutline, Reordered;
    OutlineIs(schema, options, a, field, boost, depth, n);
    OutlineIs(schema, options, b, field, boost, depth, n);
    ReorderedInner(schema, options, a, b, field, boost, depth, n.(source := n.source + 1));
  }

  lemma {:induction false} ReorderedInner(schema: Schema, options: Options, a: Query, b: Query, field: Option<string>,
                                          boost: real, depth: nat, n: Counters)
    requires Reordered(a, b) && Within(options.limits, n)
    requires InnerOutline(schema, options, a, field, boost, depth, n).Ok?
    ensures InnerOutline(schema, options, b, field, boost, depth, n)
      == InnerOutline(schema, options, a, field, boost, depth, n)
    decreases a, 1, 0
  {
    hide OutlineLeaf, OutlineRange, PairOutlined, Outline, NotOutlined, Make;
    match (a, b)
    case (AndQuery(l, r), AndQuery(x, y)) =>
      ReorderedPair(schema, options, a, l, r, x, y, field, boost, depth, n, true);
    case (OrQuery(l, r), OrQuery(x, y)) =>
      ReorderedPair(schema, options, a, l, r, x, y, field, boost, depth, n, false);
    case (NotQuery(p), NotQuery(q)) =>
      NotNeedsOperand(options.limits, Outline(schema, options, p, field, boost, depth + 1, n));
      ReorderedOutline(schema, options, p, q, field, boost, depth + 1, n);
    case (FieldQuery(f, p), FieldQuery(_, q)) => ReorderedOutline(schema, options, p, q, Some(f), boost, depth + 1, n);
    case (BoostQuery(p, x), BoostQuery(q, _)) =>
      ReorderedOutline(schema, options, p, q, field, Times(boost, x), depth + 1, n);
    case _ =>
  }

  lemma NotNeedsOperand(limits: Limits, operand: Outcome<Shape>)
    requires NotOutlined(limits, operand).Ok?
    ensures operand.Ok?
  {
  }

  lemma {:induction false} ReorderedPair(schema: Schema, options: Options, parent: Query, l: Query, r: Query, x: Query,
                                         y: Query, field: Option<string>, boost: real, depth: nat, n: Counters,
                                         conjunction: bool)
    requires l < parent && r < parent && Within(options.limits, n)
    requires (Reordered(l, x) && Reordered(r, y)) || (Reordered(l, y) && Reordered(r, x))
    requires PairOutlined(schema, options, l, r, field, boost, depth, n, conjunction).Ok?
    ensures PairOutlined(schema, options, x, y, field, boost, depth, n, conjunction)
      == PairOutlined(schema, options, l, r, field, boost, depth, n, conjunction)
    decreases parent, 0, 0
  {
    hide Outline, Normalized, Reordered;
    var (left, m) := Outline(schema, options, l, field, boost, depth + 1, n).value;
    var (right, m') := Outline(schema, options, r, field, boost, depth + 1, m).value;
    CostIsFixed(schema, options, l, field, boost, depth + 1, n, n);
    CostIsFixed(schema, options, r, field, boost, depth + 1, m, n);
    if Reordered(l, x) && Reordered(r, y) {
      ReorderedOutline(schema, options, l, x, field, boost, depth + 1, n);
      ReorderedOutline(schema, options, r, y, field, boost, depth + 1, m);
    } else {
      var k := Moved(m, m', n);
      assert Outline(schema, options, r, field, boost, depth + 1, n) == Ok((right, k));
      ReorderedOutline(schema, options, r, x, field, boost, depth + 1, n);
      CostIsFixed(schema, options, l, field, boost, depth + 1, n, k);
      assert Outline(schema, options, l, field, boost, depth + 1, k) == Ok((left, m'));
      ReorderedOutline(schema, options, l, y, field, boost, depth + 1, k);
      assert {left, right} == {right, left};
    }
  }

  /** Exchanging operands anywhere in a query decides neither whether it plans nor to which plan. */
  lemma ReorderOperands(v: SearchView, options: Options, a: Query, b: Query, show: Printer, domain: iset<real>)
    requires Faithful(show, domain) && Reordered(a, b)
    ensures PlanOutline(v.schema, options, a).Ok? <==> PlanOutline(v.schema, options, b).Ok?
    ensures forall p, q ::
      && PlanOutline(v.schema, options, a) == Ok(ShapeOf(p)) && Good(v, show, domain, p)
      && PlanOutline(v.schema, options, b) == Ok(ShapeOf(q)) && Good(v, show, domain, q) ==>
      Canonical(show, p) == Canonical(show, q) && p.estimate == q.estimate
  {
    hide Canonical, Same, Faithful, BoostsIn, Normal, Executable, Outline, Reordered;
    ReorderedBack(a, b);
    if PlanOutline(v.schema, options, a).Ok? {
      ReorderedOutline(v.schema, options, a, b, None, 1.0, 0, Counters(0, 0, 0));
    }
    if PlanOutline(v.schema, options, b).Ok? {
      ReorderedOutline(v.schema, options, b, a, None, 1.0, 0, Counters(0, 0, 0));
    }
    forall p, q |
      && PlanOutline(v.schema, options, a) == Ok(ShapeOf(p)) && Good(v, show, domain, p)
      && PlanOutline(v.schema, options, b) == Ok(ShapeOf(q)) && Good(v, show, domain, q)
      ensures Canonical(show, p) == Canonical(show, q) && p.estimate == q.estimate
    {
      NormalFormIsUnique(v, show, domain, p, q);
      CanonicalDecides(show, domain, p, q);
    }
  }

  // ---- searching one view ----

  datatype SearchResult = SearchResult(hits: seq<Scored>, total: nat)

  /** The reference result before ranking: every live document is judged in turn. */
  function ScoredScan(c: Corpus, local: Slots, plan: Plan): seq<Scored>
    requires ValidScorer(c.scorer)
  {
    if local == [] then []
    else
      var n := |local| - 1;
      ScoredScan(c, local[..n], plan) +
      match Verdict(c, plan, local[n])
      case Some(score) => [Scored(local[n].id, score)]
      case None => []
  }

  lemma {:induction false} ScanNames(c: Corpus, local: Slots, plan: Plan)
    requires ValidScorer(c.scorer)
    ensures |ScoredScan(c, local, plan)| == |Scan(c, local, plan)|
    ensures forall k :: 0 <= k < |Scan(c, local, plan)| ==>
      && 1 <= Scan(c, local, plan)[k].doc <= |local|
      && ScoredScan(c, local, plan)[k]
        == Scored(local[Scan(c, local, plan)[k].doc - 1].id, Scan(c, local, plan)[k].score)
  {
    hide Verdict;
    if local != [] { ScanNames(c, local[..|local| - 1], plan); }
  }

  /** Number of live documents that the query tree matches. */
  function QueryCount(schema: Schema, fields: seq<SearchField>, q: Query, slots: Slots): nat {
    if slots == [] then 0
    else
      var n := |slots| - 1;
      QueryCount(schema, fields, q, slots[..n])
      + if !slots[n].deleted && QueryMatches(schema, fields, q, None, slots[n]) then 1 else 0
  }

  lemma {:induction false} ScanCounts(c: Corpus, local: Slots, options: Options, q: Query, plan: Plan)
    requires ValidScorer(c.scorer) && PlanOutline(c.schema, options, q) == Ok(ShapeOf(plan))
    ensures |ScoredScan(c, local, plan)| == QueryCount(c.schema, options.defaultFields, q, local)
  {
    hide PlanOutline, Matches, QueryMatches, ScoreOf, ShapeOf;
    if local != [] {
      var n := |local| - 1;
      ScanCounts(c, local[..n], options, q, plan);
      PlanningPreservesMeaning(c.schema, options, q, plan, local[n]);
    }
  }

  /** `QueryExecutor::search` of a plan: the K best of a scan over the view's documents. */
  method SearchPlan(v: SearchView, scorer: Result<Scorer, Bm25Error>, plan: Plan, k: nat, ghost c: Corpus,
                    ghost local: Slots)
    returns (r: Result<SearchResult, ExecutionError>)
    requires Executable(v.schema, plan)
    requires scorer.Ok? ==> Serves(v, c, local) && c.scorer == scorer.value
    ensures scorer.Err? ==> r == Err(ExecutionError.InvalidOptions)
    ensures scorer.Ok? ==>
      && ValidScorer(c.scorer)
      && r == Ok(SearchResult(Best(k, ScoredScan(c, local, plan)), |ScoredScan(c, local, plan)|))
  {
    hide Scan, ScoredScan, Exact, Best, Executable, Serves;
    if scorer.Err? { return Err(ExecutionError.InvalidOptions); }
    var evaluated := Evaluate(v, scorer.value, plan, c, local);
    var candidates: Candidates := [];
    match evaluated {
      case Err(e) => return Err(e);
      case Ok(found) => candidates := found;
    }
    ExactIsScan(c, local, plan, candidates);
    ScanNames(c, local, plan);
    ghost var all := ScoredScan(c, local, plan);
    var collector := new TopKCollector(k);
    for i := 0 to |candidates|
      invariant collector.Valid() && fresh(collector) && collector.capacity == k && collector.seen == all[..i]
    {
      RecordHere(v, c, local, candidates[i].doc);
      if candidates[i].doc !in v.records { return Err(ExecutionError.InvalidQueryTree); }
      collector.Collect(Scored(v.records[candidates[i].doc].document.id, candidates[i].score));
    }
    assert all[..|candidates|] == all;
    var hits := collector.Results();
    r := Ok(SearchResult(hits, |candidates|));
  }

  function FromPlanning(e: PlanningError): ExecutionError {
    match e
    case InvalidOptions => ExecutionError.InvalidOptions
    case InvalidQueryTree => ExecutionError.InvalidQueryTree
    case UnknownField => ExecutionError.UnknownField
    case IncompatibleFieldType => ExecutionError.IncompatibleFieldType
    case InvalidRange => ExecutionError.IncompatibleFieldType
    case ResourceLimit => PlanningFailed
    case AnalysisFailed => PlanningFailed
  }

  /** The parameters of a search. */
  datatype SearchOptions = SearchOptions(planning: Options, scorer: Result<Scorer, Bm25Error>, k: nat)

  /** Why a search fails, if it does: no index takes part in that. */
  function SearchFailure(schema: Schema, options: SearchOptions, q: Query): Option<ExecutionError> {
    match PlanOutline(schema, options.planning, q)
    case Err(e) => Some(FromPlanning(e))
    case Ok(_) => if options.scorer.Err? then Some(ExecutionError.InvalidOptions) else None
  }

  /** The reference answer before ranking, said of the query tree: every live document that the tree matches,
      with the score of the tree. */
  function QueryScan(c: Corpus, local: Slots, fields: seq<SearchField>, q: Query): seq<Scored>
    requires ValidScorer(c.scorer)
  {
    if local == [] then []
    else
      var n := |local| - 1;
      QueryScan(c, local[..n], fields, q)
      + if !local[n].deleted && QueryMatches(c.schema, fields, q, None, local[n])
        then [Scored(local[n].id, QueryScore(c, fields, q, None, 1.0, local[n]))] else []
  }

  /** The scan with any plan of the query is that. */
  lemma {:induction false} ScanIsQueryScan(c: Corpus, local: Slots, options: Options, q: Query, plan: Plan)
    requires ValidScorer(c.scorer) && PlanOutline(c.schema, options, q) == Ok(ShapeOf(plan)) && Distinct(plan)
    ensures ScoredScan(c, local, plan) == QueryScan(c, local, options.defaultFields, q)
  {
    hide PlanOutline, Matches, QueryMatches, ScoreOf, QueryScore, ShapeOf, Distinct;
    if local != [] {
      var n := |local| - 1;
      ScanIsQueryScan(c, local[..n], options, q, plan);
      PlanningPreservesMeaning(c.schema, options, q, plan, local[n]);
      PlanningPreservesScores(c, options, q, plan, local[n]);
    }
  }

  /** The answer of a search that used `plan`. */
  ghost predicate Answers(c: Corpus, local: Slots, options: SearchOptions, q: Query, plan: Plan, r: SearchResult) {
    && ValidScorer(c.scorer)
    && PlanOutline(c.schema, options.planning, q) == Ok(ShapeOf(plan)) && Distinct(plan)
    && r == SearchResult(Best(options.k, ScoredScan(c, local, plan)),
                         QueryCount(c.schema, options.planning.defaultFields, q, local))
  }

  /** The answer to a query, said without any plan: the K best of the documents its tree matches, each with
      the score of the tree, and the number of them. */
  ghost predicate IsAnswer(c: Corpus, local: Slots, options: SearchOptions, q: Query, r: SearchResult) {
    && ValidScorer(c.scorer)
    && r.hits == Best(options.k, QueryScan(c, local, options.planning.defaultFields, q))
    && r.total == QueryCount(c.schema, options.planning.defaultFields, q, local)
  }

  /** Whatever plan was used, the answer is that. */
  lemma PlannedAnswer(c: Corpus, local: Slots, options: SearchOptions, q: Query, plan: Plan, r: SearchResult)
    requires Answers(c, local, options, q, plan, r)
    ensures IsAnswer(c, local, options, q, r)
  {
    hide PlanOutline, Best, QueryCount, ScoredScan, QueryScan, ShapeOf, Distinct;
    ScanIsQueryScan(c, local, options.planning, q, plan);
  }

  /** The plan read off the tree is one to answer with. */
  lemma AnswerByTree(c: Corpus, local: Slots, options: SearchOptions, q: Query, r: SearchResult)
    requires IsAnswer(c, local, options, q, r) && PlanOutline(c.schema, options.planning, q).Ok?
    ensures Answers(c, local, options, q, TreePlan(c.schema, options.planning.defaultFields, q, None, 1.0), r)
  {
    TreePlanIsOutlined(c.schema, options.planning, q, None, 1.0, 0, Counters(0, 0, 0));
    hide Outline, Best, QueryCount, ScoredScan, QueryScan, ShapeOf, Distinct, TreePlan;
    ScanIsQueryScan(c, local, options.planning, q,
                    TreePlan(c.schema, options.planning.defaultFields, q, None, 1.0));
  }

  /** `QueryExecutor::search`: plan in this view, evaluate, keep the K best. */
  method Search(v: SearchView, options: SearchOptions, q: Query, show: Printer,
                ghost domain: iset<real>, ghost c: Corpus, ghost local: Slots)
    returns (r: Result<SearchResult, ExecutionError>)
    requires Plannable(v.schema, options.planning, q, show, domain)
    requires options.scorer.Ok? ==> Serves(v, c, local) && c.scorer == options.scorer.value
    ensures match SearchFailure(v.schema, options, q)
      case Some(e) => r == Err(e)
      case None => r.Ok? && IsAnswer(c, local, options, q, r.value)
  {
    hide PlanOutline, Plannable, Serves, ScoredScan, QueryCount, Best, Normal, BoostsIn, Executable, Distinct, ShapeOf;
    var planned := PlanQuery(v, options.planning, q, show, domain);
    match planned {
      case Err(e) => return Err(FromPlanning(e));
      case Ok(p) =>
        r := SearchPlan(v, options.scorer, p, options.k, c, local);
        if options.scorer.Ok? {
          NormalIsDistinct(v, show, p);
          ServesSchema(v, c, local);
          ScanCounts(c, local, options.planning, q, p);
          PlannedAnswer(c, local, options, q, p, r.value);
        }
    }
  }

  lemma ServesSchema(v: SearchView, c: Corpus, local: Slots)
    requires Serves(v, c, local)
    ensures c.schema == v.schema
  {
  }
}

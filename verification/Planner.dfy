/** Query trees (include/dse/query/ast.hpp). */
module Queries {
  datatype Query =
    | TermQuery(term: string)
    | PhraseQuery(text: string)
    | AndQuery(left: Query, right: Query)
    | OrQuery(left: Query, right: Query)
    | NotQuery(operand: Query)
    | FieldQuery(field: string, query: Query)
    | RangeFilter(field: string, lower: string, upper: string, includeLower: bool, includeUpper: bool)
    | BoostQuery(query: Query, boost: real)
    | MatchAllQuery
}

/** What planning a query has to yield, stated without an index: the shape of the plan and the
    resources it takes. Clause deduplication is set union, clause order does not exist. */
module Outlines {
  import opened Basics
  import opened Numbers
  import opened Analysis
  import opened Schemas
  import opened IndexModel
  import opened Plans
  import opened Canonicalization
  import opened Shapes
  import opened Queries

  datatype SearchField = SearchField(name: string, boost: real)
  datatype Limits = Limits(nodes: nat, tokens: nat, phraseTokens: nat, depth: nat)
  datatype Options = Options(defaultFields: seq<SearchField>, limits: Limits)

  datatype PlanningError =
    | InvalidOptions | InvalidQueryTree | UnknownField | IncompatibleFieldType | InvalidRange | ResourceLimit
      | AnalysisFailed

  /** Nodes of the query seen, nodes of the plan made, tokens analysed. */
  datatype Counters = Counters(source: nat, planned: nat, tokens: nat)

  type Outcome<T> = Result<(T, Counters), PlanningError>

  function Make(limits: Limits, n: Counters): Result<Counters, PlanningError> {
    if n.planned + 1 > limits.nodes then Err(ResourceLimit) else Ok(n.(planned := n.planned + 1))
  }

  function Searchable(schema: Schema, f: string): (r: Result<FieldDefinition, PlanningError>)
    ensures r.Ok? ==> f in schema && r.value == schema[f] && schema[f].indexed && schema[f].analyzer.Some?
  {
    if f !in schema then Err(UnknownField)
    else if !schema[f].indexed || schema[f].analyzer.None? then Err(IncompatibleFieldType)
    else Ok(schema[f])
  }

  function AnalyzeQuery(field: FieldDefinition, limits: Limits, text: string, phrase: bool, n: Counters)
    : Outcome<seq<Token>>
    requires field.analyzer.Some?
  {
    match Analyze(field.analyzer.value, text)
    case None => Err(PlanningError.AnalysisFailed)
    case Some(tokens) =>
      if n.tokens + |tokens| > limits.tokens || (phrase && |tokens| > limits.phraseTokens) then Err(ResourceLimit)
      else Ok((tokens, n.(tokens := n.tokens + |tokens|)))
  }

  /** A Boolean node over a set of clauses; a single clause stands for itself. */
  function Normalized(limits: Limits, conjunction: bool, clauses: set<Shape>, n: Counters): Outcome<Shape> {
    if |clauses| == 1 then
      OnlyOne(clauses);
      var s :| s in clauses;
      Ok((s, n))
    else
      match Make(limits, n)
      case Err(e) => Err(e)
      case Ok(m) => Ok((if conjunction then AndShape(clauses) else OrShape(clauses), m))
  }

  lemma OnlyOne(clauses: set<Shape>)
    requires |clauses| == 1
    ensures exists s :: s in clauses
    ensures forall s, t :: s in clauses && t in clauses ==> s == t
  {
    var x :| x in clauses;
    var rest := clauses - {x};
    assert clauses == rest + {x};
    assert rest == {};
  }

  function TermShapes(f: string, terms: set<string>, boost: real): set<Shape> {
    set t | t in terms :: TermShape(f, t, boost)
  }

  function OutlineTerm(schema: Schema, limits: Limits, f: string, text: string, boost: real, n: Counters)
    : Outcome<Shape> {
    match Searchable(schema, f)
    case Err(e) => Err(e)
    case Ok(field) =>
      match AnalyzeQuery(field, limits, text, false, n)
      case Err(e) => Err(e)
      case Ok((tokens, m)) =>
        var terms := Terms(tokens);
        if |terms| > 0 && m.planned + |terms| > limits.nodes then Err(ResourceLimit)
        else Normalized(limits, false, TermShapes(f, terms, Times(boost, field.boost)),
                        m.(planned := m.planned + |terms|))
  }

  function OutlinePhrase(schema: Schema, limits: Limits, f: string, text: string, boost: real, n: Counters)
    : Outcome<Shape> {
    match Searchable(schema, f)
    case Err(e) => Err(e)
    case Ok(field) =>
      match AnalyzeQuery(field, limits, text, true, n)
      case Err(e) => Err(e)
      case Ok((tokens, m)) =>
        match Make(limits, m)
        case Err(e) => Err(e)
        case Ok(k) => Ok((PhraseShape(f, EraseTokens(tokens), Times(boost, field.boost)), k))
  }

  function OutlineText(schema: Schema, limits: Limits, f: string, text: string, phrase: bool, boost: real, n: Counters)
    : Outcome<Shape> {
    if phrase then OutlinePhrase(schema, limits, f, text, boost, n) else OutlineTerm(schema, limits, f, text, boost, n)
  }

  /** An unfielded text is tried in every default field. */
  function OutlineFields(schema: Schema, limits: Limits, fields: seq<SearchField>, text: string, phrase: bool,
                         boost: real, n: Counters)
    : Outcome<set<Shape>>
  {
    if fields == [] then Ok(({}, n))
    else
      var k := |fields| - 1;
      match OutlineFields(schema, limits, fields[..k], text, phrase, boost, n)
      case Err(e) => Err(e)
      case Ok((shapes, m)) =>
        match OutlineText(schema, limits, fields[k].name, text, phrase, Times(boost, fields[k].boost), m)
        case Err(e) => Err(e)
        case Ok((shape, m')) => Ok((shapes + {shape}, m'))
  }

  function OutlineLeaf(schema: Schema, options: Options, field: Option<string>, text: string, phrase: bool,
                       boost: real, n: Counters)
    : Outcome<Shape>
  {
    match field
    case Some(f) => OutlineText(schema, options.limits, f, text, phrase, boost, n)
    case None =>
      match OutlineFields(schema, options.limits, options.defaultFields, text, phrase, boost, n)
      case Err(e) => Err(e)
      case Ok((shapes, m)) => Normalized(options.limits, false, shapes, m)
  }

  /** A range bound in canonical form: integers are reprinted, a star stays. */
  function CanonicalBound(schema: Schema, f: string, bound: string): Result<string, PlanningError>
    requires f in schema
  {
    if bound == "*" then Ok(bound)
    else if !ValidValue(schema, f, bound) then Err(InvalidRange)
    else if schema[f].kind.Int64Field? then Ok(ToString(BoundValue(bound)))
    else Ok(bound)
  }

  function OutlineRange(schema: Schema, limits: Limits, f: string, lower: string, upper: string, il: bool, iu: bool,
                        n: Counters)
    : Outcome<Shape>
  {
    if f !in schema then Err(UnknownField)
    else if schema[f].kind.TextField? then Err(IncompatibleFieldType)
    else
      match CanonicalBound(schema, f, lower)
      case Err(e) => Err(e)
      case Ok(low) =>
        match CanonicalBound(schema, f, upper)
        case Err(e) => Err(e)
        case Ok(high) =>
          match Make(limits, n)
          case Err(e) => Err(e)
          case Ok(m) => Ok((RangeShape(f, low, high, il, iu), m))
  }

  function Pair(limits: Limits, conjunction: bool, left: Shape, right: Shape, n: Counters): Outcome<Shape> {
    Normalized(limits, conjunction, {left, right}, n)
  }

  function Outline(schema: Schema, options: Options, q: Query, field: Option<string>, boost: real, depth: nat,
                   n: Counters)
    : Outcome<Shape>
    decreases q
  {
    var m := n.(source := n.source + 1);
    if depth > options.limits.depth then Err(ResourceLimit)
    else if m.source > options.limits.nodes then Err(ResourceLimit)
    else
      match q
      case TermQuery(text) => OutlineLeaf(schema, options, field, text, false, boost, m)
      case PhraseQuery(text) => OutlineLeaf(schema, options, field, text, true, boost, m)
      case AndQuery(l, r) =>
        (match Outline(schema, options, l, field, boost, depth + 1, m)
         case Err(e) => Err(e)
         case Ok((left, ml)) =>
           match Outline(schema, options, r, field, boost, depth + 1, ml)
           case Err(e) => Err(e)
           case Ok((right, mr)) => Pair(options.limits, true, left, right, mr))
      case OrQuery(l, r) =>
        (match Outline(schema, options, l, field, boost, depth + 1, m)
         case Err(e) => Err(e)
         case Ok((left, ml)) =>
           match Outline(schema, options, r, field, boost, depth + 1, ml)
           case Err(e) => Err(e)
           case Ok((right, mr)) => Pair(options.limits, false, left, right, mr))
      case NotQuery(operand) =>
        (match Outline(schema, options, operand, field, boost, depth + 1, m)
         case Err(e) => Err(e)
         case Ok((shape, mo)) =>
           match Make(options.limits, mo)
           case Err(e) => Err(e)
           case Ok(mk) => Ok((NotShape(shape), mk)))
      case FieldQuery(f, inner) =>
        if f == "" then Err(InvalidQueryTree)
        else if f !in schema then Err(UnknownField)
        else Outline(schema, options, inner, Some(f), boost, depth + 1, m)
      case RangeFilter(f, lower, upper, il, iu) => OutlineRange(schema, options.limits, f, lower, upper, il, iu, m)
      case BoostQuery(inner, b) =>
        if b <= 0.0 then Err(InvalidQueryTree)
        else Outline(schema, options, inner, field, Times(boost, b), depth + 1, m)
      case MatchAllQuery =>
        (match Make(options.limits, m)
         case Err(e) => Err(e)
         case Ok(mk) => Ok((AllShape, mk)))
  }

  // ---- the query's own meaning ----

  function QueryTokens(schema: Schema, f: string, text: string): seq<Token> {
    if f in schema && schema[f].analyzer.Some? && Analyze(schema[f].analyzer.value, text).Some?
    then Analyze(schema[f].analyzer.value, text).value else []
  }

  /** A text matches a field if any of its terms occurs there; a phrase if it stands there. */
  predicate TextMatches(schema: Schema, f: string, text: string, phrase: bool, d: Document) {
    var tokens := QueryTokens(schema, f, text);
    if phrase then PhraseOccurs(FieldTokens(schema, d, f), tokens)
    else exists i :: 0 <= i < |tokens| && Frequency(FieldTokens(schema, d, f), tokens[i].term) > 0
  }

  predicate LeafMatches(schema: Schema, fields: seq<SearchField>, field: Option<string>, text: string, phrase: bool,
                        d: Document) {
    match field
    case Some(f) => TextMatches(schema, f, text, phrase, d)
    case None => exists i :: 0 <= i < |fields| && TextMatches(schema, fields[i].name, text, phrase, d)
  }

  /** Compositional meaning of a query tree: an enclosing field restricts everything below it. */
  predicate QueryMatches(schema: Schema, fields: seq<SearchField>, q: Query, field: Option<string>, d: Document) {
    match q
    case TermQuery(text) => LeafMatches(schema, fields, field, text, false, d)
    case PhraseQuery(text) => LeafMatches(schema, fields, field, text, true, d)
    case AndQuery(l, r) => QueryMatches(schema, fields, l, field, d) && QueryMatches(schema, fields, r, field, d)
    case OrQuery(l, r) => QueryMatches(schema, fields, l, field, d) || QueryMatches(schema, fields, r, field, d)
    case NotQuery(operand) => !QueryMatches(schema, fields, operand, field, d)
    case FieldQuery(f, inner) => QueryMatches(schema, fields, inner, Some(f), d)
    case RangeFilter(f, lower, upper, il, iu) =>
      f in schema && FieldValue(d, f).Some?
        && RangeAccepts(schema[f].kind, FieldValue(d, f).value, lower, upper, il, iu)
    case BoostQuery(inner, _) => QueryMatches(schema, fields, inner, field, d)
    case MatchAllQuery => true
  }

  lemma NormalizedMatches(schema: Schema, limits: Limits, conjunction: bool, clauses: set<Shape>, n: Counters,
                          d: Document)
    requires Normalized(limits, conjunction, clauses, n).Ok?
    ensures MatchesShape(schema, Normalized(limits, conjunction, clauses, n).value.0, d) <==>
      if conjunction then clauses != {} && forall s :: s in clauses ==> MatchesShape(schema, s, d)
      else exists s :: s in clauses && MatchesShape(schema, s, d)
  {
    if |clauses| == 1 { OnlyOne(clauses); }
  }

  lemma TermOutlineMatches(schema: Schema, limits: Limits, f: string, text: string, boost: real, n: Counters,
                           d: Document)
    requires OutlineTerm(schema, limits, f, text, boost, n).Ok?
    ensures MatchesShape(schema, OutlineTerm(schema, limits, f, text, boost, n).value.0, d) <==>
      TextMatches(schema, f, text, false, d)
  {
    hide Normalized, FieldTokens, Frequency;
    var field := schema[f];
    var (tokens, m) := AnalyzeQuery(field, limits, text, false, n).value;
    var b := Times(boost, field.boost);
    var clauses := TermShapes(f, Terms(tokens), b);
    NormalizedMatches(schema, limits, false, clauses, m.(planned := m.planned + |Terms(tokens)|), d);
    if TextMatches(schema, f, text, false, d) {
      var i :| 0 <= i < |tokens| && Frequency(FieldTokens(schema, d, f), tokens[i].term) > 0;
      assert TermShape(f, tokens[i].term, b) in clauses;
      assert MatchesShape(schema, TermShape(f, tokens[i].term, b), d);
    }
    if s :| s in clauses && MatchesShape(schema, s, d) {
      var i :| 0 <= i < |tokens| && tokens[i].term == s.term;
      assert Frequency(FieldTokens(schema, d, f), tokens[i].term) > 0;
    }
  }

  lemma PhraseOutlineMatches(schema: Schema, limits: Limits, f: string, text: string, boost: real, n: Counters,
                             d: Document)
    requires OutlinePhrase(schema, limits, f, text, boost, n).Ok?
    ensures MatchesShape(schema, OutlinePhrase(schema, limits, f, text, boost, n).value.0, d) <==>
      TextMatches(schema, f, text, true, d)
  {
    hide FieldTokens, PhraseOccurs;
    var tokens := QueryTokens(schema, f, text);
    EraseOfTokensFrom(tokens);
    PhraseByTokens(FieldTokens(schema, d, f), tokens, TokensFrom(EraseTokens(tokens)));
  }

  lemma TextOutlineMatches(schema: Schema, limits: Limits, f: string, text: string, phrase: bool, boost: real,
                           n: Counters, d: Document)
    requires OutlineText(schema, limits, f, text, phrase, boost, n).Ok?
    ensures MatchesShape(schema, OutlineText(schema, limits, f, text, phrase, boost, n).value.0, d) <==>
      TextMatches(schema, f, text, phrase, d)
  {
    hide OutlineTerm, OutlinePhrase, MatchesShape, TextMatches;
    if phrase { PhraseOutlineMatches(schema, limits, f, text, boost, n, d); }
    else { TermOutlineMatches(schema, limits, f, text, boost, n, d); }
  }

  lemma {:induction false} FieldsOutlineMatches(schema: Schema, limits: Limits, fields: seq<SearchField>, text: string,
                                                phrase: bool, boost: real, n: Counters, d: Document)
    requires OutlineFields(schema, limits, fields, text, phrase, boost, n).Ok?
    ensures (exists s ::
        && s in OutlineFields(schema, limits, fields, text, phrase, boost, n).value.0
        && MatchesShape(schema, s, d))
      <==> (exists i :: 0 <= i < |fields| && TextMatches(schema, fields[i].name, text, phrase, d))
    decreases |fields|
  {
    hide OutlineText, MatchesShape, TextMatches;
    if fields != [] {
      var k := |fields| - 1;
      FieldsOutlineMatches(schema, limits, fields[..k], text, phrase, boost, n, d);
      var (shapes, m) := OutlineFields(schema, limits, fields[..k], text, phrase, boost, n).value;
      var (shape, m') := OutlineText(schema, limits, fields[k].name, text, phrase, Times(boost, fields[k].boost),
                                     m).value;
      TextOutlineMatches(schema, limits, fields[k].name, text, phrase, Times(boost, fields[k].boost), m, d);
      assert (exists s :: s in shapes + {shape} && MatchesShape(schema, s, d))
        <==> (exists s :: s in shapes && MatchesShape(schema, s, d)) || MatchesShape(schema, shape, d);
      FieldSplit(schema, fields, text, phrase, d);
    }
  }

  lemma FieldSplit(schema: Schema, fields: seq<SearchField>, text: string, phrase: bool, d: Document)
    requires fields != []
    ensures var k := |fields| - 1;
      (exists i :: 0 <= i < |fields| && TextMatches(schema, fields[i].name, text, phrase, d)) <==>
      (exists i :: 0 <= i < |fields[..k]| && TextMatches(schema, fields[..k][i].name, text, phrase, d))
      || TextMatches(schema, fields[k].name, text, phrase, d)
  {
    hide TextMatches;
    var k := |fields| - 1;
    if i :| 0 <= i < |fields[..k]| && TextMatches(schema, fields[..k][i].name, text, phrase, d) {
      assert TextMatches(schema, fields[i].name, text, phrase, d);
    }
    if i :| 0 <= i < |fields| && TextMatches(schema, fields[i].name, text, phrase, d) {
      if i < k { assert TextMatches(schema, fields[..k][i].name, text, phrase, d); }
    }
  }

  lemma BoundIsKept(schema: Schema, f: string, bound: string)
    requires f in schema && CanonicalBound(schema, f, bound).Ok?
    ensures var b := CanonicalBound(schema, f, bound).value;
      && (b == "*" <==> bound == "*")
      && (schema[f].kind.Int64Field? ==> BoundValue(b) == BoundValue(bound))
      && (!schema[f].kind.Int64Field? ==> b == bound)
  {
    if bound != "*" && schema[f].kind.Int64Field? {
      var v := BoundValue(bound);
      ToStringRoundTrip(v);
      assert ToString(v) != "*" by {
        if v < 0 { assert ToString(v)[0] == '-'; } else { assert IsDigit(Decimal(v)[0]); }
      }
    }
  }

  lemma RangeOutlineMatches(schema: Schema, limits: Limits, f: string, lower: string, upper: string, il: bool,
                            iu: bool, n: Counters, d: Document)
    requires OutlineRange(schema, limits, f, lower, upper, il, iu, n).Ok?
    ensures MatchesShape(schema, OutlineRange(schema, limits, f, lower, upper, il, iu, n).value.0, d) <==>
      f in schema && FieldValue(d, f).Some?
        && RangeAccepts(schema[f].kind, FieldValue(d, f).value, lower, upper, il, iu)
  {
    hide BoundValue, CanonicalBound, FieldValue;
    BoundIsKept(schema, f, lower);
    BoundIsKept(schema, f, upper);
  }

  lemma LeafOutlineMatches(schema: Schema, options: Options, field: Option<string>, text: string, phrase: bool,
                           boost: real, n: Counters, d: Document)
    requires OutlineLeaf(schema, options, field, text, phrase, boost, n).Ok?
    ensures MatchesShape(schema, OutlineLeaf(schema, options, field, text, phrase, boost, n).value.0, d)
      <==> LeafMatches(schema, options.defaultFields, field, text, phrase, d)
  {
    hide MatchesShape, TextMatches, OutlineText, OutlineFields, Normalized;
    match field
    case Some(f) => TextOutlineMatches(schema, options.limits, f, text, phrase, boost, n, d);
    case None =>
      var (shapes, m) := OutlineFields(schema, options.limits, options.defaultFields, text, phrase, boost, n).value;
      FieldsOutlineMatches(schema, options.limits, options.defaultFields, text, phrase, boost, n, d);
      NormalizedMatches(schema, options.limits, false, shapes, m, d);
  }

  lemma PairMatches(schema: Schema, limits: Limits, conjunction: bool, l: Shape, r: Shape, n: Counters, d: Document)
    requires Pair(limits, conjunction, l, r, n).Ok?
    ensures MatchesShape(schema, Pair(limits, conjunction, l, r, n).value.0, d) <==>
      if conjunction then MatchesShape(schema, l, d) && MatchesShape(schema, r, d)
      else MatchesShape(schema, l, d) || MatchesShape(schema, r, d)
  {
    hide MatchesShape, Normalized;
    NormalizedMatches(schema, limits, conjunction, {l, r}, n, d);
    assert l in {l, r} && r in {l, r};
  }

  /** Planning preserves meaning: default-field expansion, field and boost pushing, deduplication
      and single-clause collapse leave the matched documents those of the query tree itself. */
  lemma {:induction false} OutlineMatches(schema: Schema, options: Options, q: Query, field: Option<string>,
                                          boost: real, depth: nat, n: Counters, d: Document)
    requires Outline(schema, options, q, field, boost, depth, n).Ok?
    ensures MatchesShape(schema, Outline(schema, options, q, field, boost, depth, n).value.0, d)
      <==> QueryMatches(schema, options.defaultFields, q, field, d)
    decreases q
  {
    hide LeafMatches, OutlineLeaf, OutlineRange, RangeAccepts, Pair;
    var m := n.(source := n.source + 1);
    match q
    case TermQuery(text) => LeafOutlineMatches(schema, options, field, text, false, boost, m, d);
    case PhraseQuery(text) => LeafOutlineMatches(schema, options, field, text, true, boost, m, d);
    case AndQuery(l, r) =>
      var (left, ml) := Outline(schema, options, l, field, boost, depth + 1, m).value;
      var (right, mr) := Outline(schema, options, r, field, boost, depth + 1, ml).value;
      OutlineMatches(schema, options, l, field, boost, depth + 1, m, d);
      OutlineMatches(schema, options, r, field, boost, depth + 1, ml, d);
      PairMatches(schema, options.limits, true, left, right, mr, d);
    case OrQuery(l, r) =>
      var (left, ml) := Outline(schema, options, l, field, boost, depth + 1, m).value;
      var (right, mr) := Outline(schema, options, r, field, boost, depth + 1, ml).value;
      OutlineMatches(schema, options, l, field, boost, depth + 1, m, d);
      OutlineMatches(schema, options, r, field, boost, depth + 1, ml, d);
      PairMatches(schema, options.limits, false, left, right, mr, d);
    case NotQuery(operand) => OutlineMatches(schema, options, operand, field, boost, depth + 1, m, d);
    case FieldQuery(f, inner) => OutlineMatches(schema, options, inner, Some(f), boost, depth + 1, m, d);
    case RangeFilter(f, lower, upper, il, iu) =>
      RangeOutlineMatches(schema, options.limits, f, lower, upper, il, iu, m, d);
    case BoostQuery(inner, b) => OutlineMatches(schema, options, inner, field, Times(boost, b), depth + 1, m, d);
    case MatchAllQuery =>
  }
}

/** Why a query does not plan (src/query/planner.cpp:66-277), told by the tree and the schema. */
module PlanningErrors {
  import opened Basics
  import opened Analysis
  import opened Schemas
  import opened Canonicalization
  import opened IndexModel
  import opened Plans
  import opened Shapes
  import opened Queries
  import opened Outlines
  import opened Searching

  // ---- what is wrong with a tree ----

  /** A text cannot be searched for in a field. */
  predicate TextFault(schema: Schema, f: string, text: string, e: PlanningError) {
    || (e == UnknownField && f !in schema)
    || (e == PlanningError.IncompatibleFieldType && f in schema && (!schema[f].indexed || schema[f].analyzer.None?))
    || (e == PlanningError.AnalysisFailed && f in schema && schema[f].indexed && schema[f].analyzer.Some?
        && Analyze(schema[f].analyzer.value, text).None?)
  }

  predicate LeafFault(schema: Schema, fields: seq<SearchField>, field: Option<string>, text: string, e: PlanningError) {
    match field
    case Some(f) => TextFault(schema, f, text, e)
    case None => exists i :: 0 <= i < |fields| && TextFault(schema, fields[i].name, text, e)
  }

  predicate BoundFault(schema: Schema, f: string, bound: string)
    requires f in schema
  {
    bound != "*" && !ValidValue(schema, f, bound)
  }

  /** Somewhere in the tree is the fault that the error stands for. */
  predicate Fault(schema: Schema, fields: seq<SearchField>, q: Query, field: Option<string>, e: PlanningError) {
    match q
    case TermQuery(text) => LeafFault(schema, fields, field, text, e)
    case PhraseQuery(text) => LeafFault(schema, fields, field, text, e)
    case AndQuery(l, r) => Fault(schema, fields, l, field, e) || Fault(schema, fields, r, field, e)
    case OrQuery(l, r) => Fault(schema, fields, l, field, e) || Fault(schema, fields, r, field, e)
    case NotQuery(operand) => Fault(schema, fields, operand, field, e)
    case FieldQuery(f, inner) =>
      if f == "" then e == PlanningError.InvalidQueryTree
      else if f !in schema then e == UnknownField
      else Fault(schema, fields, inner, Some(f), e)
    case RangeFilter(f, lower, upper, _, _) =>
      if f !in schema then e == UnknownField
      else if schema[f].kind.TextField? then e == PlanningError.IncompatibleFieldType
      else e == InvalidRange && (BoundFault(schema, f, lower) || BoundFault(schema, f, upper))
    case BoostQuery(inner, b) =>
      if b <= 0.0 then e == PlanningError.InvalidQueryTree else Fault(schema, fields, inner, field, e)
    case MatchAllQuery => false
  }

  function Depth(q: Query): nat {
    match q
    case AndQuery(l, r) => 1 + if Depth(l) > Depth(r) then Depth(l) else Depth(r)
    case OrQuery(l, r) => 1 + if Depth(l) > Depth(r) then Depth(l) else Depth(r)
    case NotQuery(operand) => 1 + Depth(operand)
    case FieldQuery(_, inner) => 1 + Depth(inner)
    case BoostQuery(inner, _) => 1 + Depth(inner)
    case _ => 0
  }

  /** The outcome is a plan of something without the fault `e`, or an error other than `e`, or `e` is a limit
      or the fault is there. */
  predicate Explained<T(==)>(r: Outcome<T>, e: PlanningError, fault: bool) {
    (r.Ok? ==> !fault) && (r.Err? && r.error == e ==> e == PlanningError.ResourceLimit || fault)
  }

  lemma TextIsExplained(schema: Schema, limits: Limits, f: string, text: string, phrase: bool, boost: real,
                        n: Counters, e: PlanningError)
    ensures Explained(OutlineText(schema, limits, f, text, phrase, boost, n), e, TextFault(schema, f, text, e))
  {
    hide Analyze, TermShapes, Terms, EraseTokens;
  }

  lemma FaultOfFields(schema: Schema, fields: seq<SearchField>, text: string, e: PlanningError)
    requires fields != []
    ensures var k := |fields| - 1;
      LeafFault(schema, fields, None, text, e) <==>
      LeafFault(schema, fields[..k], None, text, e) || TextFault(schema, fields[k].name, text, e)
  {
    hide TextFault;
    var k := |fields| - 1;
    if i :| 0 <= i < |fields[..k]| && TextFault(schema, fields[..k][i].name, text, e) {
      assert TextFault(schema, fields[i].name, text, e);
    }
    if i :| 0 <= i < |fields| && TextFault(schema, fields[i].name, text, e) {
      if i < k { assert TextFault(schema, fields[..k][i].name, text, e); }
    }
  }

  lemma {:induction false} FieldsAreExplained(schema: Schema, limits: Limits, fields: seq<SearchField>, text: string,
                                              phrase: bool, boost: real, n: Counters, e: PlanningError)
    ensures Explained(OutlineFields(schema, limits, fields, text, phrase, boost, n),
                      e, LeafFault(schema, fields, None, text, e))
  {
    hide OutlineText, TextFault;
    if fields != [] {
      var k := |fields| - 1;
      FieldsAreExplained(schema, limits, fields[..k], text, phrase, boost, n, e);
      FaultOfFields(schema, fields, text, e);
      match OutlineFields(schema, limits, fields[..k], text, phrase, boost, n)
      case Err(_) =>
      case Ok((_, m)) =>
        TextIsExplained(schema, limits, fields[k].name, text, phrase, Times(boost, fields[k].boost), m, e);
    }
  }

  lemma LeafIsExplained(schema: Schema, options: Options, field: Option<string>, text: string, phrase: bool,
                        boost: real, n: Counters, e: PlanningError)
    ensures Explained(OutlineLeaf(schema, options, field, text, phrase, boost, n),
                      e, LeafFault(schema, options.defaultFields, field, text, e))
  {
    hide OutlineText, OutlineFields, TextFault;
    match field
    case Some(f) => TextIsExplained(schema, options.limits, f, text, phrase, boost, n, e);
    case None => FieldsAreExplained(schema, options.limits, options.defaultFields, text, phrase, boost, n, e);
  }

  /** A query that plans has no fault; one that does not has the fault that its error stands for, or would
      exceed a limit. */
  lemma {:induction false} OutlineIsExplained(schema: Schema, options: Options, q: Query, field: Option<string>,
                                              boost: real, depth: nat, n: Counters, e: PlanningError)
    ensures Explained(Outline(schema, options, q, field, boost, depth, n), e,
                      Fault(schema, options.defaultFields, q, field, e))
    decreases q, 2
  {
    hide Outline, InnerOutline, Fault;
    OutlineIs(schema, options, q, field, boost, depth, n);
    InnerIsExplained(schema, options, q, field, boost, depth, n.(source := n.source + 1), e);
  }

  lemma {:induction false} InnerIsExplained(schema: Schema, options: Options, q: Query, field: Option<string>,
                                            boost: real, depth: nat, n: Counters, e: PlanningError)
    ensures Explained(InnerOutline(schema, options, q, field, boost, depth, n), e,
                      Fault(schema, options.defaultFields, q, field, e))
    decreases q, 1
  {
    hide Outline, OutlineLeaf, OutlineRange, LeafFault, PairOutlined, BoundFault;
    match q
    case TermQuery(text) => LeafIsExplained(schema, options, field, text, false, boost, n, e);
    case PhraseQuery(text) => LeafIsExplained(schema, options, field, text, true, boost, n, e);
    case AndQuery(l, r) => PairIsExplained(schema, options, q, l, r, field, boost, depth, n, true, e);
    case OrQuery(l, r) => PairIsExplained(schema, options, q, l, r, field, boost, depth, n, false, e);
    case NotQuery(operand) => OutlineIsExplained(schema, options, operand, field, boost, depth + 1, n, e);
    case FieldQuery(f, inner) => OutlineIsExplained(schema, options, inner, Some(f), boost, depth + 1, n, e);
    case RangeFilter(f, lower, upper, il, iu) =>
      RangeIsExplained(schema, options, f, lower, upper, il, iu, field, n, e);
    case BoostQuery(inner, b) =>
      OutlineIsExplained(schema, options, inner, field, Times(boost, b), depth + 1, n, e);
    case MatchAllQuery =>
  }

  lemma {:induction false} PairIsExplained(schema: Schema, options: Options, parent: Query, l: Query, r: Query,
                                           field: Option<string>, boost: real, depth: nat, n: Counters,
                                           conjunction: bool, e: PlanningError)
    requires l < parent && r < parent
    ensures Explained(PairOutlined(schema, options, l, r, field, boost, depth, n, conjunction), e,
                      Fault(schema, options.defaultFields, l, field, e)
                      || Fault(schema, options.defaultFields, r, field, e))
    decreases parent, 0
  {
    hide Outline, Fault, PairOutlined;
    PairOutcome(schema, options, l, r, field, boost, depth, n, conjunction);
    OutlineIsExplained(schema, options, l, field, boost, depth + 1, n, e);
    var first := Outline(schema, options, l, field, boost, depth + 1, n);
    if first.Ok? { OutlineIsExplained(schema, options, r, field, boost, depth + 1, first.value.1, e); }
  }

  /** Two operands plan if each does; the first failure counts. */
  lemma PairOutcome(schema: Schema, options: Options, l: Query, r: Query, field: Option<string>, boost: real,
                    depth: nat, n: Counters, conjunction: bool)
    ensures var first := Outline(schema, options, l, field, boost, depth + 1, n);
      var pair := PairOutlined(schema, options, l, r, field, boost, depth, n, conjunction);
      if first.Err? then pair == Err(first.error)
      else
        var second := Outline(schema, options, r, field, boost, depth + 1, first.value.1);
        if second.Err? then pair == Err(second.error)
        else pair.Err? ==> pair.error == PlanningError.ResourceLimit
  {
    hide Outline;
  }

  lemma RangeIsExplained(schema: Schema, options: Options, f: string, lower: string, upper: string, il: bool, iu: bool,
                         field: Option<string>, n: Counters, e: PlanningError)
    ensures Explained(OutlineRange(schema, options.limits, f, lower, upper, il, iu, n), e,
                      Fault(schema, options.defaultFields, RangeFilter(f, lower, upper, il, iu), field, e))
  {
    hide ValidValue, BoundValue;
  }

  /** Nothing deeper than the depth limit plans. */
  lemma {:induction false} DepthIsBounded(schema: Schema, options: Options, q: Query, field: Option<string>,
                                          boost: real, depth: nat, n: Counters)
    requires Outline(schema, options, q, field, boost, depth, n).Ok?
    ensures depth + Depth(q) <= options.limits.depth
    decreases q
  {
    hide OutlineLeaf, OutlineRange, Pair;
    var m := n.(source := n.source + 1);
    match q
    case AndQuery(l, r) =>
      DepthIsBounded(schema, options, l, field, boost, depth + 1, m);
      DepthIsBounded(schema, options, r, field, boost, depth + 1,
                     Outline(schema, options, l, field, boost, depth + 1, m).value.1);
    case OrQuery(l, r) =>
      DepthIsBounded(schema, options, l, field, boost, depth + 1, m);
      DepthIsBounded(schema, options, r, field, boost, depth + 1,
                     Outline(schema, options, l, field, boost, depth + 1, m).value.1);
    case NotQuery(operand) => DepthIsBounded(schema, options, operand, field, boost, depth + 1, m);
    case FieldQuery(f, inner) => DepthIsBounded(schema, options, inner, Some(f), boost, depth + 1, m);
    case BoostQuery(inner, b) => DepthIsBounded(schema, options, inner, field, Times(boost, b), depth + 1, m);
    case _ =>
  }

  /** Whether a query plans: under valid options a plan means a faultless tree no deeper than the limit, and
      every error but the limits names a fault of the tree. */
  lemma PlanningIsExplained(schema: Schema, options: Options, q: Query)
    ensures var r := PlanOutline(schema, options, q);
      && (r == Err(PlanningError.InvalidOptions) <==> !OptionsValid(options))
      && (r.Ok? ==> Depth(q) <= options.limits.depth
                    && forall e: PlanningError :: !Fault(schema, options.defaultFields, q, None, e))
      && (r.Err? && OptionsValid(options) ==>
            r.error == PlanningError.ResourceLimit || Fault(schema, options.defaultFields, q, None, r.error))
  {
    hide Outline, Fault;
    forall e: PlanningError
      ensures Explained(Outline(schema, options, q, None, 1.0, 0, Counters(0, 0, 0)), e,
                        Fault(schema, options.defaultFields, q, None, e))
    {
      OutlineIsExplained(schema, options, q, None, 1.0, 0, Counters(0, 0, 0), e);
    }
    if PlanOutline(schema, options, q).Ok? {
      DepthIsBounded(schema, options, q, None, 1.0, 0, Counters(0, 0, 0));
    }
    NoFaultOfOptions(schema, options.defaultFields, q, None);
  }

  lemma {:induction false} NoFaultOfOptions(schema: Schema, fields: seq<SearchField>, q: Query, field: Option<string>)
    ensures !Fault(schema, fields, q, field, PlanningError.InvalidOptions)
  {
    match q
    case AndQuery(l, r) =>
      NoFaultOfOptions(schema, fields, l, field);
      NoFaultOfOptions(schema, fields, r, field);
    case OrQuery(l, r) =>
      NoFaultOfOptions(schema, fields, l, field);
      NoFaultOfOptions(schema, fields, r, field);
    case NotQuery(operand) => NoFaultOfOptions(schema, fields, operand, field);
    case FieldQuery(f, inner) => NoFaultOfOptions(schema, fields, inner, Some(f));
    case BoostQuery(inner, _) => NoFaultOfOptions(schema, fields, inner, field);
    case _ =>
  }
}

/** The plan builder (src/query/planner.cpp): it refines the outline of a query over any index. */
module Planning {
  import opened Basics
  import opened Analysis
  import opened Schemas
  import opened IndexModel
  import opened Plans
  import opened Canonicalization
  import opened Shapes
  import opened Views
  import opened NormalForms
  import opened Queries
  import opened Outlines

  /** What every plan the builder returns satisfies. */
  ghost predicate Good(v: SearchView, show: Printer, domain: iset<real>, plan: Plan) {
    Normal(v, show, plan) && BoostsIn(plan, domain) && Executable(v.schema, plan)
  }

  ghost predicate AllGood(v: SearchView, show: Printer, domain: iset<real>, plans: seq<Plan>) {
    forall i :: 0 <= i < |plans| ==> Good(v, show, domain, plans[i])
  }

  // ---- sorting clauses ----

  function InsertPlan(conjunction: bool, show: Printer, s: seq<Plan>, p: Plan): seq<Plan> {
    if s == [] then [p]
    else if RankLess(Rank(conjunction, show, p), Rank(conjunction, show, s[0])) then [p] + s
    else [s[0]] + InsertPlan(conjunction, show, s[1..], p)
  }

  function SortPlans(conjunction: bool, show: Printer, s: seq<Plan>): seq<Plan> {
    if s == [] then [] else InsertPlan(conjunction, show, SortPlans(conjunction, show, s[1..]), s[0])
  }

  lemma {:induction false} InsertMembers(conjunction: bool, show: Printer, s: seq<Plan>, p: Plan)
    ensures forall x :: x in InsertPlan(conjunction, show, s, p) <==> x == p || x in s
    ensures |InsertPlan(conjunction, show, s, p)| == |s| + 1
  {
    hide Rank, RankLess;
    if s != [] {
      InsertMembers(conjunction, show, s[1..], p);
      assert s == [s[0]] + s[1..];
    }
  }

  lemma {:induction false} SortMembers(conjunction: bool, show: Printer, s: seq<Plan>)
    ensures forall x :: x in SortPlans(conjunction, show, s) <==> x in s
    ensures |SortPlans(conjunction, show, s)| == |s|
  {
    hide InsertPlan;
    if s != [] {
      SortMembers(conjunction, show, s[1..]);
      InsertMembers(conjunction, show, SortPlans(conjunction, show, s[1..]), s[0]);
      assert s == [s[0]] + s[1..];
    }
  }

  /** Strict order, by recursion. */
  ghost predicate Ascending(conjunction: bool, show: Printer, s: seq<Plan>) {
    s == [] ||
    ((forall x :: x in s[1..] ==> RankLess(Rank(conjunction, show, s[0]), Rank(conjunction, show, x)))
     && Ascending(conjunction, show, s[1..]))
  }

  lemma {:induction false} AscendingIsInOrder(conjunction: bool, show: Printer, s: seq<Plan>)
    requires Ascending(conjunction, show, s)
    ensures InOrder(Ranks(conjunction, show, s))
  {
    hide Rank, RankLess;
    if s != [] {
      AscendingIsInOrder(conjunction, show, s[1..]);
      var r, r' := Ranks(conjunction, show, s), Ranks(conjunction, show, s[1..]);
      forall i, j | 0 <= i < j < |r| ensures RankLess(r[i], r[j]) {
        assert r[j] == r'[j - 1] && s[j] == s[1..][j - 1];
        if i > 0 { assert r[i] == r'[i - 1]; } else { assert s[j] in s[1..]; }
      }
    }
  }

  lemma {:induction false} InsertAscends(conjunction: bool, show: Printer, s: seq<Plan>, p: Plan)
    requires Ascending(conjunction, show, s)
    requires forall x :: x in s ==> Rank(conjunction, show, x) != Rank(conjunction, show, p)
    ensures Ascending(conjunction, show, InsertPlan(conjunction, show, s, p))
  {
    hide Rank, RankLess;
    if s != [] {
      var r := InsertPlan(conjunction, show, s, p);
      var rp, rs := Rank(conjunction, show, p), Rank(conjunction, show, s[0]);
      assert s[0] in s;
      RankOrder(rp, rs, rp);
      if RankLess(rp, rs) {
        assert r[1..] == s;
        forall x | x in s ensures RankLess(rp, Rank(conjunction, show, x)) {
          if x != s[0] {
            assert x in s[1..] by { assert s == [s[0]] + s[1..]; }
            RankOrder(rp, rs, Rank(conjunction, show, x));
          }
        }
      } else {
        InsertAscends(conjunction, show, s[1..], p);
        InsertMembers(conjunction, show, s[1..], p);
        assert r[1..] == InsertPlan(conjunction, show, s[1..], p);
      }
    }
  }

  ghost predicate DistinctKeys(show: Printer, s: seq<Plan>) {
    forall i, j :: 0 <= i < j < |s| ==> Canonical(show, s[i]) != Canonical(show, s[j])
  }

  lemma {:induction false} SortAscends(conjunction: bool, show: Printer, s: seq<Plan>)
    requires DistinctKeys(show, s)
    ensures Ascending(conjunction, show, SortPlans(conjunction, show, s))
  {
    hide Canonical, RankLess, InsertPlan;
    if s != [] {
      SortAscends(conjunction, show, s[1..]);
      SortMembers(conjunction, show, s[1..]);
      forall x | x in SortPlans(conjunction, show, s[1..])
        ensures Rank(conjunction, show, x) != Rank(conjunction, show, s[0])
      {
        assert x in s[1..];
        var i :| 0 <= i < |s[1..]| && s[1..][i] == x;
        assert s[i + 1] == x;
      }
      InsertAscends(conjunction, show, SortPlans(conjunction, show, s[1..]), s[0]);
    }
  }

  // ---- deduplication ----

  /** `kept` are the clauses of `children` with the repeated ones left out. */
  ghost predicate Deduplicated(v: SearchView, show: Printer, domain: iset<real>, children: seq<Plan>, kept: seq<Plan>) {
    AllGood(v, show, domain, kept) && DistinctKeys(show, kept) && ShapesOf(kept) == ShapesOf(children)
  }

  lemma ShapesAppend(plans: seq<Plan>, p: Plan)
    ensures ShapesOf(plans + [p]) == ShapesOf(plans) + {ShapeOf(p)}
  {
    hide ShapeOf;
    var more := plans + [p];
    forall s | s in ShapesOf(plans) ensures s in ShapesOf(more) {
      var i :| 0 <= i < |plans| && ShapeOf(plans[i]) == s;
      assert ShapeOf(more[i]) == s;
    }
    assert ShapeOf(more[|plans|]) in ShapesOf(more);
  }

  lemma NothingKept(v: SearchView, show: Printer, domain: iset<real>)
    ensures Deduplicated(v, show, domain, [], [])
  {
  }

  lemma KeepClause(v: SearchView, show: Printer, domain: iset<real>, children: seq<Plan>, kept: seq<Plan>, p: Plan)
    requires Faithful(show, domain) && Deduplicated(v, show, domain, children, kept) && Good(v, show, domain, p)
    ensures (forall i :: 0 <= i < |kept| ==> Canonical(show, kept[i]) != Canonical(show, p)) ==>
      Deduplicated(v, show, domain, children + [p], kept + [p])
    ensures (exists i :: 0 <= i < |kept| && Canonical(show, kept[i]) == Canonical(show, p)) ==>
      Deduplicated(v, show, domain, children + [p], kept)
  {
    hide Canonical, ShapeOf, Normal, BoostsIn, Executable, Faithful;
    ShapesAppend(children, p);
    ShapesAppend(kept, p);
    if i :| 0 <= i < |kept| && Canonical(show, kept[i]) == Canonical(show, p) {
      CanonicalDecides(show, domain, kept[i], p);
      SameIsOneShape(kept[i], p);
      assert ShapeOf(p) in ShapesOf(kept);
    }
  }

  /** Ordered clauses of one index are apart: a repeated shape would have a repeated rank. */
  lemma OrderedIsApart(v: SearchView, show: Printer, domain: iset<real>, conjunction: bool, s: seq<Plan>)
    requires Faithful(show, domain) && AllGood(v, show, domain, s) && InOrder(Ranks(conjunction, show, s))
    ensures AllApart(s)
  {
    hide Canonical, ShapeOf, Normal, BoostsIn, Executable, Faithful, RankLess;
    forall i, j | 0 <= i < j < |s| ensures ShapeOf(s[i]) != ShapeOf(s[j]) {
      var ri, rj := Rank(conjunction, show, s[i]), Rank(conjunction, show, s[j]);
      assert Ranks(conjunction, show, s)[i] == ri && Ranks(conjunction, show, s)[j] == rj;
      RankOrder(ri, rj, ri);
      if ShapeOf(s[i]) == ShapeOf(s[j]) {
        NormalFormIsUnique(v, show, domain, s[i], s[j]);
        CanonicalDecides(show, domain, s[i], s[j]);
      }
    }
  }

  /** The Boolean node over sorted clauses. */
  function Node(conjunction: bool, s: seq<Plan>, estimate: nat): Plan {
    if conjunction then And(s, estimate) else Or(s, estimate)
  }

  function NodeEstimate(v: SearchView, conjunction: bool, s: seq<Plan>): nat {
    if conjunction then (if s == [] then 0 else LeastEstimate(v, s)) else TotalEstimate(v, s)
  }

  lemma NodeIsGood(v: SearchView, show: Printer, domain: iset<real>, conjunction: bool, s: seq<Plan>)
    requires Faithful(show, domain) && AllGood(v, show, domain, s) && InOrder(Ranks(conjunction, show, s))
    ensures Good(v, show, domain, Node(conjunction, s, NodeEstimate(v, conjunction, s)))
  {
    hide Canonical, Faithful, LeastEstimate, TotalEstimate, InOrder;
    OrderedIsApart(v, show, domain, conjunction, s);
    hide AllApart;
  }

  lemma SortIsGood(v: SearchView, show: Printer, domain: iset<real>, conjunction: bool, children: seq<Plan>,
                   kept: seq<Plan>)
    requires Deduplicated(v, show, domain, children, kept)
    ensures var s := SortPlans(conjunction, show, kept);
      AllGood(v, show, domain, s) && InOrder(Ranks(conjunction, show, s)) && ShapesOf(s) == ShapesOf(children)
        && |s| == |kept|
  {
    hide Good, Canonical, ShapeOf, SortPlans, InOrder;
    var s := SortPlans(conjunction, show, kept);
    SortMembers(conjunction, show, kept);
    SortAscends(conjunction, show, kept);
    AscendingIsInOrder(conjunction, show, s);
    forall i | 0 <= i < |s| ensures Good(v, show, domain, s[i]) {
      assert s[i] in s;
      var k :| 0 <= k < |kept| && kept[k] == s[i];
    }
    forall x | x in ShapesOf(s) ensures x in ShapesOf(kept) {
      var i :| 0 <= i < |s| && ShapeOf(s[i]) == x;
      assert s[i] in s;
      var k :| 0 <= k < |kept| && kept[k] == s[i];
      assert ShapeOf(kept[k]) == x;
    }
    forall x | x in ShapesOf(kept) ensures x in ShapesOf(s) {
      var k :| 0 <= k < |kept| && ShapeOf(kept[k]) == x;
      assert kept[k] in kept;
      var i :| 0 <= i < |s| && s[i] == kept[k];
      assert ShapeOf(s[i]) == x;
    }
  }

  /** Kept clauses are as many as there are shapes. */
  lemma {:induction false} ShapeCount(plans: seq<Plan>)
    requires AllApart(plans)
    ensures |ShapesOf(plans)| == |plans|
  {
    hide ShapeOf;
    if plans != [] {
      var n := |plans| - 1;
      ShapeCount(plans[..n]);
      ShapesAppend(plans[..n], plans[n]);
      assert plans[..n] + [plans[n]] == plans;
      assert ShapeOf(plans[n]) !in ShapesOf(plans[..n]);
    } else {
      assert ShapesOf(plans) == {};
    }
  }

  lemma KeptCount(v: SearchView, show: Printer, domain: iset<real>, children: seq<Plan>, kept: seq<Plan>)
    requires Faithful(show, domain) && Deduplicated(v, show, domain, children, kept)
    ensures |kept| == |ShapesOf(children)|
    ensures |kept| == 1 ==> ShapesOf(children) == {ShapeOf(kept[0])}
  {
    hide Canonical, ShapeOf, Good, Faithful, Normal, BoostsIn;
    forall i, j | 0 <= i < j < |kept| ensures ShapeOf(kept[i]) != ShapeOf(kept[j]) {
      if ShapeOf(kept[i]) == ShapeOf(kept[j]) {
        GoodIsUnique(v, show, domain, kept[i], kept[j]);
      }
    }
    ShapeCount(kept);
  }

  lemma GoodIsUnique(v: SearchView, show: Printer, domain: iset<real>, a: Plan, b: Plan)
    requires Faithful(show, domain) && Good(v, show, domain, a) && Good(v, show, domain, b) && ShapeOf(a) == ShapeOf(b)
    ensures Canonical(show, a) == Canonical(show, b)
  {
    hide Canonical, ShapeOf, Faithful, Normal, BoostsIn;
    NormalFormIsUnique(v, show, domain, a, b);
    CanonicalDecides(show, domain, a, b);
  }

  // ---- facts the builder's loops need ----

  /** Boosts stay in the printable domain: it holds 1, no negative number, and all products. */
  ghost predicate Closed(domain: iset<real>) {
    1.0 in domain && (forall x :: x in domain ==> x >= 0.0) &&
    forall x, y :: x in domain && y in domain ==> Times(x, y) in domain
  }

  ghost predicate BoostsKnown(schema: Schema, options: Options, domain: iset<real>) {
    && (forall f :: f in schema ==> schema[f].boost in domain)
    && (forall i :: 0 <= i < |options.defaultFields| ==> options.defaultFields[i].boost in domain)
  }

  ghost predicate QueryBoostsIn(q: Query, domain: iset<real>) {
    match q
    case AndQuery(l, r) => QueryBoostsIn(l, domain) && QueryBoostsIn(r, domain)
    case OrQuery(l, r) => QueryBoostsIn(l, domain) && QueryBoostsIn(r, domain)
    case NotQuery(operand) => QueryBoostsIn(operand, domain)
    case FieldQuery(_, inner) => QueryBoostsIn(inner, domain)
    case BoostQuery(inner, b) => b in domain && QueryBoostsIn(inner, domain)
    case _ => true
  }

  lemma TermsPrefix(tokens: seq<Token>, k: nat)
    requires k < |tokens|
    ensures Terms(tokens[..k + 1]) == Terms(tokens[..k]) + {tokens[k].term}
    ensures Terms(tokens[..k + 1]) <= Terms(tokens)
  {
    var upTo := tokens[..k + 1];
    forall t | t in Terms(tokens[..k]) ensures t in Terms(upTo) {
      var i :| 0 <= i < k && tokens[..k][i].term == t;
      assert upTo[i].term == t;
    }
    assert upTo[k].term in Terms(upTo);
    forall t | t in Terms(upTo) ensures t in Terms(tokens[..k]) + {tokens[k].term} && t in Terms(tokens) {
      var i :| 0 <= i <= k && upTo[i].term == t;
      if i < k { assert tokens[..k][i].term == t; }
      assert tokens[i].term == t;
    }
  }

  lemma {:induction false} FieldsFail(schema: Schema, limits: Limits, fields: seq<SearchField>, k: nat, text: string,
                                      phrase: bool, boost: real, n: Counters)
    requires k <= |fields| && OutlineFields(schema, limits, fields[..k], text, phrase, boost, n).Err?
    ensures OutlineFields(schema, limits, fields, text, phrase, boost, n)
      == OutlineFields(schema, limits, fields[..k], text, phrase, boost, n)
    decreases |fields|
  {
    hide OutlineText;
    if k < |fields| {
      var m := |fields| - 1;
      assert fields[..m][..k] == fields[..k];
      FieldsFail(schema, limits, fields[..m], k, text, phrase, boost, n);
    } else {
      assert fields[..k] == fields;
    }
  }

  lemma LeafIsGood(v: SearchView, show: Printer, domain: iset<real>, plan: Plan)
    requires !plan.And? && !plan.Or? && !plan.Not?
    requires plan.estimate == Estimate(v, plan)
    requires (plan.Term? || plan.Phrase?) ==> plan.boost in domain && plan.boost >= 0.0
    requires plan.Range? ==> plan.field in v.schema
    ensures Good(v, show, domain, plan)
  {
  }

  /** The outline of a Boolean node, from the number of distinct clauses. */
  lemma NormalizedOf(limits: Limits, conjunction: bool, clauses: set<Shape>, n: Counters)
    ensures |clauses| == 1 ==> exists s :: clauses == {s} && Normalized(limits, conjunction, clauses, n) == Ok((s, n))
    ensures |clauses| != 1 && Make(limits, n).Err? ==>
      Normalized(limits, conjunction, clauses, n) == Err(Make(limits, n).error)
    ensures |clauses| != 1 && Make(limits, n).Ok? ==>
      Normalized(limits, conjunction, clauses, n)
        == Ok((if conjunction then AndShape(clauses) else OrShape(clauses), Make(limits, n).value))
  {
    if |clauses| == 1 {
      OnlyOne(clauses);
      var s :| s in clauses;
      assert clauses == {s};
    }
  }

  class Builder {
    const view: SearchView
    const options: Options
    const show: Printer
    ghost const domain: iset<real>
    var sourceNodes: nat
    var plannedNodes: nat
    var analyzedTokens: nat

    constructor (view: SearchView, options: Options, show: Printer, ghost domain: iset<real>)
      ensures this.view == view && this.options == options && this.show == show && this.domain == domain
      ensures Count() == Counters(0, 0, 0)
    {
      this.view, this.options, this.show, this.domain := view, options, show, domain;
      sourceNodes, plannedNodes, analyzedTokens := 0, 0, 0;
    }

    function Count(): Counters
      reads this
    {
      Counters(sourceNodes, plannedNodes, analyzedTokens)
    }

    ghost predicate Ready() {
      Faithful(show, domain) && Closed(domain) && BoostsKnown(view.schema, options, domain) && Usable(view.schema)
    }

    /** The result is the expected outline, as a normal plan of this index. */
    ghost predicate Yields(expected: Outcome<Shape>, r: Result<Plan, PlanningError>)
      reads this
    {
      match expected
      case Err(e) => r == Err(e)
      case Ok((shape, n)) => r.Ok? && Good(view, show, domain, r.value) && ShapeOf(r.value) == shape && Count() == n
    }

    method MakeNode(plan: Plan) returns (r: Result<Plan, PlanningError>)
      modifies this
      ensures match Make(options.limits, old(Count()))
        case Err(e) => r == Err(e)
        case Ok(n) => r == Ok(plan) && Count() == n
    {
      plannedNodes := plannedNodes + 1;
      if plannedNodes > options.limits.nodes { return Err(ResourceLimit); }
      r := Ok(plan);
    }

    /** Drops clauses whose canonical text is already there. */
    method Deduplicate(children: seq<Plan>) returns (kept: seq<Plan>)
      requires Ready() && AllGood(view, show, domain, children)
      ensures Deduplicated(view, show, domain, children, kept)
    {
      hide Deduplicated, Canonical, Good, Faithful, Closed, BoostsKnown, Usable;
      kept := [];
      NothingKept(view, show, domain);
      assert children[..0] == [];
      for k := 0 to |children|
        invariant Deduplicated(view, show, domain, children[..k], kept)
      {
        var child := children[k];
        KeepClause(view, show, domain, children[..k], kept, child);
        assert children[..k] + [child] == children[..k + 1];
        var key := Canonical(show, child);
        var known := false;
        for i := 0 to |kept|
          invariant known <==> exists x :: 0 <= x < i && Canonical(show, kept[x]) == key
        {
          if Canonical(show, kept[i]) == key { known := true; }
        }
        if !known { kept := kept + [child]; }
      }
      assert children[..|children|] == children;
    }

    /** The estimate of a Boolean node, accumulated over its sorted clauses. */
    method AccumulateEstimate(conjunction: bool, s: seq<Plan>) returns (estimate: nat)
      requires AllGood(view, show, domain, s)
      ensures estimate == if conjunction then LeastEstimate(view, s) else TotalEstimate(view, s)
    {
      estimate := if conjunction then view.liveCount else 0;
      for i := 0 to |s|
        invariant estimate == if conjunction then LeastEstimate(view, s[..i]) else TotalEstimate(view, s[..i])
      {
        hide Estimate;
        assert Good(view, show, domain, s[i]);
        assert s[..i + 1][..i] == s[..i];
        estimate := if conjunction then Min(estimate, s[i].estimate) else Min(view.liveCount, estimate + s[i].estimate);
      }
      assert s[..|s|] == s;
    }

    /** Deduplicates, collapses a single clause, sorts and estimates. */
    method NormalizeBoolean(children: seq<Plan>, conjunction: bool) returns (r: Result<Plan, PlanningError>)
      requires Ready() && AllGood(view, show, domain, children)
      modifies this
      ensures Yields(Normalized(options.limits, conjunction, ShapesOf(children), old(Count())), r)
    {
      hide Normalized, Deduplicated, Canonical, Normal, BoostsIn, Executable, Faithful, Closed, BoostsKnown, Usable,
           InOrder, LeastEstimate, TotalEstimate, SortPlans;
      NormalizedOf(options.limits, conjunction, ShapesOf(children), Count());
      var kept := Deduplicate(children);
      KeptCount(view, show, domain, children, kept);
      SortIsGood(view, show, domain, conjunction, children, kept);
      var sorted := SortPlans(conjunction, show, kept);
      NodeIsGood(view, show, domain, conjunction, sorted);
      if |kept| == 0 {
        assert sorted == [];
        EmptyEstimate(view);
        r := MakeNode(Node(conjunction, [], 0));
        return;
      }
      if |kept| == 1 {
        KeptIsGood(view, show, domain, children, kept);
        return Ok(kept[0]);
      }
      var estimate := AccumulateEstimate(conjunction, sorted);
      r := MakeNode(Node(conjunction, sorted, estimate));
    }

    /** The analysis of a query text, against the token limits. */
    method AnalyzeText(field: FieldDefinition, text: string, phrase: bool)
      returns (r: Result<seq<Token>, PlanningError>)
      requires field.analyzer.Some?
      modifies this
      ensures match AnalyzeQuery(field, options.limits, text, phrase, old(Count()))
        case Err(e) => r == Err(e)
        case Ok((tokens, n)) => r == Ok(tokens) && Count() == n
    {
      var analyzed := Analyze(field.analyzer.value, text);
      if analyzed.None? { return Err(PlanningError.AnalysisFailed); }
      var tokens := analyzed.value;
      analyzedTokens := analyzedTokens + |tokens|;
      if analyzedTokens > options.limits.tokens || (phrase && |tokens| > options.limits.phraseTokens) {
        return Err(ResourceLimit);
      }
      r := Ok(tokens);
    }

    /** The term nodes made so far, one per distinct term. */
    ghost predicate TermsMade(f: string, b: real, seen: set<string>, children: seq<Plan>) {
      AllGood(view, show, domain, children) && ShapesOf(children) == TermShapes(f, seen, b)
    }

    lemma TermsStep(f: string, b: real, seen: set<string>, children: seq<Plan>, t: string)
      requires TermsMade(f, b, seen, children) && b in domain && b >= 0.0
      ensures TermsMade(f, b, seen + {t}, children + [Term(f, t, b, PostingCount(view, f, t))])
    {
      hide Good, PostingCount;
      var p := Term(f, t, b, PostingCount(view, f, t));
      LeafIsGood(view, show, domain, p);
      ShapesAppend(children, p);
      assert TermShapes(f, seen + {t}, b) == TermShapes(f, seen, b) + {TermShape(f, t, b)};
    }

    /** One term node per distinct analysed term. */
    method MakeTerms(f: string, b: real, tokens: seq<Token>) returns (r: Result<seq<Plan>, PlanningError>)
      requires b in domain && b >= 0.0
      modifies this
      ensures |Terms(tokens)| > 0 && old(Count()).planned + |Terms(tokens)| > options.limits.nodes ==>
        r == Err(ResourceLimit)
      ensures |Terms(tokens)| == 0 || old(Count()).planned + |Terms(tokens)| <= options.limits.nodes ==>
        && r.Ok? && TermsMade(f, b, Terms(tokens), r.value)
        && Count() == old(Count()).(planned := old(Count()).planned + |Terms(tokens)|)
    {
      hide TermsMade, PostingCount;
      ghost var start := Count();
      var children: seq<Plan> := [];
      var seen: set<string> := {};
      NoTerms(f, b);
      for k := 0 to |tokens|
        invariant seen == Terms(tokens[..k])
        invariant TermsMade(f, b, seen, children)
        invariant Count() == start.(planned := start.planned + |seen|)
        invariant seen <= Terms(tokens)
        invariant |seen| > 0 ==> start.planned + |seen| <= options.limits.nodes
      {
        var term := tokens[k].term;
        TermsPrefix(tokens, k);
        if term !in seen {
          TermsStep(f, b, seen, children, term);
          SubsetSize(seen + {term}, Terms(tokens));
          var child := MakeNode(Term(f, term, b, PostingCount(view, f, term)));
          if child.Err? { return Err(child.error); }
          children := children + [child.value];
          seen := seen + {term};
        }
      }
      assert tokens[..|tokens|] == tokens;
      r := Ok(children);
    }

    lemma NoTerms(f: string, b: real)
      ensures TermsMade(f, b, {}, [])
    {
    }

    method TermForField(f: string, text: string, boost: real) returns (r: Result<Plan, PlanningError>)
      requires Ready() && boost in domain
      modifies this
      ensures Yields(OutlineTerm(view.schema, options.limits, f, text, boost, old(Count())), r)
    {
      hide Normalized, Good, TermShapes;
      var definition := Searchable(view.schema, f);
      if definition.Err? { return Err(definition.error); }
      var field := definition.value;
      var analyzed := AnalyzeText(field, text, false);
      if analyzed.Err? { return Err(analyzed.error); }
      var b := Times(boost, field.boost);
      var children := MakeTerms(f, b, analyzed.value);
      if children.Err? { return Err(children.error); }
      r := NormalizeBoolean(children.value, false);
    }

    /** The smallest posting list among the phrase's terms bounds its matches. */
    method EstimatePhrase(f: string, tokens: seq<Token>) returns (estimate: nat)
      ensures estimate == PhraseEstimate(view, f, tokens)
    {
      estimate := view.liveCount;
      for i := 0 to |tokens|
        invariant estimate == PhraseEstimate(view, f, tokens[..i])
      {
        assert tokens[..i + 1][..i] == tokens[..i];
        estimate := Min(estimate, PostingCount(view, f, tokens[i].term));
      }
      assert tokens[..|tokens|] == tokens;
    }

    method PhraseForField(f: string, text: string, boost: real) returns (r: Result<Plan, PlanningError>)
      requires Ready() && boost in domain
      modifies this
      ensures Yields(OutlinePhrase(view.schema, options.limits, f, text, boost, old(Count())), r)
    {
      hide Good, PhraseEstimate;
      var definition := Searchable(view.schema, f);
      if definition.Err? { return Err(definition.error); }
      var field := definition.value;
      var analyzed := AnalyzeText(field, text, true);
      if analyzed.Err? { return Err(analyzed.error); }
      var estimate := EstimatePhrase(f, analyzed.value);
      var plan := Phrase(f, analyzed.value, Times(boost, field.boost), estimate);
      LeafIsGood(view, show, domain, plan);
      r := MakeNode(plan);
    }

    method TextForField(f: string, text: string, phrase: bool, boost: real) returns (r: Result<Plan, PlanningError>)
      requires Ready() && boost in domain
      modifies this
      ensures Yields(OutlineText(view.schema, options.limits, f, text, phrase, boost, old(Count())), r)
    {
      hide OutlineTerm, OutlinePhrase, Yields;
      if phrase { r := PhraseForField(f, text, boost); } else { r := TermForField(f, text, boost); }
    }

    /** The default fields tried so far. */
    ghost predicate FieldsTried(k: nat, text: string, phrase: bool, boost: real, n: Counters, children: seq<Plan>)
      reads this
    {
      && k <= |options.defaultFields| && AllGood(view, show, domain, children)
      && OutlineFields(view.schema, options.limits, options.defaultFields[..k], text, phrase, boost, n)
        == Ok((ShapesOf(children), Count()))
    }

    /** The outline of one more default field, given that of the fields before it. */
    lemma NextField(k: nat, text: string, phrase: bool, boost: real, n: Counters, shapes: set<Shape>, m: Counters)
      requires k < |options.defaultFields|
      requires OutlineFields(view.schema, options.limits, options.defaultFields[..k], text, phrase, boost, n)
        == Ok((shapes, m))
      ensures var field := options.defaultFields[k];
        var one := OutlineText(view.schema, options.limits, field.name, text, phrase, Times(boost, field.boost), m);
        OutlineFields(view.schema, options.limits, options.defaultFields[..k + 1], text, phrase, boost, n) ==
        if one.Err? then Err(one.error) else Ok((shapes + {one.value.0}, one.value.1))
    {
      hide OutlineText;
      assert options.defaultFields[..k + 1][..k] == options.defaultFields[..k];
    }

    /** A term or phrase: in the enclosing field, or in every default field. */
    method BuildLeaf(field: Option<string>, text: string, phrase: bool, boost: real)
      returns (r: Result<Plan, PlanningError>)
      requires Ready() && boost in domain
      modifies this
      ensures Yields(OutlineLeaf(view.schema, options, field, text, phrase, boost, old(Count())), r)
    {
      hide OutlineText, OutlineFields, Normalized, Good;
      if field.Some? {
        r := TextForField(field.value, text, phrase, boost);
        return;
      }
      ghost var n := Count();
      var children: seq<Plan> := [];
      NoFields(text, phrase, boost, n);
      for k := 0 to |options.defaultFields|
        invariant FieldsTried(k, text, phrase, boost, n, children)
      {
        var search := options.defaultFields[k];
        NextField(k, text, phrase, boost, n, ShapesOf(children), Count());
        var child := TextForField(search.name, text, phrase, Times(boost, search.boost));
        if child.Err? {
          FieldsFail(view.schema, options.limits, options.defaultFields, k + 1, text, phrase, boost, n);
          return Err(child.error);
        }
        ShapesAppend(children, child.value);
        children := children + [child.value];
      }
      assert options.defaultFields[..|options.defaultFields|] == options.defaultFields;
      r := NormalizeBoolean(children, false);
    }

    lemma NoFields(text: string, phrase: bool, boost: real, n: Counters)
      ensures OutlineFields(view.schema, options.limits, options.defaultFields[..0], text, phrase, boost, n)
        == Ok(({}, n))
      ensures ShapesOf([]) == {}
    {
    }

    method BuildRange(f: string, lower: string, upper: string, il: bool, iu: bool)
      returns (r: Result<Plan, PlanningError>)
      requires Ready()
      modifies this
      ensures Yields(OutlineRange(view.schema, options.limits, f, lower, upper, il, iu, old(Count())), r)
    {
      hide Good, CanonicalBound;
      if f !in view.schema { return Err(UnknownField); }
      if view.schema[f].kind.TextField? { return Err(IncompatibleFieldType); }
      var low := CanonicalBound(view.schema, f, lower);
      if low.Err? { return Err(low.error); }
      var high := CanonicalBound(view.schema, f, upper);
      if high.Err? { return Err(high.error); }
      var plan := Range(f, low.value, high.value, il, iu, view.liveCount);
      LeafIsGood(view, show, domain, plan);
      r := MakeNode(plan);
    }

    /** An operator over two operands. */
    method BuildPair(l: Plan, rr: Plan, conjunction: bool) returns (r: Result<Plan, PlanningError>)
      requires Ready() && Good(view, show, domain, l) && Good(view, show, domain, rr)
      modifies this
      ensures Yields(Pair(options.limits, conjunction, ShapeOf(l), ShapeOf(rr), old(Count())), r)
    {
      hide Good, Normalized, ShapeOf;
      TwoShapes(l, rr);
      r := NormalizeBoolean([l, rr], conjunction);
    }

    /** The builder refines the outline: same error, or a normal plan of the outlined shape that
        takes the outlined resources, whatever the index contains. */
    method Build(q: Query, field: Option<string>, boost: real, depth: nat) returns (r: Result<Plan, PlanningError>)
      requires Ready() && boost in domain && QueryBoostsIn(q, domain)
      modifies this
      ensures Yields(Outline(view.schema, options, q, field, boost, depth, old(Count())), r)
      decreases q, 1
    {
      hide OutlineLeaf, OutlineRange, Good, Pair, Ready;
      if depth > options.limits.depth { return Err(ResourceLimit); }
      sourceNodes := sourceNodes + 1;
      if sourceNodes > options.limits.nodes { return Err(ResourceLimit); }
      match q {
        case TermQuery(text) => r := BuildLeaf(field, text, false, boost);
        case PhraseQuery(text) => r := BuildLeaf(field, text, true, boost);
        case AndQuery(left, right) => r := BuildBoth(q, left, right, true, field, boost, depth);
        case OrQuery(left, right) => r := BuildBoth(q, left, right, false, field, boost, depth);
        case NotQuery(operand) =>
          var o := Build(operand, field, boost, depth + 1);
          if o.Err? { return o; }
          NotIsGood(view, show, domain, o.value);
          r := MakeNode(Not(o.value, view.liveCount));
        case FieldQuery(f, inner) =>
          if f == "" { return Err(InvalidQueryTree); }
          if f !in view.schema { return Err(UnknownField); }
          r := Build(inner, Some(f), boost, depth + 1);
        case RangeFilter(f, lower, upper, il, iu) => r := BuildRange(f, lower, upper, il, iu);
        case BoostQuery(inner, b) =>
          if b <= 0.0 { return Err(InvalidQueryTree); }
          ProductKnown(boost, b);
          r := Build(inner, field, Times(boost, b), depth + 1);
        case MatchAllQuery =>
          LeafIsGood(view, show, domain, MatchAll(view.liveCount));
          r := MakeNode(MatchAll(view.liveCount));
      }
    }

    /** What planning two operands in turn and the node over them has to yield. */
    ghost function Both(left: Query, right: Query, conjunction: bool, field: Option<string>, boost: real, depth: nat,
                        n: Counters): Outcome<Shape> {
      match Outline(view.schema, options, left, field, boost, depth + 1, n)
      case Err(e) => Err(e)
      case Ok((l, nl)) =>
        match Outline(view.schema, options, right, field, boost, depth + 1, nl)
        case Err(e) => Err(e)
        case Ok((r, nr)) => Pair(options.limits, conjunction, l, r, nr)
    }

    method BuildBoth(ghost q: Query, left: Query, right: Query, conjunction: bool, field: Option<string>, boost: real,
                     depth: nat)
      returns (r: Result<Plan, PlanningError>)
      requires Ready() && boost in domain && QueryBoostsIn(left, domain) && QueryBoostsIn(right, domain) && left < q
      requires right < q
      modifies this
      ensures Yields(Both(left, right, conjunction, field, boost, depth, old(Count())), r)
      decreases q, 0
    {
      hide Outline, Good, Pair, Ready;
      var l := Build(left, field, boost, depth + 1);
      if l.Err? { return l; }
      var rr := Build(right, field, boost, depth + 1);
      if rr.Err? { return rr; }
      r := BuildPair(l.value, rr.value, conjunction);
    }

    lemma ProductKnown(x: real, y: real)
      requires Ready() && x in domain && y in domain
      ensures Times(x, y) in domain
    {
    }
  }

  lemma TwoShapes(a: Plan, b: Plan)
    ensures ShapesOf([a, b]) == {ShapeOf(a), ShapeOf(b)}
  {
    hide ShapeOf;
    ShapesAppend([a], b);
    assert [a] + [b] == [a, b];
    assert ShapesOf([a]) == {ShapeOf(a)} by {
      ShapesAppend([], a);
      assert [] + [a] == [a];
      assert ShapesOf([]) == {};
    }
  }

  lemma NotIsGood(v: SearchView, show: Printer, domain: iset<real>, operand: Plan)
    requires Good(v, show, domain, operand)
    ensures Good(v, show, domain, Not(operand, v.liveCount))
  {
  }

  lemma EmptyEstimate(v: SearchView)
    ensures TotalEstimate(v, []) == 0
  {
  }

  lemma KeptIsGood(v: SearchView, show: Printer, domain: iset<real>, children: seq<Plan>, kept: seq<Plan>)
    requires Deduplicated(v, show, domain, children, kept) && |kept| > 0
    ensures Good(v, show, domain, kept[0])
  {
    hide Good;
  }
}

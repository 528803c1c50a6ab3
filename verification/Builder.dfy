/** Plans in normal form and the planner that builds them (src/query/planner.cpp). */
module NormalForms {
  import opened Basics
  import opened Analysis
  import opened Schemas
  import opened IndexModel
  import opened Plans
  import opened Canonicalization
  import opened Shapes
  import opened Views

  function Min(a: nat, b: nat): nat { if a < b then a else b }

  // ---- estimates ----

  function PostingCount(v: SearchView, f: string, t: string): nat {
    match v.Lookup(f, t)
    case Some(entry) => |entry.postings|
    case None => 0
  }

  function PhraseEstimate(v: SearchView, f: string, tokens: seq<Token>): nat {
    if tokens == [] then v.liveCount
    else Min(PhraseEstimate(v, f, tokens[..|tokens| - 1]), PostingCount(v, f, tokens[|tokens| - 1].term))
  }

  /** The estimate the planner attaches to a node, from the node's structure. */
  function Estimate(v: SearchView, plan: Plan): nat
    decreases plan, 1
  {
    match plan
    case Term(f, t, _, _) => PostingCount(v, f, t)
    case Phrase(f, tokens, _, _) => PhraseEstimate(v, f, tokens)
    case And(children, _) => if children == [] then 0 else LeastEstimate(v, children)
    case Or(children, _) => TotalEstimate(v, children)
    case Not(_, _) => v.liveCount
    case Range(_, _, _, _, _, _) => v.liveCount
    case MatchAll(_) => v.liveCount
  }

  function LeastEstimate(v: SearchView, children: seq<Plan>): nat
    decreases children, 0
  {
    if children == [] then v.liveCount
    else Min(LeastEstimate(v, children[..|children| - 1]), Estimate(v, children[|children| - 1]))
  }

  function TotalEstimate(v: SearchView, children: seq<Plan>): nat
    decreases children, 0
  {
    if children == [] then 0
    else Min(v.liveCount, TotalEstimate(v, children[..|children| - 1]) + Estimate(v, children[|children| - 1]))
  }

  // ---- clause order ----

  /** The sort key of a clause: conjunctions go by estimate first, disjunctions by text alone. */
  function Rank(conjunction: bool, show: Printer, p: Plan): (nat, string) {
    (if conjunction then p.estimate else 0, Canonical(show, p))
  }

  predicate RankLess(a: (nat, string), b: (nat, string)) {
    a.0 < b.0 || (a.0 == b.0 && Less(a.1, b.1))
  }

  lemma RankOrder(a: (nat, string), b: (nat, string), c: (nat, string))
    ensures !RankLess(a, a)
    ensures RankLess(a, b) ==> !RankLess(b, a)
    ensures a == b || RankLess(a, b) || RankLess(b, a)
    ensures RankLess(a, b) && RankLess(b, c) ==> RankLess(a, c)
  {
    LessIrreflexive(a.1);
    LessTotal(a.1, b.1);
    if Less(a.1, b.1) {
      LessAsymmetric(a.1, b.1);
      if Less(b.1, c.1) { LessTransitive(a.1, b.1, c.1); }
    }
  }

  ghost predicate InOrder(ranks: seq<(nat, string)>) {
    forall i, j :: 0 <= i < j < |ranks| ==> RankLess(ranks[i], ranks[j])
  }

  function Ranks(conjunction: bool, show: Printer, plans: seq<Plan>): (r: seq<(nat, string)>)
    ensures |r| == |plans|
  {
    seq(|plans|, i requires 0 <= i < |plans| => Rank(conjunction, show, plans[i]))
  }

  /** Two strictly ordered lists with the same members are one list. */
  lemma {:induction false} OrderIsUnique(a: seq<(nat, string)>, b: seq<(nat, string)>)
    requires InOrder(a) && InOrder(b) && forall x :: x in a <==> x in b
    ensures a == b
    decreases |a|
  {
    hide RankLess;
    assert b != [] ==> b[0] in b;
    if a != [] {
      assert a[0] in a;
      assert a[0] in b;
      var j :| 0 <= j < |b| && b[j] == a[0];
      assert b[0] in b;
      var i :| 0 <= i < |a| && a[i] == b[0];
      RankOrder(a[0], b[0], a[0]);
      assert a[0] == b[0];
      var a', b' := a[1..], b[1..];
      forall x ensures x in a' <==> x in b' {
        RankOrder(x, a[0], x);
        assert x in a <==> x == a[0] || x in a';
        assert x in b <==> x == b[0] || x in b';
        assert a[0] !in a' && b[0] !in b' by {
          RankOrder(a[0], a[0], a[0]);
          forall k | 0 <= k < |a'| ensures a'[k] != a[0] { assert RankLess(a[0], a[k + 1]); }
          forall k | 0 <= k < |b'| ensures b'[k] != b[0] { assert RankLess(b[0], b[k + 1]); }
        }
      }
      OrderIsUnique(a', b');
      assert a == [a[0]] + a' && b == [b[0]] + b';
    }
  }

  // ---- normal form ----

  /** Every Boolean node has distinct clauses in strict order, and every estimate is the planner's. */
  ghost predicate Normal(v: SearchView, show: Printer, plan: Plan) {
    && plan.estimate == Estimate(v, plan)
    && match plan
       case And(children, _) =>
         && AllApart(children) && InOrder(Ranks(true, show, children))
         && forall i :: 0 <= i < |children| ==> Normal(v, show, children[i])
       case Or(children, _) =>
         && AllApart(children) && InOrder(Ranks(false, show, children))
         && forall i :: 0 <= i < |children| ==> Normal(v, show, children[i])
       case Not(operand, _) => Normal(v, show, operand)
       case _ => true
  }

  lemma {:induction false} NormalIsDistinct(v: SearchView, show: Printer, plan: Plan)
    requires Normal(v, show, plan)
    ensures Distinct(plan)
  {
    match plan
    case And(children, _) =>
      forall i | 0 <= i < |children| ensures Distinct(children[i]) { NormalIsDistinct(v, show, children[i]); }
    case Or(children, _) =>
      forall i | 0 <= i < |children| ensures Distinct(children[i]) { NormalIsDistinct(v, show, children[i]); }
    case Not(operand, _) => NormalIsDistinct(v, show, operand);
    case _ =>
  }

  lemma {:induction false} PhraseEstimateByTokens(v: SearchView, f: string, p: seq<Token>, q: seq<Token>)
    requires EraseTokens(p) == EraseTokens(q)
    ensures PhraseEstimate(v, f, p) == PhraseEstimate(v, f, q)
    decreases |p|
  {
    TokensAgree(p, q);
    if p != [] {
      var n := |p| - 1;
      assert EraseTokens(p[..n]) == EraseTokens(p)[..n] && EraseTokens(q[..n]) == EraseTokens(q)[..n];
      PhraseEstimateByTokens(v, f, p[..n], q[..n]);
    }
  }

  lemma {:induction false} EstimateOfSame(v: SearchView, a: Plan, b: Plan)
    requires Same(a, b)
    ensures Estimate(v, a) == Estimate(v, b)
    decreases a, 1
  {
    match a
    case Phrase(f, p, _, _) => PhraseEstimateByTokens(v, f, p, b.tokens);
    case And(children, _) => EstimatesOfSame(v, a, children, b.children);
    case Or(children, _) => EstimatesOfSame(v, a, children, b.children);
    case _ =>
  }

  lemma {:induction false} EstimatesOfSame(v: SearchView, parent: Plan, cs: seq<Plan>, ds: seq<Plan>)
    requires |cs| == |ds| && forall i :: 0 <= i < |cs| ==> cs[i] < parent && Same(cs[i], ds[i])
    ensures LeastEstimate(v, cs) == LeastEstimate(v, ds) && TotalEstimate(v, cs) == TotalEstimate(v, ds)
    decreases parent, 0, |cs|
  {
    hide Same, Estimate;
    if cs != [] {
      var n := |cs| - 1;
      EstimatesOfSame(v, parent, cs[..n], ds[..n]);
      EstimateOfSame(v, cs[n], ds[n]);
    }
  }

  /** In one index a shape has one normal form: deduplication by text finds every repeated clause,
      and swapping operands changes nothing. */
  lemma {:induction false} NormalFormIsUnique(v: SearchView, show: Printer, domain: iset<real>, a: Plan, b: Plan)
    requires Faithful(show, domain) && BoostsIn(a, domain) && BoostsIn(b, domain)
    requires Normal(v, show, a) && Normal(v, show, b) && ShapeOf(a) == ShapeOf(b)
    ensures Same(a, b) && a.estimate == b.estimate
    decreases a, 1
  {
    match a {
      case And(children, _) => UniqueClauses(v, show, domain, true, a, children, b.children);
      case Or(children, _) => UniqueClauses(v, show, domain, false, a, children, b.children);
      case Not(operand, _) => NormalFormIsUnique(v, show, domain, operand, b.operand);
      case _ =>
    }
    assert Same(a, b);
    EstimateOfSame(v, a, b);
  }

  lemma {:induction false} UniqueClauses(v: SearchView, show: Printer, domain: iset<real>, conjunction: bool,
                                         parent: Plan, cs: seq<Plan>, ds: seq<Plan>)
    requires Faithful(show, domain) && ShapesOf(cs) == ShapesOf(ds)
    requires InOrder(Ranks(conjunction, show, cs)) && InOrder(Ranks(conjunction, show, ds))
    requires forall i :: 0 <= i < |cs| ==> cs[i] < parent && Normal(v, show, cs[i]) && BoostsIn(cs[i], domain)
    requires forall i :: 0 <= i < |ds| ==> Normal(v, show, ds[i]) && BoostsIn(ds[i], domain)
    ensures |cs| == |ds| && forall i :: 0 <= i < |cs| ==> Same(cs[i], ds[i])
    decreases parent, 0
  {
    hide Same, Normal, BoostsIn, ShapeOf, Faithful, InOrder, Canonical;
    var cr, dr := Ranks(conjunction, show, cs), Ranks(conjunction, show, ds);
    forall x | x in cr ensures x in dr {
      var i :| 0 <= i < |cr| && cr[i] == x;
      assert ShapeOf(cs[i]) in ShapesOf(ds);
      var j :| 0 <= j < |ds| && ShapeOf(ds[j]) == ShapeOf(cs[i]);
      NormalFormIsUnique(v, show, domain, cs[i], ds[j]);
      CanonicalDecides(show, domain, cs[i], ds[j]);
      assert dr[j] == x;
    }
    forall x | x in dr ensures x in cr {
      var j :| 0 <= j < |dr| && dr[j] == x;
      assert ShapeOf(ds[j]) in ShapesOf(cs);
      var i :| 0 <= i < |cs| && ShapeOf(cs[i]) == ShapeOf(ds[j]);
      NormalFormIsUnique(v, show, domain, cs[i], ds[j]);
      CanonicalDecides(show, domain, cs[i], ds[j]);
      assert cr[i] == x;
    }
    OrderIsUnique(cr, dr);
    forall i | 0 <= i < |cs| ensures Same(cs[i], ds[i]) {
      assert cr[i] == dr[i];
      CanonicalDecides(show, domain, cs[i], ds[i]);
    }
  }

  // ---- what the order and the estimates are for ----

  lemma {:induction false} LeastIsLeast(v: SearchView, children: seq<Plan>)
    ensures LeastEstimate(v, children) <= v.liveCount
    ensures forall i :: 0 <= i < |children| ==> LeastEstimate(v, children) <= Estimate(v, children[i])
    ensures LeastEstimate(v, children) == v.liveCount
      || exists i :: 0 <= i < |children| && LeastEstimate(v, children) == Estimate(v, children[i])
  {
    hide Estimate;
    if children != [] { LeastIsLeast(v, children[..|children| - 1]); }
  }

  lemma {:induction false} TotalCovers(v: SearchView, children: seq<Plan>)
    ensures TotalEstimate(v, children) <= v.liveCount
    ensures forall i :: 0 <= i < |children| ==>
      Estimate(v, children[i]) <= TotalEstimate(v, children) || TotalEstimate(v, children) == v.liveCount
  {
    hide Estimate;
    if children != [] { TotalCovers(v, children[..|children| - 1]); }
  }

  /** A conjunction has its cheapest clauses first and costs no more than any of them; a disjunction costs no
      less than any of its clauses, up to the number of live documents; a term costs its postings. */
  lemma CheapestFirst(v: SearchView, show: Printer, plan: Plan)
    requires Normal(v, show, plan)
    ensures plan.And? ==>
      && (forall i, j :: 0 <= i < j < |plan.children| ==> plan.children[i].estimate <= plan.children[j].estimate)
      && (forall i :: 0 <= i < |plan.children| ==> plan.estimate <= plan.children[i].estimate)
    ensures plan.Or? ==> plan.estimate <= v.liveCount && forall i :: 0 <= i < |plan.children| ==>
      plan.children[i].estimate <= plan.estimate || plan.estimate == v.liveCount
    ensures plan.Term? ==> match v.Lookup(plan.field, plan.term)
      case Some(entry) => plan.estimate == |entry.postings|
      case None => plan.estimate == 0
  {
    hide SearchView.Lookup, Canonical;
    match plan
    case And(children, _) =>
      LeastIsLeast(v, children);
      forall i, j | 0 <= i < j < |children| ensures children[i].estimate <= children[j].estimate {
        assert RankLess(Ranks(true, show, children)[i], Ranks(true, show, children)[j]);
      }
    case Or(children, _) => TotalCovers(v, children);
    case _ =>
  }

  // ---- estimates bound the matches ----

  /** Number of live documents that match. */
  function MatchCount(schema: Schema, plan: Plan, slots: Slots): nat {
    if slots == [] then 0
    else
      var n := |slots| - 1;
      MatchCount(schema, plan, slots[..n]) + if !slots[n].deleted && Matches(schema, plan, slots[n]) then 1 else 0
  }

  lemma {:induction false} CountBelowLive(schema: Schema, plan: Plan, slots: Slots)
    ensures MatchCount(schema, plan, slots) <= |LiveIds(slots)|
  {
    hide Matches;
    if slots != [] { CountBelowLive(schema, plan, slots[..|slots| - 1]); }
  }

  lemma {:induction false} CountMonotone(schema: Schema, a: Plan, b: Plan, slots: Slots)
    requires forall d: Document :: d in slots && Matches(schema, a, d) ==> Matches(schema, b, d)
    ensures MatchCount(schema, a, slots) <= MatchCount(schema, b, slots)
  {
    hide Matches;
    if slots != [] {
      var n := |slots| - 1;
      assert forall d :: d in slots[..n] ==> d in slots;
      CountMonotone(schema, a, b, slots[..n]);
      assert slots[n] in slots;
    }
  }

  lemma {:induction false} CountOfTerm(schema: Schema, f: string, t: string, boost: real, slots: Slots)
    ensures MatchCount(schema, Term(f, t, boost, 0), slots) == |Postings(schema, slots, f, t)|
  {
    hide FieldTokens;
    if slots != [] {
      var n := |slots| - 1;
      CountOfTerm(schema, f, t, boost, slots[..n]);
      FrequencyIsPositions(FieldTokens(schema, slots[n], f), t);
      if ContainsTerm(schema, slots[n], f, t) { ContainsNeedsField(schema, slots[n], f, t); }
    }
  }

  lemma {:induction false} CountOfEither(schema: Schema, head: seq<Plan>, last: Plan, slots: Slots)
    ensures MatchCount(schema, Or(head + [last], 0), slots)
      <= MatchCount(schema, Or(head, 0), slots) + MatchCount(schema, last, slots)
  {
    hide Matches;
    if slots != [] {
      var n := |slots| - 1;
      CountOfEither(schema, head, last, slots[..n]);
      EitherMatches(schema, head, last, slots[n]);
    }
  }

  lemma EitherMatches(schema: Schema, head: seq<Plan>, last: Plan, d: Document)
    ensures Matches(schema, Or(head + [last], 0), d) ==> Matches(schema, Or(head, 0), d) || Matches(schema, last, d)
  {
    var all := head + [last];
    if Matches(schema, Or(all, 0), d) {
      var i :| 0 <= i < |all| && Matches(schema, all[i], d);
      if i < |head| { assert Matches(schema, head[i], d); }
    }
  }

  function IdSet(slots: Slots): set<string> {
    if slots == [] then {}
    else
      var n := |slots| - 1;
      IdSet(slots[..n]) + if slots[n].deleted then {} else {slots[n].id}
  }

  lemma {:induction false} IdSetHas(slots: Slots, x: string)
    ensures x in IdSet(slots) <==> exists i :: 0 <= i < |slots| && !slots[i].deleted && slots[i].id == x
  {
    if slots != [] {
      var n := |slots| - 1;
      IdSetHas(slots[..n], x);
      if i :| 0 <= i < n && !slots[..n][i].deleted && slots[..n][i].id == x { assert slots[i].id == x; }
      if i :| 0 <= i < |slots| && !slots[i].deleted && slots[i].id == x { assert i < n ==> slots[..n][i].id == x; }
    }
  }

  lemma {:induction false} LiveIsIds(slots: Slots)
    requires DistinctIds(slots)
    ensures |LiveIds(slots)| == |IdSet(slots)|
  {
    if slots != [] {
      var n := |slots| - 1;
      LiveIsIds(slots[..n]);
      IdSetHas(slots[..n], slots[n].id);
    }
  }

  lemma LocalBelowGlobal(v: SearchView, local: Slots, global: Slots)
    requires Represents(v, local, global)
    ensures |LiveIds(local)| <= v.liveCount
  {
    LiveIsIds(local);
    LiveIsIds(global);
    forall x | x in IdSet(local) ensures x in IdSet(global) {
      IdSetHas(local, x);
      IdSetHas(global, x);
      var i :| 0 <= i < |local| && !local[i].deleted && local[i].id == x;
      assert local[i] in global;
      var j :| 0 <= j < |global| && global[j] == local[i];
      assert global[j].id == x;
    }
    SubsetSize(IdSet(local), IdSet(global));
  }

  lemma PostingCountIs(v: SearchView, local: Slots, global: Slots, f: string, t: string)
    requires Represents(v, local, global)
    ensures PostingCount(v, f, t) == |Postings(v.schema, local, f, t)|
  {
    assert v.Lookup(f, t) == TermEntryOf(v.schema, local, global, f, t);
  }

  lemma {:induction false} PhraseBound(v: SearchView, local: Slots, global: Slots, plan: Plan, m: nat)
    requires Represents(v, local, global) && plan.Phrase? && m <= |plan.tokens|
    ensures MatchCount(v.schema, plan, local) <= PhraseEstimate(v, plan.field, plan.tokens[..m])
    decreases m
  {
    hide Represents, Postings, Matches, PostingCount, MatchCount;
    if m == 0 {
      CountBelowLive(v.schema, plan, local);
      LocalBelowGlobal(v, local, global);
    } else {
      var t := plan.tokens[m - 1].term;
      PhraseBound(v, local, global, plan, m - 1);
      assert plan.tokens[..m][..m - 1] == plan.tokens[..m - 1];
      PhraseNeedsTerm(v.schema, plan, m - 1, local);
      CountOfTerm(v.schema, plan.field, t, 0.0, local);
      PostingCountIs(v, local, global, plan.field, t);
    }
  }

  lemma PhraseNeedsTerm(schema: Schema, plan: Plan, i: nat, slots: Slots)
    requires plan.Phrase? && i < |plan.tokens|
    ensures MatchCount(schema, plan, slots) <= MatchCount(schema, Term(plan.field, plan.tokens[i].term, 0.0, 0), slots)
  {
    forall d: Document | d in slots && Matches(schema, plan, d)
      ensures Matches(schema, Term(plan.field, plan.tokens[i].term, 0.0, 0), d)
    {
      var text := FieldTokens(schema, d, plan.field);
      var k :| 0 <= k < |text| && PhraseAt(text, plan.tokens, text[k].position);
      assert OccursAt(text, plan.tokens[i].term, text[k].position + Offset(plan.tokens, i));
      FrequencyIsPositions(text, plan.tokens[i].term);
    }
    hide Matches;
    CountMonotone(schema, plan, Term(plan.field, plan.tokens[i].term, 0.0, 0), slots);
  }

  /** Every node's estimate is an upper bound on the number of documents it matches. */
  lemma {:induction false} EstimateBoundsMatches(v: SearchView, local: Slots, global: Slots, plan: Plan)
    requires Represents(v, local, global)
    ensures MatchCount(v.schema, plan, local) <= Estimate(v, plan)
    decreases plan, 1
  {
    hide Represents, Postings, PostingCount, PhraseEstimate;
    CountBelowLive(v.schema, plan, local);
    LocalBelowGlobal(v, local, global);
    match plan
    case Term(f, t, boost, _) =>
      CountOfTerm(v.schema, f, t, boost, local);
      CountMonotone(v.schema, plan, Term(f, t, boost, 0), local);
      PostingCountIs(v, local, global, f, t);
    case Phrase(f, tokens, _, _) =>
      PhraseBound(v, local, global, plan, |tokens|);
      assert tokens[..|tokens|] == tokens;
    case And(children, _) =>
      if children == [] { CountMonotone(v.schema, plan, Or([], 0), local); NothingCounted(v.schema, local); }
      else {
        AndBound(v, local, global, plan, |children|);
        assert children[..|children|] == children;
      }
    case Or(children, _) =>
      CountMonotone(v.schema, plan, Or(children, 0), local);
      OrBound(v, local, global, plan, children);
    case Not(_, _) =>
    case Range(_, _, _, _, _, _) =>
    case MatchAll(_) =>
  }

  lemma {:induction false} NothingCounted(schema: Schema, slots: Slots)
    ensures MatchCount(schema, Or([], 0), slots) == 0
  {
    if slots != [] { NothingCounted(schema, slots[..|slots| - 1]); }
  }

  lemma {:induction false} AndBound(v: SearchView, local: Slots, global: Slots, plan: Plan, m: nat)
    requires Represents(v, local, global) && plan.And? && m <= |plan.children|
    ensures MatchCount(v.schema, plan, local) <= LeastEstimate(v, plan.children[..m])
    decreases plan, 0, m
  {
    hide Represents, MatchCount, Estimate;
    if m == 0 {
      CountBelowLive(v.schema, plan, local);
      LocalBelowGlobal(v, local, global);
    } else {
      AndBound(v, local, global, plan, m - 1);
      assert plan.children[..m][..m - 1] == plan.children[..m - 1];
      CountMonotone(v.schema, plan, plan.children[m - 1], local);
      EstimateBoundsMatches(v, local, global, plan.children[m - 1]);
    }
  }

  lemma {:induction false} OrBound(v: SearchView, local: Slots, global: Slots, parent: Plan, children: seq<Plan>)
    requires Represents(v, local, global) && forall i :: 0 <= i < |children| ==> children[i] < parent
    ensures MatchCount(v.schema, Or(children, 0), local) <= TotalEstimate(v, children)
    decreases parent, 0, |children|
  {
    hide Represents, MatchCount, Estimate;
    if children == [] {
      NothingCounted(v.schema, local);
    } else {
      var n := |children| - 1;
      OrBound(v, local, global, parent, children[..n]);
      EstimateBoundsMatches(v, local, global, children[n]);
      assert children == children[..n] + [children[n]];
      CountOfEither(v.schema, children[..n], children[n], local);
      CountBelowLive(v.schema, Or(children, 0), local);
      LocalBelowGlobal(v, local, global);
    }
  }
}

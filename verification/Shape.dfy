/** The shape of a plan: Boolean clauses as sets, without estimates, token offsets or clause order.
    Two plans of one shape match the same documents with the same scores. */
module Shapes {
  import opened Analysis
  import opened Schemas
  import opened IndexModel
  import opened Bm25
  import opened Plans
  import opened Canonicalization

  datatype Shape =
    | TermShape(field: string, term: string, boost: real)
    | PhraseShape(field: string, tokens: seq<(string, nat)>, boost: real)
    | AndShape(clauses: set<Shape>)
    | OrShape(clauses: set<Shape>)
    | NotShape(operand: Shape)
    | RangeShape(field: string, lower: string, upper: string, includeLower: bool, includeUpper: bool)
    | AllShape

  function ShapeOf(plan: Plan): Shape
    decreases plan
  {
    match plan
    case Term(f, t, boost, _) => TermShape(f, t, boost)
    case Phrase(f, tokens, boost, _) => PhraseShape(f, EraseTokens(tokens), boost)
    case And(children, _) => AndShape(set i | 0 <= i < |children| :: ShapeOf(children[i]))
    case Or(children, _) => OrShape(set i | 0 <= i < |children| :: ShapeOf(children[i]))
    case Not(operand, _) => NotShape(ShapeOf(operand))
    case Range(f, lower, upper, il, iu, _) => RangeShape(f, lower, upper, il, iu)
    case MatchAll(_) => AllShape
  }

  function ShapesOf(plans: seq<Plan>): set<Shape> {
    set i | 0 <= i < |plans| :: ShapeOf(plans[i])
  }

  /** No Boolean node repeats a clause. */
  ghost predicate Distinct(plan: Plan) {
    match plan
    case And(children, _) => AllApart(children) && forall i :: 0 <= i < |children| ==> Distinct(children[i])
    case Or(children, _) => AllApart(children) && forall i :: 0 <= i < |children| ==> Distinct(children[i])
    case Not(operand, _) => Distinct(operand)
    case _ => true
  }

  ghost predicate AllApart(plans: seq<Plan>) {
    forall i, j :: 0 <= i < j < |plans| ==> ShapeOf(plans[i]) != ShapeOf(plans[j])
  }

  // ---- matching ----

  function TokensFrom(erased: seq<(string, nat)>): seq<Token> {
    seq(|erased|, i requires 0 <= i < |erased| => Token(erased[i].0, erased[i].1, 0, 0))
  }

  ghost predicate MatchesShape(schema: Schema, shape: Shape, d: Document) {
    match shape
    case TermShape(f, t, _) => Frequency(FieldTokens(schema, d, f), t) > 0
    case PhraseShape(f, tokens, _) => PhraseOccurs(FieldTokens(schema, d, f), TokensFrom(tokens))
    case AndShape(clauses) => clauses != {} && forall s :: s in clauses ==> MatchesShape(schema, s, d)
    case OrShape(clauses) => exists s :: s in clauses && MatchesShape(schema, s, d)
    case NotShape(operand) => !MatchesShape(schema, operand, d)
    case RangeShape(f, lower, upper, il, iu) =>
      f in schema && FieldValue(d, f).Some?
        && RangeAccepts(schema[f].kind, FieldValue(d, f).value, lower, upper, il, iu)
    case AllShape => true
  }

  lemma PhraseByTokens(text: seq<Token>, p: seq<Token>, q: seq<Token>)
    requires EraseTokens(p) == EraseTokens(q)
    ensures PhraseOccurs(text, p) <==> PhraseOccurs(text, q)
  {
    TokensAgree(p, q);
    assert forall i :: 0 <= i < |p| ==> Offset(p, i) == Offset(q, i);
    forall base: int ensures PhraseAt(text, p, base) <==> PhraseAt(text, q, base) {
      hide OccursAt, Offset;
    }
  }

  lemma TokensAgree(p: seq<Token>, q: seq<Token>)
    requires EraseTokens(p) == EraseTokens(q)
    ensures |p| == |q| && forall i :: 0 <= i < |p| ==> p[i].term == q[i].term && p[i].position == q[i].position
  {
    assert |EraseTokens(p)| == |p| && |EraseTokens(q)| == |q|;
    forall i | 0 <= i < |p| ensures p[i].term == q[i].term && p[i].position == q[i].position {
      assert EraseTokens(p)[i] == EraseTokens(q)[i];
    }
  }

  lemma EraseOfTokensFrom(p: seq<Token>)
    ensures EraseTokens(TokensFrom(EraseTokens(p))) == EraseTokens(p)
  {
  }

  /** Whether a plan matches depends on its shape only. */
  lemma {:induction false} MatchIsOfShape(schema: Schema, plan: Plan, d: Document)
    ensures Matches(schema, plan, d) <==> MatchesShape(schema, ShapeOf(plan), d)
    decreases plan
  {
    match plan
    case Term(_, _, _, _) =>
    case Phrase(f, tokens, _, _) =>
      EraseOfTokensFrom(tokens);
      PhraseByTokens(FieldTokens(schema, d, f), tokens, TokensFrom(EraseTokens(tokens)));
    case And(children, _) =>
      forall i | 0 <= i < |children|
        ensures Matches(schema, children[i], d) <==> MatchesShape(schema, ShapeOf(children[i]), d)
      {
        MatchIsOfShape(schema, children[i], d);
      }
      AllByShape(schema, children, d);
    case Or(children, _) =>
      forall i | 0 <= i < |children|
        ensures Matches(schema, children[i], d) <==> MatchesShape(schema, ShapeOf(children[i]), d)
      {
        MatchIsOfShape(schema, children[i], d);
      }
      SomeByShape(schema, children, d);
    case Not(operand, _) => MatchIsOfShape(schema, operand, d);
    case Range(_, _, _, _, _, _) =>
    case MatchAll(_) =>
  }

  lemma AllByShape(schema: Schema, children: seq<Plan>, d: Document)
    requires forall i :: 0 <= i < |children| ==>
      (Matches(schema, children[i], d) <==> MatchesShape(schema, ShapeOf(children[i]), d))
    ensures (forall i :: 0 <= i < |children| ==> Matches(schema, children[i], d))
      <==> (forall s :: s in ShapesOf(children) ==> MatchesShape(schema, s, d))
    ensures |children| > 0 <==> ShapesOf(children) != {}
  {
    hide Matches, MatchesShape, ShapeOf;
    if |children| > 0 { assert ShapeOf(children[0]) in ShapesOf(children); }
    if forall s :: s in ShapesOf(children) ==> MatchesShape(schema, s, d) {
      forall i | 0 <= i < |children| ensures Matches(schema, children[i], d) {
        assert ShapeOf(children[i]) in ShapesOf(children);
      }
    }
  }

  lemma SomeByShape(schema: Schema, children: seq<Plan>, d: Document)
    requires forall i :: 0 <= i < |children| ==>
      (Matches(schema, children[i], d) <==> MatchesShape(schema, ShapeOf(children[i]), d))
    ensures (exists i :: 0 <= i < |children| && Matches(schema, children[i], d))
      <==> (exists s :: s in ShapesOf(children) && MatchesShape(schema, s, d))
  {
    hide Matches, MatchesShape, ShapeOf;
    if i :| 0 <= i < |children| && Matches(schema, children[i], d) {
      assert ShapeOf(children[i]) in ShapesOf(children);
    }
  }

  // ---- scoring ----

  function Without(plans: seq<Plan>, j: nat): seq<Plan>
    requires j < |plans|
  {
    plans[..j] + plans[j + 1..]
  }

  lemma {:induction false} SumWithout(c: Corpus, plans: seq<Plan>, j: nat, d: Document)
    requires ValidScorer(c.scorer) && j < |plans|
    ensures ScoreSum(c, plans, d) == ScoreSum(c, Without(plans, j), d) + ScoreOf(c, plans[j], d)
    decreases |plans|
  {
    hide ScoreOf;
    var n := |plans| - 1;
    var rest := Without(plans, j);
    if j == n {
      assert rest == plans[..n];
    } else {
      SumWithout(c, plans[..n], j, d);
      assert rest[..n - 1] == Without(plans[..n], j);
      assert rest[n - 1] == plans[n];
    }
  }

  lemma PhraseScoreByTokens(c: Corpus, d: Document, f: string, p: seq<Token>, q: seq<Token>, boost: real)
    requires ValidScorer(c.scorer) && EraseTokens(p) == EraseTokens(q)
    ensures PhraseScore(c, d, f, p, boost) == PhraseScore(c, d, f, q, boost)
    decreases |p|
  {
    hide TermScore;
    TokensAgree(p, q);
    if p != [] {
      var n := |p| - 1;
      assert EraseTokens(p[..n]) == EraseTokens(p)[..n] && EraseTokens(q[..n]) == EraseTokens(q)[..n];
      PhraseScoreByTokens(c, d, f, p[..n], q[..n], boost);
    }
  }

  /** The score, too, depends on the shape only, provided no clause is repeated. */
  lemma {:induction false} ScoreIsOfShape(c: Corpus, p: Plan, q: Plan, d: Document)
    requires ValidScorer(c.scorer) && ShapeOf(p) == ShapeOf(q) && Distinct(p) && Distinct(q)
    ensures ScoreOf(c, p, d) == ScoreOf(c, q, d)
    decreases p, 1
  {
    MatchIsOfShape(c.schema, p, d);
    MatchIsOfShape(c.schema, q, d);
    hide Matches, TermScore, MatchesShape;
    match p
    case Term(_, _, _, _) =>
    case Phrase(f, tokens, boost, _) => PhraseScoreByTokens(c, d, f, tokens, q.tokens, boost);
    case And(children, _) =>
      assert ShapesOf(children) == ShapesOf(q.children);
      SumIsOfShape(c, p, children, q.children, d);
    case Or(children, _) =>
      assert ShapesOf(children) == ShapesOf(q.children);
      SumIsOfShape(c, p, children, q.children, d);
    case Not(_, _) =>
    case Range(_, _, _, _, _, _) =>
    case MatchAll(_) =>
  }

  lemma {:induction false} SumIsOfShape(c: Corpus, parent: Plan, ps: seq<Plan>, qs: seq<Plan>, d: Document)
    requires ValidScorer(c.scorer) && ShapesOf(ps) == ShapesOf(qs) && AllApart(ps) && AllApart(qs)
    requires forall i :: 0 <= i < |ps| ==> ps[i] < parent && Distinct(ps[i])
    requires forall i :: 0 <= i < |qs| ==> Distinct(qs[i])
    ensures ScoreSum(c, ps, d) == ScoreSum(c, qs, d)
    decreases parent, 0, |ps|
  {
    hide ScoreOf, ShapeOf, Distinct;
    if ps == [] {
      NoShapes(qs);
    } else {
      var n := |ps| - 1;
      assert ShapeOf(ps[n]) in ShapesOf(qs);
      var j :| 0 <= j < |qs| && ShapeOf(qs[j]) == ShapeOf(ps[n]);
      ScoreIsOfShape(c, ps[n], qs[j], d);
      SumWithout(c, qs, j, d);
      WithoutShapes(qs, j);
      WithoutShapes(ps, n);
      assert Without(ps, n) == ps[..n];
      forall i | 0 <= i < |Without(qs, j)| ensures Distinct(Without(qs, j)[i]) {
        assert Without(qs, j)[i] == if i < j then qs[i] else qs[i + 1];
      }
      SumIsOfShape(c, parent, ps[..n], Without(qs, j), d);
    }
  }

  lemma NoShapes(plans: seq<Plan>)
    ensures plans != [] ==> ShapesOf(plans) != {}
  {
    hide ShapeOf;
    if plans != [] { assert ShapeOf(plans[0]) in ShapesOf(plans); }
  }

  lemma WithoutShapes(plans: seq<Plan>, j: nat)
    requires j < |plans| && AllApart(plans)
    ensures AllApart(Without(plans, j))
    ensures ShapesOf(Without(plans, j)) == ShapesOf(plans) - {ShapeOf(plans[j])}
  {
    hide ShapeOf;
    var rest := Without(plans, j);
    assert forall i :: 0 <= i < |rest| ==> rest[i] == if i < j then plans[i] else plans[i + 1];
    forall s | s in ShapesOf(plans) && s != ShapeOf(plans[j]) ensures s in ShapesOf(rest) {
      var i :| 0 <= i < |plans| && ShapeOf(plans[i]) == s;
      assert ShapeOf(rest[if i < j then i else i - 1]) == s;
    }
    forall s | s in ShapesOf(rest) ensures s in ShapesOf(plans) && s != ShapeOf(plans[j]) {
      var i :| 0 <= i < |rest| && ShapeOf(rest[i]) == s;
      assert ShapeOf(plans[if i < j then i else i + 1]) == s;
    }
  }

  /** Plans of one shape give every document the same verdict. */
  lemma VerdictIsOfShape(c: Corpus, p: Plan, q: Plan, d: Document)
    requires ValidScorer(c.scorer) && ShapeOf(p) == ShapeOf(q) && Distinct(p) && Distinct(q)
    ensures Verdict(c, p, d) == Verdict(c, q, d)
  {
    hide Matches, ScoreOf;
    MatchIsOfShape(c.schema, p, d);
    MatchIsOfShape(c.schema, q, d);
    ScoreIsOfShape(c, p, q, d);
  }

  /** Plans that agree on what evaluation reads have one shape. */
  lemma {:induction false} SameIsOneShape(a: Plan, b: Plan)
    requires Same(a, b)
    ensures ShapeOf(a) == ShapeOf(b)
    decreases a
  {
    match a
    case And(children, _) => SameShapes(a, children, b.children);
    case Or(children, _) => SameShapes(a, children, b.children);
    case Not(operand, _) => SameIsOneShape(operand, b.operand);
    case _ =>
  }

  lemma {:induction false} SameShapes(parent: Plan, cs: seq<Plan>, ds: seq<Plan>)
    requires |cs| == |ds| && forall i :: 0 <= i < |cs| ==> cs[i] < parent && Same(cs[i], ds[i])
    ensures ShapesOf(cs) == ShapesOf(ds)
    decreases parent, 0
  {
    hide Same, ShapeOf;
    forall i | 0 <= i < |cs| ensures ShapeOf(cs[i]) == ShapeOf(ds[i]) { SameIsOneShape(cs[i], ds[i]); }
  }
}

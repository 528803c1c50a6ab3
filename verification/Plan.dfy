/** Query plans (include/dse/query/plan.hpp) and their document-at-a-time meaning
    (tests/support/reference_evaluator.cpp): whether a document matches and with what score is
    decided from its own text and from corpus counts, without posting lists. */
module Plans {
  import opened Basics
  import opened Numbers
  import opened Analysis
  import opened Schemas
  import opened IndexModel
  import opened Bm25

  datatype Plan =
    | Term(field: string, term: string, boost: real, estimate: nat)
    | Phrase(field: string, tokens: seq<Token>, boost: real, estimate: nat)
    | And(children: seq<Plan>, estimate: nat)
    | Or(children: seq<Plan>, estimate: nat)
    | Not(operand: Plan, estimate: nat)
    | Range(field: string, lower: string, upper: string, includeLower: bool, includeUpper: bool, estimate: nat)
    | MatchAll(estimate: nat)

  // ---- leaves ----

  /** Number of occurrences of a term. */
  function Frequency(tokens: seq<Token>, t: string): nat {
    if tokens == [] then 0
    else Frequency(tokens[..|tokens| - 1], t) + if tokens[|tokens| - 1].term == t then 1 else 0
  }

  /** Distance of phrase token `i` from the first, in 32-bit arithmetic. */
  function Offset(phrase: seq<Token>, i: nat): nat
    requires i < |phrase|
  {
    (phrase[i].position - phrase[0].position) % 0x1_0000_0000
  }

  predicate OccursAt(tokens: seq<Token>, t: string, position: int) {
    exists k :: 0 <= k < |tokens| && tokens[k].term == t && tokens[k].position == position
  }

  /** The phrase stands in the text with its first token at `base`. */
  predicate PhraseAt(tokens: seq<Token>, phrase: seq<Token>, base: int) {
    forall i :: 0 <= i < |phrase| ==> OccursAt(tokens, phrase[i].term, base + Offset(phrase, i))
  }

  predicate PhraseOccurs(tokens: seq<Token>, phrase: seq<Token>) {
    |phrase| > 0 && exists k :: 0 <= k < |tokens| && PhraseAt(tokens, phrase, tokens[k].position)
  }

  /** The indexed field, or else the stored metadata. */
  function FieldValue(d: Document, f: string): Option<string> {
    if f in d.fields then Some(d.fields[f])
    else if f in d.metadata then Some(d.metadata[f])
    else None
  }

  function BoundValue(bound: string): int {
    match FromCharsInt64(bound)
    case Some((v, _)) => v
    case None => 0
  }

  predicate RangeAccepts(kind: FieldType, value: string, lower: string, upper: string,
                         includeLower: bool, includeUpper: bool)
  {
    if kind.Int64Field? then
      match FromCharsInt64(value)
      case None => false
      case Some((actual, _)) =>
        && (lower == "*" || (if includeLower then actual >= BoundValue(lower) else actual > BoundValue(lower)))
        && (upper == "*" || (if includeUpper then actual <= BoundValue(upper) else actual < BoundValue(upper)))
    else
      && (lower == "*" || Less(lower, value) || (includeLower && lower == value))
      && (upper == "*" || Less(value, upper) || (includeUpper && upper == value))
  }

  // ---- meaning ----

  predicate Matches(schema: Schema, plan: Plan, d: Document)
    decreases plan
  {
    match plan
    case Term(f, t, _, _) => Frequency(FieldTokens(schema, d, f), t) > 0
    case Phrase(f, phrase, _, _) => PhraseOccurs(FieldTokens(schema, d, f), phrase)
    case And(children, _) => |children| > 0 && forall i :: 0 <= i < |children| ==> Matches(schema, children[i], d)
    case Or(children, _) => exists i :: 0 <= i < |children| && Matches(schema, children[i], d)
    case Not(operand, _) => !Matches(schema, operand, d)
    case Range(f, lower, upper, includeLower, includeUpper, _) =>
      && f in schema && FieldValue(d, f).Some?
      && RangeAccepts(schema[f].kind, FieldValue(d, f).value, lower, upper, includeLower, includeUpper)
    case MatchAll(_) => true
  }

  /** Number of documents whose field contains the term, counted one by one. */
  function DocumentFrequency(schema: Schema, slots: Slots, f: string, t: string): nat {
    if slots == [] then 0
    else
      var n := |slots| - 1;
      DocumentFrequency(schema, slots[..n], f, t) + if Frequency(FieldTokens(schema, slots[n], f), t) > 0 then 1 else 0
  }

  /** The corpus against which documents are scored. */
  datatype Corpus = Corpus(schema: Schema, scorer: Scorer, global: Slots)

  function TermScore(c: Corpus, d: Document, f: string, t: string, boost: real): real
    requires ValidScorer(c.scorer)
  {
    var tokens := FieldTokens(c.schema, d, f);
    var tf := Frequency(tokens, t);
    var count, total := FieldCount(c.schema, c.global, f), FieldTotal(c.schema, c.global, f);
    var df := DocumentFrequency(c.schema, c.global, f, t);
    if tf == 0 || count == 0 || df == 0 || total == 0 then 0.0
    else Idf(c.scorer, count, df) * FrequencyWeight(c.scorer, tf, |tokens|, total as real / count as real) * boost
  }

  lemma TermScoreUnfolds(c: Corpus, d: Document, f: string, t: string, boost: real)
    requires ValidScorer(c.scorer)
    ensures var tokens := FieldTokens(c.schema, d, f);
      var count, total := FieldCount(c.schema, c.global, f), FieldTotal(c.schema, c.global, f);
      var df := DocumentFrequency(c.schema, c.global, f, t);
      Frequency(tokens, t) > 0 && count > 0 && total > 0 && df > 0 ==>
        TermScore(c, d, f, t, boost) ==
        Idf(c.scorer, count, df)
        * FrequencyWeight(c.scorer, Frequency(tokens, t), |tokens|, total as real / count as real) * boost
  {
    hide FieldTokens, Frequency, FieldCount, FieldTotal, DocumentFrequency, Idf, FrequencyWeight;
  }

  function PhraseScore(c: Corpus, d: Document, f: string, phrase: seq<Token>, boost: real): real
    requires ValidScorer(c.scorer)
  {
    if phrase == [] then 0.0
    else
      var n := |phrase| - 1;
      PhraseScore(c, d, f, phrase[..n], boost) + TermScore(c, d, f, phrase[n].term, boost)
  }

  function ScoreOf(c: Corpus, plan: Plan, d: Document): real
    requires ValidScorer(c.scorer)
    decreases plan, 1
  {
    match plan
    case Term(f, t, boost, _) => TermScore(c, d, f, t, boost)
    case Phrase(f, phrase, boost, _) => if Matches(c.schema, plan, d) then PhraseScore(c, d, f, phrase, boost) else 0.0
    case And(children, _) => if Matches(c.schema, plan, d) then ScoreSum(c, children, d) else 0.0
    case Or(children, _) => ScoreSum(c, children, d)
    case Not(_, _) => 0.0
    case Range(_, _, _, _, _, _) => 0.0
    case MatchAll(_) => 0.0
  }

  function ScoreSum(c: Corpus, children: seq<Plan>, d: Document): real
    requires ValidScorer(c.scorer)
    decreases children, 0
  {
    if children == [] then 0.0
    else ScoreSum(c, children[..|children| - 1], d) + ScoreOf(c, children[|children| - 1], d)
  }

  /** A live matching document's score. */
  function Verdict(c: Corpus, plan: Plan, d: Document): Option<real>
    requires ValidScorer(c.scorer)
  {
    if !d.deleted && Matches(c.schema, plan, d) then Some(ScoreOf(c, plan, d)) else None
  }

  /** What the planner guarantees of a plan and execution relies on. */
  predicate Executable(schema: Schema, plan: Plan) {
    match plan
    case Term(_, _, boost, _) => boost >= 0.0
    case Phrase(_, _, boost, _) => boost >= 0.0
    case And(children, _) => forall i :: 0 <= i < |children| ==> Executable(schema, children[i])
    case Or(children, _) => forall i :: 0 <= i < |children| ==> Executable(schema, children[i])
    case Not(operand, _) => Executable(schema, operand)
    case Range(f, _, _, _, _, _) => f in schema
    case MatchAll(_) => true
  }

  /** A document that does not match scores zero. */
  lemma {:induction false} UnmatchedScoresZero(c: Corpus, plan: Plan, d: Document)
    requires ValidScorer(c.scorer) && !Matches(c.schema, plan, d)
    ensures ScoreOf(c, plan, d) == 0.0
    decreases plan, 1
  {
    if plan.Or? { UnmatchedSumZero(c, plan, plan.children, d); }
  }

  lemma {:induction false} UnmatchedSumZero(c: Corpus, parent: Plan, children: seq<Plan>, d: Document)
    requires ValidScorer(c.scorer)
    requires forall i :: 0 <= i < |children| ==> children[i] < parent && !Matches(c.schema, children[i], d)
    ensures ScoreSum(c, children, d) == 0.0
    decreases parent, 0, |children|
  {
    if children != [] {
      UnmatchedSumZero(c, parent, children[..|children| - 1], d);
      UnmatchedScoresZero(c, children[|children| - 1], d);
    }
  }

  /** A range whose lower bound lies above its upper bound is planned like any other and matches nothing. */
  lemma ReversedRangeMatchesNothing(schema: Schema, plan: Plan, d: Document)
    requires plan.Range? && plan.field in schema && plan.lower != "*" && plan.upper != "*"
    requires if schema[plan.field].kind.Int64Field? then BoundValue(plan.lower) > BoundValue(plan.upper)
      else Less(plan.upper, plan.lower)
    ensures !Matches(schema, plan, d)
  {
    hide Less, BoundValue, FromCharsInt64;
    if Matches(schema, plan, d) && !schema[plan.field].kind.Int64Field? {
      var value := FieldValue(d, plan.field).value;
      if value != plan.lower { LessTransitive(plan.upper, plan.lower, value); }
      LessAsymmetric(plan.upper, value);
    }
  }
}

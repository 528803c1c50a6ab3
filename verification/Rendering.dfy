/** Writing query trees and reading them back (docs/query_language.md describes the syntax): every text
    that is proper syntax parses to the tree it means and nothing else parses, and every tree can be
    written, fully parenthesised or with parentheses only where precedence needs them. */
module Rendering {
  import opened Basics
  import opened Queries
  import opened Lexing
  import opened Parsing
  import opened Grammar
  import opened Spelling

  // ---- texts ----

  /** The text is a way to write `q`, within the limits. */
  ghost predicate IsTextOf(numbers: Numbers, limits: QueryLimits, input: string, s: Syntax, q: Query) {
    && Spells(input, Yield(s)) && Proper(numbers, s) && Tree(numbers, s) == q
    && Fits(limits, Yield(s)) && |Yield(s)| <= limits.lexemes && Nesting(s) <= limits.nestingDepth
  }

  lemma TextParses(numbers: Numbers, limits: QueryLimits, input: string, s: Syntax, q: Query)
    requires LimitsValid(limits) && |input| <= limits.queryBytes && IsTextOf(numbers, limits, input, s, q)
    ensures ParsedText(numbers, limits, input) == Ok(q)
  {
    hide Spells, Proper, Yield, Tree, Nesting, ParsedQuery, LexFrom, Fits;
    SpelledLexes(limits, |input|, input, 0, Yield(s));
    var tokens := Lexed(limits, input).value;
    LexedEnds(limits, |input|, input, 0);
    Grammar.WrittenParses(numbers, limits.nestingDepth, tokens, s, q);
  }

  lemma {:induction false} LexedIsWell(limits: QueryLimits, total: nat, s: string, count: nat)
    requires |s| <= total && LexFrom(limits, total, s, count).Ok?
    ensures WellLexed(LexFrom(limits, total, s, count).value)
    decreases |s|
  {
    hide NextLexeme, Admitted, IsWord;
    if s != "" {
      if IsSpace(s[0]) {
        LexedIsWell(limits, total, s[1..], count);
      } else {
        LexemeIsWell(total, s);
        LexedIsWell(limits, total, NextLexeme(total, s).value.1, count + 1);
      }
    }
  }

  lemma LexemeIsWell(total: nat, s: string)
    requires s != "" && |s| <= total && !IsSpace(s[0]) && NextLexeme(total, s).Ok?
    ensures var token := NextLexeme(total, s).value.0;
      (token.kind.Word? ==> IsWord(token.text)) && (token.kind.Star? ==> token.text == "*")
  {
    hide Unquote;
    if Symbol(s[0]).None? && s[0] != '"' { assert s[..WordLength(s)] != "" by { WordIsNotEmpty(s); } }
  }

  /** Operators and brackets are told by their kinds, so one spelling of the lexemes is as good as another. */
  lemma {:induction false} SpellsAlike(s: string, a: seq<Piece>, b: seq<Piece>)
    requires Spells(s, a) && |a| == |b|
    requires forall i :: 0 <= i < |a| ==> a[i] == b[i] || WrittenAlike(a[i], b[i])
    ensures Spells(s, b)
    decreases |s|
  {
    hide WrittenAlike, StartsWith;
    if s != "" {
      if IsSpace(s[0]) {
        SpellsAlike(s[1..], a, b);
      } else {
        var n: nat :| 0 < n <= |s| && StartsWith(s, n, a[0]) && Spells(s[n..], a[1..]);
        SpellsAlike(s[n..], a[1..], b[1..]);
        if a[0] != b[0] { StartsAlike(s, n, a[0], b[0]); }
      }
    }
  }

  /** Whatever writes `p` writes `r`. */
  ghost predicate WrittenAlike(p: Piece, r: Piece) {
    p.kind == r.kind && forall w: string :: Writes(w, p) ==> Writes(w, r)
  }

  lemma StartsAlike(s: string, n: nat, p: Piece, r: Piece)
    requires StartsWith(s, n, p) && WrittenAlike(p, r)
    ensures StartsWith(s, n, r)
  {
    hide Writes;
  }

  /** The lexemes of a text that the parser accepts, as its syntax has them. */
  lemma TokenIsPiece(token: Lexeme, w: string, p: Piece)
    requires Writes(w, PieceOf(token)) && Reads(token, p) && Usual(p)
    ensures PieceOf(token) == p || WrittenAlike(PieceOf(token), p)
    ensures |token.text| == |p.text|
  {
    if IsOperator(p.kind) {
      SameLength(w, token.text);
      OperatorText(w, p);
      forall v: string | Writes(v, PieceOf(token)) ensures Writes(v, p) { OperatorText(v, p); }
    } else if !p.kind.Word? && !p.kind.Phrase? {
      SymbolText(w[0], p);
      forall v: string | Writes(v, PieceOf(token)) ensures Writes(v, p) { SymbolText(v[0], p); }
    }
  }

  /** Operators and brackets with their usual text. */
  predicate Usual(p: Piece) {
    match p.kind
    case AndOperator => p.text == "AND"
    case OrOperator => p.text == "OR"
    case NotOperator => p.text == "NOT"
    case ToOperator => p.text == "TO"
    case LeftParenthesis => p.text == "("
    case RightParenthesis => p.text == ")"
    case Colon => p.text == ":"
    case Caret => p.text == "^"
    case LeftBracket => p.text == "["
    case RightBracket => p.text == "]"
    case Star => p.text == "*"
    case End => false
    case _ => true
  }

  lemma OperatorText(w: string, p: Piece)
    requires IsOperator(p.kind) && ClassifyWord(w) == p.kind && Usual(p)
    ensures EqualIgnoringCase(w, p.text)
  {
  }

  lemma SymbolText(c: char, p: Piece)
    requires Symbol(c) == Some(p.kind) && Usual(p)
    ensures [c] == p.text
  {
  }

  ghost predicate AllUsual(pieces: seq<Piece>) {
    forall i :: 0 <= i < |pieces| ==> Usual(pieces[i])
  }

  lemma UsualTogether(a: seq<Piece>, b: seq<Piece>)
    requires AllUsual(a) && AllUsual(b)
    ensures AllUsual(a + b)
  {
    hide Usual;
  }

  lemma UsualMarks()
    ensures AllUsual([LEFT]) && AllUsual([RIGHT]) && AllUsual([NOT]) && AllUsual([AND]) && AllUsual([OR])
    ensures AllUsual([])
    ensures forall f: string :: AllUsual([Piece(Word, f), COLON])
    ensures forall w: string :: AllUsual([Piece(Caret, "^"), Piece(Word, w)])
  {
  }

  lemma {:induction false} YieldIsUsual(s: Syntax)
    ensures AllUsual(Yield(s))
    decreases s, 1
  {
    UsualMarks();
    match s
    case WordLeaf(_) =>
    case PhraseLeaf(_) =>
    case StarLeaf =>
    case RangeLeaf(_, _, _) =>
    case _ => CompositeIsUsual(s);
  }

  lemma {:induction false} CompositeIsUsual(s: Syntax)
    requires !(s.WordLeaf? || s.PhraseLeaf? || s.StarLeaf? || s.RangeLeaf?)
    ensures AllUsual(Yield(s))
    decreases s, 0
  {
    UsualMarks();
    hide AllUsual;
    match s
    case Group(inner) =>
      YieldIsUsual(inner);
      UsualTogether(Yield(inner), [RIGHT]);
      UsualTogether([LEFT], Yield(inner) + [RIGHT]);
    case Fielded(f, operand) =>
      YieldIsUsual(operand);
      UsualTogether([Piece(Word, f), COLON], Yield(operand));
    case Boosted(operand, w) =>
      YieldIsUsual(operand);
      UsualTogether(Yield(operand), [Piece(Caret, "^"), Piece(Word, w)]);
    case Negated(operand) =>
      YieldIsUsual(operand);
      UsualTogether([NOT], Yield(operand));
    case Conjoined(l, r) =>
      YieldIsUsual(l);
      YieldIsUsual(r);
      UsualTogether([AND], Yield(r));
      UsualTogether(Yield(l), [AND] + Yield(r));
    case Disjoined(l, r, written) =>
      YieldIsUsual(l);
      YieldIsUsual(r);
      UsualTogether(if written then [OR] else [], Yield(r));
      UsualTogether(Yield(l), (if written then [OR] else []) + Yield(r));
  }

  lemma {:induction false} SpelledIsWritten(s: string, pieces: seq<Piece>, i: nat) returns (w: string)
    requires Spells(s, pieces) && i < |pieces|
    ensures Writes(w, pieces[i])
    decreases |s|
  {
    hide Writes;
    if IsSpace(s[0]) {
      w := SpelledIsWritten(s[1..], pieces, i);
    } else {
      var n: nat :| 0 < n <= |s| && StartsWith(s, n, pieces[0]) && Spells(s[n..], pieces[1..]);
      if i == 0 { w := s[..n]; } else { w := SpelledIsWritten(s[n..], pieces[1..], i - 1); }
    }
  }

  /** The lexemes up to the end mark, as the syntax that was parsed from them has them. */
  lemma SyntaxSpells(limits: QueryLimits, input: string, tokens: seq<Lexeme>, pieces: seq<Piece>)
    requires tokens != [] && Spells(input, PiecesOf(tokens[..|tokens| - 1]))
    requires Fits(limits, PiecesOf(tokens[..|tokens| - 1]))
    requires Stands(tokens, 0, pieces) && |pieces| < |tokens| && tokens[|pieces|].kind.End?
    requires AllUsual(pieces)
    ensures |pieces| == |tokens| - 1 && Spells(input, pieces) && Fits(limits, pieces)
  {
    hide Spells, Writes, WrittenAlike, Reads, Usual;
    var lexed := PiecesOf(tokens[..|tokens| - 1]);
    if |pieces| < |lexed| {
      var w := SpelledIsWritten(input, lexed, |pieces|);
      NothingWritesEnd(w, lexed[|pieces|]);
    }
    forall i | 0 <= i < |pieces|
      ensures (lexed[i] == pieces[i] || WrittenAlike(lexed[i], pieces[i])) && |lexed[i].text| == |pieces[i].text|
    {
      var w := SpelledIsWritten(input, lexed, i);
      assert Reads(tokens[0 + i], pieces[i]);
      TokenIsPiece(tokens[i], w, pieces[i]);
    }
    SpellsAlike(input, lexed, pieces);
  }

  lemma NothingWritesEnd(w: string, p: Piece)
    requires Writes(w, p)
    ensures !p.kind.End?
  {
  }

  /** What the parser accepts is a text of the tree it returns. */
  lemma ParsedIsText(numbers: Numbers, limits: QueryLimits, input: string, q: Query) returns (s: Syntax)
    requires ParsedText(numbers, limits, input) == Ok(q)
    ensures LimitsValid(limits) && |input| <= limits.queryBytes && IsTextOf(numbers, limits, input, s, q)
  {
    hide POr, LexFrom, Spells, Proper, Tree, Nesting, Fits, Stands, AllUsual, Yield;
    var tokens := Lexed(limits, input).value;
    LexedIsWell(limits, |input|, input, 0);
    LexedIsSpelled(limits, |input|, input, 0);
    s := FromOr(numbers, limits.nestingDepth, tokens, 0, 0);
    YieldIsUsual(s);
    SyntaxSpells(limits, input, tokens, Yield(s));
  }

  /** The language: a text parses to a tree if and only if it spells, within the limits, proper syntax for
      that tree, whatever its white space, the case of its operators and its parentheses. */
  lemma AcceptsExactly(numbers: Numbers, limits: QueryLimits, input: string, q: Query)
    ensures ParsedText(numbers, limits, input) == Ok(q) <==>
      && LimitsValid(limits) && |input| <= limits.queryBytes
      && exists s :: IsTextOf(numbers, limits, input, s, q)
  {
    hide ParsedText, IsTextOf;
    if ParsedText(numbers, limits, input) == Ok(q) { var s := ParsedIsText(numbers, limits, input, q); }
    if LimitsValid(limits) && |input| <= limits.queryBytes {
      if s :| IsTextOf(numbers, limits, input, s, q) { TextParses(numbers, limits, input, s, q); }
    }
  }

  // ---- writing trees ----

  /** Numbers are read by `numbers` and written by `show`. */
  datatype Notation = Notation(numbers: Numbers, show: real -> string)

  predicate Renderable(n: Notation, q: Query) {
    match q
    case TermQuery(t) => IsWord(t)
    case PhraseQuery(text) => !Blank(text)
    case AndQuery(l, r) => Renderable(n, l) && Renderable(n, r)
    case OrQuery(l, r) => Renderable(n, l) && Renderable(n, r)
    case NotQuery(operand) => Renderable(n, operand)
    case FieldQuery(f, inner) => IsWord(f) && Renderable(n, inner)
    case RangeFilter(f, lower, upper, il, iu) => IsWord(f) && IsRangeBound(lower) && IsRangeBound(upper) && il && iu
    case BoostQuery(inner, b) => Renderable(n, inner) && b > 0.0 && IsWord(n.show(b)) && n.numbers(n.show(b)) == Some(b)
    case MatchAllQuery => true
  }

  /** How tightly the outermost operation binds. */
  function Level(q: Query): nat {
    match q
    case OrQuery(_, _) => 0
    case AndQuery(_, _) => 1
    case NotQuery(_) => 2
    case BoostQuery(_, _) => 3
    case _ => 4
  }

  /** The tree as an operand: in parentheses always, or else only where it binds less tightly than needed. */
  function Placed(n: Notation, q: Query, level: nat, always: bool): Syntax
    decreases q, 1
  {
    if !always && Level(q) >= level then SyntaxOf(n, q, always) else Group(SyntaxOf(n, q, always))
  }

  /** Behind a field name. */
  function FieldOperand(n: Notation, q: Query, always: bool): Syntax
    decreases q, 2
  {
    if !always && q.NotQuery? then Negated(FieldOperand(n, q.operand, always)) else Placed(n, q, 4, always)
  }

  /** The tree written out, fully parenthesised or with as few parentheses as precedence allows; then an OR
      is left out too where what follows begins no negation. */
  function SyntaxOf(n: Notation, q: Query, always: bool): Syntax
    decreases q, 0
  {
    match q
    case TermQuery(t) => WordLeaf(t)
    case PhraseQuery(text) => PhraseLeaf(text)
    case AndQuery(l, r) => Conjoined(Placed(n, l, 1, always), Placed(n, r, 2, always))
    case OrQuery(l, r) =>
      var right := Placed(n, r, 1, always);
      Disjoined(Placed(n, l, 0, always), right, always || BeginsNot(right))
    case NotQuery(operand) => Negated(Placed(n, operand, 2, always))
    case FieldQuery(f, inner) => Fielded(f, FieldOperand(n, inner, always))
    case RangeFilter(f, lower, upper, _, _) => RangeLeaf(f, lower, upper)
    case BoostQuery(inner, b) => Boosted(Placed(n, inner, 3, always), n.show(b))
    case MatchAllQuery => StarLeaf
  }

  /** The outermost syntax binds as tightly as the tree. */
  ghost predicate BindsAt(s: Syntax, level: nat) {
    && (level >= 1 ==> IsConjunct(s)) && (level >= 2 ==> IsUnary(s)) && (level >= 3 ==> IsPostfix(s))
    && (level >= 4 ==> IsPrimary(s))
  }

  /** What is written is proper syntax for the tree. */
  ghost predicate Says(n: Notation, s: Syntax, q: Query) {
    Proper(n.numbers, s) && Tree(n.numbers, s) == q
  }

  lemma {:induction false} SyntaxSays(n: Notation, q: Query, always: bool)
    requires Renderable(n, q)
    ensures Says(n, SyntaxOf(n, q, always), q) && BindsAt(SyntaxOf(n, q, always), Level(q))
    decreases q, 0
  {
    hide IsWord, IsRangeBound, Blank, Placed, FieldOperand, Proper, Tree, BeginsNot;
    match q
    case AndQuery(l, r) =>
      PlacedSays(n, l, 1, always);
      PlacedSays(n, r, 2, always);
      ConjoinedIs(n.numbers, Placed(n, l, 1, always), Placed(n, r, 2, always));
    case OrQuery(l, r) =>
      PlacedSays(n, l, 0, always);
      PlacedSays(n, r, 1, always);
      var right := Placed(n, r, 1, always);
      DisjoinedIs(n.numbers, Placed(n, l, 0, always), right, always || BeginsNot(right));
    case NotQuery(operand) =>
      PlacedSays(n, operand, 2, always);
      NegatedIs(n.numbers, Placed(n, operand, 2, always));
    case FieldQuery(f, inner) =>
      OperandSays(n, inner, always);
      FieldedIs(n.numbers, f, FieldOperand(n, inner, always));
    case BoostQuery(inner, b) =>
      PlacedSays(n, inner, 3, always);
      BoostedIs(n.numbers, Placed(n, inner, 3, always), n.show(b));
    case _ => LeafSays(n, q, always);
  }

  lemma LeafSays(n: Notation, q: Query, always: bool)
    requires Renderable(n, q) && (q.TermQuery? || q.PhraseQuery? || q.RangeFilter? || q.MatchAllQuery?)
    ensures Says(n, SyntaxOf(n, q, always), q) && BindsAt(SyntaxOf(n, q, always), Level(q))
  {
    hide IsWord, IsRangeBound, Blank;
  }

  lemma {:induction false} PlacedSays(n: Notation, q: Query, level: nat, always: bool)
    requires Renderable(n, q) && level <= 4
    ensures Says(n, Placed(n, q, level, always), q) && BindsAt(Placed(n, q, level, always), level)
    decreases q, 1
  {
    hide Renderable;
    SyntaxSays(n, q, always);
  }

  lemma {:induction false} OperandSays(n: Notation, q: Query, always: bool)
    requires Renderable(n, q)
    ensures Says(n, FieldOperand(n, q, always), q) && IsOperand(FieldOperand(n, q, always))
    decreases q, 2
  {
    hide Placed, IsWord, IsRangeBound, Blank;
    if !always && q.NotQuery? {
      OperandSays(n, q.operand, always);
      OperandIsUnary(FieldOperand(n, q.operand, always));
    } else {
      PlacedSays(n, q, 4, always);
    }
  }

  /** The text of a tree. */
  function Render(n: Notation, q: Query, always: bool): string {
    Spell(Yield(SyntaxOf(n, q, always)))
  }

  /** The words among the lexemes are words. */
  ghost predicate WordsAreWords(pieces: seq<Piece>) {
    forall i :: 0 <= i < |pieces| ==> pieces[i].kind.Word? ==> IsWord(pieces[i].text)
  }

  lemma WordsTogether(a: seq<Piece>, b: seq<Piece>)
    requires WordsAreWords(a) && WordsAreWords(b)
    ensures WordsAreWords(a + b)
  {
    hide IsWord;
  }

  lemma WordMarks()
    ensures WordsAreWords([LEFT]) && WordsAreWords([RIGHT]) && WordsAreWords([NOT]) && WordsAreWords([AND])
    ensures WordsAreWords([OR]) && WordsAreWords([])
    ensures forall f: string :: IsWord(f) ==> WordsAreWords([Piece(Word, f), COLON])
    ensures forall w: string :: IsWord(w) ==> WordsAreWords([Piece(Caret, "^"), Piece(Word, w)])
  {
    hide IsWord;
  }

  lemma {:induction false} ProperHasWords(numbers: Numbers, s: Syntax)
    requires Proper(numbers, s)
    ensures WordsAreWords(Yield(s))
    decreases s, 1
  {
    hide IsWord;
    match s
    case WordLeaf(_) =>
    case PhraseLeaf(_) =>
    case StarLeaf =>
    case RangeLeaf(_, _, _) =>
    case _ => CompositeHasWords(numbers, s);
  }

  lemma {:induction false} CompositeHasWords(numbers: Numbers, s: Syntax)
    requires Proper(numbers, s) && !(s.WordLeaf? || s.PhraseLeaf? || s.StarLeaf? || s.RangeLeaf?)
    ensures WordsAreWords(Yield(s))
    decreases s, 0
  {
    WordMarks();
    hide WordsAreWords, IsWord;
    match s
    case Group(inner) =>
      ProperHasWords(numbers, inner);
      WordsTogether(Yield(inner), [RIGHT]);
      WordsTogether([LEFT], Yield(inner) + [RIGHT]);
    case Fielded(f, operand) =>
      ProperHasWords(numbers, operand);
      WordsTogether([Piece(Word, f), COLON], Yield(operand));
    case Boosted(operand, w) =>
      ProperHasWords(numbers, operand);
      WordsTogether(Yield(operand), [Piece(Caret, "^"), Piece(Word, w)]);
    case Negated(operand) =>
      ProperHasWords(numbers, operand);
      WordsTogether([NOT], Yield(operand));
    case Conjoined(l, r) =>
      ProperHasWords(numbers, l);
      ProperHasWords(numbers, r);
      WordsTogether([AND], Yield(r));
      WordsTogether(Yield(l), [AND] + Yield(r));
    case Disjoined(l, r, written) =>
      ProperHasWords(numbers, l);
      ProperHasWords(numbers, r);
      WordsTogether(if written then [OR] else [], Yield(r));
      WordsTogether(Yield(l), (if written then [OR] else []) + Yield(r));
  }

  lemma ProperIsWritable(numbers: Numbers, s: Syntax)
    requires Proper(numbers, s)
    ensures Writable(Yield(s))
  {
    hide Yield, Proper, Usual, IsWord, Writes;
    YieldIsUsual(s);
    ProperHasWords(numbers, s);
    forall i | 0 <= i < |Yield(s)| ensures Writes(Written(Yield(s)[i]), Yield(s)[i]) { UsualIsWritable(Yield(s)[i]); }
  }

  lemma UsualIsWritable(p: Piece)
    ensures Usual(p) && (p.kind.Word? ==> IsWord(p.text)) ==> Writes(Written(p), p)
  {
    Operators();
    EqualToItself(p.text);
  }

  lemma Operators()
    ensures ClassifyWord("AND") == AndOperator && ClassifyWord("OR") == OrOperator
    ensures ClassifyWord("NOT") == NotOperator && ClassifyWord("TO") == ToOperator
  {
    assert EqualIgnoringCase("AND", "AND") && EqualIgnoringCase("OR", "OR");
    assert EqualIgnoringCase("NOT", "NOT") && EqualIgnoringCase("TO", "TO");
    assert "NOT"[0] == 'N' && "AND"[0] == 'A' && "TO"[0] == 'T' && "OR"[0] == 'O';
  }

  /** For every tree that can be written within the limits, fully parenthesised or with as few parentheses
      as precedence allows, lexing and parsing its text gives it back. */
  lemma RenderParses(n: Notation, limits: QueryLimits, q: Query, always: bool)
    requires Renderable(n, q) && LimitsValid(limits) && |Render(n, q, always)| <= limits.queryBytes
    requires var s := SyntaxOf(n, q, always);
      Fits(limits, Yield(s)) && |Yield(s)| <= limits.lexemes && Nesting(s) <= limits.nestingDepth
    ensures ParsedText(n.numbers, limits, Render(n, q, always)) == Ok(q)
  {
    hide Renderable, SyntaxOf, Yield, Fits, Nesting, Proper, Tree, ParsedText, Spells, Writes;
    var s := SyntaxOf(n, q, always);
    SyntaxSays(n, q, always);
    ProperIsWritable(n.numbers, s);
    SpellSpells(Yield(s));
    TextParses(n.numbers, limits, Render(n, q, always), s, q);
  }

  /** Depth of operations. */
  function Height(q: Query): nat {
    match q
    case AndQuery(l, r) => 1 + if Height(l) > Height(r) then Height(l) else Height(r)
    case OrQuery(l, r) => 1 + if Height(l) > Height(r) then Height(l) else Height(r)
    case NotQuery(operand) => 1 + Height(operand)
    case FieldQuery(_, inner) => 1 + Height(inner)
    case BoostQuery(inner, _) => 1 + Height(inner)
    case _ => 0
  }

  /** Parentheses nest no deeper than operations. */
  lemma {:induction false} NestingBelowHeight(n: Notation, q: Query, always: bool)
    ensures Nesting(SyntaxOf(n, q, always)) <= Height(q)
    decreases q, 0
  {
    match q
    case AndQuery(l, r) =>
      NestingBelowHeight(n, l, always);
      NestingBelowHeight(n, r, always);
    case OrQuery(l, r) =>
      NestingBelowHeight(n, l, always);
      NestingBelowHeight(n, r, always);
    case NotQuery(operand) => NestingBelowHeight(n, operand, always);
    case FieldQuery(_, inner) => OperandBelowHeight(n, inner, always);
    case BoostQuery(inner, _) => NestingBelowHeight(n, inner, always);
    case _ =>
  }

  lemma {:induction false} OperandBelowHeight(n: Notation, q: Query, always: bool)
    ensures Nesting(FieldOperand(n, q, always)) <= 1 + Height(q)
    decreases q, 1
  {
    if !always && q.NotQuery? { OperandBelowHeight(n, q.operand, always); } else { NestingBelowHeight(n, q, always); }
  }

  // ---- precedence, on texts ----

  /** One spelling of the lexemes of `s`, operators in any case. */
  ghost predicate SpellsSyntax(pieces: seq<Piece>, s: Syntax) {
    && Writable(pieces) && |pieces| == |Yield(s)|
    && forall i :: 0 <= i < |pieces| ==> Reads(Lexeme(pieces[i].kind, pieces[i].text, 0), Yield(s)[i])
  }

  lemma SpellingParses(numbers: Numbers, limits: QueryLimits, pieces: seq<Piece>, s: Syntax)
    requires SpellsSyntax(pieces, s) && Proper(numbers, s) && LimitsValid(limits)
    requires |Spell(pieces)| <= limits.queryBytes && |pieces| <= limits.lexemes && Nesting(s) <= limits.nestingDepth
    requires Fits(limits, pieces)
    ensures ParsedText(numbers, limits, Spell(pieces)) == Ok(Tree(numbers, s))
  {
    hide Spells, Writes, WrittenAlike, Usual, Yield, Proper, Tree, Nesting, ParsedText, Spell, Written;
    SpellSpells(pieces);
    YieldIsUsual(s);
    forall i | 0 <= i < |pieces|
      ensures (pieces[i] == Yield(s)[i] || WrittenAlike(pieces[i], Yield(s)[i]))
      ensures |pieces[i].text| == |Yield(s)[i].text|
    {
      TokenIsPiece(Lexeme(pieces[i].kind, pieces[i].text, 0), Written(pieces[i]), Yield(s)[i]);
    }
    SpellsAlike(Spell(pieces), pieces, Yield(s));
    TextParses(numbers, limits, Spell(pieces), s, Tree(numbers, s));
  }

  /** Room for five lexemes, none longer than the three words and operators. */
  predicate Roomy(limits: QueryLimits, a: string, b: string, c: string) {
    && LimitsValid(limits) && |a| + |b| + |c| + 10 <= limits.queryBytes && 5 <= limits.lexemes
    && |a| <= limits.lexemeBytes && |b| <= limits.lexemeBytes && |c| <= limits.lexemeBytes && 3 <= limits.lexemeBytes
  }

  function Named(w: string): Piece { Piece(Word, w) }

  lemma SpellStep(pieces: seq<Piece>)
    requires |pieces| >= 2
    ensures Spell(pieces) == Written(pieces[0]) + (Gap(pieces[0], pieces[1]) + Spell(pieces[1..]))
  {
  }

  lemma SpellTwo(p: Piece, q: Piece)
    ensures Spell([p, q]) == Written(p) + (Gap(p, q) + Written(q))
  {
    assert [p, q][1..] == [q];
  }

  lemma SpellFour(p: Piece, q: Piece, r: Piece, t: Piece)
    ensures Spell([p, q, r, t])
      == Written(p) + (Gap(p, q) + (Written(q) + (Gap(q, r) + (Written(r) + (Gap(r, t) + Written(t))))))
  {
    hide Spell, Written, Gap;
    SpellStep([p, q, r, t]);
    assert [p, q, r, t][1..] == [q, r, t];
    SpellStep([q, r, t]);
    assert [q, r, t][1..] == [r, t];
    SpellTwo(r, t);
  }

  lemma SpellFive(p: Piece, q: Piece, r: Piece, t: Piece, u: Piece)
    ensures Spell([p, q, r, t, u])
      == Written(p) + (Gap(p, q) + (Written(q) + (Gap(q, r) + (Written(r) + (Gap(r, t) + (Written(t) + (Gap(t, u)
         + Written(u))))))))
  {
    hide Spell, Written, Gap;
    SpellStep([p, q, r, t, u]);
    assert [p, q, r, t, u][1..] == [q, r, t, u];
    SpellFour(q, r, t, u);
  }

  /** What two words next to each other mean, for all words: either of them. */
  lemma AdjacentWords(numbers: Numbers, limits: QueryLimits, a: string, b: string)
    requires IsWord(a) && IsWord(b) && Roomy(limits, a, b, "")
    ensures ParsedText(numbers, limits, a + (" " + b)) == Ok(OrQuery(TermQuery(a), TermQuery(b)))
  {
    LeafIs(numbers, a);
    LeafIs(numbers, b);
    DisjoinedIs(numbers, WordLeaf(a), WordLeaf(b), false);
    hide IsWord, ParsedText, Yield, Proper, Tree, Nesting, Spell;
    var s, pieces := Disjoined(WordLeaf(a), WordLeaf(b), false), [Named(a), Named(b)];
    assert Yield(s) == pieces;
    SpellTwo(Named(a), Named(b));
    SpellingParses(numbers, limits, pieces, s);
  }

  lemma OrOfAndSyntax(numbers: Numbers, a: string, b: string, c: string)
    requires IsWord(a) && IsWord(b) && IsWord(c)
    ensures var s := Disjoined(WordLeaf(a), Conjoined(WordLeaf(b), WordLeaf(c)), true);
      && Yield(s) == [Named(a), OR, Named(b), AND, Named(c)] && Proper(numbers, s) && Nesting(s) == 0
      && Tree(numbers, s) == OrQuery(TermQuery(a), AndQuery(TermQuery(b), TermQuery(c)))
  {
    LeafIs(numbers, a);
    LeafIs(numbers, b);
    LeafIs(numbers, c);
    ConjoinedIs(numbers, WordLeaf(b), WordLeaf(c));
    DisjoinedIs(numbers, WordLeaf(a), Conjoined(WordLeaf(b), WordLeaf(c)), true);
    hide IsWord, Yield, Proper, Tree, Nesting;
  }

  lemma OrOfAndSpells(a: string, b: string, c: string, or: string, and: string)
    requires IsWord(a) && IsWord(b) && IsWord(c) && EqualIgnoringCase(or, "OR") && EqualIgnoringCase(and, "AND")
    requires Yield(Disjoined(WordLeaf(a), Conjoined(WordLeaf(b), WordLeaf(c)), true))
      == [Named(a), OR, Named(b), AND, Named(c)]
    ensures SpellsSyntax([Named(a), Piece(OrOperator, or), Named(b), Piece(AndOperator, and), Named(c)],
                         Disjoined(WordLeaf(a), Conjoined(WordLeaf(b), WordLeaf(c)), true))
  {
    OperatorsByText(or, and);
    hide IsWord, ClassifyWord, EqualIgnoringCase, Yield;
  }

  /** AND binds more tightly than OR, in any case of the operators. */
  lemma OrOfAnd(numbers: Numbers, limits: QueryLimits, a: string, b: string, c: string, or: string, and: string)
    requires IsWord(a) && IsWord(b) && IsWord(c) && Roomy(limits, a, b, c)
    requires EqualIgnoringCase(or, "OR") && EqualIgnoringCase(and, "AND")
    ensures ParsedText(numbers, limits, a + (" " + (or + (" " + (b + (" " + (and + (" " + c))))))))
      == Ok(OrQuery(TermQuery(a), AndQuery(TermQuery(b), TermQuery(c))))
  {
    OperatorsByText(or, and);
    OrOfAndSyntax(numbers, a, b, c);
    OrOfAndSpells(a, b, c, or, and);
    hide IsWord, ParsedText, ClassifyWord, EqualIgnoringCase, Yield, Proper, Tree, Nesting, Spell, SpellsSyntax;
    var o, n := Piece(OrOperator, or), Piece(AndOperator, and);
    SpellFive(Named(a), o, Named(b), n, Named(c));
    SpellingParses(numbers, limits, [Named(a), o, Named(b), n, Named(c)],
                   Disjoined(WordLeaf(a), Conjoined(WordLeaf(b), WordLeaf(c)), true));
  }

  lemma OperatorsByText(or: string, and: string)
    requires EqualIgnoringCase(or, "OR") && EqualIgnoringCase(and, "AND")
    ensures ClassifyWord(or) == OrOperator && ClassifyWord(and) == AndOperator
    ensures EqualIgnoringCase(or, or) && EqualIgnoringCase(and, and) && |or| == 2 && |and| == 3
  {
  }

  /** Operators are operators in any case, letter by letter. */
  lemma OperatorsInAnyCase(w: string, word: string)
    requires word in {"AND", "OR", "NOT", "TO"} && |w| == |word|
    requires forall i :: 0 <= i < |w| ==> w[i] == word[i] || w[i] as int == word[i] as int + 32
    ensures ClassifyWord(w) == ClassifyWord(word) && IsOperator(ClassifyWord(w))
  {
    Operators();
    assert "NOT"[0] == 'N' && "AND"[0] == 'A' && "TO"[0] == 'T' && "OR"[0] == 'O';
    assert EqualIgnoringCase(w, word);
  }

  lemma NotBeforeAndSyntax(numbers: Numbers, a: string, b: string)
    requires IsWord(a) && IsWord(b)
    ensures var s := Conjoined(Negated(WordLeaf(a)), WordLeaf(b));
      && Yield(s) == [NOT, Named(a), AND, Named(b)] && Proper(numbers, s) && Nesting(s) == 0
      && Tree(numbers, s) == AndQuery(NotQuery(TermQuery(a)), TermQuery(b))
  {
    LeafIs(numbers, a);
    LeafIs(numbers, b);
    NegatedIs(numbers, WordLeaf(a));
    ConjoinedIs(numbers, Negated(WordLeaf(a)), WordLeaf(b));
    hide IsWord, Yield, Proper, Tree, Nesting;
  }

  /** NOT binds more tightly than AND. */
  lemma NotBeforeAnd(numbers: Numbers, limits: QueryLimits, a: string, b: string)
    requires IsWord(a) && IsWord(b) && Roomy(limits, a, b, "")
    ensures ParsedText(numbers, limits, "NOT" + (" " + (a + (" " + ("AND" + (" " + b))))))
      == Ok(AndQuery(NotQuery(TermQuery(a)), TermQuery(b)))
  {
    Operators();
    EqualToItself("AND");
    EqualToItself("NOT");
    hide IsWord, ParsedText, ClassifyWord, EqualIgnoringCase, Yield, Proper, Tree, Nesting, Spell;
    NotBeforeAndSyntax(numbers, a, b);
    SpellFour(NOT, Named(a), AND, Named(b));
    SpellingParses(numbers, limits, [NOT, Named(a), AND, Named(b)], Conjoined(Negated(WordLeaf(a)), WordLeaf(b)));
  }

  lemma BoostOfFieldSyntax(numbers: Numbers, f: string, a: string, w: string, b: real)
    requires IsWord(f) && IsWord(a) && IsWord(w) && numbers(w) == Some(b) && b > 0.0
    ensures var s := Boosted(Fielded(f, WordLeaf(a)), w);
      && Yield(s) == [Named(f), COLON, Named(a), Piece(Caret, "^"), Named(w)] && Proper(numbers, s)
      && Nesting(s) == 0 && Tree(numbers, s) == BoostQuery(FieldQuery(f, TermQuery(a)), b)
  {
    LeafIs(numbers, a);
    FieldedIs(numbers, f, WordLeaf(a));
    BoostedIs(numbers, Fielded(f, WordLeaf(a)), w);
    hide IsWord, Yield, Proper, Tree, Nesting;
  }

  /** A boost behind a field query is a boost of the whole. */
  lemma BoostOfField(numbers: Numbers, limits: QueryLimits, f: string, a: string, w: string, b: real)
    requires IsWord(f) && IsWord(a) && IsWord(w) && Roomy(limits, f, a, w) && numbers(w) == Some(b) && b > 0.0
    ensures ParsedText(numbers, limits, f + (":" + (a + ("^" + w))))
      == Ok(BoostQuery(FieldQuery(f, TermQuery(a)), b))
  {
    hide IsWord, ParsedText, Yield, Proper, Tree, Nesting, Spell;
    var caret := Piece(Caret, "^");
    BoostOfFieldSyntax(numbers, f, a, w, b);
    SpellFive(Named(f), COLON, Named(a), caret, Named(w));
    NoGaps(f, a, w);
    SpellingParses(numbers, limits, [Named(f), COLON, Named(a), caret, Named(w)], Boosted(Fielded(f, WordLeaf(a)), w));
  }

  lemma NoGaps(f: string, a: string, w: string)
    ensures "" + (":" + ("" + (a + ("" + ("^" + ("" + w)))))) == ":" + (a + ("^" + w))
  {
    assert "" + w == w;
    assert "" + ("^" + w) == "^" + w;
    assert "" + (a + ("^" + w)) == a + ("^" + w);
    assert "" + (":" + (a + ("^" + w))) == ":" + (a + ("^" + w));
  }

  // ---- what the parser gives can be written ----

  /** Every positive number a word can stand for is written as a word that stands for it. */
  ghost predicate Prints(n: Notation) {
    forall w: string :: IsWord(w) && n.numbers(w).Some? && n.numbers(w).value > 0.0 ==>
      var b := n.numbers(w).value;
      IsWord(n.show(b)) && n.numbers(n.show(b)) == Some(b)
  }

  lemma {:induction false} TreeIsRenderable(n: Notation, s: Syntax)
    requires Prints(n) && Proper(n.numbers, s)
    ensures Renderable(n, Tree(n.numbers, s))
  {
    hide IsWord, IsRangeBound, Blank;
    match s
    case Group(inner) => TreeIsRenderable(n, inner);
    case Fielded(_, operand) => TreeIsRenderable(n, operand);
    case Boosted(operand, _) => TreeIsRenderable(n, operand);
    case Negated(operand) => TreeIsRenderable(n, operand);
    case Conjoined(l, r) =>
      TreeIsRenderable(n, l);
      TreeIsRenderable(n, r);
    case Disjoined(l, r, _) =>
      TreeIsRenderable(n, l);
      TreeIsRenderable(n, r);
    case _ =>
  }

  /** Every tree the parser returns can be written, with a printer for its boosts: the hypothesis of
      the round trip shuts out no query. */
  lemma ParsedIsRenderable(n: Notation, limits: QueryLimits, input: string)
    requires Prints(n)
    ensures var r := ParsedText(n.numbers, limits, input); r.Ok? ==> Renderable(n, r.value)
  {
    hide ParsedText, Renderable, Prints, Spells, Fits;
    var r := ParsedText(n.numbers, limits, input);
    if r.Ok? {
      var s := ParsedIsText(n.numbers, limits, input, r.value);
      TreeIsRenderable(n, s);
    }
  }
}

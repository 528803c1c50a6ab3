/** The query language as its documentation writes it down (docs/query_language.md:5-32), as trees of
    concrete syntax, and the parser's agreement with it in both directions. */
module Grammar {
  import opened Basics
  import opened Queries
  import opened Lexing
  import opened Parsing

  /** A lexeme without its position. */
  datatype Piece = Piece(kind: TokenKind, text: string)

  /** How a query is written: parentheses are part of it, and whether an OR stands there. */
  datatype Syntax =
    | WordLeaf(text: string)
    | PhraseLeaf(text: string)
    | StarLeaf
    | RangeLeaf(field: string, lower: string, upper: string)
    | Group(inner: Syntax)
    | Fielded(field: string, operand: Syntax)
    | Boosted(operand: Syntax, number: string)
    | Negated(operand: Syntax)
    | Conjoined(left: Syntax, right: Syntax)
    | Disjoined(left: Syntax, right: Syntax, written: bool)

  predicate IsWord(w: string) {
    w != "" && (forall i :: 0 <= i < |w| ==> !IsDelimiter(w[i])) && ClassifyWord(w).Word?
  }

  predicate IsRangeBound(s: string) { s == "*" || IsWord(s) }

  // ---- precedence ----

  predicate IsPrimary(s: Syntax) {
    s.WordLeaf? || s.PhraseLeaf? || s.StarLeaf? || s.RangeLeaf? || s.Group? || s.Fielded?
  }

  predicate IsPostfix(s: Syntax) { IsPrimary(s) || s.Boosted? }

  predicate IsUnary(s: Syntax) { IsPostfix(s) || s.Negated? }

  predicate IsConjunct(s: Syntax) { IsUnary(s) || s.Conjoined? }

  /** What may stand behind a field name: a boost there would belong to the whole. */
  predicate IsOperand(s: Syntax) {
    IsPrimary(s) || (s.Negated? && IsOperand(s.operand))
  }

  predicate BeginsNot(s: Syntax) {
    match s
    case Negated(_) => true
    case Boosted(operand, _) => BeginsNot(operand)
    case Conjoined(left, _) => BeginsNot(left)
    case Disjoined(left, _, _) => BeginsNot(left)
    case _ => false
  }

  /** NOT binds more tightly than AND, AND more tightly than OR, both to the left; a boost stands behind a
      primary; OR may be left out where what follows begins no negation. */
  predicate Proper(numbers: Numbers, s: Syntax) {
    match s
    case WordLeaf(w) => IsWord(w)
    case PhraseLeaf(text) => !Blank(text)
    case StarLeaf => true
    case RangeLeaf(f, lower, upper) => IsWord(f) && IsRangeBound(lower) && IsRangeBound(upper)
    case Group(inner) => Proper(numbers, inner)
    case Fielded(f, operand) => IsWord(f) && IsOperand(operand) && Proper(numbers, operand)
    case Boosted(operand, w) =>
      && IsPostfix(operand) && Proper(numbers, operand)
      && IsWord(w) && numbers(w).Some? && numbers(w).value > 0.0
    case Negated(operand) => IsUnary(operand) && Proper(numbers, operand)
    case Conjoined(l, r) => IsConjunct(l) && IsUnary(r) && Proper(numbers, l) && Proper(numbers, r)
    case Disjoined(l, r, written) =>
      IsConjunct(r) && Proper(numbers, l) && Proper(numbers, r) && (written || !BeginsNot(r))
  }

  /** The query that is meant. */
  function Tree(numbers: Numbers, s: Syntax): Query {
    match s
    case WordLeaf(w) => TermQuery(w)
    case PhraseLeaf(text) => PhraseQuery(text)
    case StarLeaf => MatchAllQuery
    case RangeLeaf(f, lower, upper) => RangeFilter(f, lower, upper, true, true)
    case Group(inner) => Tree(numbers, inner)
    case Fielded(f, operand) => FieldQuery(f, Tree(numbers, operand))
    case Boosted(operand, w) =>
      BoostQuery(Tree(numbers, operand), match numbers(w) case Some(b) => b case None => 1.0)
    case Negated(operand) => NotQuery(Tree(numbers, operand))
    case Conjoined(l, r) => AndQuery(Tree(numbers, l), Tree(numbers, r))
    case Disjoined(l, r, _) => OrQuery(Tree(numbers, l), Tree(numbers, r))
  }

  /** Depth of parentheses. */
  function Nesting(s: Syntax): nat {
    match s
    case Group(inner) => 1 + Nesting(inner)
    case Fielded(_, operand) => Nesting(operand)
    case Boosted(operand, _) => Nesting(operand)
    case Negated(operand) => Nesting(operand)
    case Conjoined(l, r) => if Nesting(l) > Nesting(r) then Nesting(l) else Nesting(r)
    case Disjoined(l, r, _) => if Nesting(l) > Nesting(r) then Nesting(l) else Nesting(r)
    case _ => 0
  }

  // ---- lexemes ----

  const LEFT := Piece(LeftParenthesis, "(")
  const RIGHT := Piece(RightParenthesis, ")")
  const COLON := Piece(Colon, ":")
  const AND := Piece(AndOperator, "AND")
  const OR := Piece(OrOperator, "OR")
  const NOT := Piece(NotOperator, "NOT")

  function Bound(s: string): Piece {
    if s == "*" then Piece(Star, "*") else Piece(Word, s)
  }

  /** The lexemes of a query as it is written. */
  function Yield(s: Syntax): (r: seq<Piece>)
    ensures |r| > 0
  {
    match s
    case WordLeaf(w) => [Piece(Word, w)]
    case PhraseLeaf(text) => [Piece(Phrase, text)]
    case StarLeaf => [Piece(Star, "*")]
    case RangeLeaf(f, lower, upper) =>
      [Piece(Word, f), COLON, Piece(LeftBracket, "["), Bound(lower), Piece(ToOperator, "TO"), Bound(upper),
       Piece(RightBracket, "]")]
    case Group(inner) => [LEFT] + (Yield(inner) + [RIGHT])
    case Fielded(f, operand) => [Piece(Word, f), COLON] + Yield(operand)
    case Boosted(operand, w) => Yield(operand) + [Piece(Caret, "^"), Piece(Word, w)]
    case Negated(operand) => [NOT] + Yield(operand)
    case Conjoined(l, r) => Yield(l) + ([AND] + Yield(r))
    case Disjoined(l, r, written) => Yield(l) + ((if written then [OR] else []) + Yield(r))
  }

  /** The lexeme is this piece; the text of operators and brackets is not looked at. */
  predicate Reads(token: Lexeme, p: Piece) {
    token.kind == p.kind && (p.kind.Word? || p.kind.Phrase? || p.kind.Star? ==> token.text == p.text)
  }

  /** The lexemes from position `c` on are these. */
  ghost predicate Stands(tokens: seq<Lexeme>, c: nat, pieces: seq<Piece>) {
    c + |pieces| <= |tokens| && forall i :: 0 <= i < |pieces| ==> Reads(tokens[c + i], pieces[i])
  }

  lemma StandsSplit(tokens: seq<Lexeme>, c: nat, a: seq<Piece>, b: seq<Piece>)
    ensures Stands(tokens, c, a + b) <==> Stands(tokens, c, a) && Stands(tokens, c + |a|, b)
  {
    hide Reads;
    if Stands(tokens, c, a + b) {
      forall i | 0 <= i < |a| ensures Reads(tokens[c + i], a[i]) { assert (a + b)[i] == a[i]; }
      forall i | 0 <= i < |b| ensures Reads(tokens[c + |a| + i], b[i]) { assert (a + b)[|a| + i] == b[i]; }
    }
    if Stands(tokens, c, a) && Stands(tokens, c + |a|, b) {
      forall i | 0 <= i < |a + b| ensures Reads(tokens[c + i], (a + b)[i]) {
        if i >= |a| { assert Reads(tokens[c + |a| + (i - |a|)], b[i - |a|]); }
      }
    }
  }

  lemma StandsOne(tokens: seq<Lexeme>, c: nat, p: Piece)
    ensures Stands(tokens, c, [p]) <==> c < |tokens| && Reads(tokens[c], p)
  {
    hide Reads;
    assert [p][0] == p;
    if Stands(tokens, c, [p]) { assert Reads(tokens[c + 0], [p][0]); }
  }

  lemma StandsFirst(tokens: seq<Lexeme>, c: nat, pieces: seq<Piece>)
    requires Stands(tokens, c, pieces) && pieces != []
    ensures c < |tokens| && Reads(tokens[c], pieces[0])
  {
    assert Reads(tokens[c + 0], pieces[0]);
  }

  lemma {:induction false} FirstPiece(s: Syntax)
    ensures Yield(s)[0].kind.NotOperator? <==> BeginsNot(s)
    ensures !BeginsNot(s) ==> BeginsPrimary(Yield(s)[0].kind)
  {
    match s
    case Boosted(operand, _) => FirstPiece(operand);
    case Conjoined(l, _) => FirstPiece(l);
    case Disjoined(l, _, _) => FirstPiece(l);
    case _ =>
  }

  // ---- what is written is parsed ----

  /** A proper piece of syntax stands at `c`, and something behind it. */
  ghost predicate Ready(numbers: Numbers, limit: nat, tokens: seq<Lexeme>, c: nat, depth: nat, s: Syntax) {
    && Ended(tokens) && Stands(tokens, c, Yield(s)) && c + |Yield(s)| < |tokens|
    && Proper(numbers, s) && depth + Nesting(s) <= limit
  }

  function Behind(tokens: seq<Lexeme>, c: nat, s: Syntax): TokenKind
    requires c + |Yield(s)| < |tokens|
  {
    tokens[c + |Yield(s)|].kind
  }

  lemma {:induction false} PrimaryParses(numbers: Numbers, limit: nat, tokens: seq<Lexeme>, c: nat, depth: nat,
                                         s: Syntax)
    requires Ready(numbers, limit, tokens, c, depth, s) && IsPrimary(s) && !Behind(tokens, c, s).Colon?
    ensures PPrimary(numbers, limit, tokens, c, depth) == Ok((Tree(numbers, s), c + |Yield(s)|))
    decreases s, 0
  {
    StandsFirst(tokens, c, Yield(s));
    match s
    case WordLeaf(_) =>
    case PhraseLeaf(_) =>
    case StarLeaf =>
    case RangeLeaf(_, _, _) => RangeParses(numbers, limit, tokens, c, depth, s);
    case Group(inner) => GroupParses(numbers, limit, tokens, c, depth, s);
    case Fielded(f, operand) => FieldParses(numbers, limit, tokens, c, depth, s);
  }

  lemma RangeParses(numbers: Numbers, limit: nat, tokens: seq<Lexeme>, c: nat, depth: nat, s: Syntax)
    requires Ready(numbers, limit, tokens, c, depth, s) && s.RangeLeaf?
    ensures PPrimary(numbers, limit, tokens, c, depth) == Ok((Tree(numbers, s), c + 7))
  {
    hide POr, IsWord;
    var own := Yield(s);
    assert Reads(tokens[c + 0], own[0]) && Reads(tokens[c + 1], own[1]) && Reads(tokens[c + 2], own[2]);
    assert Reads(tokens[c + 3], own[3]) && Reads(tokens[c + 4], own[4]) && Reads(tokens[c + 5], own[5]);
    assert Reads(tokens[c + 6], own[6]);
  }

  lemma {:induction false} GroupParses(numbers: Numbers, limit: nat, tokens: seq<Lexeme>, c: nat, depth: nat,
                                       s: Syntax)
    requires Ready(numbers, limit, tokens, c, depth, s) && s.Group?
    ensures PPrimary(numbers, limit, tokens, c, depth) == Ok((Tree(numbers, s), c + |Yield(s)|))
    decreases s.inner, 9
  {
    hide POr, Proper, Yield, PAnd;
    var own := Yield(s.inner);
    assert Proper(numbers, s) ==> Proper(numbers, s.inner) by { GroupIs(numbers, s); }
    GroupIs(numbers, s);
    StandsSplit(tokens, c, [LEFT], own + [RIGHT]);
    StandsSplit(tokens, c + 1, own, [RIGHT]);
    StandsOne(tokens, c, LEFT);
    StandsOne(tokens, c + 1 + |own|, RIGHT);
    QueryParses(numbers, limit, tokens, c + 1, depth + 1, s.inner);
  }

  lemma GroupIs(numbers: Numbers, s: Syntax)
    requires s.Group?
    ensures Yield(s) == [LEFT] + (Yield(s.inner) + [RIGHT]) && Nesting(s) == 1 + Nesting(s.inner)
    ensures Proper(numbers, s) <==> Proper(numbers, s.inner)
    ensures Tree(numbers, s) == Tree(numbers, s.inner)
  {
  }

  lemma {:induction false} FieldParses(numbers: Numbers, limit: nat, tokens: seq<Lexeme>, c: nat, depth: nat,
                                       s: Syntax)
    requires Ready(numbers, limit, tokens, c, depth, s) && s.Fielded? && !Behind(tokens, c, s).Colon?
    ensures PPrimary(numbers, limit, tokens, c, depth) == Ok((Tree(numbers, s), c + |Yield(s)|))
    decreases s.operand, 9
  {
    hide POr, PFieldOperand, IsWord;
    var name, rest := Piece(Word, s.field), Yield(s.operand);
    assert [name, COLON] == [name] + [COLON];
    StandsSplit(tokens, c, [name, COLON], rest);
    StandsSplit(tokens, c, [name], [COLON]);
    StandsOne(tokens, c, name);
    StandsOne(tokens, c + 1, COLON);
    StandsFirst(tokens, c + 2, rest);
    FirstPiece(s.operand);
    OperandParses(numbers, limit, tokens, c + 2, depth, s.operand);
  }

  lemma {:induction false} OperandParses(numbers: Numbers, limit: nat, tokens: seq<Lexeme>, c: nat, depth: nat,
                                         s: Syntax)
    requires Ready(numbers, limit, tokens, c, depth, s) && IsOperand(s) && !Behind(tokens, c, s).Colon?
    ensures PFieldOperand(numbers, limit, tokens, c, depth) == Ok((Tree(numbers, s), c + |Yield(s)|))
    decreases s, 1
  {
    hide PPrimary;
    StandsFirst(tokens, c, Yield(s));
    FirstPiece(s);
    if s.Negated? {
      StandsSplit(tokens, c, [NOT], Yield(s.operand));
      OperandParses(numbers, limit, tokens, c + 1, depth, s.operand);
    } else {
      PrimaryParses(numbers, limit, tokens, c, depth, s);
    }
  }

  /** Boosts go on behind a primary and its boosts. */
  lemma {:induction false} PostfixParses(numbers: Numbers, limit: nat, tokens: seq<Lexeme>, c: nat, depth: nat,
                                         s: Syntax)
    requires Ready(numbers, limit, tokens, c, depth, s) && IsPostfix(s) && !Behind(tokens, c, s).Colon?
    ensures PPostfix(numbers, limit, tokens, c, depth) == PBoosts(numbers, tokens, Tree(numbers, s), c + |Yield(s)|)
    decreases s, 1
  {
    if s.Boosted? {
      var own := Yield(s.operand);
      var caret, number := Piece(Caret, "^"), Piece(Word, s.number);
      assert [caret, number] == [caret] + [number];
      StandsSplit(tokens, c, own, [caret, number]);
      StandsSplit(tokens, c + |own|, [caret], [number]);
      StandsOne(tokens, c + |own|, caret);
      StandsOne(tokens, c + |own| + 1, number);
      PostfixParses(numbers, limit, tokens, c, depth, s.operand);
    } else {
      PrimaryParses(numbers, limit, tokens, c, depth, s);
    }
  }

  lemma {:induction false} UnaryParses(numbers: Numbers, limit: nat, tokens: seq<Lexeme>, c: nat, depth: nat,
                                       s: Syntax)
    requires Ready(numbers, limit, tokens, c, depth, s) && IsUnary(s)
    requires !Behind(tokens, c, s).Colon? && !Behind(tokens, c, s).Caret?
    ensures PUnary(numbers, limit, tokens, c, depth) == Ok((Tree(numbers, s), c + |Yield(s)|))
    decreases s, 2
  {
    hide PPostfix;
    StandsFirst(tokens, c, Yield(s));
    FirstPiece(s);
    if s.Negated? {
      StandsSplit(tokens, c, [NOT], Yield(s.operand));
      UnaryParses(numbers, limit, tokens, c + 1, depth, s.operand);
    } else {
      PostfixParses(numbers, limit, tokens, c, depth, s);
      PostfixBeginsNoNot(numbers, s);
    }
  }

  lemma {:induction false} PostfixBeginsNoNot(numbers: Numbers, s: Syntax)
    requires IsPostfix(s) && Proper(numbers, s)
    ensures !BeginsNot(s)
  {
    if s.Boosted? { PostfixBeginsNoNot(numbers, s.operand); }
  }

  /** Conjunctions go on to the right. */
  lemma {:induction false} ConjunctParses(numbers: Numbers, limit: nat, tokens: seq<Lexeme>, c: nat, depth: nat,
                                          s: Syntax)
    requires Ready(numbers, limit, tokens, c, depth, s) && IsConjunct(s)
    requires !Behind(tokens, c, s).Colon? && !Behind(tokens, c, s).Caret?
    ensures PAnd(numbers, limit, tokens, c, depth)
      == PAndRest(numbers, limit, tokens, Tree(numbers, s), c + |Yield(s)|, depth)
    decreases s, 3
  {
    hide PUnary;
    if s.Conjoined? {
      var own := Yield(s.left);
      StandsSplit(tokens, c, own, [AND] + Yield(s.right));
      StandsSplit(tokens, c + |own|, [AND], Yield(s.right));
      StandsOne(tokens, c + |own|, AND);
      ConjunctParses(numbers, limit, tokens, c, depth, s.left);
      UnaryParses(numbers, limit, tokens, c + |own| + 1, depth, s.right);
    } else {
      UnaryParses(numbers, limit, tokens, c, depth, s);
    }
  }

  lemma Disjoins(numbers: Numbers, limit: nat, tokens: seq<Lexeme>, middle: nat, from: nat, next: nat, depth: nat,
                 l: Query, r: Query)
    requires Ended(tokens) && middle <= from < next < |tokens| && !tokens[next].kind.AndOperator?
    requires if tokens[middle].kind.OrOperator? then from == middle + 1
      else BeginsPrimary(tokens[middle].kind) && from == middle
    requires PAnd(numbers, limit, tokens, from, depth) == PAndRest(numbers, limit, tokens, r, next, depth)
    ensures POrRest(numbers, limit, tokens, l, middle, depth)
      == POrRest(numbers, limit, tokens, OrQuery(l, r), next, depth)
  {
    hide PAnd, PUnary;
  }

  /** Disjunctions go on to the right, with OR or without. */
  lemma {:induction false} QueryParses(numbers: Numbers, limit: nat, tokens: seq<Lexeme>, c: nat, depth: nat,
                                       s: Syntax)
    requires Ready(numbers, limit, tokens, c, depth, s)
    requires !Behind(tokens, c, s).Colon? && !Behind(tokens, c, s).Caret? && !Behind(tokens, c, s).AndOperator?
    ensures POr(numbers, limit, tokens, c, depth)
      == POrRest(numbers, limit, tokens, Tree(numbers, s), c + |Yield(s)|, depth)
    decreases s, 4
  {
    hide POr, PAnd, PUnary, POrRest, PAndRest, Yield, Proper, Tree, Nesting, BeginsNot;
    if s.Disjoined? {
      DisjoinedIs(numbers, s.left, s.right, s.written);
      var own, word := Yield(s.left), if s.written then [OR] else [];
      StandsSplit(tokens, c, own, word + Yield(s.right));
      StandsSplit(tokens, c + |own|, word, Yield(s.right));
      var from := c + |own| + |word|;
      if s.written { StandsOne(tokens, c + |own|, OR); }
      StandsFirst(tokens, from, Yield(s.right));
      FirstPiece(s.right);
      QueryParses(numbers, limit, tokens, c, depth, s.left);
      ConjunctParses(numbers, limit, tokens, from, depth, s.right);
      Disjoins(numbers, limit, tokens, c + |own|, from, c + |Yield(s)|, depth, Tree(numbers, s.left),
               Tree(numbers, s.right));
    } else {
      ConjunctParses(numbers, limit, tokens, c, depth, s);
      OrOfOne(numbers, limit, tokens, c, c + |Yield(s)|, depth, Tree(numbers, s));
    }
  }

  lemma OrOfOne(numbers: Numbers, limit: nat, tokens: seq<Lexeme>, c: nat, next: nat, depth: nat, q: Query)
    requires Ended(tokens) && c < next < |tokens| && !tokens[next].kind.AndOperator?
    requires PAnd(numbers, limit, tokens, c, depth) == PAndRest(numbers, limit, tokens, q, next, depth)
    ensures POr(numbers, limit, tokens, c, depth) == POrRest(numbers, limit, tokens, q, next, depth)
  {
    hide PAnd, PUnary, POrRest;
  }

  // ---- what is parsed was written ----

  /** Words and stars as the lexer delivers them. */
  ghost predicate WellLexed(tokens: seq<Lexeme>) {
    forall i :: 0 <= i < |tokens| ==>
      (tokens[i].kind.Word? ==> IsWord(tokens[i].text)) && (tokens[i].kind.Star? ==> tokens[i].text == "*")
  }

  /** The lexemes from `c` to `next` are those of proper syntax for `q`. */
  ghost predicate Derives(numbers: Numbers, limit: nat, tokens: seq<Lexeme>, c: nat, depth: nat, s: Syntax, q: Query,
                          next: nat)
  {
    && Proper(numbers, s) && Tree(numbers, s) == q && Stands(tokens, c, Yield(s)) && next == c + |Yield(s)|
    && depth + Nesting(s) <= limit
  }

  lemma {:induction false} FromOr(numbers: Numbers, limit: nat, tokens: seq<Lexeme>, c: nat, depth: nat)
    returns (s: Syntax)
    requires Ended(tokens) && c < |tokens| && WellLexed(tokens) && depth <= limit
    requires POr(numbers, limit, tokens, c, depth).Ok?
    ensures var (q, next) := POr(numbers, limit, tokens, c, depth).value;
      Derives(numbers, limit, tokens, c, depth, s, q, next)
    decreases |tokens| - c, 7, 1
  {
    hide PAnd, POrRest, WellLexed, Derives;
    var left := FromAnd(numbers, limit, tokens, c, depth);
    var (q, next) := PAnd(numbers, limit, tokens, c, depth).value;
    s := FromOrRest(numbers, limit, tokens, c, left, q, next, depth);
  }

  lemma {:induction false} FromOrRest(numbers: Numbers, limit: nat, tokens: seq<Lexeme>, start: nat, left: Syntax,
                                      q: Query, c: nat, depth: nat)
    returns (s: Syntax)
    requires Ended(tokens) && c < |tokens| && WellLexed(tokens) && depth <= limit
    requires Derives(numbers, limit, tokens, start, depth, left, q, c)
    requires POrRest(numbers, limit, tokens, q, c, depth).Ok?
    ensures var (r, next) := POrRest(numbers, limit, tokens, q, c, depth).value;
      Derives(numbers, limit, tokens, start, depth, s, r, next)
    decreases |tokens| - c, 7, 0
  {
    hide PAnd, WellLexed, Derives;
    if tokens[c].kind.OrOperator? || BeginsPrimary(tokens[c].kind) {
      var written := tokens[c].kind.OrOperator?;
      var from := if written then c + 1 else c;
      var right := FromAnd(numbers, limit, tokens, from, depth);
      var (r, next) := PAnd(numbers, limit, tokens, from, depth).value;
      DisjoinedDerives(numbers, limit, tokens, start, depth, left, q, c, right, r, next, written);
      s := FromOrRest(numbers, limit, tokens, start, Disjoined(left, right, written), OrQuery(q, r), next, depth);
    } else {
      s := left;
    }
  }

  lemma DisjoinedDerives(numbers: Numbers, limit: nat, tokens: seq<Lexeme>, start: nat, depth: nat, left: Syntax,
                         q: Query, c: nat, right: Syntax, r: Query, next: nat, written: bool)
    requires Derives(numbers, limit, tokens, start, depth, left, q, c) && c < |tokens|
    requires written == tokens[c].kind.OrOperator? && (!written ==> BeginsPrimary(tokens[c].kind))
    requires Derives(numbers, limit, tokens, if written then c + 1 else c, depth, right, r, next) && IsConjunct(right)
    ensures Derives(numbers, limit, tokens, start, depth, Disjoined(left, right, written), OrQuery(q, r), next)
  {
    hide Yield, Proper, Tree, Nesting, Stands, IsConjunct, BeginsNot;
    var word := if written then [OR] else [];
    DisjoinedIs(numbers, left, right, written);
    FirstPiece(right);
    StandsFirst(tokens, if written then c + 1 else c, Yield(right));
    if written { StandsOne(tokens, c, OR); } else { StandsNothing(tokens, c); }
    StandsSplit(tokens, c, word, Yield(right));
    StandsSplit(tokens, start, Yield(left), word + Yield(right));
  }

  lemma LeafIs(numbers: Numbers, w: string)
    ensures var s := WordLeaf(w);
      && Yield(s) == [Piece(Word, w)] && Nesting(s) == 0 && Tree(numbers, s) == TermQuery(w)
      && (Proper(numbers, s) <==> IsWord(w))
  {
  }

  lemma NegatedIs(numbers: Numbers, x: Syntax)
    ensures var s := Negated(x);
      && Yield(s) == [NOT] + Yield(x) && Nesting(s) == Nesting(x) && Tree(numbers, s) == NotQuery(Tree(numbers, x))
      && (Proper(numbers, s) <==> IsUnary(x) && Proper(numbers, x))
  {
  }

  lemma ConjoinedIs(numbers: Numbers, l: Syntax, r: Syntax)
    ensures var s := Conjoined(l, r);
      && Yield(s) == Yield(l) + ([AND] + Yield(r))
      && Nesting(s) == (if Nesting(l) > Nesting(r) then Nesting(l) else Nesting(r))
      && Tree(numbers, s) == AndQuery(Tree(numbers, l), Tree(numbers, r))
      && (Proper(numbers, s) <==> IsConjunct(l) && IsUnary(r) && Proper(numbers, l) && Proper(numbers, r))
  {
  }

  lemma FieldedIs(numbers: Numbers, f: string, x: Syntax)
    ensures var s := Fielded(f, x);
      && Yield(s) == [Piece(Word, f), COLON] + Yield(x) && Nesting(s) == Nesting(x)
      && Tree(numbers, s) == FieldQuery(f, Tree(numbers, x))
      && (Proper(numbers, s) <==> IsWord(f) && IsOperand(x) && Proper(numbers, x))
  {
  }

  lemma BoostedIs(numbers: Numbers, x: Syntax, w: string)
    ensures var s := Boosted(x, w);
      && Yield(s) == Yield(x) + [Piece(Caret, "^"), Piece(Word, w)] && Nesting(s) == Nesting(x)
      && (numbers(w).Some? ==> Tree(numbers, s) == BoostQuery(Tree(numbers, x), numbers(w).value))
      && (Proper(numbers, s) <==>
          IsPostfix(x) && Proper(numbers, x) && IsWord(w) && numbers(w).Some? && numbers(w).value > 0.0)
  {
  }

  lemma StandsNothing(tokens: seq<Lexeme>, c: nat)
    requires c <= |tokens|
    ensures Stands(tokens, c, [])
  {
  }

  lemma DisjoinedIs(numbers: Numbers, l: Syntax, r: Syntax, written: bool)
    ensures var s := Disjoined(l, r, written);
      && Yield(s) == Yield(l) + ((if written then [OR] else []) + Yield(r))
      && (Proper(numbers, s) <==>
          IsConjunct(r) && Proper(numbers, l) && Proper(numbers, r) && (written || !BeginsNot(r)))
      && Tree(numbers, s) == OrQuery(Tree(numbers, l), Tree(numbers, r))
      && Nesting(s) == if Nesting(l) > Nesting(r) then Nesting(l) else Nesting(r)
  {
  }

  lemma {:induction false} FromAnd(numbers: Numbers, limit: nat, tokens: seq<Lexeme>, c: nat, depth: nat)
    returns (s: Syntax)
    requires Ended(tokens) && c < |tokens| && WellLexed(tokens) && depth <= limit
    requires PAnd(numbers, limit, tokens, c, depth).Ok?
    ensures var (q, next) := PAnd(numbers, limit, tokens, c, depth).value;
      Derives(numbers, limit, tokens, c, depth, s, q, next) && IsConjunct(s)
    decreases |tokens| - c, 6, 1
  {
    hide PUnary, PAndRest, WellLexed, Derives;
    var left := FromUnary(numbers, limit, tokens, c, depth);
    var (q, next) := PUnary(numbers, limit, tokens, c, depth).value;
    s := FromAndRest(numbers, limit, tokens, c, left, q, next, depth);
  }

  lemma {:induction false} FromAndRest(numbers: Numbers, limit: nat, tokens: seq<Lexeme>, start: nat, left: Syntax,
                                       q: Query, c: nat, depth: nat)
    returns (s: Syntax)
    requires Ended(tokens) && c < |tokens| && WellLexed(tokens) && depth <= limit && IsConjunct(left)
    requires Derives(numbers, limit, tokens, start, depth, left, q, c)
    requires PAndRest(numbers, limit, tokens, q, c, depth).Ok?
    ensures var (r, next) := PAndRest(numbers, limit, tokens, q, c, depth).value;
      Derives(numbers, limit, tokens, start, depth, s, r, next) && IsConjunct(s)
    decreases |tokens| - c, 6, 0
  {
    hide PUnary, WellLexed, Derives;
    if tokens[c].kind.AndOperator? {
      var right := FromUnary(numbers, limit, tokens, c + 1, depth);
      var (r, next) := PUnary(numbers, limit, tokens, c + 1, depth).value;
      ConjoinedDerives(numbers, limit, tokens, start, depth, left, q, c, right, r, next);
      s := FromAndRest(numbers, limit, tokens, start, Conjoined(left, right), AndQuery(q, r), next, depth);
    } else {
      s := left;
    }
  }

  lemma ConjoinedDerives(numbers: Numbers, limit: nat, tokens: seq<Lexeme>, start: nat, depth: nat, left: Syntax,
                         q: Query, c: nat, right: Syntax, r: Query, next: nat)
    requires Derives(numbers, limit, tokens, start, depth, left, q, c) && c < |tokens| && IsConjunct(left)
    requires tokens[c].kind.AndOperator?
    requires Derives(numbers, limit, tokens, c + 1, depth, right, r, next) && IsUnary(right)
    ensures Derives(numbers, limit, tokens, start, depth, Conjoined(left, right), AndQuery(q, r), next)
  {
    ConjoinedIs(numbers, left, right);
    hide Yield, Proper, Tree, Nesting, Stands, IsConjunct, IsUnary;
    StandsOne(tokens, c, AND);
    StandsSplit(tokens, c, [AND], Yield(right));
    StandsSplit(tokens, start, Yield(left), [AND] + Yield(right));
  }

  lemma NegatedDerives(numbers: Numbers, limit: nat, tokens: seq<Lexeme>, c: nat, depth: nat, operand: Syntax,
                       q: Query, next: nat)
    requires c < |tokens| && tokens[c].kind.NotOperator?
    requires Derives(numbers, limit, tokens, c + 1, depth, operand, q, next) && IsUnary(operand)
    ensures Derives(numbers, limit, tokens, c, depth, Negated(operand), NotQuery(q), next)
  {
    NegatedIs(numbers, operand);
    hide Yield, Proper, Tree, Nesting, Stands, IsUnary;
    StandsOne(tokens, c, NOT);
    StandsSplit(tokens, c, [NOT], Yield(operand));
  }

  lemma {:induction false} FromUnary(numbers: Numbers, limit: nat, tokens: seq<Lexeme>, c: nat, depth: nat)
    returns (s: Syntax)
    requires Ended(tokens) && c < |tokens| && WellLexed(tokens) && depth <= limit
    requires PUnary(numbers, limit, tokens, c, depth).Ok?
    ensures var (q, next) := PUnary(numbers, limit, tokens, c, depth).value;
      Derives(numbers, limit, tokens, c, depth, s, q, next) && IsUnary(s)
    decreases |tokens| - c, 5, 0
  {
    hide PPrimary, PBoosts, WellLexed, Derives;
    if tokens[c].kind.NotOperator? {
      var operand := FromUnary(numbers, limit, tokens, c + 1, depth);
      var (q, next) := PUnary(numbers, limit, tokens, c + 1, depth).value;
      NegatedDerives(numbers, limit, tokens, c, depth, operand, q, next);
      s := Negated(operand);
    } else {
      var primary := FromPrimary(numbers, limit, tokens, c, depth);
      var (q, next) := PPrimary(numbers, limit, tokens, c, depth).value;
      s := FromBoosts(numbers, limit, tokens, c, primary, q, next, depth);
    }
  }

  lemma {:induction false} FromBoosts(numbers: Numbers, limit: nat, tokens: seq<Lexeme>, start: nat, operand: Syntax,
                                      q: Query, c: nat, depth: nat)
    returns (s: Syntax)
    requires Ended(tokens) && c < |tokens| && WellLexed(tokens) && depth <= limit && IsPostfix(operand)
    requires Derives(numbers, limit, tokens, start, depth, operand, q, c)
    requires PBoosts(numbers, tokens, q, c).Ok?
    ensures var (r, next) := PBoosts(numbers, tokens, q, c).value;
      Derives(numbers, limit, tokens, start, depth, s, r, next) && IsPostfix(s)
    decreases |tokens| - c
  {
    hide Derives, IsWord;
    if tokens[c].kind.Caret? {
      var w := tokens[c + 1].text;
      var b := numbers(w).value;
      BoostedDerives(numbers, limit, tokens, start, depth, operand, q, c, w, b);
      s := FromBoosts(numbers, limit, tokens, start, Boosted(operand, w), BoostQuery(q, b), c + 2, depth);
    } else {
      s := operand;
    }
  }

  lemma BoostedDerives(numbers: Numbers, limit: nat, tokens: seq<Lexeme>, start: nat, depth: nat, operand: Syntax,
                       q: Query, c: nat, w: string, b: real)
    requires Derives(numbers, limit, tokens, start, depth, operand, q, c) && IsPostfix(operand)
    requires c + 1 < |tokens| && tokens[c].kind.Caret? && tokens[c + 1].kind.Word? && tokens[c + 1].text == w
    requires IsWord(w) && numbers(w) == Some(b) && b > 0.0
    ensures Derives(numbers, limit, tokens, start, depth, Boosted(operand, w), BoostQuery(q, b), c + 2)
  {
    BoostedIs(numbers, operand, w);
    hide Yield, Proper, Tree, Nesting, Stands, IsPostfix, IsWord;
    var caret, number := Piece(Caret, "^"), Piece(Word, w);
    assert [caret, number] == [caret] + [number];
    StandsOne(tokens, c, caret);
    StandsOne(tokens, c + 1, number);
    StandsSplit(tokens, c, [caret], [number]);
    StandsSplit(tokens, start, Yield(operand), [caret, number]);
  }

  lemma {:induction false} FromOperand(numbers: Numbers, limit: nat, tokens: seq<Lexeme>, c: nat, depth: nat)
    returns (s: Syntax)
    requires Ended(tokens) && c < |tokens| && WellLexed(tokens) && depth <= limit
    requires PFieldOperand(numbers, limit, tokens, c, depth).Ok?
    ensures var (q, next) := PFieldOperand(numbers, limit, tokens, c, depth).value;
      Derives(numbers, limit, tokens, c, depth, s, q, next) && IsOperand(s)
    decreases |tokens| - c, 4, 0
  {
    hide PPrimary, WellLexed, Derives;
    if tokens[c].kind.NotOperator? {
      var operand := FromOperand(numbers, limit, tokens, c + 1, depth);
      var (q, next) := PFieldOperand(numbers, limit, tokens, c + 1, depth).value;
      OperandIsUnary(operand);
      NegatedDerives(numbers, limit, tokens, c, depth, operand, q, next);
      s := Negated(operand);
    } else {
      s := FromPrimary(numbers, limit, tokens, c, depth);
    }
  }

  lemma OperandIsUnary(s: Syntax)
    requires IsOperand(s)
    ensures IsUnary(s)
  {
  }

  lemma {:induction false} FromPrimary(numbers: Numbers, limit: nat, tokens: seq<Lexeme>, c: nat, depth: nat)
    returns (s: Syntax)
    requires Ended(tokens) && c < |tokens| && WellLexed(tokens) && depth <= limit
    requires PPrimary(numbers, limit, tokens, c, depth).Ok?
    ensures var (q, next) := PPrimary(numbers, limit, tokens, c, depth).value;
      Derives(numbers, limit, tokens, c, depth, s, q, next) && IsPrimary(s)
    decreases |tokens| - c, 3, 0
  {
    hide POr, PFieldOperand, IsWord, Derives, Blank;
    var token := tokens[c];
    match token.kind {
      case Word =>
        if tokens[c + 1].kind.Colon? {
          if tokens[c + 2].kind.LeftBracket? {
            s := FromRange(numbers, limit, tokens, c, depth);
          } else {
            var operand := FromOperand(numbers, limit, tokens, c + 2, depth);
            var (q, next) := PFieldOperand(numbers, limit, tokens, c + 2, depth).value;
            FieldedDerives(numbers, limit, tokens, c, depth, operand, q, next);
            s := Fielded(token.text, operand);
          }
        } else {
          LeafDerives(numbers, limit, tokens, c, depth, WordLeaf(token.text));
          s := WordLeaf(token.text);
        }
      case Phrase =>
        LeafDerives(numbers, limit, tokens, c, depth, PhraseLeaf(token.text));
        s := PhraseLeaf(token.text);
      case LeftParenthesis =>
        var inner := FromOr(numbers, limit, tokens, c + 1, depth + 1);
        var (q, next) := POr(numbers, limit, tokens, c + 1, depth + 1).value;
        GroupDerives(numbers, limit, tokens, c, depth, inner, q, next);
        s := Group(inner);
      case _ =>
        LeafDerives(numbers, limit, tokens, c, depth, StarLeaf);
        s := StarLeaf;
    }
  }

  lemma LeafDerives(numbers: Numbers, limit: nat, tokens: seq<Lexeme>, c: nat, depth: nat, s: Syntax)
    requires c < |tokens| && depth <= limit && Proper(numbers, s) && (s.WordLeaf? || s.PhraseLeaf? || s.StarLeaf?)
    requires Reads(tokens[c], Yield(s)[0])
    ensures Derives(numbers, limit, tokens, c, depth, s, Tree(numbers, s), c + 1)
  {
    hide IsWord, Blank;
    StandsOne(tokens, c, Yield(s)[0]);
    assert Yield(s) == [Yield(s)[0]];
  }

  lemma GroupDerives(numbers: Numbers, limit: nat, tokens: seq<Lexeme>, c: nat, depth: nat, inner: Syntax, q: Query,
                     next: nat)
    requires Derives(numbers, limit, tokens, c + 1, depth + 1, inner, q, next)
    requires c < next < |tokens| && tokens[c].kind.LeftParenthesis? && tokens[next].kind.RightParenthesis?
    ensures Derives(numbers, limit, tokens, c, depth, Group(inner), q, next + 1)
  {
    GroupIs(numbers, Group(inner));
    hide Yield, Proper, Tree, Nesting, Stands;
    StandsOne(tokens, c, LEFT);
    StandsOne(tokens, next, RIGHT);
    StandsSplit(tokens, c + 1, Yield(inner), [RIGHT]);
    StandsSplit(tokens, c, [LEFT], Yield(inner) + [RIGHT]);
  }

  lemma FieldedDerives(numbers: Numbers, limit: nat, tokens: seq<Lexeme>, c: nat, depth: nat, operand: Syntax,
                       q: Query, next: nat)
    requires c + 1 < |tokens| && tokens[c].kind.Word? && IsWord(tokens[c].text) && tokens[c + 1].kind.Colon?
    requires Derives(numbers, limit, tokens, c + 2, depth, operand, q, next) && IsOperand(operand)
    ensures Derives(numbers, limit, tokens, c, depth, Fielded(tokens[c].text, operand),
                    FieldQuery(tokens[c].text, q), next)
  {
    FieldedIs(numbers, tokens[c].text, operand);
    hide Yield, Proper, Tree, Nesting, Stands, IsOperand, IsWord;
    var name := Piece(Word, tokens[c].text);
    assert [name, COLON] == [name] + [COLON];
    StandsOne(tokens, c, name);
    StandsOne(tokens, c + 1, COLON);
    StandsSplit(tokens, c, [name], [COLON]);
    StandsSplit(tokens, c, [name, COLON], Yield(operand));
  }

  lemma FromRange(numbers: Numbers, limit: nat, tokens: seq<Lexeme>, c: nat, depth: nat) returns (s: Syntax)
    requires Ended(tokens) && c + 2 < |tokens| && WellLexed(tokens) && depth <= limit
    requires tokens[c].kind.Word? && tokens[c + 1].kind.Colon? && tokens[c + 2].kind.LeftBracket?
    requires PRange(tokens, tokens[c], c + 2).Ok?
    ensures var (q, next) := PRange(tokens, tokens[c], c + 2).value;
      Derives(numbers, limit, tokens, c, depth, s, q, next) && IsPrimary(s)
  {
    hide IsWord;
    s := RangeLeaf(tokens[c].text, tokens[c + 3].text, tokens[c + 5].text);
    BoundIsRead(tokens[c + 3]);
    BoundIsRead(tokens[c + 5]);
    var own := Yield(s);
    forall i | 0 <= i < |own| ensures Reads(tokens[c + i], own[i]) {}
  }

  lemma BoundIsRead(token: Lexeme)
    requires IsBound(token.kind)
    requires (token.kind.Word? ==> IsWord(token.text)) && (token.kind.Star? ==> token.text == "*")
    ensures Reads(token, Bound(token.text)) && IsRangeBound(token.text)
  {
    assert IsDelimiter("*"[0]);
  }

  // ---- the two together ----

  /** The lexemes are those of `s`, then the end. */
  ghost predicate IsWritten(numbers: Numbers, limit: nat, tokens: seq<Lexeme>, s: Syntax, q: Query) {
    && Derives(numbers, limit, tokens, 0, 0, s, q, |Yield(s)|)
    && |Yield(s)| < |tokens| && tokens[|Yield(s)|].kind.End?
  }

  /** The parser returns a tree if and only if the lexemes are proper syntax for it. */
  lemma ParsesIff(numbers: Numbers, limit: nat, tokens: seq<Lexeme>, q: Query)
    requires Ended(tokens) && WellLexed(tokens)
    ensures ParsedQuery(numbers, limit, tokens) == Ok(q) <==> exists s :: IsWritten(numbers, limit, tokens, s, q)
  {
    hide POr, WellLexed;
    if ParsedQuery(numbers, limit, tokens) == Ok(q) {
      var s := FromOr(numbers, limit, tokens, 0, 0);
      assert IsWritten(numbers, limit, tokens, s, q);
    }
    if s :| IsWritten(numbers, limit, tokens, s, q) { WrittenParses(numbers, limit, tokens, s, q); }
  }

  lemma WrittenParses(numbers: Numbers, limit: nat, tokens: seq<Lexeme>, s: Syntax, q: Query)
    requires Ended(tokens) && IsWritten(numbers, limit, tokens, s, q)
    ensures ParsedQuery(numbers, limit, tokens) == Ok(q)
  {
    hide POr, Proper, PAnd;
    QueryParses(numbers, limit, tokens, 0, 0, s);
    StandsFirst(tokens, 0, Yield(s));
    FirstPiece(s);
  }
}

/** The recursive-descent query parser (src/query/parser.cpp). */
module Parsing {
  import opened Basics
  import opened Queries
  import opened Lexing

  /** How a boost reads: the whole text as a finite number. */
  type Numbers = string -> Option<real>

  type Parsed = Result<(Query, nat), ParseError>

  /** What the lexer guarantees. */
  predicate Ended(tokens: seq<Lexeme>) {
    |tokens| > 0 && tokens[|tokens| - 1].kind == End
  }

  predicate BeginsPrimary(kind: TokenKind) {
    kind.Word? || kind.Phrase? || kind.LeftParenthesis? || kind.Star?
  }

  function Failed(code: ParseErrorCode, token: Lexeme): Parsed {
    Err(ParseError(code, token.position))
  }

  predicate IsBlank(c: char) { c == ' ' || c == '\t' || c == '\r' || c == '\n' }

  predicate Blank(s: string) { forall i :: 0 <= i < |s| ==> IsBlank(s[i]) }

  /** The grammar, from a position in the lexemes and a depth of open parentheses. Every alternative
      that succeeds has consumed at least one lexeme and stops before the last. */
  function POr(numbers: Numbers, limit: nat, tokens: seq<Lexeme>, c: nat, depth: nat): (r: Parsed)
    requires Ended(tokens) && c < |tokens|
    ensures r.Ok? ==> c < r.value.1 < |tokens|
    decreases |tokens| - c, 7
  {
    match PAnd(numbers, limit, tokens, c, depth)
    case Err(e) => Err(e)
    case Ok((left, next)) => POrRest(numbers, limit, tokens, left, next, depth)
  }

  function POrRest(numbers: Numbers, limit: nat, tokens: seq<Lexeme>, left: Query, c: nat, depth: nat): (r: Parsed)
    requires Ended(tokens) && c < |tokens|
    ensures r.Ok? ==> c <= r.value.1 < |tokens|
    decreases |tokens| - c, 7
  {
    if tokens[c].kind.OrOperator? || BeginsPrimary(tokens[c].kind) then
      match PAnd(numbers, limit, tokens, if tokens[c].kind.OrOperator? then c + 1 else c, depth)
      case Err(e) => Err(e)
      case Ok((right, next)) => POrRest(numbers, limit, tokens, OrQuery(left, right), next, depth)
    else Ok((left, c))
  }

  function PAnd(numbers: Numbers, limit: nat, tokens: seq<Lexeme>, c: nat, depth: nat): (r: Parsed)
    requires Ended(tokens) && c < |tokens|
    ensures r.Ok? ==> c < r.value.1 < |tokens|
    decreases |tokens| - c, 6
  {
    match PUnary(numbers, limit, tokens, c, depth)
    case Err(e) => Err(e)
    case Ok((left, next)) => PAndRest(numbers, limit, tokens, left, next, depth)
  }

  function PAndRest(numbers: Numbers, limit: nat, tokens: seq<Lexeme>, left: Query, c: nat, depth: nat): (r: Parsed)
    requires Ended(tokens) && c < |tokens|
    ensures r.Ok? ==> c <= r.value.1 < |tokens|
    decreases |tokens| - c, 6
  {
    if tokens[c].kind.AndOperator? then
      match PUnary(numbers, limit, tokens, c + 1, depth)
      case Err(e) => Err(e)
      case Ok((right, next)) => PAndRest(numbers, limit, tokens, AndQuery(left, right), next, depth)
    else Ok((left, c))
  }

  function PUnary(numbers: Numbers, limit: nat, tokens: seq<Lexeme>, c: nat, depth: nat): (r: Parsed)
    requires Ended(tokens) && c < |tokens|
    ensures r.Ok? ==> c < r.value.1 < |tokens|
    decreases |tokens| - c, 5
  {
    if tokens[c].kind.NotOperator? then
      match PUnary(numbers, limit, tokens, c + 1, depth)
      case Err(e) => Err(e)
      case Ok((operand, next)) => Ok((NotQuery(operand), next))
    else PPostfix(numbers, limit, tokens, c, depth)
  }

  function PPostfix(numbers: Numbers, limit: nat, tokens: seq<Lexeme>, c: nat, depth: nat): (r: Parsed)
    requires Ended(tokens) && c < |tokens|
    ensures r.Ok? ==> c < r.value.1 < |tokens|
    decreases |tokens| - c, 4
  {
    match PPrimary(numbers, limit, tokens, c, depth)
    case Err(e) => Err(e)
    case Ok((query, next)) => PBoosts(numbers, tokens, query, next)
  }

  function PBoosts(numbers: Numbers, tokens: seq<Lexeme>, query: Query, c: nat): (r: Parsed)
    requires Ended(tokens) && c < |tokens|
    ensures r.Ok? ==> c <= r.value.1 < |tokens|
    decreases |tokens| - c
  {
    if !tokens[c].kind.Caret? then Ok((query, c))
    else if !tokens[c + 1].kind.Word? then Failed(InvalidBoost, tokens[c + 1])
    else
      match numbers(tokens[c + 1].text)
      case None => Failed(InvalidBoost, tokens[c + 1])
      case Some(boost) =>
        if boost <= 0.0 then Failed(InvalidBoost, tokens[c + 1])
        else PBoosts(numbers, tokens, BoostQuery(query, boost), c + 2)
  }

  function PFieldOperand(numbers: Numbers, limit: nat, tokens: seq<Lexeme>, c: nat, depth: nat): (r: Parsed)
    requires Ended(tokens) && c < |tokens|
    ensures r.Ok? ==> c < r.value.1 < |tokens|
    decreases |tokens| - c, 4
  {
    if tokens[c].kind.NotOperator? then
      match PFieldOperand(numbers, limit, tokens, c + 1, depth)
      case Err(e) => Err(e)
      case Ok((operand, next)) => Ok((NotQuery(operand), next))
    else PPrimary(numbers, limit, tokens, c, depth)
  }

  function PPrimary(numbers: Numbers, limit: nat, tokens: seq<Lexeme>, c: nat, depth: nat): (r: Parsed)
    requires Ended(tokens) && c < |tokens|
    ensures r.Ok? ==> c < r.value.1 < |tokens|
    decreases |tokens| - c, 3
  {
    var token := tokens[c];
    match token.kind
    case Word =>
      if !tokens[c + 1].kind.Colon? then Ok((TermQuery(token.text), c + 1))
      else if tokens[c + 2].kind.LeftBracket? then PRange(tokens, token, c + 2)
      else if !BeginsPrimary(tokens[c + 2].kind) && !tokens[c + 2].kind.NotOperator?
        then Failed(ExpectedExpression, tokens[c + 2])
      else
        (match PFieldOperand(numbers, limit, tokens, c + 2, depth)
         case Err(e) => Err(e)
         case Ok((child, next)) => Ok((FieldQuery(token.text, child), next)))
    case Phrase => if Blank(token.text) then Failed(ExpectedExpression, token) else Ok((PhraseQuery(token.text), c + 1))
    case Star => Ok((MatchAllQuery, c + 1))
    case LeftParenthesis =>
      if depth >= limit then Failed(NestingTooDeep, token)
      else
        (match POr(numbers, limit, tokens, c + 1, depth + 1)
         case Err(e) => Err(e)
         case Ok((inner, next)) =>
           if !tokens[next].kind.RightParenthesis? then Failed(UnexpectedToken, tokens[next])
           else Ok((inner, next + 1)))
    case _ => Failed(ExpectedExpression, token)
  }

  predicate IsBound(kind: TokenKind) { kind.Word? || kind.Star? }

  /** A range, from its opening bracket. */
  function PRange(tokens: seq<Lexeme>, field: Lexeme, c: nat): (r: Parsed)
    requires Ended(tokens) && c < |tokens| && tokens[c].kind.LeftBracket?
    ensures r.Ok? ==> c < r.value.1 < |tokens|
  {
    if !IsBound(tokens[c + 1].kind) then Failed(ExpectedRangeBound, tokens[c + 1])
    else if !tokens[c + 2].kind.ToOperator? then Failed(ExpectedRangeBound, tokens[c + 2])
    else if !IsBound(tokens[c + 3].kind) then Failed(ExpectedRangeBound, tokens[c + 3])
    else if !tokens[c + 4].kind.RightBracket? then Failed(UnexpectedToken, tokens[c + 4])
    else Ok((RangeFilter(field.text, tokens[c + 1].text, tokens[c + 3].text, true, true), c + 5))
  }

  function ParsedQuery(numbers: Numbers, limit: nat, tokens: seq<Lexeme>): Result<Query, ParseError>
    requires Ended(tokens)
  {
    if tokens[0].kind.End? then Err(ParseError(EmptyQuery, tokens[0].position))
    else
      match POr(numbers, limit, tokens, 0, 0)
      case Err(e) => Err(e)
      case Ok((query, next)) =>
        if !tokens[next].kind.End? then Err(ParseError(UnexpectedToken, tokens[next].position)) else Ok(query)
  }

  /** Lexing, then parsing. */
  function ParsedText(numbers: Numbers, limits: QueryLimits, input: string): Result<Query, ParseError> {
    match Lexed(limits, input)
    case Err(e) => Err(e)
    case Ok(tokens) =>
      LexedEnds(limits, |input|, input, 0);
      ParsedQuery(numbers, limits.nestingDepth, tokens)
  }

  // ---- the parser ----

  class Parser {
    const numbers: Numbers
    const tokens: seq<Lexeme>
    const maximumDepth: nat
    var cursor: nat
    var depth: nat

    constructor (numbers: Numbers, tokens: seq<Lexeme>, maximumDepth: nat)
      requires Ended(tokens)
      ensures Valid() && cursor == 0 && depth == 0
      ensures this.numbers == numbers && this.tokens == tokens && this.maximumDepth == maximumDepth
    {
      this.numbers, this.tokens, this.maximumDepth, cursor, depth := numbers, tokens, maximumDepth, 0, 0;
    }

    /** The cursor never leaves the lexemes. */
    predicate Valid()
      reads this
    {
      Ended(tokens) && cursor < |tokens|
    }

    /** The result is what the grammar gives, and on success the cursor is behind it. */
    ghost predicate Follows(expected: Parsed, open: nat, r: Result<Query, ParseError>)
      reads this
    {
      && Valid() && depth == open
      && match expected
         case Err(e) => r == Err(e)
         case Ok((query, next)) => r == Ok(query) && cursor == next
    }

    method ParseOr() returns (r: Result<Query, ParseError>)
      requires Valid()
      modifies this
      ensures Follows(POr(numbers, maximumDepth, tokens, old(cursor), old(depth)), old(depth), r)
      decreases |tokens| - cursor, 7
    {
      hide PAnd;
      ghost var expected := POr(numbers, maximumDepth, tokens, cursor, depth);
      ghost var start := cursor;
      r := ParseAnd();
      if r.Err? { return; }
      while tokens[cursor].kind.OrOperator? || BeginsPrimary(tokens[cursor].kind)
        invariant Valid() && depth == old(depth) && cursor > start && r.Ok?
        invariant POrRest(numbers, maximumDepth, tokens, r.value, cursor, depth) == expected
        decreases |tokens| - cursor
      {
        if tokens[cursor].kind.OrOperator? { cursor := cursor + 1; }
        var right := ParseAnd();
        if right.Err? { return right; }
        r := Ok(OrQuery(r.value, right.value));
      }
    }

    method ParseAnd() returns (r: Result<Query, ParseError>)
      requires Valid()
      modifies this
      ensures Follows(PAnd(numbers, maximumDepth, tokens, old(cursor), old(depth)), old(depth), r)
      decreases |tokens| - cursor, 6
    {
      hide PUnary;
      ghost var expected := PAnd(numbers, maximumDepth, tokens, cursor, depth);
      ghost var start := cursor;
      r := ParseUnary();
      if r.Err? { return; }
      while tokens[cursor].kind.AndOperator?
        invariant Valid() && depth == old(depth) && cursor > start && r.Ok?
        invariant PAndRest(numbers, maximumDepth, tokens, r.value, cursor, depth) == expected
        decreases |tokens| - cursor
      {
        cursor := cursor + 1;
        var right := ParseUnary();
        if right.Err? { return right; }
        r := Ok(AndQuery(r.value, right.value));
      }
    }

    method ParseUnary() returns (r: Result<Query, ParseError>)
      requires Valid()
      modifies this
      ensures Follows(PUnary(numbers, maximumDepth, tokens, old(cursor), old(depth)), old(depth), r)
      decreases |tokens| - cursor, 5
    {
      hide PPostfix;
      if tokens[cursor].kind.NotOperator? {
        cursor := cursor + 1;
        var operand := ParseUnary();
        if operand.Err? { return operand; }
        return Ok(NotQuery(operand.value));
      }
      r := ParsePostfix();
    }

    method ParsePostfix() returns (r: Result<Query, ParseError>)
      requires Valid()
      modifies this
      ensures Follows(PPostfix(numbers, maximumDepth, tokens, old(cursor), old(depth)), old(depth), r)
      decreases |tokens| - cursor, 4
    {
      hide PPrimary;
      ghost var expected := PPostfix(numbers, maximumDepth, tokens, cursor, depth);
      r := ParsePrimary();
      if r.Err? { return; }
      while tokens[cursor].kind.Caret?
        invariant Valid() && depth == old(depth) && r.Ok?
        invariant PBoosts(numbers, tokens, r.value, cursor) == expected
        decreases |tokens| - cursor
      {
        cursor := cursor + 1;
        if !tokens[cursor].kind.Word? { return Err(ParseError(InvalidBoost, tokens[cursor].position)); }
        var token := tokens[cursor];
        cursor := cursor + 1;
        var boost := numbers(token.text);
        if boost.None? || boost.value <= 0.0 { return Err(ParseError(InvalidBoost, token.position)); }
        r := Ok(BoostQuery(r.value, boost.value));
      }
    }

    method ParseFieldOperand() returns (r: Result<Query, ParseError>)
      requires Valid()
      modifies this
      ensures Follows(PFieldOperand(numbers, maximumDepth, tokens, old(cursor), old(depth)), old(depth), r)
      decreases |tokens| - cursor, 4
    {
      hide PPrimary;
      if tokens[cursor].kind.NotOperator? {
        cursor := cursor + 1;
        var operand := ParseFieldOperand();
        if operand.Err? { return operand; }
        return Ok(NotQuery(operand.value));
      }
      r := ParsePrimary();
    }

    method ParsePrimary() returns (r: Result<Query, ParseError>)
      requires Valid()
      modifies this
      ensures Follows(PPrimary(numbers, maximumDepth, tokens, old(cursor), old(depth)), old(depth), r)
      decreases |tokens| - cursor, 3
    {
      hide PFieldOperand, POr, Blank;
      var token := tokens[cursor];
      match token.kind {
        case Word =>
          cursor := cursor + 1;
          if !tokens[cursor].kind.Colon? { return Ok(TermQuery(token.text)); }
          cursor := cursor + 1;
          if tokens[cursor].kind.LeftBracket? {
            r := ParseRange(token);
            return;
          }
          if !BeginsPrimary(tokens[cursor].kind) && !tokens[cursor].kind.NotOperator? {
            return Err(ParseError(ExpectedExpression, tokens[cursor].position));
          }
          var child := ParseFieldOperand();
          if child.Err? { return child; }
          return Ok(FieldQuery(token.text, child.value));
        case Phrase =>
          cursor := cursor + 1;
          if Blank(token.text) { return Err(ParseError(ExpectedExpression, token.position)); }
          return Ok(PhraseQuery(token.text));
        case Star =>
          cursor := cursor + 1;
          return Ok(MatchAllQuery);
        case LeftParenthesis =>
          if depth >= maximumDepth { return Err(ParseError(NestingTooDeep, token.position)); }
          cursor := cursor + 1;
          depth := depth + 1;
          var inner := ParseOr();
          depth := depth - 1;
          if inner.Err? { return inner; }
          if !tokens[cursor].kind.RightParenthesis? {
            return Err(ParseError(UnexpectedToken, tokens[cursor].position));
          }
          cursor := cursor + 1;
          return inner;
        case _ => return Err(ParseError(ExpectedExpression, token.position));
      }
    }

    method ParseRange(field: Lexeme) returns (r: Result<Query, ParseError>)
      requires Valid() && tokens[cursor].kind.LeftBracket?
      modifies this
      ensures Follows(PRange(tokens, field, old(cursor)), old(depth), r)
    {
      cursor := cursor + 1;
      if !IsBound(tokens[cursor].kind) { return Err(ParseError(ExpectedRangeBound, tokens[cursor].position)); }
      var lower := tokens[cursor].text;
      cursor := cursor + 1;
      if !tokens[cursor].kind.ToOperator? { return Err(ParseError(ExpectedRangeBound, tokens[cursor].position)); }
      cursor := cursor + 1;
      if !IsBound(tokens[cursor].kind) { return Err(ParseError(ExpectedRangeBound, tokens[cursor].position)); }
      var upper := tokens[cursor].text;
      cursor := cursor + 1;
      if !tokens[cursor].kind.RightBracket? { return Err(ParseError(UnexpectedToken, tokens[cursor].position)); }
      cursor := cursor + 1;
      r := Ok(RangeFilter(field.text, lower, upper, true, true));
    }

    method Run() returns (r: Result<Query, ParseError>)
      requires Valid() && cursor == 0 && depth == 0
      modifies this
      ensures r == ParsedQuery(numbers, maximumDepth, tokens)
    {
      hide POr;
      if tokens[cursor].kind.End? { return Err(ParseError(EmptyQuery, tokens[cursor].position)); }
      r := ParseOr();
      if r.Err? { return; }
      if !tokens[cursor].kind.End? { return Err(ParseError(UnexpectedToken, tokens[cursor].position)); }
    }
  }

  /** `parse`. It terminates and stays within the lexemes on every input. */
  method Parse(numbers: Numbers, input: string, limits: QueryLimits) returns (r: Result<Query, ParseError>)
    ensures r == ParsedText(numbers, limits, input)
  {
    hide LexFrom, ParsedQuery;
    var lexed := Lex(input, limits);
    if lexed.Err? { return Err(lexed.error); }
    LexedEnds(limits, |input|, input, 0);
    var parser := new Parser(numbers, lexed.value, limits.nestingDepth);
    r := parser.Run();
  }
}

/** Lexing query strings (src/query/lexer.cpp). Characters are bytes. */
module Lexing {
  import opened Basics

  datatype TokenKind =
    | Word | Phrase | AndOperator | OrOperator | NotOperator | ToOperator
    | LeftParenthesis | RightParenthesis | Colon | Caret | LeftBracket | RightBracket | Star | End

  datatype Lexeme = Lexeme(kind: TokenKind, text: string, position: nat)

  datatype ParseErrorCode =
    | ResourceLimit | UnexpectedCharacter | UnterminatedPhrase | EmptyQuery | UnexpectedToken | InvalidBoost
    | ExpectedExpression | ExpectedRangeBound | NestingTooDeep

  datatype ParseError = ParseError(code: ParseErrorCode, position: nat)

  datatype QueryLimits = QueryLimits(queryBytes: nat, lexemes: nat, lexemeBytes: nat, nestingDepth: nat)

  // ---- character classes ----

  predicate IsSpace(c: char) {
    c == ' ' || 9 <= c as int <= 13
  }

  /** The kind of a lexeme that is one character long. */
  function Symbol(c: char): Option<TokenKind> {
    if c == '(' then Some(LeftParenthesis)
    else if c == ')' then Some(RightParenthesis)
    else if c == ':' then Some(Colon)
    else if c == '^' then Some(Caret)
    else if c == '[' then Some(LeftBracket)
    else if c == ']' then Some(RightBracket)
    else if c == '*' then Some(Star)
    else None
  }

  predicate IsDelimiter(c: char) {
    IsSpace(c) || Symbol(c).Some? || c == '"'
  }

  function ToLower(c: char): char {
    if 'A' <= c <= 'Z' then (c as int + 32) as char else c
  }

  predicate EqualIgnoringCase(a: string, b: string) {
    |a| == |b| && forall i :: 0 <= i < |a| ==> ToLower(a[i]) == ToLower(b[i])
  }

  function ClassifyWord(w: string): TokenKind {
    if EqualIgnoringCase(w, "AND") then AndOperator
    else if EqualIgnoringCase(w, "OR") then OrOperator
    else if EqualIgnoringCase(w, "NOT") then NotOperator
    else if EqualIgnoringCase(w, "TO") then ToOperator
    else Word
  }

  // ---- the lexemes of a string ----

  /** Length of the leading run without delimiters. */
  function WordLength(s: string): (n: nat)
    ensures n <= |s| && (n < |s| ==> IsDelimiter(s[n])) && forall i :: 0 <= i < n ==> !IsDelimiter(s[i])
  {
    if s == "" || IsDelimiter(s[0]) then 0
    else
      var n := 1 + WordLength(s[1..]);
      assert forall i :: 0 < i < n ==> s[i] == s[1..][i - 1];
      n
  }

  /** The text of a phrase up to its closing quote, and what follows; `at` is the position of `s`. */
  function Unquote(s: string, at: nat, quote: nat): (r: Result<(string, string), ParseError>)
    ensures r.Ok? ==> |r.value.1| < |s|
  {
    if s == "" then Err(ParseError(UnterminatedPhrase, quote))
    else if s[0] == '"' then Ok(("", s[1..]))
    else if s[0] == '\\' then
      if |s| < 2 || (s[1] != '"' && s[1] != '\\') then Err(ParseError(UnexpectedCharacter, at))
      else
        match Unquote(s[2..], at + 2, quote)
        case Err(e) => Err(e)
        case Ok((text, rest)) => Ok(([s[1]] + text, rest))
    else
      match Unquote(s[1..], at + 1, quote)
      case Err(e) => Err(e)
      case Ok((text, rest)) => Ok(([s[0]] + text, rest))
  }

  /** Whether one more lexeme is within the limits. */
  function Admitted(limits: QueryLimits, token: Lexeme, count: nat): Option<ParseError> {
    if |token.text| > limits.lexemeBytes || count >= limits.lexemes
      then Some(ParseError(ResourceLimit, token.position)) else None
  }

  /** The lexemes of `s`, the end of a query of `total` bytes of which `count` lexemes are known. */
  function LexFrom(limits: QueryLimits, total: nat, s: string, count: nat): Result<seq<Lexeme>, ParseError>
    requires |s| <= total
    decreases |s|
  {
    if s == "" then Ok([Lexeme(End, "", total)])
    else if IsSpace(s[0]) then LexFrom(limits, total, s[1..], count)
    else
      match NextLexeme(total, s)
      case Err(e) => Err(e)
      case Ok((token, rest)) =>
        match Admitted(limits, token, count)
        case Some(e) => Err(e)
        case None =>
          match LexFrom(limits, total, rest, count + 1)
          case Err(e) => Err(e)
          case Ok(tokens) => Ok([token] + tokens)
  }

  function NextLexeme(total: nat, s: string): (r: Result<(Lexeme, string), ParseError>)
    requires s != "" && |s| <= total && !IsSpace(s[0])
    ensures r.Ok? ==> |r.value.1| < |s|
  {
    var position := total - |s|;
    match Symbol(s[0])
    case Some(kind) => Ok((Lexeme(kind, [s[0]], position), s[1..]))
    case None =>
      if s[0] == '"' then
        match Unquote(s[1..], position + 1, position)
        case Err(e) => Err(e)
        case Ok((text, rest)) => Ok((Lexeme(Phrase, text, position), rest))
      else
        var n := WordLength(s);
        Ok((Lexeme(ClassifyWord(s[..n]), s[..n], position), s[n..]))
  }

  predicate LimitsValid(limits: QueryLimits) {
    limits.queryBytes != 0 && limits.lexemes != 0 && limits.lexemeBytes != 0 && limits.nestingDepth != 0
  }

  function Lexed(limits: QueryLimits, input: string): Result<seq<Lexeme>, ParseError> {
    if !LimitsValid(limits) then Err(ParseError(ResourceLimit, 0))
    else if |input| > limits.queryBytes then Err(ParseError(ResourceLimit, limits.queryBytes))
    else LexFrom(limits, |input|, input, 0)
  }

  /** The end marker closes every lexed query and nothing else is one. */
  lemma {:induction false} LexedEnds(limits: QueryLimits, total: nat, s: string, count: nat)
    requires |s| <= total && LexFrom(limits, total, s, count).Ok?
    ensures var tokens := LexFrom(limits, total, s, count).value;
      tokens != [] && tokens[|tokens| - 1].kind == End
    decreases |s|
  {
    hide NextLexeme, Admitted;
    if s != "" {
      if IsSpace(s[0]) {
        LexedEnds(limits, total, s[1..], count);
      } else {
        LexedEnds(limits, total, NextLexeme(total, s).value.1, count + 1);
      }
    }
  }

  // ---- the lexer ----

  /** Reads a phrase whose opening quote is just before `start`. */
  method ReadPhrase(input: string, start: nat) returns (r: Result<string, ParseError>, next: nat)
    requires 0 < start <= |input|
    ensures match Unquote(input[start..], start, start - 1)
      case Err(e) => r == Err(e)
      case Ok((text, rest)) => r == Ok(text) && start < next <= |input| && input[next..] == rest
  {
    var text := "";
    next := start;
    ghost var spec := Unquote(input[start..], start, start - 1);
    assert spec.Ok? ==> "" + spec.value.0 == spec.value.0;
    while next < |input|
      invariant start <= next <= |input|
      invariant spec == Behind(text, Unquote(input[next..], next, start - 1))
      decreases |input| - next
    {
      assert input[next..][1..] == input[next + 1..];
      if input[next] == '"' {
        next := next + 1;
        assert text + "" == text;
        return Ok(text), next;
      }
      if input[next] == '\\' {
        if next + 1 >= |input| || (input[next + 1] != '"' && input[next + 1] != '\\') {
          return Err(ParseError(UnexpectedCharacter, next)), next;
        }
        assert input[next..][2..] == input[next + 2..];
        BehindMore(text, input[next + 1], Unquote(input[next + 2..], next + 2, start - 1));
        text := text + [input[next + 1]];
        next := next + 2;
      } else {
        BehindMore(text, input[next], Unquote(input[next + 1..], next + 1, start - 1));
        text := text + [input[next]];
        next := next + 1;
      }
    }
    assert input[next..] == "";
    r := Err(ParseError(UnterminatedPhrase, start - 1));
  }

  /** A result with text in front. */
  function Behind(text: string, r: Result<(string, string), ParseError>): Result<(string, string), ParseError> {
    match r
    case Err(e) => Err(e)
    case Ok((more, rest)) => Ok((text + more, rest))
  }

  lemma BehindMore(text: string, c: char, r: Result<(string, string), ParseError>)
    ensures Behind(text + [c], r) == Behind(text, Behind([c], r))
  {
    if r.Ok? { assert (text + [c]) + r.value.0 == text + ([c] + r.value.0); }
  }

  /** Reads the word that begins at `start`. */
  method ReadWord(input: string, start: nat) returns (next: nat)
    requires start <= |input|
    ensures next == start + WordLength(input[start..])
  {
    next := start;
    while next < |input| && !IsDelimiter(input[next])
      invariant start <= next <= |input| && start + WordLength(input[start..]) == next + WordLength(input[next..])
    {
      assert input[next..][1..] == input[next + 1..];
      next := next + 1;
    }
  }

  function Prefixed(tokens: seq<Lexeme>, r: Result<seq<Lexeme>, ParseError>): Result<seq<Lexeme>, ParseError> {
    match r
    case Err(e) => Err(e)
    case Ok(more) => Ok(tokens + more)
  }

  /** One step of the lexing. */
  lemma LexFromIs(limits: QueryLimits, total: nat, s: string, count: nat)
    requires |s| <= total
    ensures s == "" ==> LexFrom(limits, total, s, count) == Ok([Lexeme(End, "", total)])
    ensures s != "" && IsSpace(s[0]) ==> LexFrom(limits, total, s, count) == LexFrom(limits, total, s[1..], count)
    ensures s != "" && !IsSpace(s[0]) ==>
      LexFrom(limits, total, s, count) ==
        match NextLexeme(total, s)
        case Err(e) => Err(e)
        case Ok((token, rest)) =>
          match Admitted(limits, token, count)
          case Some(e) => Err(e)
          case None => Prefixed([token], LexFrom(limits, total, rest, count + 1))
  {
  }

  /** `lex`: every byte is read once and the result is the list of lexemes, or the first error. */
  method Lex(input: string, limits: QueryLimits) returns (r: Result<seq<Lexeme>, ParseError>)
    ensures r == Lexed(limits, input)
  {
    hide Admitted, Unquote, WordLength, Prefixed, NextLexeme, LexFrom, IsSpace;
    if limits.queryBytes == 0 || limits.lexemes == 0 || limits.lexemeBytes == 0 || limits.nestingDepth == 0 {
      return Err(ParseError(ResourceLimit, 0));
    }
    if |input| > limits.queryBytes { return Err(ParseError(ResourceLimit, limits.queryBytes)); }
    var tokens: seq<Lexeme> := [];
    var cursor: nat := 0;
    assert input[0..] == input;
    PrefixedNothing(LexFrom(limits, |input|, input, 0));
    while cursor < |input|
      invariant cursor <= |input|
      invariant Prefixed(tokens, LexFrom(limits, |input|, input[cursor..], |tokens|))
        == LexFrom(limits, |input|, input, 0)
      decreases |input| - cursor
    {
      ghost var s := input[cursor..];
      assert s[1..] == input[cursor + 1..] && s[0] == input[cursor];
      LexFromIs(limits, |input|, s, |tokens|);
      if IsSpace(input[cursor]) {
        cursor := cursor + 1;
        continue;
      }
      var token, next := ReadLexeme(input, cursor);
      match token {
        case Err(e) =>
          PrefixedError(tokens, e);
          return Err(e);
        case Ok(lexeme) =>
          match Admitted(limits, lexeme, |tokens|) {
            case Some(e) =>
              PrefixedError(tokens, e);
              return Err(e);
            case None =>
              PrefixedMore(tokens, lexeme, LexFrom(limits, |input|, input[next..], |tokens| + 1));
              tokens := tokens + [lexeme];
              cursor := next;
          }
      }
    }
    assert input[cursor..] == "";
    LexFromIs(limits, |input|, "", |tokens|);
    PrefixedEnd(tokens, Lexeme(End, "", |input|));
    r := Ok(tokens + [Lexeme(End, "", |input|)]);
  }

  method ReadLexeme(input: string, cursor: nat) returns (r: Result<Lexeme, ParseError>, next: nat)
    requires cursor < |input| && !IsSpace(input[cursor])
    ensures match NextLexeme(|input|, input[cursor..])
      case Err(e) => r == Err(e)
      case Ok((token, rest)) => r == Ok(token) && cursor < next <= |input| && input[next..] == rest
  {
    hide Unquote, WordLength;
    ghost var s := input[cursor..];
    assert s[1..] == input[cursor + 1..] && s[0] == input[cursor];
    next := cursor + 1;
    match Symbol(input[cursor]) {
      case Some(kind) => return Ok(Lexeme(kind, [input[cursor]], cursor)), next;
      case None =>
    }
    if input[cursor] == '"' {
      var text, after := ReadPhrase(input, next);
      match text {
        case Err(e) => return Err(e), next;
        case Ok(phrase) => return Ok(Lexeme(Phrase, phrase, cursor)), after;
      }
    }
    next := ReadWord(input, cursor);
    assert s[..next - cursor] == input[cursor..next] && s[next - cursor..] == input[next..];
    WordIsNotEmpty(s);
    r := Ok(Lexeme(ClassifyWord(input[cursor..next]), input[cursor..next], cursor));
  }

  lemma WordIsNotEmpty(s: string)
    requires s != "" && !IsDelimiter(s[0])
    ensures WordLength(s) > 0
  {
  }

  lemma PrefixedNothing(r: Result<seq<Lexeme>, ParseError>)
    ensures Prefixed([], r) == r
  {
    if r.Ok? { assert [] + r.value == r.value; }
  }

  lemma PrefixedError(tokens: seq<Lexeme>, e: ParseError)
    ensures Prefixed(tokens, Err(e)) == Err(e)
  {
  }

  lemma PrefixedEnd(tokens: seq<Lexeme>, end: Lexeme)
    ensures Prefixed(tokens, Ok([end])) == Ok(tokens + [end])
  {
  }

  lemma PrefixedMore(tokens: seq<Lexeme>, token: Lexeme, r: Result<seq<Lexeme>, ParseError>)
    ensures Prefixed(tokens + [token], r) == Prefixed(tokens, Prefixed([token], r))
  {
    if r.Ok? { assert (tokens + [token]) + r.value == tokens + ([token] + r.value); }
  }
}

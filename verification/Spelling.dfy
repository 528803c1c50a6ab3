/** How the lexemes of a query are spelled: white space anywhere between them and necessarily between two
    words, operators in any case, phrases with escapes. The lexer reads exactly that. */
module Spelling {
  import opened Basics
  import opened Lexing
  import opened Grammar

  // ---- one lexeme ----

  function EscapeTo(text: string, rest: string): string {
    if text == "" then rest
    else if text[0] == '"' || text[0] == '\\' then "\\" + ([text[0]] + EscapeTo(text[1..], rest))
    else [text[0]] + EscapeTo(text[1..], rest)
  }

  predicate IsOperator(kind: TokenKind) {
    kind.AndOperator? || kind.OrOperator? || kind.NotOperator? || kind.ToOperator?
  }

  /** A word and the next must be kept apart. */
  predicate IsWordy(kind: TokenKind) { kind.Word? || IsOperator(kind) }

  /** The text is a way to write the lexeme. */
  predicate Writes(w: string, p: Piece) {
    if p.kind.Word? then w == p.text && IsWord(w)
    else if p.kind.Phrase? then w == "\"" + EscapeTo(p.text, "\"")
    else if IsOperator(p.kind) then EqualIgnoringCase(w, p.text) && ClassifyWord(w) == p.kind
    else w == p.text && |w| == 1 && Symbol(w[0]) == Some(p.kind)
  }

  /** What may follow a word. */
  predicate Separates(s: string) { s == "" || IsDelimiter(s[0]) }

  /** The text spells the lexemes. */
  ghost predicate Spells(s: string, pieces: seq<Piece>)
    decreases |s|
  {
    if s == "" then pieces == []
    else if IsSpace(s[0]) then Spells(s[1..], pieces)
    else pieces != [] && exists n: nat ::
      0 < n <= |s| && StartsWith(s, n, pieces[0]) && Spells(s[n..], pieces[1..])
  }

  /** The first `n` characters write the lexeme, and it ends there. */
  predicate StartsWith(s: string, n: nat, p: Piece) {
    0 < n <= |s| && Writes(s[..n], p) && (IsWordy(p.kind) ==> Separates(s[n..]))
  }

  // ---- what is spelled is lexed ----

  lemma {:induction false} WordLengthOf(w: string, rest: string)
    requires (forall i :: 0 <= i < |w| ==> !IsDelimiter(w[i])) && Separates(rest)
    ensures WordLength(w + rest) == |w|
  {
    if w == "" {
      assert w + rest == rest;
    } else {
      assert (w + rest)[1..] == w[1..] + rest;
      WordLengthOf(w[1..], rest);
    }
  }

  lemma {:induction false} EscapeAppends(text: string, end: string, rest: string)
    ensures EscapeTo(text, end) + rest == EscapeTo(text, end + rest)
    decreases |text|
  {
    if text != "" {
      EscapeAppends(text[1..], end, rest);
      if text[0] == '"' || text[0] == '\\' {
        assert ("\\" + ([text[0]] + EscapeTo(text[1..], end))) + rest
          == "\\" + ([text[0]] + (EscapeTo(text[1..], end) + rest));
      } else {
        assert ([text[0]] + EscapeTo(text[1..], end)) + rest == [text[0]] + (EscapeTo(text[1..], end) + rest);
      }
    }
  }

  lemma {:induction false} UnquoteEscaped(text: string, rest: string, at: nat, quote: nat)
    ensures Unquote(EscapeTo(text, "\"" + rest), at, quote) == Ok((text, rest))
    decreases |text|
  {
    var s := EscapeTo(text, "\"" + rest);
    if text == "" {
      assert s[1..] == rest;
    } else {
      var tail := EscapeTo(text[1..], "\"" + rest);
      assert text == [text[0]] + text[1..];
      if text[0] == '"' || text[0] == '\\' {
        assert s[1] == text[0] && s[2..] == tail;
        UnquoteEscaped(text[1..], rest, at + 2, quote);
      } else {
        assert s[1..] == tail;
        UnquoteEscaped(text[1..], rest, at + 1, quote);
      }
    }
  }

  lemma OperatorIsWord(w: string)
    requires IsOperator(ClassifyWord(w))
    ensures w != "" && forall i :: 0 <= i < |w| ==> !IsDelimiter(w[i])
  {
    var o := match ClassifyWord(w) case AndOperator => "AND" case OrOperator => "OR" case NotOperator => "NOT"
                                   case _ => "TO";
    assert EqualIgnoringCase(w, o);
    forall i | 0 <= i < |w| ensures !IsDelimiter(w[i]) { assert ToLower(w[i]) == ToLower(o[i]); }
  }

  /** A text that begins with a way to write a lexeme yields it first. */
  lemma NextIs(total: nat, s: string, n: nat, p: Piece)
    requires |s| <= total && StartsWith(s, n, p) && !IsSpace(s[0])
    ensures NextLexeme(total, s).Ok? && NextLexeme(total, s).value.1 == s[n..]
    ensures var token := NextLexeme(total, s).value.0;
      Reads(token, p) && |token.text| == |p.text|
  {
    hide Unquote, WordLength, ClassifyWord, EqualIgnoringCase, EscapeTo;
    var w, rest := s[..n], s[n..];
    assert s == w + rest && s[0] == w[0];
    if IsWordy(p.kind) {
      if p.kind.Word? {} else {
        OperatorIsWord(w);
        SameLength(w, p.text);
      }
      WordLengthOf(w, rest);
      assert !IsDelimiter(w[0]);
    } else if p.kind.Phrase? {
      PhraseIs(total, s, n, p.text);
    } else {
      assert s[1..] == rest;
    }
  }

  lemma SameLength(a: string, b: string)
    requires EqualIgnoringCase(a, b)
    ensures |a| == |b|
  {
  }

  lemma PhraseIs(total: nat, s: string, n: nat, text: string)
    requires 0 < n <= |s| <= total && s[..n] == "\"" + EscapeTo(text, "\"")
    ensures s[0] == '"' && Unquote(s[1..], total - |s| + 1, total - |s|) == Ok((text, s[n..]))
  {
    var rest := s[n..];
    EscapeAppends(text, "\"", rest);
    assert s == s[..n] + rest;
    assert s[1..] == EscapeTo(text, "\"" + rest);
    UnquoteEscaped(text, rest, total - |s| + 1, total - |s|);
  }

  ghost predicate Fits(limits: QueryLimits, pieces: seq<Piece>) {
    forall i :: 0 <= i < |pieces| ==> |pieces[i].text| <= limits.lexemeBytes
  }

  /** The text lexes to these lexemes and the end, within the limits. */
  ghost predicate Lexes(limits: QueryLimits, total: nat, s: string, count: nat, pieces: seq<Piece>) {
    && |s| <= total && LexFrom(limits, total, s, count).Ok?
    && var tokens := LexFrom(limits, total, s, count).value;
       |tokens| == |pieces| + 1 && Stands(tokens, 0, pieces) && tokens[|pieces|].kind.End?
  }

  lemma LexOne(limits: QueryLimits, total: nat, s: string, count: nat, n: nat, p: Piece, pieces: seq<Piece>)
    requires |s| <= total && StartsWith(s, n, p) && !IsSpace(s[0])
    requires |p.text| <= limits.lexemeBytes && count < limits.lexemes && Lexes(limits, total, s[n..], count + 1, pieces)
    ensures Lexes(limits, total, s, count, [p] + pieces)
  {
    NextIs(total, s, n, p);
    hide NextLexeme, StartsWith, Reads;
    var token := NextLexeme(total, s).value.0;
    var rest := LexFrom(limits, total, s[n..], count + 1).value;
    var tokens := [token] + rest;
    LexFromIs(limits, total, s, count);
    assert LexFrom(limits, total, s, count) == Ok(tokens);
    forall i | 0 <= i < |[p] + pieces| ensures Reads(tokens[0 + i], ([p] + pieces)[i]) {
      if i > 0 { assert Reads(rest[0 + (i - 1)], pieces[i - 1]); }
    }
  }

  /** Whatever spells lexemes within the limits lexes to them. */
  lemma {:induction false} SpelledLexes(limits: QueryLimits, total: nat, s: string, count: nat, pieces: seq<Piece>)
    requires Spells(s, pieces) && |s| <= total && Fits(limits, pieces) && count + |pieces| <= limits.lexemes
    ensures Lexes(limits, total, s, count, pieces)
    decreases |s|
  {
    hide StartsWith, IsSpace, NextLexeme, Reads;
    LexFromIs(limits, total, s, count);
    if s != "" {
      if IsSpace(s[0]) {
        SpelledLexes(limits, total, s[1..], count, pieces);
      } else {
        var n: nat :| 0 < n <= |s| && StartsWith(s, n, pieces[0]) && Spells(s[n..], pieces[1..]);
        SpelledLexes(limits, total, s[n..], count + 1, pieces[1..]);
        LexOne(limits, total, s, count, n, pieces[0], pieces[1..]);
        assert [pieces[0]] + pieces[1..] == pieces;
      }
    }
  }

  lemma Starts(s: string, n: nat, p: Piece)
    requires StartsWith(s, n, p)
    ensures 0 < n <= |s|
  {
  }

  // ---- what is lexed was spelled ----

  function PieceOf(token: Lexeme): Piece { Piece(token.kind, token.text) }

  function PiecesOf(tokens: seq<Lexeme>): (r: seq<Piece>)
    ensures |r| == |tokens|
  {
    seq(|tokens|, i requires 0 <= i < |tokens| => PieceOf(tokens[i]))
  }

  lemma {:induction false} UnquotedIsEscaped(s: string, at: nat, quote: nat)
    requires Unquote(s, at, quote).Ok?
    ensures var (text, rest) := Unquote(s, at, quote).value; s == EscapeTo(text, "\"" + rest)
    decreases |s|
  {
    var (text, rest) := Unquote(s, at, quote).value;
    if s[0] == '"' {
      assert s == "\"" + s[1..];
    } else if s[0] == '\\' {
      UnquotedIsEscaped(s[2..], at + 2, quote);
      assert s == "\\" + ([s[1]] + s[2..]);
      assert text[1..] == Unquote(s[2..], at + 2, quote).value.0;
    } else {
      UnquotedIsEscaped(s[1..], at + 1, quote);
      assert s == [s[0]] + s[1..];
      assert text[1..] == Unquote(s[1..], at + 1, quote).value.0;
    }
  }

  /** The lexeme read first is written at the beginning of the text. */
  lemma NextIsWritten(total: nat, s: string)
    requires s != "" && |s| <= total && !IsSpace(s[0]) && NextLexeme(total, s).Ok?
    ensures var (token, rest) := NextLexeme(total, s).value;
      && |rest| < |s| && s[|s| - |rest|..] == rest && StartsWith(s, |s| - |rest|, PieceOf(token))
  {
    hide Unquote, WordLength, EscapeTo;
    var (token, rest) := NextLexeme(total, s).value;
    var n := |s| - |rest|;
    if Symbol(s[0]).Some? {
      assert s[..1] == [s[0]];
    } else if s[0] == '"' {
      UnquotedIsEscaped(s[1..], total - |s| + 1, total - |s|);
      EscapeAppends(token.text, "\"", rest);
      var w := "\"" + EscapeTo(token.text, "\"");
      assert s == "\"" + s[1..];
      assert s == w + rest;
      assert s[..n] == w;
    } else {
      WordIsNotEmpty(s);
      EqualToItself(s[..n]);
    }
  }

  lemma EqualToItself(w: string)
    ensures EqualIgnoringCase(w, w)
  {
  }

  /** Everything the lexer accepts is spelled that way and within the limits. */
  lemma {:induction false} LexedIsSpelled(limits: QueryLimits, total: nat, s: string, count: nat)
    requires |s| <= total && LexFrom(limits, total, s, count).Ok?
    ensures var tokens := LexFrom(limits, total, s, count).value;
      && |tokens| > 0 && tokens[|tokens| - 1].kind.End?
      && var pieces := PiecesOf(tokens[..|tokens| - 1]);
         Spells(s, pieces) && Fits(limits, pieces) && (pieces != [] ==> count + |pieces| <= limits.lexemes)
    decreases |s|
  {
    hide NextLexeme, StartsWith, IsSpace;
    LexFromIs(limits, total, s, count);
    if s != "" {
      if IsSpace(s[0]) {
        LexedIsSpelled(limits, total, s[1..], count);
      } else {
        NextIsWritten(total, s);
        var (token, rest) := NextLexeme(total, s).value;
        LexedIsSpelled(limits, total, rest, count + 1);
        var more := LexFrom(limits, total, rest, count + 1).value;
        var tokens := [token] + more;
        assert LexFrom(limits, total, s, count) == Ok(tokens);
        var pieces := PiecesOf(tokens[..|tokens| - 1]);
        assert pieces[0] == PieceOf(token) && pieces[1..] == PiecesOf(more[..|more| - 1]);
        FitsMore(limits, PieceOf(token), PiecesOf(more[..|more| - 1]));
        assert pieces == [PieceOf(token)] + PiecesOf(more[..|more| - 1]);
      }
    }
  }

  lemma FitsMore(limits: QueryLimits, p: Piece, pieces: seq<Piece>)
    requires |p.text| <= limits.lexemeBytes && Fits(limits, pieces)
    ensures Fits(limits, [p] + pieces)
  {
  }

  // ---- positions ----

  /** The lexeme is written where it says, in a text that begins at `base`. */
  ghost predicate StandsIn(s: string, base: nat, token: Lexeme) {
    base <= token.position < base + |s| && Begins(s[token.position - base..], PieceOf(token))
  }

  ghost predicate Begins(s: string, p: Piece) {
    exists n: nat :: StartsWith(s, n, p)
  }

  lemma StandsLater(s: string, base: nat, from: nat, token: Lexeme)
    requires from <= |s| && StandsIn(s[from..], base + from, token)
    ensures StandsIn(s, base, token) && token.position >= base + from
  {
    hide StartsWith;
    assert s[from..][token.position - (base + from)..] == s[token.position - base..];
  }

  /** Every lexeme carries the position at which it is written, so errors point at what they are about;
      positions increase, and the end mark stands behind the text. */
  lemma {:induction false} LexemesStandWhereTheySay(limits: QueryLimits, total: nat, s: string, count: nat)
    requires |s| <= total && LexFrom(limits, total, s, count).Ok?
    ensures var tokens := LexFrom(limits, total, s, count).value;
      && |tokens| > 0 && tokens[|tokens| - 1] == Lexeme(End, "", total)
      && (forall i :: 0 <= i < |tokens| - 1 ==> StandsIn(s, total - |s|, tokens[i]))
      && (forall i, j :: 0 <= i < j < |tokens| ==> tokens[i].position < tokens[j].position)
    decreases |s|
  {
    hide NextLexeme, StartsWith, StandsIn, IsSpace;
    LexFromIs(limits, total, s, count);
    var base := total - |s|;
    if s != "" {
      var tokens := LexFrom(limits, total, s, count).value;
      if IsSpace(s[0]) {
        LexemesStandWhereTheySay(limits, total, s[1..], count);
        forall i | 0 <= i < |tokens| - 1 ensures StandsIn(s, base, tokens[i]) { StandsLater(s, base, 1, tokens[i]); }
      } else {
        NextIsWritten(total, s);
        NextStands(total, s);
        var (token, rest) := NextLexeme(total, s).value;
        LexemesStandWhereTheySay(limits, total, rest, count + 1);
        var more := LexFrom(limits, total, rest, count + 1).value;
        assert tokens == [token] + more;
        forall i | 0 <= i < |tokens| - 1
          ensures StandsIn(s, base, tokens[i]) && (i > 0 ==> tokens[i].position > token.position)
        {
          if i > 0 { StandsLater(s, base, |s| - |rest|, more[i - 1]); }
        }
      }
    }
  }

  lemma NextStands(total: nat, s: string)
    requires s != "" && |s| <= total && !IsSpace(s[0]) && NextLexeme(total, s).Ok?
    ensures var token := NextLexeme(total, s).value.0;
      token.position == total - |s| && StandsIn(s, total - |s|, token)
  {
    NextIsWritten(total, s);
    hide StartsWith, Unquote, WordLength, ClassifyWord;
    assert s[0..] == s;
  }

  // ---- one way to spell ----

  function Written(p: Piece): string {
    if p.kind.Phrase? then "\"" + EscapeTo(p.text, "\"") else p.text
  }

  /** A blank, but not inside brackets, before a colon or around a caret. */
  function Gap(p: Piece, q: Piece): string {
    if p.kind.LeftParenthesis? || p.kind.LeftBracket? || p.kind.Colon? || p.kind.Caret?
      || q.kind.RightParenthesis? || q.kind.RightBracket? || q.kind.Colon? || q.kind.Caret? then ""
    else " "
  }

  function Spell(pieces: seq<Piece>): string {
    if pieces == [] then ""
    else if |pieces| == 1 then Written(pieces[0])
    else Written(pieces[0]) + (Gap(pieces[0], pieces[1]) + Spell(pieces[1..]))
  }

  /** Each lexeme is written by its own text. */
  ghost predicate Writable(pieces: seq<Piece>) {
    forall i :: 0 <= i < |pieces| ==> Writes(Written(pieces[i]), pieces[i])
  }

  lemma WrittenStarts(p: Piece, rest: string)
    requires Writes(Written(p), p) && (IsWordy(p.kind) ==> Separates(rest))
    ensures StartsWith(Written(p) + rest, |Written(p)|, p) && !IsSpace((Written(p) + rest)[0])
  {
    var w := Written(p);
    assert (w + rest)[..|w|] == w && (w + rest)[|w|..] == rest;
    if IsWordy(p.kind) && !p.kind.Word? { OperatorIsWord(w); }
    assert w != "" && (w + rest)[0] == w[0];
  }

  lemma SymbolFirst(pieces: seq<Piece>)
    requires Writable(pieces) && pieces != []
    requires var k := pieces[0].kind; k.RightParenthesis? || k.RightBracket? || k.Colon? || k.Caret?
    ensures Separates(Spell(pieces))
  {
    assert Writes(Written(pieces[0]), pieces[0]);
    var w := pieces[0].text;
    assert IsDelimiter(w[0]);
    assert Spell(pieces)[0] == w[0];
  }

  /** It spells the lexemes. */
  lemma {:induction false} SpellSpells(pieces: seq<Piece>)
    requires Writable(pieces)
    ensures Spells(Spell(pieces), pieces)
    decreases |pieces|
  {
    hide Writes, StartsWith, Separates;
    if pieces != [] {
      var p, more := pieces[0], pieces[1..];
      forall i | 0 <= i < |more| ensures Writes(Written(more[i]), more[i]) {
        assert Writes(Written(pieces[i + 1]), pieces[i + 1]);
      }
      SpellSpells(more);
      var gap := if more == [] then "" else Gap(p, more[0]);
      var rest := gap + Spell(more);
      assert Spell(pieces) == Written(p) + rest;
      assert Writes(Written(p), p) by { assert pieces[0] == p; }
      GapSpells(p, more);
      WrittenStarts(p, rest);
      assert (Written(p) + rest)[|Written(p)|..] == rest;
      Starts(Written(p) + rest, |Written(p)|, p);
    }
  }

  lemma GapSpells(p: Piece, more: seq<Piece>)
    requires Writable(more) && Spells(Spell(more), more)
    ensures var rest := (if more == [] then "" else Gap(p, more[0])) + Spell(more);
      Spells(rest, more) && (IsWordy(p.kind) ==> Separates(rest))
  {
    hide Writes;
    var rest := (if more == [] then "" else Gap(p, more[0])) + Spell(more);
    if more == [] {
      assert rest == "";
    } else if Gap(p, more[0]) == "" {
      assert rest == Spell(more);
      if IsWordy(p.kind) { SymbolFirst(more); }
    } else {
      assert rest == " " + Spell(more) && rest[1..] == Spell(more);
    }
  }
}

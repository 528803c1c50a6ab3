/** What a phrase finds (src/query/executor.cpp:82-98), said of positions and texts alone: passages of a
    document are found in it, and where no position is missing nothing else is. */
module Phrases {
  import opened Basics
  import opened Analysis
  import opened Schemas
  import opened IndexModel
  import opened Plans
  import opened Queries
  import opened Outlines

  // ---- positions relative to each other ----

  /** Some token of the text has this term and stands as far behind token `k` as `distance` says. */
  ghost predicate TermBehind(tokens: seq<Token>, k: nat, t: string, distance: int)
    requires k < |tokens|
  {
    exists j :: 0 <= j < |tokens| && tokens[j].term == t && tokens[j].position - tokens[k].position == distance
  }

  /** The text has, from token `k` on, every term of the phrase at its distance from the first. */
  ghost predicate StandsFrom(tokens: seq<Token>, phrase: seq<Token>, k: nat)
    requires k < |tokens|
  {
    forall i :: 0 <= i < |phrase| ==> TermBehind(tokens, k, phrase[i].term, phrase[i].position - phrase[0].position)
  }

  ghost predicate Stands(tokens: seq<Token>, phrase: seq<Token>) {
    phrase != [] && exists k :: 0 <= k < |tokens| && StandsFrom(tokens, phrase, k)
  }

  /** A phrase occurs if and only if its terms stand somewhere at their distances from each other. */
  lemma OccursIffStands(analyzer: Analyzer, phraseText: string, tokens: seq<Token>)
    requires Analyze(analyzer, phraseText).Some?
    ensures PhraseOccurs(tokens, Analyze(analyzer, phraseText).value)
      <==> Stands(tokens, Analyze(analyzer, phraseText).value)
  {
    var phrase := Analyze(analyzer, phraseText).value;
    hide Analyze;
    AnalyzeIsDisciplined(analyzer, phraseText);
    RelativePositions(tokens, phrase);
  }

  lemma RelativePositions(tokens: seq<Token>, phrase: seq<Token>)
    requires Disciplined(phrase, 0, 0) && forall i :: 0 <= i < |phrase| ==> phrase[i].position < U32_LIMIT
    ensures PhraseOccurs(tokens, phrase) <==> Stands(tokens, phrase)
  {
    if phrase != [] {
      forall i | 0 <= i < |phrase| ensures Offset(phrase, i) == phrase[i].position - phrase[0].position {
        DisciplinedAt(phrase, 0, 0, 0);
      }
      hide Offset, Disciplined;
      forall k | 0 <= k < |tokens|
        ensures PhraseAt(tokens, phrase, tokens[k].position) <==> StandsFrom(tokens, phrase, k)
      {
        forall i | 0 <= i < |phrase|
          ensures OccursAt(tokens, phrase[i].term, tokens[k].position + Offset(phrase, i))
            <==> TermBehind(tokens, k, phrase[i].term, phrase[i].position - phrase[0].position)
        {
        }
      }
    }
  }

  /** Every non-empty stretch of an analysed text, gaps of stop words included, occurs in it as a phrase. */
  lemma SliceOccurs(analyzer: Analyzer, text: string, i: nat, j: nat)
    requires Analyze(analyzer, text).Some? && i < j <= |Analyze(analyzer, text).value|
    ensures PhraseOccurs(Analyze(analyzer, text).value, Analyze(analyzer, text).value[i..j])
  {
    var tokens := Analyze(analyzer, text).value;
    hide Analyze;
    AnalyzeIsDisciplined(analyzer, text);
    var phrase := tokens[i..j];
    forall m | 0 <= m < |phrase| ensures OccursAt(tokens, phrase[m].term, tokens[i].position + Offset(phrase, m)) {
      DisciplinedAt(tokens, 0, 0, i);
      assert phrase[m] == tokens[i + m] && phrase[0] == tokens[i];
      assert Offset(phrase, m) == tokens[i + m].position - tokens[i].position;
    }
    assert PhraseAt(tokens, phrase, tokens[i].position);
  }

  // ---- texts without gaps ----

  /** Positions follow each other one by one. */
  ghost predicate Gapless(tokens: seq<Token>) {
    forall i :: 0 <= i < |tokens| ==> tokens[i].position == tokens[0].position + i
  }

  /** The terms of the phrase are the terms of the text from token `k` on. */
  ghost predicate IsSlice(tokens: seq<Token>, phrase: seq<Token>, k: nat) {
    k + |phrase| <= |tokens| && forall i :: 0 <= i < |phrase| ==> tokens[k + i].term == phrase[i].term
  }

  lemma GaplessOffsets(phrase: seq<Token>)
    requires Gapless(phrase) && |phrase| < U32_LIMIT
    ensures forall i :: 0 <= i < |phrase| ==> Offset(phrase, i) == i
  {
  }

  lemma OccurrenceIsSlice(tokens: seq<Token>, phrase: seq<Token>, k: nat)
    requires Gapless(tokens) && Gapless(phrase) && 0 < |phrase| < U32_LIMIT
    requires k < |tokens| && PhraseAt(tokens, phrase, tokens[k].position)
    ensures IsSlice(tokens, phrase, k)
  {
    GaplessOffsets(phrase);
    hide Offset;
    var last := |phrase| - 1;
    assert OccursAt(tokens, phrase[last].term, tokens[k].position + Offset(phrase, last));
    forall i | 0 <= i < |phrase| ensures k + i < |tokens| && tokens[k + i].term == phrase[i].term {
      assert OccursAt(tokens, phrase[i].term, tokens[k].position + Offset(phrase, i));
    }
  }

  lemma SliceIsOccurrence(tokens: seq<Token>, phrase: seq<Token>, k: nat)
    requires Gapless(tokens) && Gapless(phrase) && 0 < |phrase| < U32_LIMIT && IsSlice(tokens, phrase, k)
    ensures PhraseAt(tokens, phrase, tokens[k].position)
  {
    GaplessOffsets(phrase);
    hide Offset;
    forall i | 0 <= i < |phrase| ensures OccursAt(tokens, phrase[i].term, tokens[k].position + Offset(phrase, i)) {
      assert tokens[k + i].position == tokens[k].position + i;
    }
  }

  /** Without gaps a phrase occurs if and only if its terms are a stretch of the text's terms. */
  lemma GaplessOccursIff(tokens: seq<Token>, phrase: seq<Token>)
    requires Gapless(tokens) && Gapless(phrase) && 0 < |phrase| < U32_LIMIT
    ensures PhraseOccurs(tokens, phrase) <==> exists k :: IsSlice(tokens, phrase, k)
  {
    hide PhraseAt, Gapless, IsSlice;
    if PhraseOccurs(tokens, phrase) {
      var k: nat :| 0 <= k < |tokens| && PhraseAt(tokens, phrase, tokens[k].position);
      OccurrenceIsSlice(tokens, phrase, k);
    }
    if k: nat :| IsSlice(tokens, phrase, k) {
      SliceIsOccurrence(tokens, phrase, k);
      SliceIsWithin(tokens, phrase, k);
    }
  }

  lemma SliceIsWithin(tokens: seq<Token>, phrase: seq<Token>, k: nat)
    requires IsSlice(tokens, phrase, k) && phrase != []
    ensures k < |tokens|
  {
  }

  // ---- passages ----

  /** The tokens counted from another position and offset. */
  function Rebased(tokens: seq<Token>, position: nat, start: nat): (r: seq<Token>)
    requires forall i :: 0 <= i < |tokens| ==>
      position <= tokens[i].position && start <= tokens[i].start && start <= tokens[i].end
    ensures |r| == |tokens|
  {
    seq(|tokens|, i requires 0 <= i < |tokens| =>
        Token(tokens[i].term, tokens[i].position - position, tokens[i].start - start, tokens[i].end - start))
  }

  lemma {:induction false} KeptSplits(a: seq<Token>, b: seq<Token>, stop: set<string>)
    ensures Kept(a + b, stop) == Kept(a, stop) + Kept(b, stop)
    decreases |a|
  {
    if a == [] {
      assert a + b == b;
    } else {
      assert (a + b)[1..] == a[1..] + b;
      KeptSplits(a[1..], b, stop);
    }
  }

  /** The words from one of them on are the words of the text from its start on. */
  lemma {:induction false} WordsFrom(text: string, cursor: nat, position: nat, a: nat)
    requires cursor <= |text| && a < |Words(text, cursor, position)|
    ensures WordsGoOn(text, Words(text, cursor, position), a, position + a)
    decreases |text| - cursor
  {
    hide Words, WordsGoOn, SkipGap, RunEnd, Lower;
    FirstIs(text, cursor, position);
    if a > 0 {
      WordsFrom(text, RunEnd(text, SkipGap(text, cursor)), position + 1, a - 1);
      LaterWords(text, Words(text, cursor, position), a, position + a);
    }
  }

  /** Word `a` has this position, ends where the text has no word byte, and the words from it on are those
      that begin where it does. */
  ghost predicate WordsGoOn(text: string, w: seq<Token>, a: nat, position: nat) {
    && a < |w| && w[a].position == position && w[a].start < w[a].end <= |text|
    && (w[a].end < |text| ==> !IsTokenByte(text[w[a].end]))
    && w[a..] == Words(text, w[a].start, position)
  }

  lemma LaterWords(text: string, w: seq<Token>, a: nat, position: nat)
    requires 0 < a < |w| && WordsGoOn(text, w[1..], a - 1, position)
    ensures WordsGoOn(text, w, a, position)
  {
    hide Words;
    assert w[1..][a - 1..] == w[a..] && w[1..][a - 1] == w[a];
  }

  lemma FirstIs(text: string, cursor: nat, position: nat)
    requires cursor <= |text| && Words(text, cursor, position) != []
    ensures var w := Words(text, cursor, position);
      var e := RunEnd(text, SkipGap(text, cursor));
      cursor < e <= |text| && w[1..] == Words(text, e, position + 1) && WordsGoOn(text, w, 0, position)
  {
    hide Lower;
    var s, w := SkipGap(text, cursor), Words(text, cursor, position);
    assert SkipGap(text, s) == s;
    assert w[0..] == w == Words(text, s, position);
  }

  /** `sub` are the words of `w` up to `to`, counted from `position` and `from`. */
  ghost predicate IsPart(w: seq<Token>, sub: seq<Token>, from: nat, to: nat, position: nat, q: nat) {
    && |sub| <= |w|
    && (forall k :: 0 <= k < |sub| ==>
          && from <= w[k].start < w[k].end <= to && w[k].position == position + k
          && sub[k] == Token(w[k].term, q + k, w[k].start - from, w[k].end - from))
    && (|sub| < |w| ==> w[|sub|].start >= to)
  }

  /** The words of a passage that ends where a word ends are words of the text. */
  lemma {:induction false} WordsOfPart(text: string, from: nat, to: nat, cursor: nat, position: nat, q: nat)
    requires from <= cursor <= to <= |text| && (to < |text| ==> !IsTokenByte(text[to]))
    ensures IsPart(Words(text, cursor, position), Words(text[from..to], cursor - from, q), from, to, position, q)
    decreases |text| - cursor
  {
    var part := text[from..to];
    var s, e := SkipGap(text, cursor), RunEnd(text, SkipGap(text, cursor));
    var s', e' := SkipGap(part, cursor - from), RunEnd(part, SkipGap(part, cursor - from));
    GapInPart(text, from, to, cursor);
    if s < to {
      RunInPart(text, from, to, s);
      if s != e {
        WordsOfPart(text, from, to, e, position + 1, q + 1);
        FirstWord(text, from, to, cursor, position, q, s, e);
      }
    } else {
      assert s' == e' == |part|;
    }
  }

  lemma SkipIs(text: string, i: nat, s: nat)
    requires i <= s <= |text| && (forall k :: i <= k < s ==> !IsTokenByte(text[k]))
    requires s < |text| ==> IsTokenByte(text[s])
    ensures SkipGap(text, i) == s
  {
  }

  lemma RunIs(text: string, i: nat, e: nat)
    requires i <= e <= |text| && (forall k :: i <= k < e ==> IsTokenByte(text[k]))
    requires e < |text| ==> !IsTokenByte(text[e])
    ensures RunEnd(text, i) == e
  {
  }

  lemma GapInPart(text: string, from: nat, to: nat, cursor: nat)
    requires from <= cursor <= to <= |text|
    ensures SkipGap(text[from..to], cursor - from) + from == Min(SkipGap(text, cursor), to)
  {
    var part, m := text[from..to], Min(SkipGap(text, cursor), to);
    forall k | cursor - from <= k < m - from ensures !IsTokenByte(part[k]) { assert part[k] == text[from + k]; }
    if m < to { assert part[m - from] == text[m]; }
    SkipIs(part, cursor - from, m - from);
  }

  lemma RunInPart(text: string, from: nat, to: nat, s: nat)
    requires from <= s <= to <= |text| && (to < |text| ==> !IsTokenByte(text[to]))
    ensures RunEnd(text, s) <= to && RunEnd(text[from..to], s - from) + from == RunEnd(text, s)
  {
    var part, e := text[from..to], RunEnd(text, s);
    forall k | s - from <= k < e - from && k < |part| ensures IsTokenByte(part[k]) { assert part[k] == text[from + k]; }
    if e < to { assert part[e - from] == text[e]; }
    RunIs(part, s - from, e - from);
  }

  function Min(a: nat, b: nat): nat { if a < b then a else b }

  lemma FirstWord(text: string, from: nat, to: nat, cursor: nat, position: nat, q: nat, s: nat, e: nat)
    requires from <= cursor <= s < e <= to <= |text| && s == SkipGap(text, cursor) && e == RunEnd(text, s)
    requires SkipGap(text[from..to], cursor - from) == s - from && RunEnd(text[from..to], s - from) == e - from
    requires IsPart(Words(text, e, position + 1), Words(text[from..to], e - from, q + 1), from, to, position + 1, q + 1)
    ensures IsPart(Words(text, cursor, position), Words(text[from..to], cursor - from, q), from, to, position, q)
  {
    hide IsPart, Words, Lower, SkipGap, RunEnd;
    var part, term := text[from..to], Lower(text[s..e]);
    SliceOfSlice(text, from, to, s, e);
    WordsBegin(text, cursor, position, s, e);
    WordsBegin(part, cursor - from, q, s - from, e - from);
    FirstInPart(Words(text, e, position + 1), Words(part, e - from, q + 1), from, to, position, q, term, s, e);
  }

  lemma WordsBegin(text: string, cursor: nat, position: nat, s: nat, e: nat)
    requires cursor <= s < e <= |text| && s == SkipGap(text, cursor) && e == RunEnd(text, s)
    ensures Words(text, cursor, position) == [Token(Lower(text[s..e]), position, s, e)] + Words(text, e, position + 1)
  {
    hide Lower, SkipGap, RunEnd;
  }

  lemma SliceOfSlice(text: string, from: nat, to: nat, s: nat, e: nat)
    requires from <= s <= e <= to <= |text|
    ensures text[from..to][s - from..e - from] == text[s..e]
  {
    var part, slice := text[from..to], text[from..to][s - from..e - from];
    forall k | 0 <= k < |slice| ensures slice[k] == text[s..e][k] { assert slice[k] == part[s - from + k]; }
  }

  lemma FirstInPart(w: seq<Token>, sub: seq<Token>, from: nat, to: nat, position: nat, q: nat, term: string, s: nat,
                    e: nat)
    requires IsPart(w, sub, from, to, position + 1, q + 1) && from <= s < e <= to
    ensures IsPart([Token(term, position, s, e)] + w, [Token(term, q, s - from, e - from)] + sub, from, to, position, q)
  {
    var more, moreSub := [Token(term, position, s, e)] + w, [Token(term, q, s - from, e - from)] + sub;
    forall k | 0 <= k < |moreSub|
      ensures from <= more[k].start < more[k].end <= to && more[k].position == position + k
      ensures moreSub[k] == Token(more[k].term, q + k, more[k].start - from, more[k].end - from)
    {
      if k > 0 { assert more[k] == w[k - 1] && moreSub[k] == sub[k - 1]; }
    }
    if |sub| < |w| { assert more[|moreSub|] == w[|sub|]; }
  }

  /** The tokens lie between two offsets and not before a position. */
  ghost predicate Between(tokens: seq<Token>, position: nat, from: nat, to: nat) {
    forall i :: 0 <= i < |tokens| ==>
      position <= tokens[i].position && from <= tokens[i].start && tokens[i].start < tokens[i].end <= to
  }

  lemma RestOfPart(w: seq<Token>, sub: seq<Token>, from: nat, to: nat, position: nat, q: nat)
    requires IsPart(w, sub, from, to, position, q) && w != [] && |w| == |sub|
    ensures IsPart(w[1..], sub[1..], from, to, position + 1, q + 1)
  {
  }

  lemma RebasedPrepends(t: Token, tokens: seq<Token>, position: nat, from: nat, to: nat)
    requires Between(tokens, position, from, to) && position <= t.position && from <= t.start < t.end <= to
    ensures Between([t] + tokens, position, from, to)
    ensures Rebased([t] + tokens, position, from)
      == [Token(t.term, t.position - position, t.start - from, t.end - from)] + Rebased(tokens, position, from)
  {
  }

  /** Stop words are stop words wherever they are counted from. */
  lemma {:induction false} KeptOfPart(w: seq<Token>, sub: seq<Token>, from: nat, to: nat, position: nat, q: nat,
                                      base: nat, stop: set<string>)
    requires IsPart(w, sub, from, to, position, q) && |w| == |sub| && position == base + q
    ensures Between(Kept(w, stop), base, from, to)
    ensures Kept(sub, stop) == Rebased(Kept(w, stop), base, from)
    decreases |w|
  {
    if w != [] {
      RestOfPart(w, sub, from, to, position, q);
      var head, subHead := w[0], sub[0];
      assert subHead == Token(head.term, head.position - base, head.start - from, head.end - from);
      assert base <= head.position && from <= head.start < head.end <= to;
      hide IsPart, Rebased, Between;
      KeptOfPart(w[1..], sub[1..], from, to, position + 1, q + 1, base, stop);
      RebasedPrepends(head, Kept(w[1..], stop), base, from, to);
      if head.term in stop {
        assert Kept(w, stop) == Kept(w[1..], stop) && Kept(sub, stop) == Kept(sub[1..], stop);
      } else {
        assert Kept(w, stop) == [head] + Kept(w[1..], stop) && Kept(sub, stop) == [subHead] + Kept(sub[1..], stop);
      }
    }
  }

  /** A list is cut where an offset falls between two of its tokens. */
  lemma CutAtEnd(tokens: seq<Token>, a: seq<Token>, b: seq<Token>, m: nat, to: nat, p: nat, s: nat)
    requires Disciplined(tokens, p, s) && tokens == a + b && m < |tokens| && tokens[m].end == to
    requires forall i :: 0 <= i < |a| ==> a[i].end <= to
    requires b != [] ==> b[0].start >= to
    ensures |a| == m + 1
  {
    DisciplinedAt(tokens, p, s, m);
    if |a| <= m { DisciplinedAt(tokens, p, s, |a|); } else if m + 1 < |a| { DisciplinedAt(tokens, p, s, m + 1); }
  }

  lemma {:induction false} DisciplinedTail(tokens: seq<Token>, p: nat, s: nat, i: nat)
    requires Disciplined(tokens, p, s) && i <= |tokens|
    ensures Disciplined(tokens[i..], 0, 0)
    decreases i
  {
    if i == 0 {
      DisciplinedFromEarlier(tokens, p, s, 0, 0);
      assert tokens[0..] == tokens;
    } else {
      DisciplinedTail(tokens[1..], tokens[0].position + 1, tokens[0].end, i - 1);
      assert tokens[i..] == tokens[1..][i - 1..];
    }
  }

  /** A kept word and what is kept from there on. */
  lemma KeptFrom(text: string, stop: set<string>, i: nat) returns (a: nat)
    requires i < |Kept(Words(text, 0, 0), stop)|
    ensures var w := Words(text, 0, 0);
      a < |w| && w[a] == Kept(w, stop)[i] && Kept(w[a..], stop) == Kept(w, stop)[i..]
  {
    hide Words, Disciplined, Kept;
    var w := Words(text, 0, 0);
    var tokens := Kept(w, stop);
    WordsAreDisciplined(text, 0, 0);
    KeptIsDisciplined(w, stop, 0, 0);
    KeptIff(w, stop, tokens[i]);
    a :| a < |w| && w[a] == tokens[i];
    var front, back := Kept(w[..a], stop), Kept(w[a..], stop);
    KeptSplits(w[..a], w[a..], stop);
    assert w == w[..a] + w[a..];
    KeptFirst(w[a..], stop);
    assert tokens == front + back && tokens[|front|] == tokens[i];
    DisciplinedAt(tokens, 0, 0, i);
    DisciplinedAt(tokens, 0, 0, |front|);
    assert |front| == i;
  }

  lemma KeptFirst(w: seq<Token>, stop: set<string>)
    requires w != [] && w[0].term !in stop
    ensures Kept(w, stop) != [] && Kept(w, stop)[0] == w[0]
  {
  }

  /** The words behind an offset, for the words of a passage that ends there. */
  lemma RestIsBehind(w: seq<Token>, n: nat, stop: set<string>, to: nat, p: nat, s: nat)
    requires Disciplined(w, p, s) && n <= |w| && (n < |w| ==> w[n].start >= to)
    ensures Kept(w[n..], stop) != [] ==> Kept(w[n..], stop)[0].start >= to
  {
    hide Disciplined;
    var rest := Kept(w[n..], stop);
    if rest != [] {
      KeptIff(w[n..], stop, rest[0]);
      assert rest[0] in w[n..];
      var m :| 0 <= m < |w[n..]| && w[n..][m] == rest[0];
      DisciplinedAt(w, p, s, n);
    }
  }

  /** A token is a word of the text, and the words from there on leave the tokens from there on. */
  lemma TokenIsWord(text: string, stop: set<string>, i: nat)
    requires i < |Kept(Words(text, 0, 0), stop)|
    ensures var tokens := Kept(Words(text, 0, 0), stop);
      var t := tokens[i];
      && t.start < t.end <= |text| && (t.end < |text| ==> !IsTokenByte(text[t.end]))
      && Disciplined(Words(text, t.start, t.position), 0, 0) && Disciplined(tokens[i..], 0, 0)
      && Kept(Words(text, t.start, t.position), stop) == tokens[i..]
  {
    var w := Words(text, 0, 0);
    var a := KeptFrom(text, stop, i);
    WordsAreDisciplined(text, 0, 0);
    KeptIsDisciplined(w, stop, 0, 0);
    WordsFrom(text, 0, 0, a);
    assert WordsGoOn(text, w, a, a);
    hide Words, Kept, Disciplined;
    DisciplinedTail(w, 0, 0, a);
    DisciplinedTail(Kept(w, stop), 0, 0, i);
  }

  /** Analysing a passage that runs from one token to another gives the tokens between them, counted from
      the first. */
  lemma PassageTokens(stop: set<string>, text: string, i: nat, j: nat)
    requires Analyze(Standard(stop), text).Some? && i < j <= |Analyze(Standard(stop), text).value|
    ensures var tokens := Analyze(Standard(stop), text).value;
      var from, to := tokens[i].start, tokens[j - 1].end;
      && from < to <= |text| && Between(tokens[i..j], tokens[i].position, from, to)
      && Analyze(Standard(stop), text[from..to]) == Some(Rebased(tokens[i..j], tokens[i].position, from))
  {
    hide Words, Kept, Disciplined, Rebased, Between, IsPart;
    var tokens := Kept(Words(text, 0, 0), stop);
    var from, to := tokens[i].start, tokens[j - 1].end;
    TokenIsWord(text, stop, i);
    TokenIsWord(text, stop, j - 1);
    if i < j - 1 { DisciplinedAt(tokens[i..], 0, 0, 0); }
    WordsOfPart(text, from, to, from, tokens[i].position, 0);
    PassageCut(tokens[i..], Words(text, from, tokens[i].position), Words(text[from..to], 0, 0), from, to,
               tokens[i].position, stop, j - 1 - i);
    assert tokens[i..][..j - i] == tokens[i..j];
    RebasedFits(tokens[i..j], tokens[i].position, from, to);
  }

  lemma RebasedFits(tokens: seq<Token>, position: nat, from: nat, to: nat)
    requires Between(tokens, position, from, to) && to < U32_LIMIT
    ensures FitsOffsets(Rebased(tokens, position, from))
  {
  }

  lemma PassageCut(tokens: seq<Token>, v: seq<Token>, sub: seq<Token>, from: nat, to: nat, a: nat, stop: set<string>,
                   m: nat)
    requires Disciplined(v, 0, 0) && Disciplined(tokens, 0, 0) && tokens == Kept(v, stop)
    requires IsPart(v, sub, from, to, a, 0) && m < |tokens| && tokens[m].end == to
    ensures Between(tokens[..m + 1], a, from, to) && Kept(sub, stop) == Rebased(tokens[..m + 1], a, from)
  {
    hide Disciplined, IsPart, Kept, Rebased;
    var n := |sub|;
    PartOfFront(v, sub, from, to, a);
    KeptOfPart(v[..n], sub, from, to, a, 0, a, stop);
    assert v == v[..n] + v[n..];
    KeptSplits(v[..n], v[n..], stop);
    RestIsBehind(v, n, stop, to, 0, 0);
    var head, rest := Kept(v[..n], stop), Kept(v[n..], stop);
    CutAtEnd(tokens, head, rest, m, to, 0, 0);
    assert (head + rest)[..m + 1] == head;
  }

  lemma PartOfFront(v: seq<Token>, sub: seq<Token>, from: nat, to: nat, a: nat)
    requires IsPart(v, sub, from, to, a, 0)
    ensures |sub| <= |v| && IsPart(v[..|sub|], sub, from, to, a, 0)
    ensures |sub| < |v| ==> v[|sub|].start >= to
  {
  }

  lemma RebasedStands(tokens: seq<Token>, i: nat, j: nat, position: nat, from: nat, to: nat)
    requires i < j <= |tokens| && Between(tokens[i..j], position, from, to)
    ensures Stands(tokens, Rebased(tokens[i..j], position, from))
  {
    var phrase := Rebased(tokens[i..j], position, from);
    forall m | 0 <= m < |phrase|
      ensures TermBehind(tokens, i, phrase[m].term, phrase[m].position - phrase[0].position)
    {
      assert tokens[i + m].term == phrase[m].term;
    }
    assert StandsFrom(tokens, phrase, i);
  }

  /** Whatever stands between two words of a text, looked for as a phrase, is found there. */
  lemma PassageIsFound(stop: set<string>, text: string, i: nat, j: nat)
    requires Analyze(Standard(stop), text).Some? && i < j <= |Analyze(Standard(stop), text).value|
    ensures var tokens := Analyze(Standard(stop), text).value;
      var from, to := tokens[i].start, tokens[j - 1].end;
      && from < to <= |text| && Analyze(Standard(stop), text[from..to]).Some?
      && PhraseOccurs(tokens, Analyze(Standard(stop), text[from..to]).value)
  {
    hide Analyze, Between, Rebased, Stands, PhraseOccurs;
    var tokens := Analyze(Standard(stop), text).value;
    var from, to := tokens[i].start, tokens[j - 1].end;
    PassageTokens(stop, text, i, j);
    OccursIffStands(Standard(stop), text[from..to], tokens);
    RebasedStands(tokens, i, j, tokens[i].position, from, to);
  }

  /** A document is found by any quoted passage of any of its analysed fields. */
  lemma QuotedPassageMatches(schema: Schema, fields: seq<SearchField>, d: Document, f: string, stop: set<string>,
                             i: nat, j: nat)
    requires HasField(schema, d, f) && schema[f].analyzer == Some(Standard(stop))
    requires i < j <= |FieldTokens(schema, d, f)|
    ensures var tokens := FieldTokens(schema, d, f);
      var from, to := tokens[i].start, tokens[j - 1].end;
      && from < to <= |d.fields[f]|
      && QueryMatches(schema, fields, FieldQuery(f, PhraseQuery(d.fields[f][from..to])), None, d)
  {
    hide PhraseOccurs, Analyze;
    PassageIsFound(stop, d.fields[f], i, j);
  }

  // ---- single words ----

  lemma {:induction false} FrequencyIsPositive(tokens: seq<Token>, t: string)
    ensures Frequency(tokens, t) > 0 <==> exists k :: 0 <= k < |tokens| && tokens[k].term == t
  {
    if tokens != [] {
      var front, last := tokens[..|tokens| - 1], tokens[|tokens| - 1];
      FrequencyIsPositive(front, t);
      assert last == tokens[|tokens| - 1];
      forall k | 0 <= k < |front| ensures front[k] == tokens[k] {}
    }
  }

  /** A document is found by a word if and only if that stands in it as a whole word, in either case. */
  lemma TermFindsWords(schema: Schema, fields: seq<SearchField>, d: Document, f: string, stop: set<string>, w: string)
    requires HasField(schema, d, f) && schema[f].analyzer == Some(Standard(stop))
    requires Analyze(Standard(stop), d.fields[f]).Some? && 0 < |w| < U32_LIMIT && Lower(w) !in stop
    requires forall i :: 0 <= i < |w| ==>
      'a' <= w[i] <= 'z' || 'A' <= w[i] <= 'Z' || '0' <= w[i] <= '9' || w[i] as int >= 128
    ensures QueryMatches(schema, fields, FieldQuery(f, TermQuery(w)), None, d) <==>
      exists t: Token :: IsWord(d.fields[f], t) && t.term == Lower(w)
  {
    hide Analyze, IsWord, Lower, Frequency;
    var tokens := FieldTokens(schema, d, f);
    OneWord(stop, w);
    var word := Token(Lower(w), 0, 0, |w|);
    assert QueryTokens(schema, f, w) == [word] && [word][0].term == Lower(w);
    assert TextMatches(schema, f, w, false, d) <==> Frequency(tokens, Lower(w)) > 0;
    FrequencyIsPositive(tokens, Lower(w));
    forall t: Token | t in tokens ensures IsWord(d.fields[f], t) { TokensAreWords(stop, d.fields[f], t); }
    forall t: Token | IsWord(d.fields[f], t) && t.term == Lower(w)
      ensures exists k :: 0 <= k < |tokens| && tokens[k].term == Lower(w)
    {
      TokensAreWords(stop, d.fields[f], t);
    }
  }

  /** A keyword is found by its whole text only. */
  lemma TermFindsKeyword(schema: Schema, fields: seq<SearchField>, d: Document, f: string, v: string)
    requires HasField(schema, d, f) && schema[f].analyzer == Some(Keyword)
    requires |d.fields[f]| < U32_LIMIT && |v| < U32_LIMIT
    ensures QueryMatches(schema, fields, FieldQuery(f, TermQuery(v)), None, d) <==> v != "" && d.fields[f] == v
  {
    hide Frequency;
    var tokens := FieldTokens(schema, d, f);
    FrequencyIsPositive(tokens, v);
    assert tokens == if d.fields[f] == "" then [] else [Token(d.fields[f], 0, 0, |d.fields[f]|)];
    var word := Token(v, 0, 0, |v|);
    assert v != "" ==> QueryTokens(schema, f, v) == [word] && [word][0].term == v;
    assert TextMatches(schema, f, v, false, d) <==> v != "" && Frequency(tokens, v) > 0;
  }
}

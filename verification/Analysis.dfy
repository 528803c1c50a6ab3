/** Text analysis (src/analysis/analyzer.cpp): the standard and the keyword analyzer. */
module Analysis {
  import opened Basics

  datatype Token = Token(term: string, position: nat, start: nat, end: nat)

  /** An analyzer owned by a schema field. Stop words are held lower-cased. */
  datatype Analyzer = Standard(stopWords: set<string>) | Keyword

  predicate IsTokenByte(c: char) {
    c as int >= 0x80 || '0' <= c <= '9' || 'A' <= c <= 'Z' || 'a' <= c <= 'z'
  }

  function LowerChar(c: char): char {
    if 'A' <= c <= 'Z' then c - 'A' + 'a' else c
  }

  function Lower(s: string): (r: string)
    ensures |r| == |s|
    ensures forall i :: 0 <= i < |s| ==> r[i] == LowerChar(s[i])
  {
    if s == [] then [] else [LowerChar(s[0])] + Lower(s[1..])
  }

  /** Start of the first word at or after `i`. */
  function SkipGap(text: string, i: nat): (s: nat)
    requires i <= |text|
    ensures i <= s <= |text|
    ensures forall k :: i <= k < s ==> !IsTokenByte(text[k])
    ensures s < |text| ==> IsTokenByte(text[s])
    decreases |text| - i
  {
    if i < |text| && !IsTokenByte(text[i]) then SkipGap(text, i + 1) else i
  }

  /** End of the run of word bytes that starts at `i`. */
  function RunEnd(text: string, i: nat): (e: nat)
    requires i <= |text|
    ensures i <= e <= |text|
    ensures forall k :: i <= k < e ==> IsTokenByte(text[k])
    ensures e < |text| ==> !IsTokenByte(text[e])
    decreases |text| - i
  {
    if i < |text| && IsTokenByte(text[i]) then RunEnd(text, i + 1) else i
  }

  /** Every word of `text` from `cursor` on, numbered from `position`, stop words included. */
  function Words(text: string, cursor: nat, position: nat): seq<Token>
    requires cursor <= |text|
    decreases |text| - cursor
  {
    var s := SkipGap(text, cursor);
    var e := RunEnd(text, s);
    if s == e then []
    else [Token(Lower(text[s..e]), position, s, e)] + Words(text, e, position + 1)
  }

  function Kept(words: seq<Token>, stop: set<string>): seq<Token> {
    if words == [] then []
    else (if words[0].term in stop then [] else [words[0]]) + Kept(words[1..], stop)
  }

  predicate FitsOffsets(tokens: seq<Token>) {
    forall i :: 0 <= i < |tokens| ==> tokens[i].end < U32_LIMIT
  }

  /** The tokens an analyzer yields, or `None` where it throws `std::length_error`. */
  function Analyze(analyzer: Analyzer, text: string): Option<seq<Token>> {
    match analyzer
    case Standard(stop) =>
      var kept := Kept(Words(text, 0, 0), stop);
      if FitsOffsets(kept) then Some(kept) else None
    case Keyword =>
      if text == "" then Some([])
      else if |text| < U32_LIMIT then Some([Token(text, 0, 0, |text|)])
      else None
  }

  /** A word is a maximal run of word bytes. */
  predicate IsWord(text: string, t: Token) {
    && t.start < t.end <= |text|
    && (forall k :: t.start <= k < t.end ==> IsTokenByte(text[k]))
    && (t.start > 0 ==> !IsTokenByte(text[t.start - 1]))
    && (t.end < |text| ==> !IsTokenByte(text[t.end]))
    && t.term == Lower(text[t.start..t.end])
  }

  /** `w` lists words of `text` from `cursor` on, apart from each other and numbered from
      `position`, and leaves no word byte of `text` from `cursor` on uncovered. */
  predicate ListsWords(text: string, w: seq<Token>, cursor: nat, position: nat)
    decreases |w|
  {
    if w == [] then NoWordByte(text, cursor, |text|)
    else
      && IsWord(text, w[0]) && w[0].position == position
      && NoWordByte(text, cursor, w[0].start)
      && ListsWords(text, w[1..], w[0].end, position + 1)
  }

  predicate NoWordByte(text: string, from: nat, to: nat) {
    from <= to <= |text| && forall k :: from <= k < to ==> !IsTokenByte(text[k])
  }

  /** `Words` lists exactly the maximal runs of word bytes, in order, numbered consecutively. */
  lemma {:induction false} WordsAreMaximalRuns(text: string, cursor: nat, position: nat)
    requires cursor <= |text|
    requires 0 < cursor < |text| && IsTokenByte(text[cursor]) ==> !IsTokenByte(text[cursor - 1])
    ensures ListsWords(text, Words(text, cursor, position), cursor, position)
    decreases |text| - cursor
  {
    var s := SkipGap(text, cursor);
    var e := RunEnd(text, s);
    if s != e {
      WordsAreMaximalRuns(text, e, position + 1);
      var w := Words(text, cursor, position);
      assert w[0] == Token(Lower(text[s..e]), position, s, e) && w[1..] == Words(text, e, position + 1);
      assert IsWord(text, w[0]);
    }
  }

  /** Every word of the text from `cursor` on is listed. */
  lemma {:induction false} WordIsListed(text: string, w: seq<Token>, cursor: nat, position: nat, t: Token)
    requires ListsWords(text, w, cursor, position) && IsWord(text, t) && cursor <= t.start
    ensures exists k :: 0 <= k < |w| && w[k].term == t.term && w[k].start == t.start && w[k].end == t.end
    decreases |w|
  {
    hide Lower;
    assert IsTokenByte(text[t.start]);
    if w != [] {
      if t.start < w[0].end {
        assert t.start == w[0].start;
        assert t.end == w[0].end;
      } else {
        WordIsListed(text, w[1..], w[0].end, position + 1, t);
        var k :| 0 <= k < |w[1..]| && w[1..][k].term == t.term && w[1..][k].start == t.start && w[1..][k].end == t.end;
        assert w[k + 1] == w[1..][k];
      }
    }
  }

  lemma {:induction false} ListedAreWords(text: string, w: seq<Token>, cursor: nat, position: nat, t: Token)
    requires ListsWords(text, w, cursor, position) && t in w
    ensures IsWord(text, t)
    decreases |w|
  {
    hide IsWord;
    if t != w[0] { ListedAreWords(text, w[1..], w[0].end, position + 1, t); }
  }

  lemma {:induction false} KeptIff(words: seq<Token>, stop: set<string>, t: Token)
    ensures t in Kept(words, stop) <==> t in words && t.term !in stop
  {
    if words != [] {
      KeptIff(words[1..], stop, t);
      assert words == [words[0]] + words[1..];
    }
  }

  lemma WordIsSmall(text: string, t: Token)
    requires IsWord(text, t)
    ensures forall i :: 0 <= i < |t.term| ==> !('A' <= t.term[i] <= 'Z')
  {
  }

  /** The tokens are the words of the text but for the stop words: each is a maximal run of word bytes in
      small letters and no stop word, and every such run is there. */
  lemma TokensAreWords(stop: set<string>, text: string, t: Token)
    requires Analyze(Standard(stop), text).Some?
    ensures var tokens := Analyze(Standard(stop), text).value;
      && (t in tokens ==>
          IsWord(text, t) && t.term !in stop && forall i :: 0 <= i < |t.term| ==> !('A' <= t.term[i] <= 'Z'))
      && (IsWord(text, t) && t.term !in stop ==>
          exists k ::
            && 0 <= k < |tokens| && tokens[k].term == t.term
            && tokens[k].start == t.start && tokens[k].end == t.end)
  {
    var words := Words(text, 0, 0);
    var tokens := Kept(words, stop);
    WordsAreMaximalRuns(text, 0, 0);
    KeptIff(words, stop, t);
    hide Words, Kept, FitsOffsets, Lower, IsWord, ListsWords;
    if t in tokens {
      ListedAreWords(text, words, 0, 0, t);
      WordIsSmall(text, t);
    }
    if IsWord(text, t) && t.term !in stop {
      WordIsListed(text, words, 0, 0, t);
      var k :| 0 <= k < |words| && words[k].term == t.term && words[k].start == t.start && words[k].end == t.end;
      KeptIff(words, stop, words[k]);
      assert words[k] in tokens;
    }
  }

  /** `b` is `a` with some of its capitals made small. */
  predicate SmallerLetters(a: string, b: string) {
    |a| == |b| && forall i :: 0 <= i < |a| ==> b[i] == a[i] || ('A' <= a[i] <= 'Z' && b[i] as int == a[i] as int + 32)
  }

  lemma SameRuns(a: string, b: string, i: nat)
    requires SmallerLetters(a, b) && i <= |a|
    ensures SkipGap(a, i) == SkipGap(b, i) && RunEnd(a, i) == RunEnd(b, i)
    decreases |a| - i
  {
    if i < |a| { SameRuns(a, b, i + 1); }
  }

  lemma SameLower(a: string, b: string)
    requires SmallerLetters(a, b)
    ensures Lower(a) == Lower(b)
  {
  }

  lemma {:induction false} SameWords(a: string, b: string, cursor: nat, position: nat)
    requires SmallerLetters(a, b) && cursor <= |a|
    ensures Words(a, cursor, position) == Words(b, cursor, position)
    decreases |a| - cursor
  {
    SameRuns(a, b, cursor);
    var s := SkipGap(a, cursor);
    SameRuns(a, b, s);
    var e := RunEnd(a, s);
    hide Lower, SkipGap, RunEnd;
    if s != e {
      SameWords(a, b, e, position + 1);
      SameLower(a[s..e], b[s..e]);
    }
  }

  /** The case of letters makes no difference to the standard analyzer. */
  lemma CaseIsIgnored(stop: set<string>, a: string, b: string)
    requires SmallerLetters(a, b)
    ensures Analyze(Standard(stop), a) == Analyze(Standard(stop), b)
  {
    SameWords(a, b, 0, 0);
  }

  /** Letters, digits and bytes beyond ASCII in a row are one token. */
  lemma OneWord(stop: set<string>, w: string)
    requires 0 < |w| < U32_LIMIT && Lower(w) !in stop
    requires forall i :: 0 <= i < |w| ==>
      'a' <= w[i] <= 'z' || 'A' <= w[i] <= 'Z' || '0' <= w[i] <= '9' || w[i] as int >= 128
    ensures Analyze(Standard(stop), w) == Some([Token(Lower(w), 0, 0, |w|)])
  {
    assert SkipGap(w, 0) == 0;
    assert RunEnd(w, 0) == |w| by { assert forall i :: 0 <= i < |w| ==> IsTokenByte(w[i]); }
    assert w[0..|w|] == w;
    assert Words(w, |w|, 1) == [];
    var t := Token(Lower(w), 0, 0, |w|);
    assert Words(w, 0, 0) == [t];
    assert Kept([t], stop) == [t] by { assert [t][1..] == []; }
  }

  /** The discipline every consumer of tokens relies on, from a least position and offset on:
      positions and offsets strictly increase, terms are not empty, positions stay below offsets. */
  predicate Disciplined(tokens: seq<Token>, position: nat, start: nat)
    decreases |tokens|
  {
    tokens == [] ||
    (&& position <= tokens[0].position <= tokens[0].start < tokens[0].end
     && start <= tokens[0].start
     && tokens[0].term != ""
     && Disciplined(tokens[1..], tokens[0].position + 1, tokens[0].end))
  }

  lemma {:induction false} DisciplinedFromEarlier(tokens: seq<Token>, p: nat, s: nat, p': nat, s': nat)
    requires Disciplined(tokens, p, s) && p' <= p && s' <= s
    ensures Disciplined(tokens, p', s')
  {
    if tokens != [] {}
  }

  /** The discipline read by index. */
  lemma {:induction false} DisciplinedAt(tokens: seq<Token>, p: nat, s: nat, i: nat)
    requires Disciplined(tokens, p, s) && i < |tokens|
    ensures p + i <= tokens[i].position <= tokens[i].start < tokens[i].end && s <= tokens[i].start
    ensures tokens[i].term != ""
    ensures forall j :: i < j < |tokens| ==> tokens[i].position < tokens[j].position && tokens[i].end <= tokens[j].start
  {
    var rest := tokens[1..];
    if i > 0 {
      DisciplinedAt(rest, tokens[0].position + 1, tokens[0].end, i - 1);
      assert tokens[i] == rest[i - 1];
      forall j | i < j < |tokens| ensures tokens[i].position < tokens[j].position && tokens[i].end <= tokens[j].start {
        assert tokens[j] == rest[j - 1];
      }
    } else {
      forall j | 0 < j < |tokens| ensures tokens[0].position < tokens[j].position && tokens[0].end <= tokens[j].start {
        DisciplinedAt(rest, tokens[0].position + 1, tokens[0].end, j - 1);
        assert tokens[j] == rest[j - 1];
      }
    }
  }

  lemma {:induction false} KeptIsDisciplined(words: seq<Token>, stop: set<string>, p: nat, s: nat)
    requires Disciplined(words, p, s)
    ensures Disciplined(Kept(words, stop), p, s)
  {
    if words != [] {
      var t, rest := words[0], Kept(words[1..], stop);
      KeptIsDisciplined(words[1..], stop, t.position + 1, t.end);
      DisciplinedFromEarlier(rest, t.position + 1, t.end, p, s);
      if t.term in stop {
        assert Kept(words, stop) == rest;
      } else {
        assert Kept(words, stop) == [t] + rest;
      }
    }
  }

  lemma {:induction false} WordsAreDisciplined(text: string, cursor: nat, position: nat)
    requires position <= cursor <= |text|
    ensures Disciplined(Words(text, cursor, position), position, cursor)
    decreases |text| - cursor
  {
    var s := SkipGap(text, cursor);
    var e := RunEnd(text, s);
    if s != e {
      WordsAreDisciplined(text, e, position + 1);
      var w := Words(text, cursor, position);
      assert w[0] == Token(Lower(text[s..e]), position, s, e) && w[1..] == Words(text, e, position + 1);
    }
  }

  /** Whatever an analyzer returns is disciplined, so the 32-bit position counter never wraps on a
      kept token and a field never exceeds the 32-bit length check of the index. */
  lemma AnalyzeIsDisciplined(analyzer: Analyzer, text: string)
    requires Analyze(analyzer, text).Some?
    ensures var tokens := Analyze(analyzer, text).value;
      && Disciplined(tokens, 0, 0) && |tokens| < U32_LIMIT
      && (forall i :: 0 <= i < |tokens| ==> tokens[i].position < U32_LIMIT)
  {
    var tokens := Analyze(analyzer, text).value;
    if analyzer.Standard? {
      WordsAreDisciplined(text, 0, 0);
      KeptIsDisciplined(Words(text, 0, 0), analyzer.stopWords, 0, 0);
    } else if text != "" {
      assert tokens[1..] == [];
    }
    forall i | 0 <= i < |tokens| ensures i <= tokens[i].position < U32_LIMIT - 1 {
      DisciplinedAt(tokens, 0, 0, i);
    }
    if tokens != [] { assert |tokens| - 1 <= tokens[|tokens| - 1].position; }
  }

  /** The scan so far: `tokens` and the words still ahead make up the analysis of `text`. */
  ghost predicate Scanned(text: string, stop: set<string>, tokens: seq<Token>, cursor: nat, count: nat) {
    && count <= cursor <= |text|
    && FitsOffsets(tokens)
    && Kept(Words(text, 0, 0), stop) == tokens + Kept(Words(text, cursor, count), stop)
  }

  lemma KeptStep(text: string, cursor: nat, count: nat, s: nat, e: nat, stop: set<string>)
    requires cursor <= |text| && s == SkipGap(text, cursor) && e == RunEnd(text, s)
    ensures s == e ==> Kept(Words(text, cursor, count), stop) == []
    ensures s != e ==>
      Kept(Words(text, cursor, count), stop) ==
      (if Lower(text[s..e]) in stop then [] else [Token(Lower(text[s..e]), count, s, e)]) +
      Kept(Words(text, e, count + 1), stop)
  {
    var w := Words(text, cursor, count);
    if s != e {
      assert w[1..] == Words(text, e, count + 1);
    }
  }

  lemma ScanStep(text: string, stop: set<string>, tokens: seq<Token>, cursor: nat, count: nat, s: nat, e: nat)
    requires Scanned(text, stop, tokens, cursor, count)
    requires s == SkipGap(text, cursor) && e == RunEnd(text, s)
    ensures count <= cursor <= |text| && FitsOffsets(tokens)
    ensures s == e ==> Kept(Words(text, 0, 0), stop) == tokens
    ensures s != e && Lower(text[s..e]) in stop ==> Scanned(text, stop, tokens, e, count + 1)
    ensures s != e && Lower(text[s..e]) !in stop ==>
      if e < U32_LIMIT then Scanned(text, stop, tokens + [Token(Lower(text[s..e]), count, s, e)], e, count + 1)
      else !FitsOffsets(Kept(Words(text, 0, 0), stop))
  {
    KeptStep(text, cursor, count, s, e, stop);
    Regroup(Kept(Words(text, 0, 0), stop), tokens, Token(Lower(text[s..e]), count, s, e),
      Kept(Words(text, cursor, count), stop), if s == e then [] else Kept(Words(text, e, count + 1), stop));
  }

  lemma Regroup(all: seq<Token>, tokens: seq<Token>, t: Token, ahead: seq<Token>, rest: seq<Token>)
    requires all == tokens + ahead
    ensures ahead == [] ==> all == tokens
    ensures ahead == [] + rest ==> all == tokens + rest
    ensures ahead == [t] + rest ==> all == (tokens + [t]) + rest && all[|tokens|] == t
  {
  }

  lemma ScanBegins(text: string, stop: set<string>)
    ensures Scanned(text, stop, [], 0, 0)
  {
    hide Words, Kept;
    assert [] + Kept(Words(text, 0, 0), stop) == Kept(Words(text, 0, 0), stop);
  }

  lemma ScanEnds(text: string, stop: set<string>, tokens: seq<Token>, cursor: nat, count: nat)
    requires Scanned(text, stop, tokens, cursor, count) && cursor == |text|
    ensures Kept(Words(text, 0, 0), stop) == tokens && FitsOffsets(tokens)
  {
    ScanStep(text, stop, tokens, cursor, count, cursor, cursor);
  }

  /** The scanning loop of `StandardAnalyzer::analyze`; `position` wraps at 32 bits as in the source. */
  method AnalyzeStandard(stop: set<string>, text: string) returns (r: Option<seq<Token>>)
    ensures r == Analyze(Standard(stop), text)
  {
    hide Scanned, Words, Kept, Lower, SkipGap, RunEnd, FitsOffsets;
    var tokens: seq<Token> := [];
    var position := 0;
    var cursor := 0;
    ghost var count := 0;
    ScanBegins(text, stop);
    while cursor < |text|
      invariant cursor <= |text|
      invariant count < U32_LIMIT ==> position == count
      invariant Scanned(text, stop, tokens, cursor, count)
    {
      var s := SkipBytes(text, cursor, false);
      var e := SkipBytes(text, s, true);
      ScanStep(text, stop, tokens, cursor, count, s, e);
      if s == e { return Some(tokens); }
      var term := Lower(text[s..e]);
      var current := position;
      position := if position + 1 == U32_LIMIT then 0 else position + 1;
      if term !in stop {
        if s >= U32_LIMIT || e >= U32_LIMIT { return None; }
        tokens := tokens + [Token(term, current, s, e)];
      }
      count := count + 1;
      cursor := e;
    }
    ScanEnds(text, stop, tokens, cursor, count);
    r := Some(tokens);
  }

  /** One inner loop of the scan: advance over word bytes, or over the others. */
  method SkipBytes(text: string, from: nat, wordBytes: bool) returns (to: nat)
    requires from <= |text|
    ensures to == if wordBytes then RunEnd(text, from) else SkipGap(text, from)
  {
    to := from;
    while to < |text| && IsTokenByte(text[to]) == wordBytes
      invariant from <= to <= |text|
      invariant wordBytes ==> RunEnd(text, from) == RunEnd(text, to)
      invariant !wordBytes ==> SkipGap(text, from) == SkipGap(text, to)
    {
      to := to + 1;
    }
  }
}

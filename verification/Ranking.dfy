/** BM25 scoring (src/ranking/bm25.cpp) over exact reals; the logarithm is a parameter. */
module Bm25 {
  import opened Basics

  datatype Scorer = Scorer(k1: real, b: real, log1p: real -> real)

  datatype TermStatistics = TermStatistics(
    documentCount: nat,
    documentFrequency: nat,
    termFrequency: nat,
    documentLength: nat,
    averageLength: real)

  datatype Bm25Error = InvalidParameters | InconsistentStatistics | InvalidBoost

  /** `BM25Scorer::create`. */
  function Create(k1: real, b: real, log1p: real -> real): (r: Result<Scorer, Bm25Error>)
    ensures r.Ok? <==> k1 > 0.0 && 0.0 <= b <= 1.0
    ensures r.Ok? ==> ValidScorer(r.value)
  {
    if k1 <= 0.0 || b < 0.0 || b > 1.0 then Err(InvalidParameters) else Ok(Scorer(k1, b, log1p))
  }

  predicate ValidScorer(s: Scorer) {
    s.k1 > 0.0 && 0.0 <= s.b <= 1.0
  }

  /** The guard of `score`: statistics that no corpus can have are refused. */
  predicate Consistent(t: TermStatistics) {
    && t.documentFrequency <= t.documentCount
    && t.averageLength >= 0.0
    && (t.termFrequency > 0 ==>
          && t.documentFrequency > 0 && t.documentCount > 0
          && t.averageLength > 0.0
          && t.termFrequency <= t.documentLength)
  }

  function Idf(s: Scorer, count: nat, frequency: nat): real {
    s.log1p((count as real - frequency as real + 0.5) / (frequency as real + 0.5))
  }

  /** k1 (1 - b + b |d| / avg). */
  function Normalization(s: Scorer, length: nat, average: real): (n: real)
    requires ValidScorer(s) && average > 0.0
    ensures n >= 0.0
  {
    var ratio := length as real / average;
    assert s.b * ratio >= 0.0;
    s.k1 * (1.0 - s.b + s.b * ratio)
  }

  /** tf (k1 + 1) / (tf + normalization). */
  function FrequencyWeight(s: Scorer, tf: nat, length: nat, average: real): real
    requires ValidScorer(s) && tf > 0 && average > 0.0
  {
    tf as real * (s.k1 + 1.0) / (tf as real + Normalization(s, length, average))
  }

  function Score(s: Scorer, t: TermStatistics, fieldBoost: real, queryBoost: real): Result<real, Bm25Error>
    requires ValidScorer(s)
  {
    if fieldBoost < 0.0 || queryBoost < 0.0 then Err(InvalidBoost)
    else if !Consistent(t) then Err(InconsistentStatistics)
    else if t.termFrequency == 0 || t.documentFrequency == 0 || t.documentCount == 0 || fieldBoost == 0.0
      || queryBoost == 0.0
    then Ok(0.0)
    else Ok(Idf(s, t.documentCount, t.documentFrequency)
            * FrequencyWeight(s, t.termFrequency, t.documentLength, t.averageLength) * fieldBoost * queryBoost)
  }

  /** Under a logarithm that is positive for positive arguments every match scores, above zero and
      below the bound that its term's rarity sets, and one more occurrence never lowers the score. */
  lemma ScoreSaturates(s: Scorer, t: TermStatistics, boost: real)
    requires ValidScorer(s) && Consistent(t) && 0 < t.termFrequency < t.documentLength && boost > 0.0
    requires forall x :: x > 0.0 ==> s.log1p(x) > 0.0
    ensures var score, more := Score(s, t, boost, 1.0), Score(s, t.(termFrequency := t.termFrequency + 1), boost, 1.0);
      && score.Ok? && more.Ok?
      && 0.0 < score.value <= more.value <= Idf(s, t.documentCount, t.documentFrequency) * (s.k1 + 1.0) * boost
  {
    hide FrequencyWeight;
    var tf := t.termFrequency;
    ScoreOfConsistent(s, t, boost);
    ScoreOfConsistent(s, t.(termFrequency := tf + 1), boost);
    WeightBounds(s, tf, t.documentLength, t.averageLength);
    WeightBounds(s, tf + 1, t.documentLength, t.averageLength);
    IdfIsPositive(s, t.documentCount, t.documentFrequency);
    hide Score, Idf;
    var idf := Idf(s, t.documentCount, t.documentFrequency);
    var w, v := FrequencyWeight(s, tf, t.documentLength, t.averageLength), FrequencyWeight(s, tf + 1, t.documentLength,
                                t.averageLength);
    Scaled(idf, 0.0, w, boost);
    Scaled(idf, w, v, boost);
    Scaled(idf, v, s.k1 + 1.0, boost);
    assert idf * w > 0.0 && idf * w * boost > 0.0;
  }

  lemma IdfIsPositive(s: Scorer, count: nat, frequency: nat)
    requires frequency <= count && forall x :: x > 0.0 ==> s.log1p(x) > 0.0
    ensures Idf(s, count, frequency) > 0.0
  {
    var a, b := count as real - frequency as real + 0.5, frequency as real + 0.5;
    assert a / b > 0.0;
  }

  lemma Scaled(idf: real, w: real, v: real, boost: real)
    requires idf > 0.0 && boost > 0.0 && w <= v
    ensures idf * w * boost <= idf * v * boost
  {
    assert idf * (v - w) >= 0.0;
    assert idf * (v - w) * boost >= 0.0;
  }

  lemma ScoreOfConsistent(s: Scorer, t: TermStatistics, boost: real)
    requires ValidScorer(s) && Consistent(t) && t.termFrequency > 0 && boost >= 0.0
    ensures Score(s, t, boost, 1.0).Ok?
    ensures Score(s, t, boost, 1.0).value == Idf(s, t.documentCount, t.documentFrequency)
      * FrequencyWeight(s, t.termFrequency, t.documentLength, t.averageLength) * boost
  {
    hide Idf, FrequencyWeight;
    var x := Idf(s, t.documentCount, t.documentFrequency)
      * FrequencyWeight(s, t.termFrequency, t.documentLength, t.averageLength);
    assert x * boost * 1.0 == x * boost;
    var score := Score(s, t, boost, 1.0);
    assert score.Ok? && score.value == x * boost;
  }

  /** A matching term's weight lies strictly between 0 and k1 + 1 and grows with the term
      frequency, so with a positive logarithm a match never scores below zero. */
  lemma WeightBounds(s: Scorer, tf: nat, length: nat, average: real)
    requires ValidScorer(s) && tf > 0 && average > 0.0
    ensures 0.0 < FrequencyWeight(s, tf, length, average) <= s.k1 + 1.0
    ensures FrequencyWeight(s, tf, length, average) <= FrequencyWeight(s, tf + 1, length, average)
  {
    hide Normalization;
    var n := Normalization(s, length, average);
    var x, k := tf as real, s.k1 + 1.0;
    assert (tf + 1) as real == x + 1.0;
    QuotientBounds(x, k, n);
    QuotientGrows(x, k, n);
    assert FrequencyWeight(s, tf, length, average) == x * k / (x + n);
    assert FrequencyWeight(s, tf + 1, length, average) == (x + 1.0) * k / (x + 1.0 + n);
  }

  lemma Cancel(a: real, b: real, c: real)
    requires c > 0.0 && a * c <= b * c
    ensures a <= b
  {
  }

  lemma QuotientBounds(x: real, k: real, n: real)
    requires x > 0.0 && k > 0.0 && n >= 0.0
    ensures 0.0 < x * k / (x + n) <= k
  {
    var w := x * k / (x + n);
    assert w * (x + n) == x * k;
    assert x * k > 0.0 && k * n >= 0.0;
    assert k * (x + n) == x * k + k * n;
    Cancel(w, k, x + n);
  }

  lemma QuotientGrows(x: real, k: real, n: real)
    requires x > 0.0 && k > 0.0 && n >= 0.0
    ensures x * k / (x + n) <= (x + 1.0) * k / (x + 1.0 + n)
  {
    var w, v := x * k / (x + n), (x + 1.0) * k / (x + 1.0 + n);
    assert w * (x + n) == x * k;
    assert v * (x + 1.0 + n) == x * k + k;
    QuotientBounds(x, k, n);
    assert w * (x + 1.0 + n) == x * k + w;
    Cancel(w, v, x + 1.0 + n);
  }

  /** `log1p` is strictly increasing and positive on positive arguments, as the logarithm is. */
  ghost predicate Logarithmic(log1p: real -> real) {
    && (forall x :: x > 0.0 ==> log1p(x) > 0.0)
    && (forall x, y :: 0.0 < x < y ==> log1p(x) < log1p(y))
  }

  /** The rarer a term, the more a match is worth; so is the larger the collection. */
  lemma RarerIsWorthMore(s: Scorer, count: nat, rare: nat, common: nat)
    requires Logarithmic(s.log1p) && rare < common <= count
    ensures Idf(s, count, rare) > Idf(s, count, common)
    ensures Idf(s, count + 1, common) > Idf(s, count, common)
  {
    var n, x, y := count as real, rare as real, common as real;
    assert (count + 1) as real == n + 1.0;
    QuotientFalls(n - x + 0.5, x + 0.5, n - y + 0.5, y + 0.5);
    QuotientFalls(n + 1.0 - y + 0.5, y + 0.5, n - y + 0.5, y + 0.5);
  }

  lemma CancelStrict(a: real, b: real, c: real)
    requires c > 0.0 && a * c < b * c
    ensures a < b
  {
  }

  lemma QuotientFalls(a: real, b: real, c: real, d: real)
    requires a > c > 0.0 && 0.0 < b <= d
    ensures 0.0 < c / d < a / b
  {
    var p, q := a / b, c / d;
    assert p * b == a && q * d == c;
    assert q * d == q * b + q * (d - b) && q * (d - b) >= 0.0;
    CancelStrict(q, p, b);
  }

  /** At equal frequency a longer document never weighs more, and with 0 < b strictly less. */
  lemma LongerWeighsLess(s: Scorer, tf: nat, short: nat, long: nat, average: real)
    requires ValidScorer(s) && tf > 0 && average > 0.0 && short < long
    ensures FrequencyWeight(s, tf, long, average) <= FrequencyWeight(s, tf, short, average)
    ensures s.b > 0.0 ==> FrequencyWeight(s, tf, long, average) < FrequencyWeight(s, tf, short, average)
  {
    hide Normalization;
    var m, n := Normalization(s, short, average), Normalization(s, long, average);
    NormalizationOfLength(s, short, long, average);
    var t, k := tf as real, s.k1 + 1.0;
    Positive(t, k);
    assert FrequencyWeight(s, tf, short, average) == t * k / (t + m);
    assert FrequencyWeight(s, tf, long, average) == t * k / (t + n);
    Shrinks(t * k, t + m, t + n);
  }

  lemma Positive(x: real, y: real)
    requires x > 0.0 && y > 0.0
    ensures x * y > 0.0
  {
  }

  lemma NormalizationOfLength(s: Scorer, short: nat, long: nat, average: real)
    requires ValidScorer(s) && average > 0.0 && short < long
    ensures 0.0 <= Normalization(s, short, average) <= Normalization(s, long, average)
    ensures s.b > 0.0 ==> Normalization(s, short, average) < Normalization(s, long, average)
  {
    var x, y := short as real / average, long as real / average;
    assert x * average == short as real && y * average == long as real;
    CancelStrict(x, y, average);
    NormalizationGrows(s.k1, s.b, x, y);
    assert Normalization(s, short, average) == s.k1 * (1.0 - s.b + s.b * x);
    assert Normalization(s, long, average) == s.k1 * (1.0 - s.b + s.b * y);
  }

  lemma NormalizationGrows(k1: real, b: real, x: real, y: real)
    requires k1 > 0.0 && 0.0 <= b <= 1.0 && x < y
    ensures k1 * (1.0 - b + b * x) <= k1 * (1.0 - b + b * y)
    ensures b > 0.0 ==> k1 * (1.0 - b + b * x) < k1 * (1.0 - b + b * y)
  {
    var d := y - x;
    assert b * y == b * x + b * d;
    assert k1 * (1.0 - b + b * y) == k1 * (1.0 - b + b * x) + k1 * (b * d);
    assert b * d >= 0.0 && (b > 0.0 ==> b * d > 0.0);
  }

  lemma Shrinks(x: real, m: real, n: real)
    requires x > 0.0 && 0.0 < m <= n
    ensures x / n <= x / m
    ensures m < n ==> x / n < x / m
  {
    var p, q := x / m, x / n;
    assert p * m == x && q * n == x;
    assert q * n == q * m + q * (n - m) && q * (n - m) >= 0.0;
    Cancel(q, p, m);
    if m < n {
      assert q * (n - m) > 0.0;
      CancelStrict(q, p, m);
    }
  }

  lemma ScaledStrictly(less: real, idf: real, w: real, boost: real)
    requires less < idf && w > 0.0 && boost > 0.0
    ensures less * w * boost < idf * w * boost
  {
    assert (idf - less) * w > 0.0;
    assert (idf - less) * w * boost > 0.0;
    assert (idf - less) * w * boost == idf * w * boost - less * w * boost;
  }

  /** Ranking follows its purpose: of two matches that differ in one respect only, the one with the rarer
      term scores higher, and the one in the longer document does not. */
  lemma ScorePrefers(s: Scorer, t: TermStatistics, common: nat, long: nat, boost: real)
    requires ValidScorer(s) && Logarithmic(s.log1p) && Consistent(t) && t.termFrequency > 0 && boost > 0.0
    requires t.documentFrequency < common <= t.documentCount && t.documentLength < long
    ensures var score := Score(s, t, boost, 1.0);
      var other, longer := Score(s, t.(documentFrequency := common), boost, 1.0),
                           Score(s, t.(documentLength := long), boost, 1.0);
      score.Ok? && other.Ok? && longer.Ok? && other.value < score.value && longer.value <= score.value
  {
    hide Score, Idf, FrequencyWeight;
    var score := Score(s, t, boost, 1.0);
    var other := Score(s, t.(documentFrequency := common), boost, 1.0);
    var longer := Score(s, t.(documentLength := long), boost, 1.0);
    ScoreOfConsistent(s, t, boost);
    ScoreOfConsistent(s, t.(documentFrequency := common), boost);
    ScoreOfConsistent(s, t.(documentLength := long), boost);
    RarerIsWorthMore(s, t.documentCount, t.documentFrequency, common);
    WeightBounds(s, t.termFrequency, t.documentLength, t.averageLength);
    LongerWeighsLess(s, t.termFrequency, t.documentLength, long, t.averageLength);
    IdfIsPositive(s, t.documentCount, t.documentFrequency);
    var idf, less := Idf(s, t.documentCount, t.documentFrequency), Idf(s, t.documentCount, common);
    var w := FrequencyWeight(s, t.termFrequency, t.documentLength, t.averageLength);
    var v := FrequencyWeight(s, t.termFrequency, long, t.averageLength);
    assert score.value == idf * w * boost && longer.value == idf * v * boost && other.value == less * w * boost;
    Scaled(idf, v, w, boost);
    ScaledStrictly(less, idf, w, boost);
  }
}

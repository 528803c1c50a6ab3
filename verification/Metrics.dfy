/** Ranking metrics (src/evaluation/metrics.cpp) over exact reals; the base-2 logarithm of the
    discount is a parameter of which only its sign and monotonicity are used. */
module RankingMetrics {
  import opened Basics

  type Judgments = map<string, nat>

  datatype Metrics = Metrics(precision: real, recall: real, averagePrecision: real, reciprocalRank: real, ndcg: real)

  /** Position `i` is discounted by log2(i + 2). */
  ghost predicate Discount(log: nat -> real) {
    (forall i: nat :: log(i) > 0.0) && forall i: nat, j: nat :: i <= j ==> log(i) <= log(j)
  }

  function Exp2(n: nat): (r: real)
    ensures r >= 1.0
  {
    if n == 0 then 1.0 else 2.0 * Exp2(n - 1)
  }

  function Gain(grade: nat): (r: real)
    ensures r >= 0.0
  {
    Exp2(grade) - 1.0
  }

  function Grade(judgments: Judgments, id: string): nat {
    if id in judgments then judgments[id] else 0
  }

  function Grades(judgments: Judgments, ranked: seq<string>): (r: seq<nat>)
    ensures |r| == |ranked|
  {
    seq(|ranked|, i requires 0 <= i < |ranked| => Grade(judgments, ranked[i]))
  }

  function Ratio(a: real, b: real): real
    requires b != 0.0
  {
    a / b
  }

  // ---- the sums ----

  /** Number of relevant documents in a ranking. */
  function Found(judgments: Judgments, ranked: seq<string>): (n: nat)
    ensures n <= |ranked|
  {
    if ranked == [] then 0
    else
      var n := |ranked| - 1;
      Found(judgments, ranked[..n]) + if Grade(judgments, ranked[n]) != 0 then 1 else 0
  }

  function Relevant(judgments: Judgments): set<string> {
    set id | id in judgments && judgments[id] != 0
  }

  /** Sum of the precisions at every relevant document. */
  function PrecisionSum(judgments: Judgments, ranked: seq<string>): real {
    if ranked == [] then 0.0
    else
      var n := |ranked| - 1;
      PrecisionSum(judgments, ranked[..n]) +
      if Grade(judgments, ranked[n]) != 0 then Ratio(Found(judgments, ranked) as real, (n + 1) as real) else 0.0
  }

  function Reciprocal(judgments: Judgments, ranked: seq<string>): real {
    if ranked == [] then 0.0
    else
      var n := |ranked| - 1;
      var before := Reciprocal(judgments, ranked[..n]);
      if before == 0.0 && Grade(judgments, ranked[n]) != 0 then Ratio(1.0, (n + 1) as real) else before
  }

  /** Discounted cumulative gain of grades in order. */
  function Dcg(log: nat -> real, grades: seq<nat>): real
    requires Discount(log)
  {
    if grades == [] then 0.0
    else
      var n := |grades| - 1;
      Dcg(log, grades[..n]) + Ratio(Gain(grades[n]), log(n))
  }

  function Minimum(a: nat, b: nat): nat { if a < b then a else b }

  /** Every grade there is, best first. */
  function Insert(s: seq<nat>, x: nat): (r: seq<nat>)
    ensures |r| == |s| + 1 && multiset(r) == multiset(s) + multiset{x}
  {
    if s == [] then [x]
    else if x > s[0] then [x] + s
    else
      assert s == [s[0]] + s[1..];
      [s[0]] + Insert(s[1..], x)
  }

  function Descending(s: seq<nat>): (r: seq<nat>)
    ensures |r| == |s| && multiset(r) == multiset(s)
  {
    if s == [] then []
    else
      assert s == s[..|s| - 1] + [s[|s| - 1]];
      Insert(Descending(s[..|s| - 1]), s[|s| - 1])
  }

  predicate Falling(s: seq<nat>) {
    s == [] || ((forall y :: y in s[1..] ==> y <= s[0]) && Falling(s[1..]))
  }

  function Ideal(judgments: Judgments): seq<nat> {
    Descending(Grades(judgments, SortedKeys(judgments.Keys)))
  }

  function Spec(log: nat -> real, judgments: Judgments, ranked: seq<string>, k: nat): Metrics
    requires Discount(log)
  {
    var relevant := |Relevant(judgments)|;
    var limit := Minimum(k, |ranked|);
    var found := Found(judgments, ranked[..limit]);
    var ideal := Ideal(judgments);
    var idealDcg := Dcg(log, ideal[..Minimum(limit, |ideal|)]);
    Metrics(
      if k == 0 then 0.0 else Ratio(found as real, k as real),
      if relevant == 0 then 0.0 else Ratio(found as real, relevant as real),
      if relevant == 0 then 0.0 else Ratio(PrecisionSum(judgments, ranked), relevant as real),
      Reciprocal(judgments, ranked),
      if idealDcg == 0.0 then 0.0 else Ratio(Dcg(log, Grades(judgments, ranked[..limit])), idealDcg))
  }

  // ---- sorting ----

  lemma {:induction false} InsertFalls(s: seq<nat>, x: nat)
    requires Falling(s)
    ensures Falling(Insert(s, x))
  {
    if s != [] {
      var r := Insert(s, x);
      if x > s[0] {
        assert r[1..] == s;
        forall y | y in s ensures y <= x { assert y == s[0] || y in s[1..]; }
      } else {
        InsertFalls(s[1..], x);
        assert r[1..] == Insert(s[1..], x);
        forall y | y in r[1..] ensures y <= s[0] {
          assert y in multiset(r[1..]);
          assert y == x || y in s[1..] by { assert multiset(r[1..]) == multiset(s[1..]) + multiset{x}; }
        }
      }
    }
  }

  lemma {:induction false} DescendingFalls(s: seq<nat>)
    ensures Falling(Descending(s))
  {
    if s != [] {
      DescendingFalls(s[..|s| - 1]);
      InsertFalls(Descending(s[..|s| - 1]), s[|s| - 1]);
    }
  }

  // ---- a ranking of distinct documents takes its grades from the judgments ----

  ghost predicate Distinct(ranked: seq<string>) {
    forall i, j :: 0 <= i < j < |ranked| ==> ranked[i] != ranked[j]
  }

  function Count(s: seq<nat>, x: nat): nat {
    if s == [] then 0 else Count(s[..|s| - 1], x) + if s[|s| - 1] == x then 1 else 0
  }

  lemma {:induction false} CountIs(s: seq<nat>, x: nat)
    ensures multiset(s)[x] == Count(s, x)
  {
    if s != [] {
      CountIs(s[..|s| - 1], x);
      assert s == s[..|s| - 1] + [s[|s| - 1]];
    }
  }

  /** The documents of a ranking that have a grade. */
  function OfGrade(judgments: Judgments, ranked: seq<string>, grade: nat): set<string> {
    if ranked == [] then {}
    else
      var n := |ranked| - 1;
      OfGrade(judgments, ranked[..n], grade) + if Grade(judgments, ranked[n]) == grade then {ranked[n]} else {}
  }

  lemma {:induction false} OfGradeAre(judgments: Judgments, ranked: seq<string>, grade: nat, x: string)
    ensures x in OfGrade(judgments, ranked, grade) <==> x in ranked && Grade(judgments, x) == grade
  {
    if ranked != [] {
      OfGradeAre(judgments, ranked[..|ranked| - 1], grade, x);
      assert ranked == ranked[..|ranked| - 1] + [ranked[|ranked| - 1]];
    }
  }

  lemma {:induction false} CountOfGrade(judgments: Judgments, ranked: seq<string>, grade: nat)
    requires Distinct(ranked)
    ensures Count(Grades(judgments, ranked), grade) == |OfGrade(judgments, ranked, grade)|
  {
    hide Grade;
    if ranked != [] {
      var n := |ranked| - 1;
      CountOfGrade(judgments, ranked[..n], grade);
      assert Grades(judgments, ranked)[..n] == Grades(judgments, ranked[..n]);
      OfGradeAre(judgments, ranked[..n], grade, ranked[n]);
      assert ranked[n] !in ranked[..n];
    }
  }

  /** No grade but zero occurs more often in the ranking than among the judgments. */
  lemma GradesAreJudged(judgments: Judgments, ranked: seq<string>, grade: nat)
    requires Distinct(ranked) && grade != 0
    ensures Count(Grades(judgments, ranked), grade) <= Count(Grades(judgments, SortedKeys(judgments.Keys)), grade)
  {
    hide Count, SortedKeys;
    var keys := SortedKeys(judgments.Keys);
    forall i, j | 0 <= i < j < |keys| ensures keys[i] != keys[j] { SortedKeysAscend(judgments.Keys, i, j); }
    CountOfGrade(judgments, ranked, grade);
    CountOfGrade(judgments, keys, grade);
    forall x | x in OfGrade(judgments, ranked, grade) ensures x in OfGrade(judgments, keys, grade) {
      OfGradeAre(judgments, ranked, grade, x);
      OfGradeAre(judgments, keys, grade, x);
    }
    SubsetSize(OfGrade(judgments, ranked, grade), OfGrade(judgments, keys, grade));
  }

  // ---- rearrangement ----

  /** Sum of the gains. */
  function GainSum(grades: seq<nat>): (r: real)
    ensures r >= 0.0
  {
    if grades == [] then 0.0 else GainSum(grades[..|grades| - 1]) + Gain(grades[|grades| - 1])
  }

  function First(n: nat, s: seq<nat>): seq<nat> {
    if n < |s| then s[..n] else s
  }

  lemma {:induction false} GainMonotone(a: nat, b: nat)
    requires a <= b
    ensures Gain(a) <= Gain(b)
    decreases b - a
  {
    if a < b { GainMonotone(a, b - 1); }
  }

  lemma {:induction false} GainSumCons(x: nat, s: seq<nat>)
    ensures GainSum([x] + s) == Gain(x) + GainSum(s)
    decreases |s|
  {
    hide Gain;
    if s == [] {
      assert [x] + s == [x];
      assert [x][..0] == [];
      assert GainSum([]) == 0.0;
    } else {
      var n := |s| - 1;
      GainSumCons(x, s[..n]);
      assert ([x] + s)[..|s|] == [x] + s[..n];
    }
  }

  /** The same grades in any order have the same sum. */
  lemma {:induction false} GainSumWithout(s: seq<nat>, i: nat)
    requires i < |s|
    ensures GainSum(s) == Gain(s[i]) + GainSum(s[..i] + s[i + 1..])
    decreases |s|
  {
    hide Gain;
    var n := |s| - 1;
    if i == n {
      assert s[..i] + s[i + 1..] == s[..n];
    } else {
      GainSumWithout(s[..n], i);
      var rest := s[..i] + s[i + 1..];
      assert rest[..n - 1] == s[..n][..i] + s[..n][i + 1..] && rest[n - 1] == s[n];
    }
  }

  lemma {:induction false} TailIsLess(s: seq<nat>, n: nat)
    requires Falling(s) && s != []
    ensures GainSum(First(n, s[1..])) <= GainSum(First(n, s))
    decreases n
  {
    hide Gain;
    var rest := s[1..];
    if n == 0 {
    } else if n >= |s| {
      assert First(n, s) == s == [s[0]] + rest && First(n, rest) == rest;
      GainSumCons(s[0], rest);
    } else {
      assert s[0] >= rest[n - 1] by { assert rest[n - 1] in rest; }
      GainMonotone(rest[n - 1], s[0]);
      assert First(n, rest) == rest[..n - 1] + [rest[n - 1]];
      assert First(n, rest)[..n - 1] == rest[..n - 1];
      assert First(n, s) == [s[0]] + rest[..n - 1];
      GainSumCons(s[0], rest[..n - 1]);
    }
  }

  /** Any `n` of the grades gain at most what the `n` best gain; zeros count for nothing. */
  lemma {:induction false} BestGainMost(s: seq<nat>, t: seq<nat>, n: nat)
    requires Falling(s) && |t| <= n && forall x :: x != 0 ==> Count(t, x) <= Count(s, x)
    ensures GainSum(t) <= GainSum(First(n, s))
    decreases |s|, |t|
  {
    hide Gain, Falling, GainSum, Count, First;
    if t == [] {
      NoGain();
    } else if 0 in t {
      var i :| 0 <= i < |t| && t[i] == 0;
      DropOne(t, i, s, n);
      BestGainMost(s, t[..i] + t[i + 1..], n);
    } else if s == [] {
      NothingCounts(t);
    } else if s[0] in t {
      var i :| 0 <= i < |t| && t[i] == s[0];
      GainSumWithout(t, i);
      FallingTail(s);
      TakeBest(s, t, i, n);
      BestGainMost(s[1..], t[..i] + t[i + 1..], n - 1);
    } else {
      FallingTail(s);
      forall x | x != 0 ensures Count(t, x) <= Count(s[1..], x) {
        CountWithout(s, 0, x);
        assert s[..0] + s[1..] == s[1..];
        if x == s[0] { CountAbsent(t, x); }
      }
      BestGainMost(s[1..], t, n);
      TailIsLess(s, n);
    }
  }

  lemma NoGain()
    ensures GainSum([]) == 0.0
  {
  }

  lemma NothingCounts(t: seq<nat>)
    requires t != [] && 0 !in t
    ensures exists x :: x != 0 && Count(t, x) > Count([], x)
  {
    CountPositive(t, 0);
    assert t[0] in t;
    assert Count([], t[0]) == 0;
  }

  lemma TakeBest(s: seq<nat>, t: seq<nat>, i: nat, n: nat)
    requires s != [] && i < |t| <= n && t[i] == s[0] && forall x :: x != 0 ==> Count(t, x) <= Count(s, x)
    ensures forall x :: x != 0 ==> Count(t[..i] + t[i + 1..], x) <= Count(s[1..], x)
    ensures GainSum(First(n, s)) == Gain(s[0]) + GainSum(First(n - 1, s[1..]))
  {
    hide Gain, GainSum, Count, First;
    assert s[..0] + s[1..] == s[1..];
    forall x | x != 0 ensures Count(t[..i] + t[i + 1..], x) <= Count(s[1..], x) {
      CountWithout(t, i, x);
      CountWithout(s, 0, x);
    }
    FirstCons(n, s);
    GainSumCons(s[0], First(n - 1, s[1..]));
  }

  lemma FirstCons(n: nat, s: seq<nat>)
    requires s != [] && n > 0
    ensures First(n, s) == [s[0]] + First(n - 1, s[1..])
  {
  }

  lemma FallingTail(s: seq<nat>)
    requires Falling(s) && s != []
    ensures Falling(s[1..])
  {
  }

  lemma {:induction false} CountWithout(s: seq<nat>, i: nat, x: nat)
    requires i < |s|
    ensures Count(s, x) == Count(s[..i] + s[i + 1..], x) + if s[i] == x then 1 else 0
    decreases |s|
  {
    var n := |s| - 1;
    if i == n {
      assert s[..i] + s[i + 1..] == s[..n];
    } else {
      CountWithout(s[..n], i, x);
      var rest := s[..i] + s[i + 1..];
      assert rest[..n - 1] == s[..n][..i] + s[..n][i + 1..] && rest[n - 1] == s[n];
    }
  }

  lemma {:induction false} CountAbsent(s: seq<nat>, x: nat)
    requires x !in s
    ensures Count(s, x) == 0
  {
    if s != [] { CountAbsent(s[..|s| - 1], x); }
  }

  lemma CountPositive(s: seq<nat>, i: nat)
    requires i < |s|
    ensures Count(s, s[i]) > 0
  {
    CountWithout(s, i, s[i]);
  }

  lemma DropOne(t: seq<nat>, i: nat, s: seq<nat>, n: nat)
    requires i < |t| && t[i] == 0 && forall x :: x != 0 ==> Count(t, x) <= Count(s, x)
    ensures GainSum(t) == GainSum(t[..i] + t[i + 1..])
    ensures forall x :: x != 0 ==> Count(t[..i] + t[i + 1..], x) <= Count(s, x)
  {
    GainSumWithout(t, i);
    forall x | x != 0 ensures Count(t[..i] + t[i + 1..], x) <= Count(s, x) { CountWithout(t, i, x); }
  }

  // ---- summation by parts ----

  /** If every prefix of `a` gains at most what the prefix of `b` gains, its discounted sum is at
      most that of `b`, because the weights fall. */
  lemma {:induction false} DominatedByPrefixes(log: nat -> real, a: seq<nat>, b: seq<nat>)
    requires Discount(log) && |b| <= |a| && forall n :: 0 <= n <= |a| ==> GainSum(First(n, a)) <= GainSum(First(n, b))
    ensures Dcg(log, a) <= Dcg(log, b)
  {
    hide GainSum, First, Discount, Gain, Dcg;
    var n := |a|;
    AbelBound(log, a, b, n);
    assert First(n, a) == a && First(n, b) == b by { FirstAll(a, n); FirstAll(b, n); }
    SurplusIsPositive(log, a, b, n);
  }

  lemma FirstAll(s: seq<nat>, n: nat)
    requires |s| <= n
    ensures First(n, s) == s
  {
  }

  function Surplus(log: nat -> real, a: seq<nat>, b: seq<nat>, n: nat): real
    requires Discount(log)
  {
    if n == 0 then 0.0 else (GainSum(First(n, b)) - GainSum(First(n, a))) / log(n - 1)
  }

  lemma SurplusIsPositive(log: nat -> real, a: seq<nat>, b: seq<nat>, n: nat)
    requires Discount(log) && GainSum(First(n, a)) <= GainSum(First(n, b))
    ensures Surplus(log, a, b, n) >= 0.0
  {
  }

  /** What the first `n` positions are behind, at the weight of the last of them. */
  lemma {:induction false} AbelBound(log: nat -> real, a: seq<nat>, b: seq<nat>, n: nat)
    requires Discount(log) && |b| <= |a| && n <= |a| && forall k :: 0 <= k <= |a| ==>
      GainSum(First(k, a)) <= GainSum(First(k, b))
    ensures Dcg(log, First(n, b)) - Dcg(log, First(n, a)) >= Surplus(log, a, b, n)
    decreases n
  {
    hide Gain, GainSum, First, Dcg, Surplus;
    if n == 0 {
      NothingYet(log, a, b);
    } else {
      AbelBound(log, a, b, n - 1);
      FirstStep(log, a, n - 1);
      FirstStep(log, b, n - 1);
      SurplusShrinks(log, a, b, n);
      StepArithmetic(
        Dcg(log, First(n - 1, b)) - Dcg(log, First(n - 1, a)), GainSum(First(n - 1, b)) - GainSum(First(n - 1, a)),
        Gain(a[n - 1]), if n - 1 < |b| then Gain(b[n - 1]) else 0.0, log(n - 1));
      SurplusIs(log, a, b, n);
    }
  }

  lemma NothingYet(log: nat -> real, a: seq<nat>, b: seq<nat>)
    requires Discount(log)
    ensures Dcg(log, First(0, b)) - Dcg(log, First(0, a)) >= Surplus(log, a, b, 0)
  {
    assert First(0, a) == [] && First(0, b) == [];
  }

  lemma SurplusIs(log: nat -> real, a: seq<nat>, b: seq<nat>, n: nat)
    requires Discount(log) && n > 0
    ensures Surplus(log, a, b, n) == (GainSum(First(n, b)) - GainSum(First(n, a))) / log(n - 1)
  {
  }

  /** At the next, lower weight the surplus so far counts for no more. */
  lemma SurplusShrinks(log: nat -> real, a: seq<nat>, b: seq<nat>, n: nat)
    requires Discount(log) && n > 0 && GainSum(First(n - 1, a)) <= GainSum(First(n - 1, b))
    ensures Surplus(log, a, b, n - 1) >= (GainSum(First(n - 1, b)) - GainSum(First(n - 1, a))) / log(n - 1)
  {
    hide GainSum;
    if n == 1 {
      assert First(0, a) == [] && First(0, b) == [];
    } else {
      SmallerShare(GainSum(First(n - 1, b)) - GainSum(First(n - 1, a)), log(n - 2), log(n - 1));
    }
  }

  lemma StepArithmetic(ahead: real, surplus: real, ga: real, gb: real, w: real)
    requires w > 0.0 && ahead >= surplus / w
    ensures ahead + gb / w - ga / w >= (surplus + gb - ga) / w
  {
  }

  lemma SmallerShare(d: real, v: real, w: real)
    requires d >= 0.0 && 0.0 < v <= w
    ensures d / v >= d / w
  {
  }

  lemma FirstStep(log: nat -> real, s: seq<nat>, n: nat)
    requires Discount(log)
    ensures GainSum(First(n + 1, s)) == GainSum(First(n, s)) + if n < |s| then Gain(s[n]) else 0.0
    ensures Dcg(log, First(n + 1, s)) == Dcg(log, First(n, s)) + if n < |s| then Ratio(Gain(s[n]), log(n)) else 0.0
  {
    hide Gain;
    if n < |s| {
      assert First(n + 1, s) == s[..n + 1];
      assert s[..n + 1][..n] == s[..n];
      assert First(n, s) == s[..n];
    }
  }

  // ---- all metrics lie between zero and one ----

  /** The relevant documents of a ranking. */
  function FoundSet(judgments: Judgments, ranked: seq<string>): set<string> {
    if ranked == [] then {}
    else
      var n := |ranked| - 1;
      FoundSet(judgments, ranked[..n]) + if Grade(judgments, ranked[n]) != 0 then {ranked[n]} else {}
  }

  lemma {:induction false} FoundAre(judgments: Judgments, ranked: seq<string>, x: string)
    ensures x in FoundSet(judgments, ranked) <==> x in ranked && Grade(judgments, x) != 0
  {
    if ranked != [] {
      FoundAre(judgments, ranked[..|ranked| - 1], x);
      assert ranked == ranked[..|ranked| - 1] + [ranked[|ranked| - 1]];
    }
  }

  lemma {:induction false} FoundIsSet(judgments: Judgments, ranked: seq<string>)
    requires Distinct(ranked)
    ensures Found(judgments, ranked) == |FoundSet(judgments, ranked)|
  {
    if ranked != [] {
      var n := |ranked| - 1;
      FoundIsSet(judgments, ranked[..n]);
      FoundAre(judgments, ranked[..n], ranked[n]);
      assert ranked[n] !in ranked[..n];
    }
  }

  /** Distinct documents find no more than is relevant. */
  lemma FoundBelowRelevant(judgments: Judgments, ranked: seq<string>)
    requires Distinct(ranked)
    ensures Found(judgments, ranked) <= |Relevant(judgments)|
  {
    hide Found, FoundSet;
    FoundIsSet(judgments, ranked);
    forall x | x in FoundSet(judgments, ranked) ensures x in Relevant(judgments) { FoundAre(judgments, ranked, x); }
    SubsetSize(FoundSet(judgments, ranked), Relevant(judgments));
  }

  lemma {:induction false} PrecisionSumBounds(judgments: Judgments, ranked: seq<string>)
    ensures 0.0 <= PrecisionSum(judgments, ranked) <= Found(judgments, ranked) as real
  {
    if ranked != [] {
      var n := |ranked| - 1;
      PrecisionSumBounds(judgments, ranked[..n]);
      var found := Found(judgments, ranked);
      Share(found, n + 1);
    }
  }

  lemma Share(a: nat, b: nat)
    requires a <= b && b > 0
    ensures 0.0 <= a as real / b as real <= 1.0
  {
  }

  lemma {:induction false} ReciprocalBounds(judgments: Judgments, ranked: seq<string>)
    ensures 0.0 <= Reciprocal(judgments, ranked) <= 1.0
  {
    if ranked != [] {
      ReciprocalBounds(judgments, ranked[..|ranked| - 1]);
      Share(1, |ranked|);
    }
  }

  lemma {:induction false} DcgIsPositive(log: nat -> real, grades: seq<nat>)
    requires Discount(log)
    ensures Dcg(log, grades) >= 0.0
  {
    hide Gain;
    if grades != [] {
      DcgIsPositive(log, grades[..|grades| - 1]);
      assert Gain(grades[|grades| - 1]) / log(|grades| - 1) >= 0.0;
    }
  }

  lemma DistinctPrefix(ranked: seq<string>, n: nat)
    requires Distinct(ranked) && n <= |ranked|
    ensures Distinct(ranked[..n])
  {
  }

  lemma IdealCounts(judgments: Judgments, x: nat)
    ensures Count(Ideal(judgments), x) == Count(Grades(judgments, SortedKeys(judgments.Keys)), x)
  {
    hide Count, SortedKeys, Grades, Descending;
    CountIs(Ideal(judgments), x);
    CountIs(Grades(judgments, SortedKeys(judgments.Keys)), x);
  }

  /** The first `n` documents of a ranking gain at most what the `n` best judged documents gain. */
  lemma PrefixGains(judgments: Judgments, ranked: seq<string>, n: nat)
    requires Distinct(ranked) && n <= |ranked|
    ensures GainSum(Grades(judgments, ranked[..n])) <= GainSum(First(n, Ideal(judgments)))
  {
    hide GainSum, First, Count, Grades, SortedKeys, Descending, Falling;
    DistinctPrefix(ranked, n);
    DescendingFalls(Grades(judgments, SortedKeys(judgments.Keys)));
    forall x | x != 0 ensures Count(Grades(judgments, ranked[..n]), x) <= Count(Ideal(judgments), x) {
      IdealCounts(judgments, x);
      GradesAreJudged(judgments, ranked[..n], x);
    }
    BestGainMost(Ideal(judgments), Grades(judgments, ranked[..n]), n);
  }

  lemma FirstOfFirst(n: nat, limit: nat, s: seq<nat>)
    requires n <= limit
    ensures First(n, First(limit, s)) == First(n, s)
  {
  }

  lemma IdealIsBest(log: nat -> real, judgments: Judgments, ranked: seq<string>)
    requires Discount(log) && Distinct(ranked)
    ensures Dcg(log, Grades(judgments, ranked)) <= Dcg(log, First(|ranked|, Ideal(judgments)))
  {
    hide GainSum, Ideal, Dcg, Discount;
    var a, b := Grades(judgments, ranked), First(|ranked|, Ideal(judgments));
    forall n | 0 <= n <= |a| ensures GainSum(First(n, a)) <= GainSum(First(n, b)) {
      PrefixGains(judgments, ranked, n);
      FirstOfFirst(n, |ranked|, Ideal(judgments));
      assert First(n, a) == Grades(judgments, ranked[..n]);
    }
    DominatedByPrefixes(log, a, b);
  }

  lemma Quotient(a: real, b: real)
    requires 0.0 <= a <= b && b > 0.0
    ensures 0.0 <= a / b <= 1.0
  {
  }

  predicate InUnit(x: real) { 0.0 <= x <= 1.0 }

  predicate AllInUnit(m: Metrics) {
    InUnit(m.precision) && InUnit(m.recall) && InUnit(m.averagePrecision) && InUnit(m.reciprocalRank) && InUnit(m.ndcg)
  }

  /** For every ranking of distinct documents, all judgments and every k. */
  lemma MetricsInUnit(log: nat -> real, judgments: Judgments, ranked: seq<string>, k: nat)
    requires Discount(log) && Distinct(ranked)
    ensures AllInUnit(Spec(log, judgments, ranked, k))
  {
    hide Found, Relevant, Reciprocal, PrecisionSum, Dcg, Ideal, Grades;
    var limit := Minimum(k, |ranked|);
    var top := ranked[..limit];
    var relevant := |Relevant(judgments)|;
    DistinctPrefix(ranked, limit);
    FoundBelowRelevant(judgments, top);
    FoundBelowRelevant(judgments, ranked);
    if k != 0 { Share(Found(judgments, top), k); }
    PrecisionSumBounds(judgments, ranked);
    if relevant != 0 {
      Share(Found(judgments, top), relevant);
      Quotient(PrecisionSum(judgments, ranked), relevant as real);
    }
    ReciprocalBounds(judgments, ranked);
    var ideal := Ideal(judgments);
    assert ideal[..Minimum(limit, |ideal|)] == First(limit, ideal);
    IdealIsBest(log, judgments, top);
    DcgIsPositive(log, Grades(judgments, top));
    if Dcg(log, First(limit, ideal)) != 0.0 {
      Quotient(Dcg(log, Grades(judgments, top)), Dcg(log, First(limit, ideal)));
    }
  }

  /** Recall stays within 1 exactly when the relevant documents among the first k, counted as often as
      they are listed, are no more than there are relevant documents. */
  lemma RecallInUnitIff(log: nat -> real, judgments: Judgments, ranked: seq<string>, k: nat)
    requires Discount(log)
    ensures InUnit(Spec(log, judgments, ranked, k).recall) <==>
      Found(judgments, ranked[..Minimum(k, |ranked|)]) <= |Relevant(judgments)|
  {
    hide Dcg, Grades, Ideal, PrecisionSum, Reciprocal, Found;
    var found, relevant := Found(judgments, ranked[..Minimum(k, |ranked|)]), |Relevant(judgments)|;
    if relevant > 0 {
      ShareIff(found, relevant);
    } else {
      NothingFound(judgments, ranked[..Minimum(k, |ranked|)]);
    }
  }

  lemma ShareIff(a: nat, b: nat)
    requires b > 0
    ensures InUnit(Ratio(a as real, b as real)) <==> a <= b
  {
    var x := a as real / b as real;
    assert x * b as real == a as real;
    if a <= b { Share(a, b); } else { assert x > 1.0; }
  }

  lemma {:induction false} NothingFound(judgments: Judgments, ranked: seq<string>)
    requires |Relevant(judgments)| == 0
    ensures Found(judgments, ranked) == 0
  {
    if ranked != [] {
      var last := ranked[|ranked| - 1];
      NothingFound(judgments, ranked[..|ranked| - 1]);
      assert last !in Relevant(judgments);
    }
  }

  /** Distinctness is needed: a document listed twice is found twice. */
  lemma RepeatedDocumentExceedsOne(log: nat -> real)
    requires Discount(log)
    ensures Spec(log, map["a" := 1], ["a", "a"], 2).recall == 2.0
  {
    hide Dcg, Ideal, PrecisionSum, Reciprocal, Grades;
    var judgments: Judgments := map["a" := 1];
    var ranked := ["a", "a"];
    assert ranked[..2] == ranked && ranked[..1] == ["a"] && ["a"][..0] == [];
    assert Found(judgments, ["a"]) == 1;
    assert Relevant(judgments) == {"a"};
  }

  // ---- the evaluation loops ----

  /** `evaluate`. */
  method Evaluate(log: nat -> real, judgments: Judgments, ranked: seq<string>, k: nat) returns (m: Metrics)
    requires Discount(log)
    ensures m == Spec(log, judgments, ranked, k)
    ensures Distinct(ranked) ==> AllInUnit(m)
  {
    hide Gain, Ideal, Relevant, AllInUnit, Found, PrecisionSum, Reciprocal, Dcg, Grades, Ratio;
    var limit := Minimum(k, |ranked|);
    var found: nat, foundAtK: nat := 0, 0;
    var precisionSum, reciprocal, dcg := 0.0, 0.0, 0.0;
    NothingRanked(log, judgments);
    assert ranked[..0] == [];
    for i := 0 to |ranked|
      invariant found == Found(judgments, ranked[..i]) && precisionSum == PrecisionSum(judgments, ranked[..i])
      invariant reciprocal == Reciprocal(judgments, ranked[..i])
      invariant dcg == Dcg(log, Grades(judgments, ranked[..Minimum(i, limit)]))
      invariant foundAtK == Found(judgments, ranked[..Minimum(i, limit)])
    {
      var grade := Grade(judgments, ranked[i]);
      GradesStep(log, judgments, ranked, i);
      RankStep(judgments, ranked, i);
      if grade != 0 {
        found := found + 1;
        precisionSum := precisionSum + Ratio(found as real, (i + 1) as real);
        if reciprocal == 0.0 { reciprocal := Ratio(1.0, (i + 1) as real); }
      }
      if i < limit {
        dcg := dcg + Ratio(Gain(grade), log(i));
        if grade != 0 { foundAtK := foundAtK + 1; }
      }
    }
    assert ranked[..|ranked|] == ranked;
    var ideal := Ideal(judgments);
    var idealDcg := IdealGain(log, ideal, Minimum(limit, |ideal|));
    var relevant := |Relevant(judgments)|;
    m := Metrics(
      if k == 0 then 0.0 else Ratio(foundAtK as real, k as real),
      if relevant == 0 then 0.0 else Ratio(foundAtK as real, relevant as real),
      if relevant == 0 then 0.0 else Ratio(precisionSum, relevant as real),
      reciprocal,
      if idealDcg == 0.0 then 0.0 else Ratio(dcg, idealDcg));
    if Distinct(ranked) { MetricsInUnit(log, judgments, ranked, k); }
  }

  method IdealGain(log: nat -> real, ideal: seq<nat>, n: nat) returns (sum: real)
    requires Discount(log) && n <= |ideal|
    ensures sum == Dcg(log, ideal[..n])
  {
    hide Gain;
    sum := 0.0;
    for i := 0 to n
      invariant sum == Dcg(log, ideal[..i])
    {
      assert ideal[..i + 1][..i] == ideal[..i];
      sum := sum + Ratio(Gain(ideal[i]), log(i));
    }
  }

  lemma NothingRanked(log: nat -> real, judgments: Judgments)
    requires Discount(log)
    ensures Found(judgments, []) == 0 && PrecisionSum(judgments, []) == 0.0 && Reciprocal(judgments, []) == 0.0
    ensures Dcg(log, Grades(judgments, [])) == 0.0
  {
    assert Grades(judgments, []) == [];
  }

  lemma RankStep(judgments: Judgments, ranked: seq<string>, i: nat)
    requires i < |ranked|
    ensures var upTo, before, relevant := ranked[..i + 1], ranked[..i], Grade(judgments, ranked[i]) != 0;
      && Found(judgments, upTo) == Found(judgments, before) + (if relevant then 1 else 0)
      && PrecisionSum(judgments, upTo) ==
           PrecisionSum(judgments,
                        before) + (if relevant then Ratio(Found(judgments, upTo) as real, (i + 1) as real) else 0.0)
      && Reciprocal(judgments, upTo) ==
           if Reciprocal(judgments, before) == 0.0 && relevant then Ratio(1.0, (i + 1) as real)
           else Reciprocal(judgments, before)
  {
    hide Grade;
    assert ranked[..i + 1][..i] == ranked[..i];
  }

  lemma GradesStep(log: nat -> real, judgments: Judgments, ranked: seq<string>, i: nat)
    requires Discount(log) && i < |ranked|
    ensures Dcg(log, Grades(judgments, ranked[..i + 1]))
      == Dcg(log, Grades(judgments, ranked[..i])) + Ratio(Gain(Grade(judgments, ranked[i])), log(i))
  {
    hide Gain, Grade;
    var now := Grades(judgments, ranked[..i + 1]);
    assert now[..i] == Grades(judgments, ranked[..i]) && now[i] == Grade(judgments, ranked[i]);
  }

  // ---- the two ends of the scale ----

  lemma RatioOfSame(x: real)
    requires x > 0.0
    ensures Ratio(x, x) == 1.0
  {
    var q := x / x;
    assert q * x == x;
    assert (q - 1.0) * x == 0.0;
  }

  lemma {:induction false} AllRelevant(judgments: Judgments, ranked: seq<string>)
    requires forall i :: 0 <= i < |ranked| ==> Grade(judgments, ranked[i]) != 0
    ensures Found(judgments, ranked) == |ranked| && PrecisionSum(judgments, ranked) == |ranked| as real
    ensures Reciprocal(judgments, ranked) == if ranked == [] then 0.0 else 1.0
  {
    hide Grade;
    if ranked != [] {
      var n := |ranked| - 1;
      AllRelevant(judgments, ranked[..n]);
      RatioOfSame((n + 1) as real);
    }
  }

  lemma {:induction false} NoneRelevant(judgments: Judgments, ranked: seq<string>)
    requires forall i :: 0 <= i < |ranked| ==> Grade(judgments, ranked[i]) == 0
    ensures Found(judgments, ranked) == 0 && PrecisionSum(judgments, ranked) == 0.0
    ensures Reciprocal(judgments, ranked) == 0.0
  {
    if ranked != [] { NoneRelevant(judgments, ranked[..|ranked| - 1]); }
  }

  lemma {:induction false} DcgSign(log: nat -> real, grades: seq<nat>)
    requires Discount(log)
    ensures Dcg(log, grades) >= 0.0
    ensures (forall i :: 0 <= i < |grades| ==> grades[i] == 0) ==> Dcg(log, grades) == 0.0
    ensures grades != [] && grades[|grades| - 1] > 0 ==> Dcg(log, grades) > 0.0
  {
    if grades != [] {
      var n := |grades| - 1;
      DcgSign(log, grades[..n]);
      var g := Gain(grades[n]);
      assert grades[n] > 0 ==> g > 0.0 by { if grades[n] > 0 { assert Exp2(grades[n]) == 2.0 * Exp2(grades[n] - 1); } }
      QuotientSign(g, log(n));
    }
  }

  lemma QuotientSign(a: real, b: real)
    requires a >= 0.0 && b > 0.0
    ensures Ratio(a, b) >= 0.0 && (a > 0.0 ==> Ratio(a, b) > 0.0) && (a == 0.0 ==> Ratio(a, b) == 0.0)
  {
  }

  /** The relevant documents and nothing else, best first, score one in every metric. */
  lemma PerfectRankingIsOne(log: nat -> real, judgments: Judgments, ranked: seq<string>)
    requires Discount(log) && ranked != [] && |ranked| == |Relevant(judgments)|
    requires forall i :: 0 <= i < |ranked| ==> Grade(judgments, ranked[i]) != 0
    requires |ranked| <= |Ideal(judgments)| && Grades(judgments, ranked) == Ideal(judgments)[..|ranked|]
    ensures Spec(log, judgments, ranked, |ranked|) == Metrics(1.0, 1.0, 1.0, 1.0, 1.0)
  {
    AllRelevant(judgments, ranked);
    DcgSign(log, Grades(judgments, ranked));
    hide Found, PrecisionSum, Reciprocal, Relevant, Grade, Dcg, Ideal, Ratio;
    assert ranked[..|ranked|] == ranked;
    RatioOfSame(|ranked| as real);
    RatioOfSame(Dcg(log, Grades(judgments, ranked)));
  }

  /** A ranking without a relevant document scores zero in every metric. */
  lemma WorthlessRankingIsZero(log: nat -> real, judgments: Judgments, ranked: seq<string>, k: nat)
    requires Discount(log) && forall i :: 0 <= i < |ranked| ==> Grade(judgments, ranked[i]) == 0
    ensures Spec(log, judgments, ranked, k) == Metrics(0.0, 0.0, 0.0, 0.0, 0.0)
  {
    var limit := Minimum(k, |ranked|);
    NoneRelevant(judgments, ranked);
    NoneRelevant(judgments, ranked[..limit]);
    DcgSign(log, Grades(judgments, ranked[..limit]));
    hide Found, PrecisionSum, Reciprocal, Relevant, Grade, Dcg, Ideal;
    assert forall x :: x != 0.0 ==> Ratio(0.0, x) == 0.0;
  }

  /** Precision and recall are about the first k places and all relevant documents: what is found there,
      whatever stands behind, and places left empty count against the precision. */
  lemma PrecisionCountsPlaces(log: nat -> real, judgments: Judgments, ranked: seq<string>, more: seq<string>, k: nat)
    requires Discount(log) && k >= |ranked| > 0
    ensures Spec(log, judgments, ranked, k).precision * k as real == Found(judgments, ranked) as real
    ensures k == |ranked| ==>
      && Spec(log, judgments, ranked + more, k).precision == Spec(log, judgments, ranked, k).precision
      && Spec(log, judgments, ranked + more, k).recall == Spec(log, judgments, ranked, k).recall
      && Spec(log, judgments, ranked + more, k).ndcg == Spec(log, judgments, ranked, k).ndcg
  {
    hide Found, PrecisionSum, Reciprocal, Relevant, Dcg, Ideal, Ratio;
    assert ranked[..|ranked|] == ranked;
    RatioTimes(Found(judgments, ranked) as real, k as real);
    if k == |ranked| { assert (ranked + more)[..k] == ranked; }
  }

  lemma RatioTimes(a: real, b: real)
    requires b > 0.0
    ensures Ratio(a, b) * b == a
  {
  }
}

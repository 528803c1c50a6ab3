/** Bounded top-K collection (src/ranking/top_k.cpp). */
module TopK {
  import opened Basics

  datatype Scored = Scored(id: string, score: real)

  /** Higher scores first, then smaller IDs. */
  predicate Better(a: Scored, b: Scored) {
    if a.score != b.score then a.score > b.score else Less(a.id, b.id)
  }

  lemma BetterIsStrict(a: Scored, b: Scored)
    ensures !Better(a, a)
    ensures Better(a, b) ==> !Better(b, a)
    ensures a == b || Better(a, b) || Better(b, a)
  {
    LessIrreflexive(a.id);
    LessTotal(a.id, b.id);
    if Less(a.id, b.id) { LessAsymmetric(a.id, b.id); }
  }

  lemma BetterIsTransitive(a: Scored, b: Scored, c: Scored)
    requires Better(a, b) && !Better(c, b)
    ensures Better(a, c)
  {
    LessTotal(b.id, c.id);
    if b != c && a.score == b.score == c.score { LessTransitive(a.id, b.id, c.id); }
  }

  // ---- the reference: sort everything, keep the first K ----

  function Insert(s: seq<Scored>, x: Scored): (r: seq<Scored>)
    ensures |r| == |s| + 1 && multiset(r) == multiset(s) + multiset{x}
  {
    if s == [] then [x]
    else if Better(x, s[0]) then [x] + s
    else
      assert s == [s[0]] + s[1..];
      [s[0]] + Insert(s[1..], x)
  }

  function Sort(s: seq<Scored>): (r: seq<Scored>)
    ensures |r| == |s| && multiset(r) == multiset(s)
  {
    if s == [] then []
    else
      assert s == s[..|s| - 1] + [s[|s| - 1]];
      Insert(Sort(s[..|s| - 1]), s[|s| - 1])
  }

  function Take(k: nat, s: seq<Scored>): seq<Scored> {
    if |s| <= k then s else s[..k]
  }

  /** The K best documents in order. */
  function Best(k: nat, s: seq<Scored>): seq<Scored> {
    Take(k, Sort(s))
  }

  /** No later element is better than an earlier one. */
  predicate Ranked(s: seq<Scored>) {
    s == [] || ((forall y :: y in s[1..] ==> !Better(y, s[0])) && Ranked(s[1..]))
  }

  lemma {:induction false} InsertKeepsRanked(s: seq<Scored>, x: Scored)
    requires Ranked(s)
    ensures Ranked(Insert(s, x))
  {
    if s != [] {
      var r := Insert(s, x);
      if Better(x, s[0]) {
        assert r[1..] == s;
        forall y | y in s ensures !Better(y, x) {
          if y == s[0] { BetterIsStrict(x, y); }
          else {
            assert y in s[1..];
            BetterIsTransitive(x, s[0], y);
            BetterIsStrict(x, y);
          }
        }
      } else {
        InsertKeepsRanked(s[1..], x);
        assert r[1..] == Insert(s[1..], x);
        forall y | y in r[1..] ensures !Better(y, s[0]) {
          assert y in multiset(r[1..]);
          assert y == x || y in s[1..] by { assert multiset(r[1..]) == multiset(s[1..]) + multiset{x}; }
        }
      }
    }
  }

  lemma {:induction false} SortIsRanked(s: seq<Scored>)
    ensures Ranked(Sort(s))
  {
    if s != [] {
      SortIsRanked(s[..|s| - 1]);
      InsertKeepsRanked(Sort(s[..|s| - 1]), s[|s| - 1]);
    }
  }

  /** The ranking of a collection is unique. */
  lemma {:induction false} RankedUnique(a: seq<Scored>, b: seq<Scored>)
    requires Ranked(a) && Ranked(b) && multiset(a) == multiset(b)
    ensures a == b
  {
    assert |a| == |multiset(a)| && |b| == |multiset(b)|;
    if a != [] {
      assert b != [];
      FirstIsBest(a, b[0]);
      FirstIsBest(b, a[0]);
      BetterIsStrict(a[0], b[0]);
      assert a == [a[0]] + a[1..] && b == [b[0]] + b[1..];
      assert multiset(a[1..]) == multiset(a) - multiset{a[0]};
      RankedUnique(a[1..], b[1..]);
    }
  }

  lemma FirstIsBest(a: seq<Scored>, y: Scored)
    requires Ranked(a) && a != []
    requires (y in multiset(a) || exists b :: multiset(b) == multiset(a) && b != [] && b[0] == y)
    ensures !Better(y, a[0])
  {
    BetterIsStrict(y, y);
    if exists b :: multiset(b) == multiset(a) && b != [] && b[0] == y {
      var b :| multiset(b) == multiset(a) && b != [] && b[0] == y;
      assert y in multiset(b);
    }
    assert y in a;
    assert a == [a[0]] + a[1..];
  }

  /** Order of arrival does not matter. */
  lemma SortOfPermutation(a: seq<Scored>, b: seq<Scored>)
    requires multiset(a) == multiset(b)
    ensures Sort(a) == Sort(b)
  {
    SortIsRanked(a);
    SortIsRanked(b);
    RankedUnique(Sort(a), Sort(b));
  }

  lemma SortOfRanked(s: seq<Scored>)
    requires Ranked(s)
    ensures Sort(s) == s
  {
    SortIsRanked(s);
    RankedUnique(Sort(s), s);
  }

  lemma {:induction false} RankedPrefix(s: seq<Scored>, k: nat)
    requires Ranked(s)
    ensures Ranked(Take(k, s))
  {
    if |s| > k > 0 {
      RankedPrefix(s[1..], k - 1);
      assert Take(k, s)[1..] == Take(k - 1, s[1..]);
    }
  }

  // ---- what the K best are ----

  /** `b` has no claim to stand before `a`: it scores less, or as much with no smaller ID. */
  predicate NotBefore(a: Scored, b: Scored) {
    b.score < a.score || (b.score == a.score && !Less(b.id, a.id))
  }

  lemma {:induction false} RankedAt(s: seq<Scored>, i: nat, j: nat)
    requires Ranked(s) && i < j < |s|
    ensures NotBefore(s[i], s[j])
  {
    if i == 0 {
      assert s[j] == s[1..][j - 1] && s[j] in s[1..];
      assert !Better(s[j], s[0]);
    } else {
      RankedAt(s[1..], i - 1, j - 1);
    }
  }

  /** The K best are as many as there are, up to K, each as often as it was offered; they fall by score,
      equal scores by rising ID, and nothing that was left out scores more than one of them, or as much
      with a smaller ID. */
  lemma BestAre(k: nat, s: seq<Scored>)
    ensures |Best(k, s)| == (if |s| < k then |s| else k) && multiset(Best(k, s)) <= multiset(s)
    ensures forall i, j :: 0 <= i < j < |Best(k, s)| ==> NotBefore(Best(k, s)[i], Best(k, s)[j])
    ensures forall h, x :: h in Best(k, s) && x in multiset(s) - multiset(Best(k, s)) ==> NotBefore(h, x)
  {
    SortIsRanked(s);
    hide Sort, NotBefore;
    var all, hits := Sort(s), Best(k, s);
    CutIsRanked(all, |hits|);
    assert all == hits + all[|hits|..];
    assert multiset(s) - multiset(hits) == multiset(all[|hits|..]);
  }

  lemma CutIsRanked(all: seq<Scored>, n: nat)
    requires Ranked(all) && n <= |all|
    ensures forall i, j :: 0 <= i < j < n ==> NotBefore(all[..n][i], all[..n][j])
    ensures forall h, x :: h in all[..n] && x in multiset(all[n..]) ==> NotBefore(h, x)
  {
    hide Ranked, NotBefore;
    forall i, j | 0 <= i < j < n ensures NotBefore(all[..n][i], all[..n][j]) { RankedAt(all, i, j); }
    forall h, x | h in all[..n] && x in multiset(all[n..]) ensures NotBefore(h, x) {
      var i :| 0 <= i < n && all[i] == h;
      assert x in all[n..];
      var j :| 0 <= j < |all[n..]| && all[n..][j] == x;
      RankedAt(all, i, n + j);
    }
  }

  // ---- why bounding the collection loses nothing ----

  lemma InsertCons(s: seq<Scored>, x: Scored)
    requires s != []
    ensures Insert(s, x) == if Better(x, s[0]) then [x] + s else [s[0]] + Insert(s[1..], x)
  {
  }

  lemma TakeIs(k: nat, s: seq<Scored>)
    ensures k == 0 ==> Take(k, s) == []
    ensures k > 0 && s != [] ==> Take(k, s) != [] && Take(k, s)[0] == s[0] && Take(k, s)[1..] == Take(k - 1, s[1..])
    ensures s == [] ==> Take(k, s) == []
    ensures Take(k, Take(k, s)) == Take(k, s)
  {
  }

  lemma {:induction false} TakeInsert(k: nat, s: seq<Scored>, x: Scored)
    ensures Take(k, Insert(s, x)) == Take(k, Insert(Take(k, s), x))
    decreases |s|
  {
    hide Take, Insert, Better;
    TakeIs(k, s);
    var t := Take(k, s);
    TakeIs(k, Insert(s, x));
    TakeIs(k, Insert(t, x));
    if k > 0 && s != [] {
      InsertCons(s, x);
      InsertCons(t, x);
      if Better(x, s[0]) {
        TakeCons(k, x, s);
        TakeCons(k, x, t);
        TakeShorter(k, s);
      } else {
        TakeInsert(k - 1, s[1..], x);
        TakeCons(k, s[0], Insert(s[1..], x));
        TakeCons(k, s[0], Insert(t[1..], x));
      }
    }
  }

  lemma TakeShorter(k: nat, s: seq<Scored>)
    requires k > 0
    ensures Take(k - 1, Take(k, s)) == Take(k - 1, s)
  {
  }

  lemma BestAppend(k: nat, s: seq<Scored>, x: Scored)
    ensures Best(k, s + [x]) == Take(k, Insert(Best(k, s), x))
  {
    assert (s + [x])[..|s|] == s;
    TakeInsert(k, Sort(s), x);
  }

  /** A prefix can be replaced by its own K best. */
  lemma {:induction false} BestOfPrefix(k: nat, a: seq<Scored>, b: seq<Scored>)
    ensures Best(k, a + b) == Best(k, Best(k, a) + b)
    decreases |b|
  {
    hide Insert, Sort, Take, Better, Ranked;
    if b == [] {
      assert a + b == a && Best(k, a) + b == Best(k, a);
      SortIsRanked(a);
      RankedPrefix(Sort(a), k);
      SortOfRanked(Take(k, Sort(a)));
      TakeTwice(k, Sort(a));
    } else {
      var n := |b| - 1;
      BestOfPrefix(k, a, b[..n]);
      assert a + b == (a + b[..n]) + [b[n]];
      assert Best(k, a) + b == (Best(k, a) + b[..n]) + [b[n]];
      BestAppend(k, a + b[..n], b[n]);
      BestAppend(k, Best(k, a) + b[..n], b[n]);
    }
  }

  lemma TakeTwice(k: nat, s: seq<Scored>)
    ensures Take(k, Take(k, s)) == Take(k, s)
  {
  }

  lemma BestOfSwap(k: nat, a: seq<Scored>, b: seq<Scored>)
    ensures Best(k, a + b) == Best(k, b + a)
  {
    SortOfPermutation(a + b, b + a);
  }

  /** Merging per-part K best lists gives the K best of the whole. */
  lemma BestOfParts(k: nat, a: seq<Scored>, b: seq<Scored>)
    ensures Best(k, a + b) == Best(k, a + Best(k, b))
  {
    BestOfSwap(k, a, b);
    BestOfPrefix(k, b, a);
    BestOfSwap(k, Best(k, b), a);
  }

  // ---- the collector ----

  /** When K elements are kept, a better one displaces the worst and any other is dropped. */
  lemma {:induction false} InsertIntoFull(s: seq<Scored>, x: Scored)
    requires Ranked(s) && s != []
    ensures Take(|s|, Insert(s, x)) ==
      if Better(x, s[|s| - 1]) then Insert(s[..|s| - 1], x) else s
  {
    hide Better;
    var n := |s| - 1;
    if n == 0 {
      assert s == [s[0]];
      assert s[..0] == [];
      assert s[1..] == [];
    } else {
      var t := s[1..];
      assert t[|t| - 1] == s[n] && s[n] in t && s == [s[0]] + t;
      assert s[..n] == [s[0]] + t[..n - 1];
      if Better(x, s[0]) {
        BetterIsTransitive(x, s[0], s[n]);
        assert Take(|s|, [x] + s) == [x] + s[..n];
      } else {
        InsertIntoFull(t, x);
        TakeCons(|s|, s[0], Insert(t, x));
        assert s[..n][1..] == t[..n - 1];
      }
    }
  }

  lemma TakeCons(k: nat, x: Scored, s: seq<Scored>)
    requires k > 0
    ensures Take(k, [x] + s) == [x] + Take(k - 1, s)
  {
  }

  lemma {:induction false} LastIsWorst(s: seq<Scored>, y: Scored)
    requires Ranked(s) && y in s
    ensures !Better(s[|s| - 1], y)
  {
    var n := |s| - 1;
    if y == s[0] {
      if n == 0 { BetterIsStrict(y, y); } else { assert s[n] in s[1..]; }
    } else {
      assert y in s[1..];
      LastIsWorst(s[1..], y);
      assert s[1..][|s[1..]| - 1] == s[n];
    }
  }

  /** The worst of a collection is the last of its ranking, and leaves the rest of the ranking. */
  lemma WorstIsLast(heap: seq<Scored>, w: nat)
    requires w < |heap| && forall i :: 0 <= i < |heap| ==> !Better(heap[w], heap[i])
    ensures Sort(heap)[|heap| - 1] == heap[w]
    ensures Sort(heap[..w] + heap[w + 1..]) == Sort(heap)[..|heap| - 1]
  {
    hide Sort, Insert, Better, Ranked;
    var s, n, rest := Sort(heap), |heap| - 1, heap[..w] + heap[w + 1..];
    SortIsRanked(heap);
    assert heap[w] in multiset(heap) && s[n] in multiset(s);
    assert s[n] in heap && heap[w] in s;
    LastIsWorst(s, heap[w]);
    BetterIsStrict(s[n], heap[w]);
    WithoutOne(heap, w);
    WithoutOne(s, n);
    assert s[..n] + s[n + 1..] == s[..n];
    RankedPrefix(s, n);
    assert Take(n, s) == s[..n];
    SortIsRanked(rest);
    RankedUnique(Sort(rest), s[..n]);
  }

  lemma WithoutOne(s: seq<Scored>, w: nat)
    requires w < |s|
    ensures multiset(s[..w] + s[w + 1..]) == multiset(s) - multiset{s[w]}
  {
    assert s == s[..w] + [s[w]] + s[w + 1..];
  }

  lemma KeptBounds(k: nat, seen: seq<Scored>, heap: seq<Scored>)
    requires Sort(heap) == Best(k, seen)
    ensures |heap| <= k && (|heap| < k ==> Best(k, seen) == Sort(seen))
  {
    hide Sort;
  }

  lemma KeepNothing(seen: seq<Scored>, x: Scored, heap: seq<Scored>)
    requires Sort(heap) == Best(0, seen)
    ensures Sort(heap) == Best(0, seen + [x])
  {
    hide Sort;
  }

  lemma KeepAll(k: nat, seen: seq<Scored>, x: Scored, heap: seq<Scored>)
    requires Sort(heap) == Best(k, seen) && |heap| < k
    ensures Sort(heap + [x]) == Best(k, seen + [x])
  {
    hide Insert, Better, Best;
    BestAppend(k, seen, x);
    assert (heap + [x])[..|heap|] == heap;
  }

  lemma KeepBetter(k: nat, seen: seq<Scored>, x: Scored, heap: seq<Scored>, w: nat)
    requires Sort(heap) == Best(k, seen) && |heap| == k > 0
    requires w < |heap| && forall i :: 0 <= i < |heap| ==> !Better(heap[w], heap[i])
    ensures Sort(if Better(x, heap[w]) then heap[..w] + heap[w + 1..] + [x] else heap) == Best(k, seen + [x])
  {
    hide Insert, Better, Best, Ranked, Take;
    BestAppend(k, seen, x);
    SortIsRanked(heap);
    WorstIsLast(heap, w);
    InsertIntoFull(Sort(heap), x);
    var rest := heap[..w] + heap[w + 1..];
    assert (rest + [x])[..|rest|] == rest;
  }

  class TopKCollector {
    const capacity: nat
    /** The priority queue; its top is the worst document kept. */
    var heap: seq<Scored>
    ghost var seen: seq<Scored>

    ghost predicate Valid()
      reads this
    {
      Sort(heap) == Best(capacity, seen)
    }

    constructor (capacity: nat)
      ensures Valid() && seen == [] && this.capacity == capacity
    {
      this.capacity := capacity;
      heap, seen := [], [];
    }

    method Top() returns (w: nat)
      requires |heap| > 0
      ensures w < |heap| && forall i :: 0 <= i < |heap| ==> !Better(heap[w], heap[i])
    {
      w := 0;
      BetterIsStrict(heap[0], heap[0]);
      for i := 1 to |heap|
        invariant w < i && forall k :: 0 <= k < i ==> !Better(heap[w], heap[k])
      {
        BetterIsStrict(heap[w], heap[i]);
        if Better(heap[w], heap[i]) {
          forall k | 0 <= k < i ensures !Better(heap[i], heap[k]) {
            if Better(heap[i], heap[k]) { WorseThanAll(heap[w], heap[i], heap[k]); }
          }
          BetterIsStrict(heap[i], heap[i]);
          w := i;
        }
      }
    }

    method Collect(x: Scored)
      requires Valid()
      modifies this
      ensures Valid() && seen == old(seen) + [x]
    {
      hide Better, Ranked, Best, Sort;
      KeptBounds(capacity, seen, heap);
      ghost var before := seen;
      seen := seen + [x];
      if capacity == 0 {
        KeepNothing(before, x, heap);
        return;
      }
      if |heap| < capacity {
        KeepAll(capacity, before, x, heap);
        heap := heap + [x];
        return;
      }
      var w := Top();
      KeepBetter(capacity, before, x, heap, w);
      if Better(x, heap[w]) {
        heap := heap[..w] + heap[w + 1..] + [x];
      }
    }

    /** Draining the queue and sorting gives the K best documents collected. */
    method Results() returns (r: seq<Scored>)
      requires Valid()
      ensures r == Best(capacity, seen)
    {
      r := Sort(heap);
    }
  }

  lemma WorseThanAll(w: Scored, i: Scored, k: Scored)
    requires Better(w, i) && !Better(w, k)
    ensures !Better(i, k)
  {
    BetterIsStrict(i, k);
    if Better(i, k) {
      BetterIsStrict(k, i);
      BetterIsTransitive(w, i, k);
    }
  }
}

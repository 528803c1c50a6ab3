/** The two-way merges of the executor (src/query/executor.cpp): AND, OR and NOT over candidate
    lists sorted by internal ID. A list is read as a partial map from IDs to scores. */
module Merging {
  import opened Basics

  datatype Candidate = Candidate(doc: nat, score: real)
  type Candidates = seq<Candidate>

  ghost predicate Sorted(c: Candidates) {
    forall i, j :: 0 <= i < j < |c| ==> c[i].doc < c[j].doc
  }

  /** The score a list gives to a document, if the document is in it. */
  function At(c: Candidates, id: nat): Option<real> {
    if c == [] then None
    else if c[|c| - 1].doc == id then Some(c[|c| - 1].score)
    else At(c[..|c| - 1], id)
  }

  function Both(a: Option<real>, b: Option<real>): Option<real> {
    if a.Some? && b.Some? then Some(a.value + b.value) else None
  }

  function Either(a: Option<real>, b: Option<real>): Option<real> {
    if a.None? then b else if b.None? then a else Some(a.value + b.value)
  }

  function ButNot(a: Option<real>, b: Option<real>): Option<real> {
    if b.Some? then None else a
  }

  lemma {:induction false} AtSome(c: Candidates, id: nat)
    ensures At(c, id).Some? <==> exists i :: 0 <= i < |c| && c[i].doc == id
    ensures At(c, id).Some? ==> exists i :: 0 <= i < |c| && c[i] == Candidate(id, At(c, id).value)
  {
    if c != [] {
      var n := |c| - 1;
      AtSome(c[..n], id);
      if c[n].doc == id {
        assert c[n] == Candidate(id, At(c, id).value);
      } else if At(c, id).Some? {
        var i :| 0 <= i < n && c[..n][i] == Candidate(id, At(c, id).value);
        assert c[i] == Candidate(id, At(c, id).value);
      }
    }
  }

  lemma {:induction false} AtIndex(c: Candidates, i: nat)
    requires Sorted(c) && i < |c|
    ensures At(c, c[i].doc) == Some(c[i].score)
  {
    if i < |c| - 1 {
      AtIndex(c[..|c| - 1], i);
    }
  }

  lemma AtAppend(c: Candidates, x: Candidate, id: nat)
    ensures At(c + [x], id) == if x.doc == id then Some(x.score) else At(c, id)
  {
    assert (c + [x])[..|c|] == c;
  }

  lemma AtPrefix(c: Candidates, i: nat, id: nat)
    requires i < |c|
    ensures At(c[..i + 1], id) == if c[i].doc == id then Some(c[i].score) else At(c[..i], id)
  {
    assert c[..i + 1] == c[..i] + [c[i]];
    AtAppend(c[..i], c[i], id);
  }

  lemma {:induction false} AtBeyond(c: Candidates, i: nat, id: nat)
    requires i <= |c| && forall k :: i <= k < |c| ==> c[k].doc != id
    ensures At(c, id) == At(c[..i], id)
    decreases |c|
  {
    if i < |c| {
      var n := |c| - 1;
      AtBeyond(c[..n], i, id);
      assert c[..n][..i] == c[..i];
    } else {
      assert c[..i] == c;
    }
  }

  lemma AtNone(c: Candidates, id: nat)
    requires forall k :: 0 <= k < |c| ==> c[k].doc != id
    ensures At(c, id).None?
  {
    AtSome(c, id);
  }

  /** A sorted list is determined by what it says of each document. */
  lemma {:induction false} SortedUnique(a: Candidates, b: Candidates)
    requires Sorted(a) && Sorted(b) && forall id :: At(a, id) == At(b, id)
    ensures a == b
    decreases |a|
  {
    if a == [] {
      if b != [] { AtIndex(b, 0); assert false; }
    } else {
      var x := a[|a| - 1];
      AtIndex(a, |a| - 1);
      AtSome(b, x.doc);
      var k :| 0 <= k < |b| && b[k] == x;
      if k < |b| - 1 {
        var y := b[|b| - 1];
        AtIndex(b, |b| - 1);
        AtSome(a, y.doc);
        assert false;
      }
      var a', b' := a[..|a| - 1], b[..|b| - 1];
      forall id ensures At(a', id) == At(b', id) {
        if id == x.doc { AtNone(a', id); AtNone(b', id); }
        assert At(a, id) == At(b, id);
      }
      SortedUnique(a', b');
      assert a == a' + [x] && b == b' + [x];
    }
  }

  // ---- the state shared by the merge loops ----

  /** Everything before (i, j) is merged: no ID is split between a consumed and a pending part. */
  ghost predicate Split(left: Candidates, right: Candidates, i: nat, j: nat) {
    && i <= |left| && j <= |right|
    && (forall a, b :: 0 <= a < i && j <= b < |right| ==> left[a].doc < right[b].doc)
    && (forall a, b :: i <= a < |left| && 0 <= b < j ==> right[b].doc < left[a].doc)
  }

  /** `r` lists documents below everything still pending. */
  ghost predicate Below(r: Candidates, c: Candidates, i: nat) {
    forall k, a :: 0 <= k < |r| && i <= a < |c| ==> r[k].doc < c[a].doc
  }

  lemma SplitLeft(left: Candidates, right: Candidates, i: nat, j: nat)
    requires Sorted(left) && Sorted(right) && Split(left, right, i, j) && i < |left|
    requires j < |right| ==> left[i].doc < right[j].doc
    ensures Split(left, right, i + 1, j)
    ensures At(right[..j], left[i].doc).None? && At(right, left[i].doc).None?
  {
    forall b | j <= b < |right| ensures left[i].doc < right[b].doc {
      if b > j { assert right[j].doc < right[b].doc; }
    }
    AtNone(right[..j], left[i].doc);
    AtNone(right, left[i].doc);
  }

  lemma SplitRight(left: Candidates, right: Candidates, i: nat, j: nat)
    requires Sorted(left) && Sorted(right) && Split(left, right, i, j) && j < |right|
    requires i < |left| ==> right[j].doc < left[i].doc
    ensures Split(left, right, i, j + 1)
    ensures At(left[..i], right[j].doc).None?
  {
    forall a | i <= a < |left| ensures right[j].doc < left[a].doc {
      if a > i { assert left[i].doc < left[a].doc; }
    }
    AtNone(left[..i], right[j].doc);
  }

  lemma SplitBoth(left: Candidates, right: Candidates, i: nat, j: nat)
    requires Sorted(left) && Sorted(right) && Split(left, right, i, j) && i < |left| && j < |right|
    requires left[i].doc == right[j].doc
    ensures Split(left, right, i + 1, j + 1)
  {
  }

  // ---- AND ----

  ghost predicate Intersected(left: Candidates, right: Candidates, i: nat, j: nat, r: Candidates) {
    && Split(left, right, i, j) && Sorted(r) && Below(r, left, i) && Below(r, right, j)
    && (forall id :: At(r, id) == Both(At(left[..i], id), At(right[..j], id)))
  }

  lemma IntersectLeft(left: Candidates, right: Candidates, i: nat, j: nat, r: Candidates)
    requires Sorted(left) && Sorted(right) && Intersected(left, right, i, j, r)
    requires i < |left| && j < |right| && left[i].doc < right[j].doc
    ensures Intersected(left, right, i + 1, j, r)
  {
    SplitLeft(left, right, i, j);
    forall id ensures At(r, id) == Both(At(left[..i + 1], id), At(right[..j], id)) {
      AtPrefix(left, i, id);
    }
  }

  lemma IntersectRight(left: Candidates, right: Candidates, i: nat, j: nat, r: Candidates)
    requires Sorted(left) && Sorted(right) && Intersected(left, right, i, j, r)
    requires i < |left| && j < |right| && right[j].doc < left[i].doc
    ensures Intersected(left, right, i, j + 1, r)
  {
    SplitRight(left, right, i, j);
    forall id ensures At(r, id) == Both(At(left[..i], id), At(right[..j + 1], id)) {
      AtPrefix(right, j, id);
    }
  }

  lemma SortedAppend(r: Candidates, x: Candidate, left: Candidates, right: Candidates, i: nat, j: nat)
    requires Sorted(r) && Sorted(left) && Sorted(right) && i <= |left| && j <= |right|
    requires forall k :: 0 <= k < |r| ==> r[k].doc < x.doc
    requires forall a :: i <= a < |left| ==> x.doc < left[a].doc
    requires forall b :: j <= b < |right| ==> x.doc < right[b].doc
    requires Below(r, left, i) && Below(r, right, j)
    ensures Sorted(r + [x]) && Below(r + [x], left, i) && Below(r + [x], right, j)
  {
  }

  lemma IntersectBoth(left: Candidates, right: Candidates, i: nat, j: nat, r: Candidates)
    requires Sorted(left) && Sorted(right) && Intersected(left, right, i, j, r)
    requires i < |left| && j < |right| && left[i].doc == right[j].doc
    ensures Intersected(left, right, i + 1, j + 1, r + [Candidate(left[i].doc, left[i].score + right[j].score)])
  {
    var x := Candidate(left[i].doc, left[i].score + right[j].score);
    SplitBoth(left, right, i, j);
    SortedAppend(r, x, left, right, i + 1, j + 1);
    forall id ensures At(r + [x], id) == Both(At(left[..i + 1], id), At(right[..j + 1], id)) {
      AtPrefix(left, i, id);
      AtPrefix(right, j, id);
      AtAppend(r, x, id);
    }
  }

  lemma IntersectDone(left: Candidates, right: Candidates, i: nat, j: nat, r: Candidates)
    requires Intersected(left, right, i, j, r) && (i == |left| || j == |right|)
    ensures Sorted(r) && forall id :: At(r, id) == Both(At(left, id), At(right, id))
  {
    forall id ensures At(r, id) == Both(At(left, id), At(right, id)) {
      AtSome(left, id);
      AtSome(right, id);
      if i == |left| {
        assert left[..i] == left;
        if At(left, id).Some? { AtBeyond(right, j, id); }
      } else {
        assert right[..j] == right;
        if At(right, id).Some? { AtBeyond(left, i, id); }
      }
    }
  }

  /** AND: the documents in both lists, with the sum of their scores. */
  method Intersect(left: Candidates, right: Candidates) returns (r: Candidates)
    requires Sorted(left) && Sorted(right)
    ensures Sorted(r)
    ensures forall id :: At(r, id) == Both(At(left, id), At(right, id))
  {
    r := [];
    var i, j := 0, 0;
    assert Intersected(left, right, i, j, r);
    hide Intersected, At, Sorted;
    while i < |left| && j < |right|
      invariant i <= |left| && j <= |right|
      invariant Intersected(left, right, i, j, r)
      decreases |left| - i + |right| - j
    {
      if left[i].doc < right[j].doc {
        IntersectLeft(left, right, i, j, r);
        i := i + 1;
      } else if right[j].doc < left[i].doc {
        IntersectRight(left, right, i, j, r);
        j := j + 1;
      } else {
        IntersectBoth(left, right, i, j, r);
        r := r + [Candidate(left[i].doc, left[i].score + right[j].score)];
        i, j := i + 1, j + 1;
      }
    }
    IntersectDone(left, right, i, j, r);
  }

  // ---- OR ----

  ghost predicate United(left: Candidates, right: Candidates, i: nat, j: nat, r: Candidates) {
    && Split(left, right, i, j) && Sorted(r) && Below(r, left, i) && Below(r, right, j)
    && (forall id :: At(r, id) == Either(At(left[..i], id), At(right[..j], id)))
  }

  lemma UniteLeft(left: Candidates, right: Candidates, i: nat, j: nat, r: Candidates)
    requires Sorted(left) && Sorted(right) && United(left, right, i, j, r)
    requires i < |left| && (j < |right| ==> left[i].doc < right[j].doc)
    ensures United(left, right, i + 1, j, r + [left[i]])
  {
    SplitLeft(left, right, i, j);
    SortedAppend(r, left[i], left, right, i + 1, j);
    forall id ensures At(r + [left[i]], id) == Either(At(left[..i + 1], id), At(right[..j], id)) {
      AtPrefix(left, i, id);
      AtAppend(r, left[i], id);
    }
  }

  lemma UniteRight(left: Candidates, right: Candidates, i: nat, j: nat, r: Candidates)
    requires Sorted(left) && Sorted(right) && United(left, right, i, j, r)
    requires j < |right| && (i < |left| ==> right[j].doc < left[i].doc)
    ensures United(left, right, i, j + 1, r + [right[j]])
  {
    SplitRight(left, right, i, j);
    SortedAppend(r, right[j], left, right, i, j + 1);
    forall id ensures At(r + [right[j]], id) == Either(At(left[..i], id), At(right[..j + 1], id)) {
      AtPrefix(right, j, id);
      AtAppend(r, right[j], id);
    }
  }

  lemma UniteBoth(left: Candidates, right: Candidates, i: nat, j: nat, r: Candidates)
    requires Sorted(left) && Sorted(right) && United(left, right, i, j, r)
    requires i < |left| && j < |right| && left[i].doc == right[j].doc
    ensures United(left, right, i + 1, j + 1, r + [Candidate(left[i].doc, left[i].score + right[j].score)])
  {
    var x := Candidate(left[i].doc, left[i].score + right[j].score);
    SplitBoth(left, right, i, j);
    SortedAppend(r, x, left, right, i + 1, j + 1);
    forall id ensures At(r + [x], id) == Either(At(left[..i + 1], id), At(right[..j + 1], id)) {
      AtPrefix(left, i, id);
      AtPrefix(right, j, id);
      AtAppend(r, x, id);
    }
  }

  /** OR: the documents in either list, with the sum of the scores they have. */
  method Unite(left: Candidates, right: Candidates) returns (r: Candidates)
    requires Sorted(left) && Sorted(right)
    ensures Sorted(r)
    ensures forall id :: At(r, id) == Either(At(left, id), At(right, id))
  {
    r := [];
    var i, j := 0, 0;
    while i < |left| || j < |right|
      invariant i <= |left| && j <= |right|
      invariant United(left, right, i, j, r)
      decreases |left| - i + |right| - j
    {
      hide United, At, Sorted;
      if j == |right| || (i < |left| && left[i].doc < right[j].doc) {
        UniteLeft(left, right, i, j, r);
        r := r + [left[i]];
        i := i + 1;
      } else if i == |left| || right[j].doc < left[i].doc {
        UniteRight(left, right, i, j, r);
        r := r + [right[j]];
        j := j + 1;
      } else {
        UniteBoth(left, right, i, j, r);
        r := r + [Candidate(left[i].doc, left[i].score + right[j].score)];
        i, j := i + 1, j + 1;
      }
    }
    assert left[..i] == left && right[..j] == right;
  }

  // ---- NOT ----

  ghost predicate Excluded(universe: Candidates, excluded: Candidates, i: nat, j: nat, r: Candidates) {
    && i <= |universe| && j <= |excluded|
    && (forall a, b :: i <= a < |universe| && 0 <= b < j ==> excluded[b].doc < universe[a].doc)
    && Sorted(r) && Below(r, universe, i)
    && (forall id :: At(r, id) == ButNot(At(universe[..i], id), At(excluded, id)))
  }

  lemma ExcludeStep(universe: Candidates, excluded: Candidates, i: nat, j: nat, r: Candidates)
    requires Sorted(universe) && Sorted(excluded) && Excluded(universe, excluded, i, j, r) && i < |universe|
    requires j < |excluded| ==> universe[i].doc <= excluded[j].doc
    ensures j == |excluded| || universe[i].doc < excluded[j].doc ==>
      Excluded(universe, excluded, i + 1, j, r + [universe[i]])
    ensures j < |excluded| && universe[i].doc == excluded[j].doc ==> Excluded(universe, excluded, i + 1, j, r)
  {
    var x := universe[i];
    if j < |excluded| && x.doc == excluded[j].doc {
      AtIndex(excluded, j);
      forall id ensures At(r, id) == ButNot(At(universe[..i + 1], id), At(excluded, id)) {
        AtPrefix(universe, i, id);
      }
    } else {
      forall b | 0 <= b < |excluded| ensures excluded[b].doc != x.doc {
        if b > j { assert excluded[j].doc < excluded[b].doc; }
      }
      AtNone(excluded, x.doc);
      SortedAppend(r, x, universe, [], i + 1, 0);
      forall id ensures At(r + [x], id) == ButNot(At(universe[..i + 1], id), At(excluded, id)) {
        AtPrefix(universe, i, id);
        AtAppend(r, x, id);
      }
    }
  }

  /** NOT: the documents of the universe that are not excluded, with their scores there. */
  method Exclude(universe: Candidates, excluded: Candidates) returns (r: Candidates)
    requires Sorted(universe) && Sorted(excluded)
    ensures Sorted(r)
    ensures forall id :: At(r, id) == ButNot(At(universe, id), At(excluded, id))
  {
    r := [];
    var j := 0;
    for i := 0 to |universe|
      invariant j <= |excluded|
      invariant Excluded(universe, excluded, i, j, r)
    {
      while j < |excluded| && excluded[j].doc < universe[i].doc
        invariant j <= |excluded|
        invariant Excluded(universe, excluded, i, j, r)
      {
        j := j + 1;
      }
      ExcludeStep(universe, excluded, i, j, r);
      hide Excluded;
      if j == |excluded| || universe[i].doc < excluded[j].doc { r := r + [universe[i]]; }
    }
    assert universe[..|universe|] == universe;
  }
}

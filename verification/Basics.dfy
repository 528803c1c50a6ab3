/** Shared value types: optional values, results, machine-integer bounds and the
    byte-wise string order that `std::string` and `std::map` use. */
module Basics {

  datatype Option<+T> = None | Some(value: T)

  datatype Result<+T, +E> = Ok(value: T) | Err(error: E)

  const U32_LIMIT: nat := 0x1_0000_0000
  const U64_LIMIT: nat := 0x1_0000_0000_0000_0000

  /** The product of two boosts. */
  function Times(x: real, y: real): real { x * y }

  /** Lexicographic order on strings, as `std::string::operator<`. */
  predicate Less(a: string, b: string)
    decreases |a|
  {
    |b| != 0 &&
    (|a| == 0 || a[0] < b[0] || (a[0] == b[0] && Less(a[1..], b[1..])))
  }

  lemma {:induction false} LessIrreflexive(a: string)
    ensures !Less(a, a)
    decreases |a|
  {
    if |a| != 0 { LessIrreflexive(a[1..]); }
  }

  lemma {:induction false} LessTransitive(a: string, b: string, c: string)
    requires Less(a, b) && Less(b, c)
    ensures Less(a, c)
    decreases |a|
  {
    if |a| != 0 && a[0] == b[0] && b[0] == c[0] {
      LessTransitive(a[1..], b[1..], c[1..]);
    }
  }

  lemma {:induction false} LessTotal(a: string, b: string)
    ensures a == b || Less(a, b) || Less(b, a)
    decreases |a|
  {
    if |a| != 0 && |b| != 0 && a[0] == b[0] {
      LessTotal(a[1..], b[1..]);
      assert a == [a[0]] + a[1..] && b == [b[0]] + b[1..];
    }
  }

  lemma LessAsymmetric(a: string, b: string)
    requires Less(a, b)
    ensures !Less(b, a) && a != b
  {
    if Less(b, a) { LessTransitive(a, b, a); }
    LessIrreflexive(a);
  }

  predicate IsLeast(s: set<string>, x: string) {
    x in s && forall y :: y in s ==> y == x || Less(x, y)
  }

  lemma {:induction false} LeastExists(s: set<string>)
    requires s != {}
    ensures exists x :: IsLeast(s, x)
    decreases |s|
  {
    var x :| x in s;
    var rest := s - {x};
    if rest == {} {
      assert s == {x} + rest;
      assert IsLeast(s, x);
    } else {
      LeastExists(rest);
      var m :| IsLeast(rest, m);
      LeastOfTwo(s, x, m);
    }
  }

  lemma LeastOfTwo(s: set<string>, x: string, m: string)
    requires x in s && IsLeast(s - {x}, m)
    ensures IsLeast(s, x) || IsLeast(s, m)
  {
    hide Less;
    LessTotal(x, m);
    if Less(x, m) {
      forall y | y in s ensures y == x || Less(x, y) {
        if y != x && y != m { LessTransitive(x, m, y); }
      }
    } else {
      forall y | y in s ensures y == m || Less(m, y) {
        if y != x { assert y in s - {x}; }
      }
    }
  }

  function Least(s: set<string>): (x: string)
    requires s != {}
    ensures x in s
    ensures forall y :: y in s ==> y == x || Less(x, y)
  {
    LeastExists(s);
    assert forall x, y :: Less(x, y) && Less(y, x) ==> false by {
      forall x, y | Less(x, y) && Less(y, x) ensures false { LessAsymmetric(x, y); }
    }
    var x :| IsLeast(s, x);
    x
  }

  /** The keys of a `std::map` or `std::set` in iteration order. */
  function SortedKeys(s: set<string>): (r: seq<string>)
    ensures |r| == |s|
    ensures forall x :: x in r <==> x in s
    decreases |s|
  {
    if s == {} then [] else var x := Least(s); [x] + SortedKeys(s - {x})
  }

  lemma {:induction false} SortedKeysAscend(s: set<string>, i: nat, j: nat)
    requires i < j < |SortedKeys(s)|
    ensures Less(SortedKeys(s)[i], SortedKeys(s)[j]) && SortedKeys(s)[i] != SortedKeys(s)[j]
    decreases |s|
  {
    var x := Least(s);
    var rest := SortedKeys(s - {x});
    if i == 0 {
      assert SortedKeys(s)[j] == rest[j - 1] && rest[j - 1] in rest;
    } else {
      SortedKeysAscend(s - {x}, i - 1, j - 1);
    }
    LessAsymmetric(SortedKeys(s)[i], SortedKeys(s)[j]);
  }

  lemma {:induction false} SubsetSize<T>(a: set<T>, b: set<T>)
    requires a <= b
    ensures |a| <= |b|
    decreases a
  {
    if x :| x in a {
      SubsetSize(a - {x}, b - {x});
      assert b == (b - {x}) + {x} && a == (a - {x}) + {x};
    }
  }
}

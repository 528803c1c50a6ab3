/** Canonical plan text (src/query/planner.cpp): a prefix-free code of what evaluation reads. */
module Canonicalization {
  import opened Numbers
  import opened Analysis
  import opened Plans

  /** Prints a boost; `std::ostream` at 17 digits in the source. */
  type Printer = real -> string

  /** Printing tells the boosts in `domain` apart and never uses the characters that end a number. */
  ghost predicate Faithful(show: Printer, domain: iset<real>) {
    && (forall x, y :: x in domain && y in domain && show(x) == show(y) ==> x == y)
    && (forall x :: x in domain ==> ',' !in show(x) && ')' !in show(x))
  }

  ghost predicate BoostsIn(plan: Plan, domain: iset<real>) {
    match plan
    case Term(_, _, boost, _) => boost in domain
    case Phrase(_, _, boost, _) => boost in domain
    case And(children, _) => forall i :: 0 <= i < |children| ==> BoostsIn(children[i], domain)
    case Or(children, _) => forall i :: 0 <= i < |children| ==> BoostsIn(children[i], domain)
    case Not(operand, _) => BoostsIn(operand, domain)
    case Range(_, _, _, _, _, _) => true
    case MatchAll(_) => true
  }

  // ---- the code, as the source concatenates it ----

  function Atom(s: string): string {
    Decimal(|s|) + ":" + s
  }

  function Bit(b: bool): string {
    if b then "1" else "0"
  }

  function TokenText(tokens: seq<Token>): string {
    if tokens == [] then ""
    else "," + Atom(tokens[0].term) + "@" + Decimal(tokens[0].position) + TokenText(tokens[1..])
  }

  /** The canonical text of a plan, followed by `s`. */
  function Coded(show: Printer, plan: Plan, s: string): string
    decreases plan, 1
  {
    match plan
    case Term(f, t, boost, _) => "T(" + (Atom(f) + ("," + (Atom(t) + ("," + (show(boost) + (")" + s))))))
    case Phrase(f, tokens, boost, _) => "P(" + (Atom(f) + ("," + (show(boost) + (TokenText(tokens) + ")" + s))))
    case And(children, _) => "A(" + CodedAll(show, children, s)
    case Or(children, _) => "O(" + CodedAll(show, children, s)
    case Not(operand, _) => "N(" + Coded(show, operand, ")" + s)
    case Range(f, lower, upper, includeLower, includeUpper, _) =>
      "R("
        + (Atom(f)
           + (","
              + (Atom(lower)
                 + ("," + (Atom(upper) + ("," + (Bit(includeLower) + ("," + (Bit(includeUpper) + (")" + s))))))))))
    case MatchAll(_) => "M()" + s
  }

  /** The children's texts, each followed by a comma, then the closing parenthesis and `s`. */
  function CodedAll(show: Printer, children: seq<Plan>, s: string): string
    decreases children, 0
  {
    if children == [] then ")" + s else Coded(show, children[0], "," + CodedAll(show, children[1..], s))
  }

  function Canonical(show: Printer, plan: Plan): string {
    Coded(show, plan, "")
  }

  // ---- what evaluation reads ----

  function EraseTokens(tokens: seq<Token>): seq<(string, nat)> {
    seq(|tokens|, i requires 0 <= i < |tokens| => (tokens[i].term, tokens[i].position))
  }

  /** Two plans agree on everything but estimates and token offsets. */
  predicate Same(a: Plan, b: Plan)
    decreases a
  {
    match (a, b)
    case (Term(f, t, x, _), Term(g, u, y, _)) => f == g && t == u && x == y
    case (Phrase(f, p, x, _), Phrase(g, q, y, _)) => f == g && EraseTokens(p) == EraseTokens(q) && x == y
    case (And(cs, _), And(ds, _)) => |cs| == |ds| && forall i :: 0 <= i < |cs| ==> Same(cs[i], ds[i])
    case (Or(cs, _), Or(ds, _)) => |cs| == |ds| && forall i :: 0 <= i < |cs| ==> Same(cs[i], ds[i])
    case (Not(x, _), Not(y, _)) => Same(x, y)
    case (Range(f, l, u, il, iu, _), Range(g, m, v, jl, ju, _)) => f == g && l == m && u == v && il == jl && iu == ju
    case (MatchAll(_), MatchAll(_)) => true
    case _ => false
  }

  // ---- splitting a text at its delimiters ----

  predicate Free(s: string, stop: char -> bool) {
    forall i :: 0 <= i < |s| ==> !stop(s[i])
  }

  /** Two texts cut at their first stop character agree on both sides of the cut. */
  lemma {:induction false} CutAtStop(stop: char -> bool, u: string, s: string, v: string, t: string)
    requires Free(u, stop) && Free(v, stop)
    requires s != "" && t != "" && stop(s[0]) && stop(t[0])
    requires u + s == v + t
    ensures u == v && s == t
    decreases |u|
  {
    assert (u + s)[0] == if u == "" then s[0] else u[0];
    assert (v + t)[0] == if v == "" then t[0] else v[0];
    assert u == "" <==> v == "";
    if u == "" {
      assert u + s == s && v + t == t;
    } else {
      assert (u + s)[1..] == u[1..] + s && (v + t)[1..] == v[1..] + t;
      CutAtStop(stop, u[1..], s, v[1..], t);
      assert u == [u[0]] + u[1..] && v == [v[0]] + v[1..];
    }
  }

  lemma SameLengthSplit(u: string, s: string, v: string, t: string)
    requires |u| == |v| && u + s == v + t
    ensures u == v && s == t
  {
    assert (u + s)[..|u|] == u && (v + t)[..|v|] == v;
    assert (u + s)[|u|..] == s && (v + t)[|v|..] == t;
  }

  lemma DecimalSplit(m: nat, s: string, n: nat, t: string)
    requires s != "" && t != "" && !IsDigit(s[0]) && !IsDigit(t[0])
    requires Decimal(m) + s == Decimal(n) + t
    ensures m == n && s == t
  {
    CutAtStop(c => !IsDigit(c), Decimal(m), s, Decimal(n), t);
    DecimalInjective(m, n);
  }

  lemma AtomSplit(x: string, s: string, y: string, t: string)
    requires Atom(x) + s == Atom(y) + t
    ensures x == y && s == t
  {
    var s', t' := ":" + x + s, ":" + y + t;
    assert Atom(x) + s == Decimal(|x|) + s' && Atom(y) + t == Decimal(|y|) + t';
    DecimalSplit(|x|, s', |y|, t');
    assert s'[1..] == x + s && t'[1..] == y + t;
    SameLengthSplit(x, s, y, t);
  }

  predicate EndsNumber(c: char) { c == ',' || c == ')' }

  lemma NumberSplit(show: Printer, domain: iset<real>, x: real, s: string, y: real, t: string)
    requires Faithful(show, domain) && x in domain && y in domain
    requires s != "" && t != "" && EndsNumber(s[0]) && EndsNumber(t[0])
    requires show(x) + s == show(y) + t
    ensures x == y && s == t
  {
    CutAtStop(EndsNumber, show(x), s, show(y), t);
  }

  // ---- injectivity ----

  /** The rest of a phrase: tokens, then the closing parenthesis. */
  lemma {:induction false} TokensSplit(p: seq<Token>, s: string, q: seq<Token>, t: string)
    requires TokenText(p) + ")" + s == TokenText(q) + ")" + t
    ensures EraseTokens(p) == EraseTokens(q) && s == t
    decreases |p|
  {
    TokenNext(p, s);
    TokenNext(q, t);
    assert p == [] <==> q == [];
    if p == [] {
      assert (TokenText(p) + ")" + s)[1..] == s && (TokenText(q) + ")" + t)[1..] == t;
    } else {
      var p', q' := TokenText(p[1..]) + ")" + s, TokenText(q[1..]) + ")" + t;
      TokenHead(p, s);
      TokenHead(q, t);
      AtomSplit(p[0].term, "@" + (Decimal(p[0].position) + p'), q[0].term, "@" + (Decimal(q[0].position) + q'));
      SameLengthSplit("@", Decimal(p[0].position) + p', "@", Decimal(q[0].position) + q');
      TokenNext(p[1..], s);
      TokenNext(q[1..], t);
      DecimalSplit(p[0].position, p', q[0].position, q');
      TokensSplit(p[1..], s, q[1..], t);
      EraseCons(p);
      EraseCons(q);
    }
  }

  lemma TokenHead(p: seq<Token>, s: string)
    requires p != []
    ensures TokenText(p) + ")" + s
      == "," + (Atom(p[0].term) + ("@" + (Decimal(p[0].position) + (TokenText(p[1..]) + ")" + s))))
    ensures (TokenText(p) + ")" + s)[1..]
      == Atom(p[0].term) + ("@" + (Decimal(p[0].position) + (TokenText(p[1..]) + ")" + s)))
  {
    var atom, position, more := Atom(p[0].term), Decimal(p[0].position), TokenText(p[1..]);
    assert TokenText(p) == "," + atom + "@" + position + more;
    hide *;
    FiveParts(atom, position, more, s);
    var rest := atom + ("@" + (position + (more + ")" + s)));
    assert ("," + rest)[1..] == rest;
  }

  lemma FiveParts(a: string, b: string, c: string, s: string)
    ensures "," + a + "@" + b + c + ")" + s == "," + (a + ("@" + (b + (c + ")" + s))))
  {
    var t := ")" + s;
    Push("," + a + "@" + b + c, ")", s);
    Push(c, ")", s);
    Push("," + a + "@" + b, c, t);
    Push("," + a + "@", b, c + t);
    Push("," + a, "@", b + (c + t));
    Push(",", a, "@" + (b + (c + t)));
  }

  /** What follows a number in a phrase is a comma if a token comes next, else the closing parenthesis. */
  lemma TokenNext(p: seq<Token>, s: string)
    ensures TokenText(p) + ")" + s != ""
    ensures (TokenText(p) + ")" + s)[0] == if p == [] then ')' else ','
  {
    if p == [] { assert TokenText(p) + ")" + s == ")" + s; }
    else { TokenHead(p, s); }
  }

  lemma EraseCons(p: seq<Token>)
    requires p != []
    ensures EraseTokens(p) == [(p[0].term, p[0].position)] + EraseTokens(p[1..])
  {
  }

  function Tag(plan: Plan): char {
    match plan
    case Term(_, _, _, _) => 'T'
    case Phrase(_, _, _, _) => 'P'
    case And(_, _) => 'A'
    case Or(_, _) => 'O'
    case Not(_, _) => 'N'
    case Range(_, _, _, _, _, _) => 'R'
    case MatchAll(_) => 'M'
  }

  lemma CodedTag(show: Printer, plan: Plan, s: string)
    ensures Coded(show, plan, s) != "" && Coded(show, plan, s)[0] == Tag(plan)
  {
    hide Atom, TokenText, CodedAll;
  }

  lemma Strip(prefix: string, s: string, t: string)
    requires prefix + s == prefix + t
    ensures s == t
  {
    SameLengthSplit(prefix, s, prefix, t);
  }

  lemma TermSplit(show: Printer, domain: iset<real>, a: Plan, s: string, b: Plan, t: string)
    requires Faithful(show, domain) && a.Term? && b.Term? && a.boost in domain && b.boost in domain
    requires Coded(show, a, s) == Coded(show, b, t)
    ensures Same(a, b) && s == t
  {
    hide Atom, Faithful;
    var a3, b3 := show(a.boost) + (")" + s), show(b.boost) + (")" + t);
    var a2, b2 := Atom(a.term) + ("," + a3), Atom(b.term) + ("," + b3);
    Strip("T(", Atom(a.field) + ("," + a2), Atom(b.field) + ("," + b2));
    AtomSplit(a.field, "," + a2, b.field, "," + b2);
    Strip(",", a2, b2);
    AtomSplit(a.term, "," + a3, b.term, "," + b3);
    Strip(",", a3, b3);
    NumberSplit(show, domain, a.boost, ")" + s, b.boost, ")" + t);
    Strip(")", s, t);
  }

  lemma PhraseSplit(show: Printer, domain: iset<real>, a: Plan, s: string, b: Plan, t: string)
    requires Faithful(show, domain) && a.Phrase? && b.Phrase? && a.boost in domain && b.boost in domain
    requires Coded(show, a, s) == Coded(show, b, t)
    ensures Same(a, b) && s == t
  {
    hide Atom, Faithful, TokenText;
    var a1, b1 := TokenText(a.tokens) + ")" + s, TokenText(b.tokens) + ")" + t;
    var a2, b2 := show(a.boost) + a1, show(b.boost) + b1;
    Strip("P(", Atom(a.field) + ("," + a2), Atom(b.field) + ("," + b2));
    AtomSplit(a.field, "," + a2, b.field, "," + b2);
    Strip(",", a2, b2);
    TokenNext(a.tokens, s);
    TokenNext(b.tokens, t);
    NumberSplit(show, domain, a.boost, a1, b.boost, b1);
    TokensSplit(a.tokens, s, b.tokens, t);
  }

  lemma RangeSplit(show: Printer, a: Plan, s: string, b: Plan, t: string)
    requires a.Range? && b.Range? && Coded(show, a, s) == Coded(show, b, t)
    ensures Same(a, b) && s == t
  {
    hide Atom, Bit;
    var a5, b5 := Bit(a.includeUpper) + (")" + s), Bit(b.includeUpper) + (")" + t);
    var a4, b4 := Bit(a.includeLower) + ("," + a5), Bit(b.includeLower) + ("," + b5);
    var a3, b3 := Atom(a.upper) + ("," + a4), Atom(b.upper) + ("," + b4);
    var a2, b2 := Atom(a.lower) + ("," + a3), Atom(b.lower) + ("," + b3);
    Strip("R(", Atom(a.field) + ("," + a2), Atom(b.field) + ("," + b2));
    AtomSplit(a.field, "," + a2, b.field, "," + b2);
    Strip(",", a2, b2);
    AtomSplit(a.lower, "," + a3, b.lower, "," + b3);
    Strip(",", a3, b3);
    AtomSplit(a.upper, "," + a4, b.upper, "," + b4);
    Strip(",", a4, b4);
    BitSplit(a.includeLower, "," + a5, b.includeLower, "," + b5);
    Strip(",", a5, b5);
    BitSplit(a.includeUpper, ")" + s, b.includeUpper, ")" + t);
    Strip(")", s, t);
  }

  lemma BitSplit(x: bool, s: string, y: bool, t: string)
    requires Bit(x) + s == Bit(y) + t
    ensures x == y && s == t
  {
    SameLengthSplit(Bit(x), s, Bit(y), t);
  }

  /** The code is prefix-free and injective up to what evaluation ignores. */
  lemma {:induction false} CodedSplit(show: Printer, domain: iset<real>, a: Plan, s: string, b: Plan, t: string)
    requires Faithful(show, domain) && BoostsIn(a, domain) && BoostsIn(b, domain)
    requires Coded(show, a, s) == Coded(show, b, t)
    ensures Same(a, b) && s == t
    decreases a, 1
  {
    hide Atom, Faithful, TokenText;
    CodedTag(show, a, s);
    CodedTag(show, b, t);
    assert Tag(a) == Tag(b);
    match a
    case Term(_, _, _, _) => TermSplit(show, domain, a, s, b, t);
    case Phrase(_, _, _, _) => PhraseSplit(show, domain, a, s, b, t);
    case And(_, _) =>
      Strip("A(", CodedAll(show, a.children, s), CodedAll(show, b.children, t));
      CodedAllSplit(show, domain, a, a.children, s, b.children, t);
    case Or(_, _) =>
      Strip("O(", CodedAll(show, a.children, s), CodedAll(show, b.children, t));
      CodedAllSplit(show, domain, a, a.children, s, b.children, t);
    case Not(_, _) =>
      Strip("N(", Coded(show, a.operand, ")" + s), Coded(show, b.operand, ")" + t));
      CodedSplit(show, domain, a.operand, ")" + s, b.operand, ")" + t);
      Strip(")", s, t);
    case Range(_, _, _, _, _, _) => RangeSplit(show, a, s, b, t);
    case MatchAll(_) => Strip("M()", s, t);
  }

  lemma {:induction false} CodedAllSplit(show: Printer, domain: iset<real>, parent: Plan, cs: seq<Plan>, s: string,
                                         ds: seq<Plan>, t: string)
    requires Faithful(show, domain)
    requires forall i :: 0 <= i < |cs| ==> cs[i] < parent && BoostsIn(cs[i], domain)
    requires forall i :: 0 <= i < |ds| ==> BoostsIn(ds[i], domain)
    requires CodedAll(show, cs, s) == CodedAll(show, ds, t)
    ensures |cs| == |ds| && (forall i :: 0 <= i < |cs| ==> Same(cs[i], ds[i])) && s == t
    decreases parent, 0, |cs|
  {
    hide Faithful, BoostsIn, Coded, Same;
    CodedAllHead(show, cs, s);
    CodedAllHead(show, ds, t);
    if cs == [] {
      Strip(")", s, t);
    } else {
      var s', t' := CodedAll(show, cs[1..], s), CodedAll(show, ds[1..], t);
      CodedSplit(show, domain, cs[0], "," + s', ds[0], "," + t');
      Strip(",", s', t');
      CodedAllSplit(show, domain, parent, cs[1..], s, ds[1..], t);
      forall i | 0 <= i < |cs| ensures Same(cs[i], ds[i]) {
        if i > 0 { assert cs[i] == cs[1..][i - 1] && ds[i] == ds[1..][i - 1]; }
      }
    }
  }

  lemma CodedAllHead(show: Printer, cs: seq<Plan>, s: string)
    ensures CodedAll(show, cs, s) != ""
    ensures CodedAll(show, cs, s)[0] == if cs == [] then ')' else Tag(cs[0])
  {
    if cs != [] { CodedTag(show, cs[0], "," + CodedAll(show, cs[1..], s)); }
  }

  // ---- the text followed by s is the text, then s ----

  lemma Push(a: string, b: string, s: string)
    ensures (a + b) + s == a + (b + s)
  {
  }

  lemma {:induction false} CodedAppends(show: Printer, plan: Plan, s: string)
    ensures Coded(show, plan, s) == Canonical(show, plan) + s
    decreases plan, 1
  {
    hide Atom, TokenText, Bit;
    match plan
    case Term(f, t, boost, _) =>
      var x4 := show(boost) + (")" + "");
      var x3 := "," + x4;
      var x2 := Atom(t) + x3;
      var x1 := "," + x2;
      Push("T(", Atom(f) + x1, s); Push(Atom(f), x1, s); Push(",", x2, s); Push(Atom(t), x3, s);
      Push(",", x4, s); Push(show(boost), ")" + "", s); Push(")", "", s);
      assert "" + s == s;
    case Phrase(f, tokens, boost, _) =>
      var x3 := TokenText(tokens) + ")" + "";
      var x2 := show(boost) + x3;
      Push("P(", Atom(f) + ("," + x2), s); Push(Atom(f), "," + x2, s); Push(",", x2, s); Push(show(boost), x3, s);
      Push(TokenText(tokens) + ")", "", s);
      assert "" + s == s;
    case And(children, _) =>
      CodedAllAppends(show, plan, children, s);
      Push("A(", CodedAll(show, children, ""), s);
    case Or(children, _) =>
      CodedAllAppends(show, plan, children, s);
      Push("O(", CodedAll(show, children, ""), s);
    case Not(operand, _) =>
      CodedAppends(show, operand, ")" + s);
      CodedAppends(show, operand, ")" + "");
      Push("N(", Coded(show, operand, ")" + ""), s);
      Push(Canonical(show, operand), ")" + "", s); Push(")", "", s);
      assert "" + s == s;
    case Range(_, _, _, _, _, _) => RangeAppends(show, plan, s);
    case MatchAll(_) => Push("M()", "", s); assert "" + s == s;
  }

  lemma RangeAppends(show: Printer, plan: Plan, s: string)
    requires plan.Range?
    ensures Coded(show, plan, s) == Canonical(show, plan) + s
  {
    hide Atom, Bit;
    var x6 := Bit(plan.includeUpper) + (")" + "");
    var x5 := Bit(plan.includeLower) + ("," + x6);
    var x4 := Atom(plan.upper) + ("," + x5);
    var x3 := Atom(plan.lower) + ("," + x4);
    var x2 := Atom(plan.field) + ("," + x3);
    Push("R(", x2, s); Push(Atom(plan.field), "," + x3, s); Push(",", x3, s);
    Push(Atom(plan.lower), "," + x4, s); Push(",", x4, s);
    Push(Atom(plan.upper), "," + x5, s); Push(",", x5, s);
    Push(Bit(plan.includeLower), "," + x6, s); Push(",", x6, s);
    Push(Bit(plan.includeUpper), ")" + "", s); Push(")", "", s);
    assert "" + s == s;
  }

  lemma {:induction false} CodedAllAppends(show: Printer, parent: Plan, children: seq<Plan>, s: string)
    requires forall i :: 0 <= i < |children| ==> children[i] < parent
    ensures CodedAll(show, children, s) == CodedAll(show, children, "") + s
    decreases parent, 0, |children|
  {
    hide Coded;
    if children == [] {
      Push(")", "", s);
      assert "" + s == s;
    } else {
      var x := "," + CodedAll(show, children[1..], "");
      CodedAllAppends(show, parent, children[1..], s);
      CodedAppends(show, children[0], "," + CodedAll(show, children[1..], s));
      CodedAppends(show, children[0], x);
      Push(Canonical(show, children[0]), x, s);
      Push(",", CodedAll(show, children[1..], ""), s);
    }
  }

  /** `canonical(a) + s == canonical(b) + t` only if the plans agree on everything evaluation
      reads and the remainders are equal. */
  lemma CanonicalIsPrefixFree(show: Printer, domain: iset<real>, a: Plan, s: string, b: Plan, t: string)
    requires Faithful(show, domain) && BoostsIn(a, domain) && BoostsIn(b, domain)
    requires Canonical(show, a) + s == Canonical(show, b) + t
    ensures Same(a, b) && s == t
  {
    hide *;
    CodedAppends(show, a, s);
    CodedAppends(show, b, t);
    CodedSplit(show, domain, a, s, b, t);
  }

  // ---- plans that agree have the same code ----

  lemma {:induction false} SameTokenText(p: seq<Token>, q: seq<Token>)
    requires EraseTokens(p) == EraseTokens(q)
    ensures TokenText(p) == TokenText(q)
    decreases |p|
  {
    assert |EraseTokens(p)| == |p| && |EraseTokens(q)| == |q|;
    if p != [] {
      EraseCons(p);
      EraseCons(q);
      assert EraseTokens(p)[0] == EraseTokens(q)[0];
      assert EraseTokens(p)[1..] == EraseTokens(p[1..]) && EraseTokens(q)[1..] == EraseTokens(q[1..]);
      SameTokenText(p[1..], q[1..]);
    }
  }

  lemma {:induction false} SameIsCoded(show: Printer, a: Plan, b: Plan, s: string)
    requires Same(a, b)
    ensures Coded(show, a, s) == Coded(show, b, s)
    decreases a, 1
  {
    hide Atom;
    match a
    case Term(_, _, _, _) =>
    case Phrase(_, _, _, _) => SameTokenText(a.tokens, b.tokens);
    case And(_, _) => SameCodedAll(show, a, a.children, b.children, s);
    case Or(_, _) => SameCodedAll(show, a, a.children, b.children, s);
    case Not(_, _) => SameIsCoded(show, a.operand, b.operand, ")" + s);
    case Range(_, _, _, _, _, _) =>
    case MatchAll(_) =>
  }

  lemma {:induction false} SameCodedAll(show: Printer, parent: Plan, cs: seq<Plan>, ds: seq<Plan>, s: string)
    requires |cs| == |ds| && forall i :: 0 <= i < |cs| ==> cs[i] < parent && Same(cs[i], ds[i])
    ensures CodedAll(show, cs, s) == CodedAll(show, ds, s)
    decreases parent, 0, |cs|
  {
    hide Same, Coded;
    if cs != [] {
      forall i | 0 <= i < |cs[1..]| ensures cs[1..][i] < parent && Same(cs[1..][i], ds[1..][i]) {
        assert cs[1..][i] == cs[i + 1] && ds[1..][i] == ds[i + 1];
      }
      SameCodedAll(show, parent, cs[1..], ds[1..], s);
      SameIsCoded(show, cs[0], ds[0], "," + CodedAll(show, cs[1..], s));
    }
  }

  /** Equal canonical text is exactly agreement on what evaluation reads. */
  lemma CanonicalDecides(show: Printer, domain: iset<real>, a: Plan, b: Plan)
    requires Faithful(show, domain) && BoostsIn(a, domain) && BoostsIn(b, domain)
    ensures Canonical(show, a) == Canonical(show, b) <==> Same(a, b)
  {
    hide Coded, Same, Faithful, BoostsIn;
    if Canonical(show, a) == Canonical(show, b) {
      CanonicalIsPrefixFree(show, domain, a, "", b, "");
    }
    if Same(a, b) { SameIsCoded(show, a, b, ""); }
  }
}

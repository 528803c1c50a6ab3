/** Decimal text as `std::to_string` and `std::from_chars` handle it. */
module Numbers {
  import opened Basics

  const INT64_MIN: int := -0x8000_0000_0000_0000
  const INT64_MAX: int := 0x7fff_ffff_ffff_ffff

  predicate IsDigit(c: char) { '0' <= c <= '9' }

  predicate AllDigits(s: string) { forall i :: 0 <= i < |s| ==> IsDigit(s[i]) }

  function DigitChar(d: nat): char
    requires d < 10
  {
    '0' + d as char
  }

  function Decimal(n: nat): (s: string)
    ensures |s| > 0 && AllDigits(s)
  {
    if n < 10 then [DigitChar(n)] else Decimal(n / 10) + [DigitChar(n % 10)]
  }

  function DigitsValue(s: string): nat
    requires AllDigits(s)
  {
    if s == "" then 0
    else 10 * DigitsValue(s[..|s| - 1]) + (s[|s| - 1] as int - '0' as int)
  }

  lemma {:induction false} DecimalRoundTrip(n: nat)
    ensures DigitsValue(Decimal(n)) == n
  {
    var s := Decimal(n);
    if n < 10 {
      assert s[..|s| - 1] == "";
    } else {
      DecimalRoundTrip(n / 10);
      assert s[..|s| - 1] == Decimal(n / 10);
    }
  }

  lemma DecimalInjective(a: nat, b: nat)
    requires Decimal(a) == Decimal(b)
    ensures a == b
  {
    DecimalRoundTrip(a);
    DecimalRoundTrip(b);
  }

  function ToString(v: int): string {
    if v < 0 then "-" + Decimal(-v) else Decimal(v)
  }

  /** Length of the longest prefix of decimal digits. */
  function DigitRun(s: string): (n: nat)
    ensures n <= |s| && AllDigits(s[..n])
    ensures n < |s| ==> !IsDigit(s[n])
  {
    if s == "" || !IsDigit(s[0]) then 0
    else
      var n := 1 + DigitRun(s[1..]);
      assert s[..n] == [s[0]] + s[1..][..n - 1];
      n
  }

  /** `std::from_chars` on a signed 64-bit target: the value read and the bytes consumed. */
  function FromCharsInt64(s: string): Option<(int, nat)> {
    var sign := if s != "" && s[0] == '-' then 1 else 0;
    var n := DigitRun(s[sign..]);
    if n == 0 then None
    else
      var magnitude: int := DigitsValue(s[sign..][..n]);
      var value: int := if sign == 1 then -magnitude else magnitude;
      if INT64_MIN <= value <= INT64_MAX then Some((value, sign + n)) else None
  }

  /** `std::from_chars` on an unsigned 64-bit target, the whole text required. */
  function ParseU64(s: string): Option<nat> {
    if s != "" && AllDigits(s) && DigitsValue(s) < U64_LIMIT then Some(DigitsValue(s)) else None
  }

  lemma {:induction false} DigitRunOfDigits(s: string)
    requires AllDigits(s)
    ensures DigitRun(s) == |s|
  {
    if s != "" { DigitRunOfDigits(s[1..]); }
  }

  /** A printed 64-bit integer reads back whole, as itself. */
  lemma ToStringRoundTrip(v: int)
    requires INT64_MIN <= v <= INT64_MAX
    ensures FromCharsInt64(ToString(v)) == Some((v, |ToString(v)|))
  {
    var magnitude := if v < 0 then -v else v;
    DecimalRoundTrip(magnitude);
    DigitRunOfDigits(Decimal(magnitude));
    var s := ToString(v);
    if v < 0 {
      assert s[1..] == Decimal(magnitude);
    } else {
      assert IsDigit(s[0]);
      assert s[0..] == s;
    }
    assert Decimal(magnitude)[..|Decimal(magnitude)|] == Decimal(magnitude);
  }

  lemma ParseU64RoundTrip(n: nat)
    requires n < U64_LIMIT
    ensures ParseU64(Decimal(n)) == Some(n)
  {
    DecimalRoundTrip(n);
  }
}

/** Documents and field schemas (include/dse/document.hpp, src/index/schema.cpp). */
module Schemas {
  import opened Basics
  import opened Analysis
  import opened Numbers

  datatype Document = Document(
    id: string,
    fields: map<string, string>,
    metadata: map<string, string>,
    version: nat,
    deleted: bool)

  datatype FieldType = TextField | KeywordField | Int64Field | TimestampField

  datatype FieldDefinition = FieldDefinition(
    kind: FieldType,
    indexed: bool,
    stored: bool,
    boost: real,
    analyzer: Option<Analyzer>)

  type Schema = map<string, FieldDefinition>

  /** What `IndexSchema::create` establishes. */
  predicate WellFormed(schema: Schema) {
    forall f :: f in schema ==>
      && f != ""
      && schema[f].boost >= 0.0
      && (schema[f].analyzer.Some? <==>
          schema[f].indexed && (schema[f].kind.TextField? || schema[f].kind.KeywordField?))
  }

  /** The schemas an index can serve: every indexed field has an analyzer to call.
      `create` also admits an indexed int64 or timestamp field, on which the index dereferences null. */
  predicate Usable(schema: Schema) {
    WellFormed(schema) && forall f :: f in schema && schema[f].indexed ==> schema[f].analyzer.Some?
  }

  function Year(s: string): nat requires |s| == 10 && AllDigits(s[0..4]) { DigitsValue(s[0..4]) }
  function Month(s: string): nat requires |s| == 10 && AllDigits(s[5..7]) { DigitsValue(s[5..7]) }
  function Day(s: string): nat requires |s| == 10 && AllDigits(s[8..10]) { DigitsValue(s[8..10]) }

  function DaysIn(month: nat, leap: bool): nat {
    if month == 2 then (if leap then 29 else 28)
    else if month in {4, 6, 9, 11} then 30 else 31
  }

  predicate IsLeap(year: nat) {
    year % 4 == 0 && (year % 100 != 0 || year % 400 == 0)
  }

  predicate ValidIsoDate(s: string) {
    && |s| == 10 && s[4] == '-' && s[7] == '-'
    && AllDigits(s[0..4]) && AllDigits(s[5..7]) && AllDigits(s[8..10])
    && Year(s) >= 1
    && 1 <= Month(s) <= 12
    && 1 <= Day(s) <= DaysIn(Month(s), IsLeap(Year(s)))
  }

  predicate IsInt64(s: string) {
    FromCharsInt64(s).Some? && FromCharsInt64(s).value.1 == |s|
  }

  predicate ValidValue(schema: Schema, field: string, value: string) {
    && field in schema
    && match schema[field].kind
       case Int64Field => IsInt64(value)
       case TimestampField => ValidIsoDate(value)
       case _ => true
  }
}

/** What a range filter means for the numbers and dates that its bounds and a document's value stand for
    (src/query/executor.cpp, docs/query_language.md). */
module Ranges {
  import opened Basics
  import opened Numbers
  import opened Schemas
  import opened IndexModel
  import opened Plans

  predicate InInt64(v: int) { INT64_MIN <= v <= INT64_MAX }

  lemma PrintedInteger(v: int)
    requires InInt64(v)
    ensures ToString(v) != "*" && FromCharsInt64(ToString(v)).Some? && BoundValue(ToString(v)) == v
    ensures FromCharsInt64(ToString(v)).value.0 == v
  {
    hide FromCharsInt64;
    ToStringRoundTrip(v);
    assert ToString(v) != "*" by {
      if v < 0 { assert ToString(v)[0] == '-'; } else { assert IsDigit(Decimal(v)[0]); }
    }
  }

  /** Texts of integers: digits, behind a minus sign or not, whose value fits in 64 bits, and nothing else. */
  lemma IntegerTexts(s: string)
    ensures IsInt64(s) <==>
      var digits := if s != "" && s[0] == '-' then s[1..] else s;
      && digits != "" && AllDigits(digits)
      && var magnitude: int := DigitsValue(digits);
         InInt64(if s[0] == '-' then -magnitude else magnitude)
  {
    var sign := if s != "" && s[0] == '-' then 1 else 0;
    var digits := s[sign..];
    if s == "" || sign == 0 { assert s[0..] == s; }
    hide DigitsValue;
    if AllDigits(digits) {
      DigitRunOfDigits(digits);
      assert digits[..|digits|] == digits;
    }
    if IsInt64(s) {
      var n := DigitRun(digits);
      assert n == |digits|;
      assert digits[..n] == digits;
    }
  }

  /** A range on an integer field takes exactly the integers between its bounds; a star is no bound. */
  lemma IntegerRange(v: int, lower: Option<int>, upper: Option<int>, includeLower: bool, includeUpper: bool)
    requires InInt64(v) && (lower.Some? ==> InInt64(lower.value)) && (upper.Some? ==> InInt64(upper.value))
    ensures var low, high := if lower.Some? then ToString(lower.value) else "*",
                             if upper.Some? then ToString(upper.value) else "*";
      RangeAccepts(Int64Field, ToString(v), low, high, includeLower, includeUpper) <==>
      && (lower.Some? ==> lower.value < v || (includeLower && lower.value == v))
      && (upper.Some? ==> v < upper.value || (includeUpper && upper.value == v))
  {
    hide ToString, FromCharsInt64, BoundValue;
    PrintedInteger(v);
    BoundIsValue(v);
    if lower.Some? { PrintedInteger(lower.value); }
    if upper.Some? { PrintedInteger(upper.value); }
  }

  lemma BoundIsValue(v: int)
    requires InInt64(v) && FromCharsInt64(ToString(v)).Some?
    ensures BoundValue(ToString(v)) == FromCharsInt64(ToString(v)).value.0
  {
    hide ToString, FromCharsInt64;
  }

  // ---- dates ----

  lemma {:induction false} LessByLast(a: string, b: string)
    requires |a| == |b| && |a| > 0
    ensures var n := |a| - 1;
      Less(a, b) <==> Less(a[..n], b[..n]) || (a[..n] == b[..n] && a[n] < b[n])
    decreases |a|
  {
    var n := |a| - 1;
    if n > 0 {
      LessByLast(a[1..], b[1..]);
      assert a[1..][..n - 1] == a[..n][1..] && b[1..][..n - 1] == b[..n][1..];
      assert a[..n] == [a[0]] + a[..n][1..] && b[..n] == [b[0]] + b[..n][1..];
      assert a[1..][n - 1] == a[n] && b[1..][n - 1] == b[n];
    } else {
      assert a[..n] == b[..n] == "";
    }
  }

  /** Digits of one length compare as the numbers they stand for. */
  lemma {:induction false} DigitsCompare(a: string, b: string)
    requires |a| == |b| && AllDigits(a) && AllDigits(b)
    ensures Less(a, b) <==> DigitsValue(a) < DigitsValue(b)
    ensures a == b <==> DigitsValue(a) == DigitsValue(b)
    decreases |a|
  {
    if a != "" {
      var n := |a| - 1;
      DigitsCompare(a[..n], b[..n]);
      LessByLast(a, b);
      assert a == a[..n] + [a[n]] && b == b[..n] + [b[n]];
    }
  }

  /** Texts of one length compare by their first parts, then by what follows. */
  lemma {:induction false} LessByParts(a: string, b: string, n: nat)
    requires |a| == |b| && n <= |a|
    ensures Less(a, b) <==> Less(a[..n], b[..n]) || (a[..n] == b[..n] && Less(a[n..], b[n..]))
    decreases n
  {
    if n == 0 {
      assert a[0..] == a && b[0..] == b && a[..0] == b[..0];
    } else {
      LessByParts(a[1..], b[1..], n - 1);
      assert a[1..][..n - 1] == a[..n][1..] && b[1..][..n - 1] == b[..n][1..];
      assert a[1..][n - 1..] == a[n..] && b[1..][n - 1..] == b[n..];
      assert a[..n] == [a[0]] + a[..n][1..] && b[..n] == [b[0]] + b[..n][1..];
    }
  }

  predicate Earlier(a: string, b: string)
    requires ValidIsoDate(a) && ValidIsoDate(b)
  {
    || Year(a) < Year(b)
    || (Year(a) == Year(b) && (Month(a) < Month(b) || (Month(a) == Month(b) && Day(a) < Day(b))))
  }

  lemma DatePieces(s: string, t: string)
    requires ValidIsoDate(s) && ValidIsoDate(t)
    ensures Less(s, t) <==>
      || Less(s[0..4], t[0..4])
      || (s[0..4] == t[0..4] && (Less(s[5..7], t[5..7]) || (s[5..7] == t[5..7] && Less(s[8..10], t[8..10]))))
  {
    LessByParts(s, t, 4);
    assert s[..4] == s[0..4] && t[..4] == t[0..4];
    var s1, t1 := s[4..], t[4..];
    assert s1[1..] == s[5..] && t1[1..] == t[5..] && s1[0] == t1[0];
    assert Less(s1, t1) <==> Less(s[5..], t[5..]);
    LessByParts(s[5..], t[5..], 2);
    assert s[5..][..2] == s[5..7] && t[5..][..2] == t[5..7];
    var s2, t2 := s[5..][2..], t[5..][2..];
    assert s2[1..] == s[8..10] && t2[1..] == t[8..10] && s2[0] == t2[0];
    assert Less(s2, t2) <==> Less(s[8..10], t[8..10]);
  }

  /** Comparing dates as text is comparing them by year, month and day. */
  lemma DatesCompareAsText(s: string, t: string)
    requires ValidIsoDate(s) && ValidIsoDate(t)
    ensures Less(s, t) <==> Earlier(s, t)
    ensures s == t <==> !Earlier(s, t) && !Earlier(t, s)
  {
    hide Less, DigitsValue;
    DatePieces(s, t);
    DatePieces(t, s);
    DigitsCompare(s[0..4], t[0..4]);
    DigitsCompare(s[5..7], t[5..7]);
    DigitsCompare(s[8..10], t[8..10]);
    LessTotal(s, t);
    LessIrreflexive(s);
  }

  /** A range on a timestamp field takes exactly the dates from its lower to its upper bound. */
  lemma DateRange(date: string, lower: string, upper: string)
    requires ValidIsoDate(date) && ValidIsoDate(lower) && ValidIsoDate(upper)
    ensures RangeAccepts(TimestampField, date, lower, upper, true, true) <==>
      !Earlier(date, lower) && !Earlier(upper, date)
    ensures RangeAccepts(TimestampField, date, lower, upper, false, false) <==>
      Earlier(lower, date) && Earlier(date, upper)
    ensures RangeAccepts(TimestampField, date, lower, "*", true, true) <==> !Earlier(date, lower)
    ensures RangeAccepts(TimestampField, date, "*", upper, true, true) <==> !Earlier(upper, date)
  {
    hide Less, Year, Month, Day;
    DatesCompareAsText(date, lower);
    DatesCompareAsText(lower, date);
    DatesCompareAsText(date, upper);
    DatesCompareAsText(upper, date);
  }

  /** Days of the months up to one. */
  function DaysThrough(month: nat, leap: bool): nat {
    if month == 0 then 0 else DaysThrough(month - 1, leap) + DaysIn(month, leap)
  }

  /** Days of the years before one, counted month by month from the year 1. */
  function DaysBefore(year: nat): nat {
    if year <= 1 then 0 else DaysBefore(year - 1) + DaysThrough(12, IsLeap(year - 1))
  }

  lemma DaysOfYear(leap: bool)
    ensures DaysThrough(12, leap) == if leap then 366 else 365
  {
    assert DaysThrough(0, leap) == 0;
    assert DaysThrough(1, leap) == 31;
    assert DaysThrough(2, leap) == 31 + (if leap then 29 else 28);
    assert DaysThrough(4, leap) == DaysThrough(2, leap) + 61;
    assert DaysThrough(6, leap) == DaysThrough(4, leap) + 61;
    assert DaysThrough(8, leap) == DaysThrough(6, leap) + 62;
    assert DaysThrough(10, leap) == DaysThrough(8, leap) + 61;
  }

  lemma {:induction false} DaysBeforeIs(year: nat)
    requires year >= 1
    ensures DaysBefore(year) == 365 * (year - 1) + LeapDaysOf(year - 1)
  {
    hide DaysThrough;
    if year > 1 {
      DaysBeforeIs(year - 1);
      DaysOfYear(IsLeap(year - 1));
      LeapDays(year - 2);
      assert DaysBefore(year) == DaysBefore(year - 1) + DaysThrough(12, IsLeap(year - 1));
    }
  }

  function LeapDaysOf(y: nat): int { y / 4 - y / 100 + y / 400 }

  lemma LeapDays(y: nat)
    ensures LeapDaysOf(y + 1) == LeapDaysOf(y) + if IsLeap(y + 1) then 1 else 0
  {
    Quotients(y);
  }

  lemma Quotients(y: nat)
    ensures (y + 1) / 4 == y / 4 + (if (y + 1) % 4 == 0 then 1 else 0)
    ensures (y + 1) / 100 == y / 100 + (if (y + 1) % 100 == 0 then 1 else 0)
    ensures (y + 1) / 400 == y / 400 + (if (y + 1) % 400 == 0 then 1 else 0)
    ensures (y + 1) % 100 == 0 ==> (y + 1) % 4 == 0
    ensures (y + 1) % 400 == 0 ==> (y + 1) % 100 == 0
  {
  }

  /** The calendar of valid dates is the Gregorian one: 400 years have 146097 days. */
  lemma FourCenturies(year: nat)
    requires year >= 1
    ensures DaysBefore(year + 400) == DaysBefore(year) + 146097
  {
    hide DaysBefore;
    DaysBeforeIs(year);
    DaysBeforeIs(year + 400);
    var y := year - 1;
    assert (y + 400) / 4 == y / 4 + 100;
    assert (y + 400) / 100 == y / 100 + 4;
    assert (y + 400) / 400 == y / 400 + 1;
  }

  // ---- any field ----

  /** What a field of each kind compares. */
  predicate Precedes(kind: FieldType, a: string, b: string) {
    if kind.Int64Field? then BoundValue(a) < BoundValue(b) else Less(a, b)
  }

  /** A range is the intersection of its halves; each half takes what lies beyond its bound, nothing that
      lies before it, and the bound itself exactly if it is included. */
  lemma RangeIsTwoHalves(kind: FieldType, value: string, lower: string, upper: string, includeLower: bool,
                         includeUpper: bool)
    requires kind.Int64Field? ==> FromCharsInt64(value).Some?
    ensures RangeAccepts(kind, value, lower, upper, includeLower, includeUpper) <==>
      && RangeAccepts(kind, value, lower, "*", includeLower, includeUpper)
      && RangeAccepts(kind, value, "*", upper, includeLower, includeUpper)
    ensures RangeAccepts(kind, value, "*", "*", includeLower, includeUpper)
    ensures Precedes(kind, lower, value) ==> RangeAccepts(kind, value, lower, "*", includeLower, includeUpper)
    ensures Precedes(kind, value, upper) ==> RangeAccepts(kind, value, "*", upper, includeLower, includeUpper)
    ensures lower != "*" && Precedes(kind, value, lower) ==>
      !RangeAccepts(kind, value, lower, "*", includeLower, includeUpper)
    ensures upper != "*" && Precedes(kind, upper, value) ==>
      !RangeAccepts(kind, value, "*", upper, includeLower, includeUpper)
    ensures value != "*" ==> (RangeAccepts(kind, value, value, "*", includeLower, includeUpper) <==> includeLower)
    ensures value != "*" ==> (RangeAccepts(kind, value, "*", value, includeLower, includeUpper) <==> includeUpper)
  {
    hide Less, FromCharsInt64;
    LessIrreflexive(value);
    if !kind.Int64Field? {
      if Less(value, lower) { LessAsymmetric(value, lower); }
      if Less(upper, value) { LessAsymmetric(upper, value); }
    }
  }

  // ---- documents ----

  /** The value a range looks at: the indexed field's if there is one, else the stored one; a document
      with neither is in no range. */
  lemma RangeReads(schema: Schema, d: Document, f: string, v: int, lower: int, upper: int, includeLower: bool,
                   includeUpper: bool)
    requires f in schema && schema[f].kind.Int64Field? && InInt64(v) && InInt64(lower) && InInt64(upper)
    ensures var inside := (lower < v || (includeLower && lower == v)) && (v < upper || (includeUpper && v == upper));
      var matches := Matches(schema, Range(f, ToString(lower), ToString(upper), includeLower, includeUpper, 0), d);
      && (f in d.fields && d.fields[f] == ToString(v) ==> (matches <==> inside))
      && (f !in d.fields && f in d.metadata && d.metadata[f] == ToString(v) ==> (matches <==> inside))
      && (f !in d.fields && f !in d.metadata ==> !matches)
  {
    IntegerRange(v, Some(lower), Some(upper), includeLower, includeUpper);
    hide RangeAccepts, ToString;
  }
}

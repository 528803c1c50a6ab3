/** Variable-byte integers (src/storage/posting_codec.cpp). */
module VariableBytes {
  import opened Basics
  import opened Bytes

  datatype CodecError = Truncated | Overflow | NonCanonical | InvalidOrder | ResourceLimit

  // ---- one integer ----

  /** Seven bits a byte, low bits first; the last byte carries the top bit. */
  function VarByte(v: nat): (s: string)
    ensures |s| > 0 && IsBytes(s)
  {
    if v < 128 then [(128 + v) as char] else [(v % 128) as char] + VarByte(v / 128)
  }

  method Encode(value: nat, output: string) returns (r: string)
    ensures r == output + VarByte(value)
  {
    var v := value;
    r := output;
    while v >= 128
      invariant r + VarByte(v) == output + VarByte(value)
    {
      assert r + VarByte(v) == (r + [(v % 128) as char]) + VarByte(v / 128);
      r := r + [(v % 128) as char];
      v := v / 128;
    }
    r := r + [(128 + v) as char];
  }

  /** The bytes from the `i`-th on: at most five, the fifth with four bits, the last not empty. */
  function Decoded(data: string, i: nat): Result<(nat, string), CodecError>
    requires i <= 5
    decreases 5 - i
  {
    if i == 5 then Err(Overflow)
    else if data == "" then Err(Truncated)
    else
      var byte := data[0] as int % 256;
      var payload := byte % 128;
      if i == 4 && payload > 15 then Err(Overflow)
      else if byte >= 128 then
        if i != 0 && payload == 0 then Err(NonCanonical) else Ok((payload, data[1..]))
      else
        match Decoded(data[1..], i + 1)
        case Err(e) => Err(e)
        case Ok((high, rest)) => Ok((payload + 128 * high, rest))
  }

  /** What fits from the `i`-th byte on. */
  function Bound(i: nat): nat
    requires i <= 4
  {
    if i == 0 then U32_LIMIT else if i == 1 then 33554432 else if i == 2 then 262144 else if i == 3 then 2048 else 16
  }

  function Scale(i: nat): (p: nat)
    ensures p > 0
  {
    if i == 0 then 1 else 128 * Scale(i - 1)
  }

  /** Adds the rest of an integer to what the first `i` bytes gave. */
  function Combined(value: nat, i: nat, rest: Result<(nat, string), CodecError>): Result<(nat, string), CodecError> {
    match rest
    case Err(e) => Err(e)
    case Ok((high, tail)) => Ok((value + Times(Scale(i), high), tail))
  }

  function Times(a: nat, b: nat): nat { a * b }

  /** Each byte holds one digit in base 128, the lowest first; the last byte alone has its top bit set, and
      there are no more bytes than the integer needs. */
  lemma {:induction false} VarByteAt(v: nat, i: nat)
    requires i < |VarByte(v)|
    ensures VarByte(v)[i] as int % 128 == v / Scale(i) % 128
    ensures VarByte(v)[i] as int >= 128 <==> i == |VarByte(v)| - 1
    ensures v < Scale(|VarByte(v)|) && (|VarByte(v)| > 1 ==> Scale(|VarByte(v)| - 1) <= v)
    decreases v
  {
    if v >= 128 {
      VarByteAt(v / 128, if i > 0 then i - 1 else 0);
      if i > 0 { QuotientOfQuotient(v, 128, Scale(i - 1)); }
    }
  }

  method Decode(input: string, offset: nat) returns (r: Result<nat, CodecError>, next: nat)
    requires offset <= |input|
    ensures offset <= next <= |input|
    ensures match Decoded(input[offset..], 0)
      case Err(e) => r == Err(e)
      case Ok((v, rest)) => r == Ok(v) && input[next..] == rest
  {
    hide Decoded, Combined, Scale;
    var value: nat, i: nat := 0, 0;
    next := offset;
    CombinedNothing(Decoded(input[offset..], 0));
    while i < 5
      invariant i <= 5 && offset <= next <= |input|
      invariant Combined(value, i, Decoded(input[next..], i)) == Decoded(input[offset..], 0)
    {
      DecodedIs(input[next..], i);
      if next == |input| {
        CombinedError(value, i, Truncated);
        return Err(Truncated), next;
      }
      var byte := input[next] as int % 256;
      var payload: nat := byte % 128;
      next := next + 1;
      assert input[next - 1..][1..] == input[next..];
      if i == 4 && payload > 15 {
        CombinedError(value, i, Overflow);
        return Err(Overflow), next;
      }
      var more := value + Times(Scale(i), payload);
      if byte >= 128 {
        if i != 0 && payload == 0 {
          CombinedError(value, i, NonCanonical);
          return Err(NonCanonical), next;
        }
        CombinedLast(value, i, payload, input[next..]);
        return Ok(more), next;
      }
      CombinedStep(value, i, payload, Decoded(input[next..], i + 1));
      value, i := more, i + 1;
    }
    DecodedIs(input[next..], i);
    CombinedError(value, i, Overflow);
    r := Err(Overflow);
  }

  /** One byte of the decoding. */
  lemma DecodedIs(data: string, i: nat)
    requires i <= 5
    ensures i == 5 ==> Decoded(data, i) == Err(Overflow)
    ensures i < 5 && data == "" ==> Decoded(data, i) == Err(Truncated)
    ensures i < 5 && data != "" ==>
      var byte := data[0] as int % 256;
      var payload := byte % 128;
      Decoded(data, i) ==
        if i == 4 && payload > 15 then Err(Overflow)
        else if byte >= 128 then if i != 0 && payload == 0 then Err(NonCanonical) else Ok((payload, data[1..]))
        else Raised(payload, Decoded(data[1..], i + 1))
  {
  }

  /** An integer one byte longer. */
  function Raised(payload: nat, rest: Result<(nat, string), CodecError>): Result<(nat, string), CodecError> {
    match rest
    case Err(e) => Err(e)
    case Ok((high, tail)) => Ok((payload + 128 * high, tail))
  }

  lemma CombinedError(value: nat, i: nat, e: CodecError)
    ensures Combined(value, i, Err(e)) == Err(e)
  {
  }

  lemma CombinedLast(value: nat, i: nat, payload: nat, tail: string)
    ensures Combined(value, i, Ok((payload, tail))) == Ok((value + Times(Scale(i), payload), tail))
  {
  }

  lemma CombinedNothing(rest: Result<(nat, string), CodecError>)
    ensures Combined(0, 0, rest) == rest
  {
  }

  lemma CombinedStep(value: nat, i: nat, payload: nat, rest: Result<(nat, string), CodecError>)
    ensures Combined(value + Times(Scale(i), payload), i + 1, rest) == Combined(value, i, Raised(payload, rest))
  {
    if rest.Ok? {
      var high := rest.value.0;
      Distribute(Scale(i), payload, 128 * high);
      Regroup(Scale(i), high);
      assert Scale(i + 1) == 128 * Scale(i);
    }
  }

  lemma Distribute(a: nat, b: nat, c: nat)
    ensures Times(a, b + c) == Times(a, b) + Times(a, c)
  {
  }

  lemma Regroup(a: nat, b: nat)
    ensures Times(128 * a, b) == Times(a, 128 * b)
  {
  }

  // ---- decoding accepts exactly what encoding produces ----

  lemma {:induction false} DecodesEncoded(v: nat, i: nat, rest: string)
    requires i <= 4 && v < Bound(i) && (i == 0 || v > 0)
    ensures Decoded(VarByte(v) + rest, i) == Ok((v, rest))
    decreases 5 - i
  {
    hide Decoded, VarByte;
    var data := VarByte(v) + rest;
    VarByteIs(v);
    DecodedIs(data, i);
    if v < 128 {
      assert data[1..] == rest;
    } else {
      Push([(v % 128) as char], VarByte(v / 128), rest);
      assert data[0] == (v % 128) as char && data[1..] == VarByte(v / 128) + rest;
      DecodesEncoded(v / 128, i + 1, rest);
    }
  }

  lemma {:induction false} DecodedIsEncoded(data: string, i: nat)
    requires i <= 4 && IsBytes(data) && Decoded(data, i).Ok?
    ensures var (v, rest) := Decoded(data, i).value;
      v < Bound(i) && (i == 0 || v > 0) && data == VarByte(v) + rest && IsBytes(rest)
    decreases 5 - i
  {
    hide Decoded, VarByte;
    DecodedIs(data, i);
    var byte := data[0] as int;
    assert byte < 256;
    assert data == [data[0]] + data[1..];
    VarByteIs(Decoded(data, i).value.0);
    if byte < 128 {
      DecodedIs(data[1..], i + 1);
      DecodedIsEncoded(data[1..], i + 1);
      var (high, rest) := Decoded(data[1..], i + 1).value;
      var v := byte + 128 * high;
      assert v / 128 == high && v % 128 == byte && v >= 128;
      Push([data[0]], VarByte(high), rest);
    } else {
      assert byte % 128 + 128 == byte;
    }
  }

  lemma VarByteIs(v: nat)
    ensures v < 128 ==> VarByte(v) == [(128 + v) as char]
    ensures v >= 128 ==> VarByte(v) == [(v % 128) as char] + VarByte(v / 128)
  {
  }

  /** A bijection between 32-bit integers and the byte strings decoding accepts. */
  lemma VarByteIsBijective(data: string, v: nat, rest: string)
    requires IsBytes(data)
    ensures Decoded(data, 0) == Ok((v, rest)) <==> v < U32_LIMIT && data == VarByte(v) + rest
  {
    if v < U32_LIMIT && data == VarByte(v) + rest { DecodesEncoded(v, 0, rest); }
    if Decoded(data, 0) == Ok((v, rest)) { DecodedIsEncoded(data, 0); }
  }

  // ---- strictly increasing lists ----

  predicate IncreasingFrom(values: seq<nat>, previous: nat) {
    values == [] || (previous < values[0] < U32_LIMIT && IncreasingFrom(values[1..], values[0]))
  }

  /** The differences, one after the other. */
  function Deltas(values: seq<nat>, previous: nat): string
    requires IncreasingFrom(values, previous)
  {
    if values == [] then "" else VarByte(values[0] - previous) + Deltas(values[1..], values[0])
  }

  method EncodeDeltas(values: seq<nat>) returns (r: Result<string, CodecError>)
    requires forall i :: 0 <= i < |values| ==> values[i] < U32_LIMIT
    ensures r == if IncreasingFrom(values, 0) then Ok(Deltas(values, 0)) else Err(InvalidOrder)
  {
    hide VarByte;
    var output: string, previous: nat := "", 0;
    assert values[0..] == values;
    for i := 0 to |values|
      invariant previous < U32_LIMIT
      invariant IncreasingFrom(values, 0) <==> IncreasingFrom(values[i..], previous)
      invariant IncreasingFrom(values, 0) ==> Deltas(values, 0) == output + Deltas(values[i..], previous)
    {
      assert values[i..][1..] == values[i + 1..];
      if values[i] <= previous { return Err(InvalidOrder); }
      ghost var before := output;
      output := Encode(values[i] - previous, output);
      if IncreasingFrom(values, 0) {
        Push(before, VarByte(values[i] - previous), Deltas(values[i + 1..], values[i]));
      }
      previous := values[i];
    }
    assert values[|values|..] == [] && output + "" == output;
    r := Ok(output);
  }

  /** The next `count` values, from their differences. */
  function Undelta(data: string, count: nat, previous: nat): Result<(seq<nat>, string), CodecError> {
    if count == 0 then Ok(([], data))
    else
      match Decoded(data, 0)
      case Err(e) => Err(e)
      case Ok((delta, rest)) =>
        if delta == 0 || delta > U32_LIMIT - 1 - previous then Err(InvalidOrder)
        else
          match Undelta(rest, count - 1, previous + delta)
          case Err(e) => Err(e)
          case Ok((values, end)) => Ok(([previous + delta] + values, end))
  }

  method DecodeDeltas(input: string, expected: nat, maximum: nat) returns (r: Result<seq<nat>, CodecError>)
    ensures r ==
      if expected > maximum then Err(ResourceLimit)
      else
        match Undelta(input, expected, 0)
        case Err(e) => Err(e)
        case Ok((values, rest)) => if rest == "" then Ok(values) else Err(NonCanonical)
  {
    hide Decoded;
    if expected > maximum { return Err(ResourceLimit); }
    var result: seq<nat> := [];
    var offset: nat, previous: nat := 0, 0;
    assert input[0..] == input;
    ghost var spec := Undelta(input, expected, 0);
    assert spec.Ok? ==> [] + spec.value.0 == spec.value.0;
    for i := 0 to expected
      invariant offset <= |input| && previous < U32_LIMIT
      invariant spec == match Undelta(input[offset..], expected - i, previous)
        case Err(e) => Err(e)
        case Ok((values, rest)) => Ok((result + values, rest))
    {
      var delta, next := Decode(input, offset);
      if delta.Err? { return Err(delta.error); }
      if delta.value == 0 || delta.value > U32_LIMIT - 1 - previous { return Err(InvalidOrder); }
      offset := next;
      previous := previous + delta.value;
      ghost var rest := Undelta(input[offset..], expected - i - 1, previous);
      if rest.Ok? { assert result + ([previous] + rest.value.0) == (result + [previous]) + rest.value.0; }
      result := result + [previous];
    }
    if offset != |input| { return Err(NonCanonical); }
    assert input[offset..] == "" && result + [] == result;
    r := Ok(result);
  }

  /** Decoding inverts encoding on every strictly increasing list of 32-bit values. */
  lemma {:induction false} UndeltaInvertsDeltas(values: seq<nat>, previous: nat, rest: string)
    requires IncreasingFrom(values, previous)
    ensures Undelta(Deltas(values, previous) + rest, |values|, previous) == Ok((values, rest))
    decreases |values|
  {
    hide VarByte, Decoded;
    if values == [] {
      assert Deltas(values, previous) + rest == rest;
    } else {
      var tail := Deltas(values[1..], values[0]);
      Push(VarByte(values[0] - previous), tail, rest);
      DecodesEncoded(values[0] - previous, 0, tail + rest);
      UndeltaInvertsDeltas(values[1..], values[0], rest);
      assert values == [values[0]] + values[1..];
    }
  }
}

/** The term, posting and position sections of a segment (src/storage/segment.cpp). Whatever makes
    the reader reject a section is `None`. */
module PostingSections {
  import opened Basics
  import opened Bytes
  import opened IndexModel
  import opened VariableBytes

  datatype SectionLimits = SectionLimits(terms: nat, postings: nat, positions: nat, stringBytes: nat)

  /** One entry of the term dictionary. */
  datatype TermRecord = TermRecord(field: string, term: string, entry: TermEntry)

  datatype EncodedIndex = EncodedIndex(terms: string, postings: string, positions: string,
                                       termCount: nat, postingCount: nat, positionCount: nat)

  // ---- what a snapshot holds ----

  predicate ValidPositions(positions: seq<nat>) {
    positions != [] && positions[0] < U32_LIMIT && IncreasingFrom(positions[1..], positions[0])
  }

  predicate ValidPostings(postings: seq<Posting>, previous: nat) {
    postings != [] ==>
      && previous < postings[0].doc < U32_LIMIT
      && postings[0].frequency == |postings[0].positions| < U32_LIMIT && ValidPositions(postings[0].positions)
      && ValidPostings(postings[1..], postings[0].doc)
  }

  predicate ValidRecord(r: TermRecord) {
    && r.term != "" && 0 < r.entry.documentFrequency == |r.entry.postings| < U32_LIMIT
    && ValidPostings(r.entry.postings, 0)
  }

  ghost predicate ValidRecords(records: seq<TermRecord>) {
    forall i :: 0 <= i < |records| ==> ValidRecord(records[i])
  }

  function PostingCount(records: seq<TermRecord>): nat {
    if records == [] then 0 else |records[0].entry.postings| + PostingCount(records[1..])
  }

  function PositionTotal(postings: seq<Posting>): nat {
    if postings == [] then 0 else |postings[0].positions| + PositionTotal(postings[1..])
  }

  function PositionCount(records: seq<TermRecord>): nat {
    if records == [] then 0 else PositionTotal(records[0].entry.postings) + PositionCount(records[1..])
  }

  // ---- the term section ----

  datatype TermHeader = TermHeader(field: string, term: string, frequency: nat, start: nat, count: nat)

  function Str(s: string): string {
    U64(|s|) + s
  }

  function HeaderBytes(h: TermHeader): string {
    Str(h.field) + (Str(h.term) + (U32(h.frequency) + (U32(0) + (U64(h.start) + U64(h.count)))))
  }

  function ReadStr(limits: SectionLimits, data: string): Option<(string, string)> {
    match Read(data, 8)
    case None => None
    case Some((n, rest)) => if n > limits.stringBytes || n > |rest| then None else Some((rest[..n], rest[n..]))
  }

  function ReadHeader(limits: SectionLimits, data: string): Option<(TermHeader, string)> {
    match ReadStr(limits, data)
    case None => None
    case Some((field, d1)) =>
      match ReadStr(limits, d1)
      case None => None
      case Some((term, d2)) =>
        match Read(d2, 4)
        case None => None
        case Some((frequency, d3)) =>
          match Read(d3, 4)
          case None => None
          case Some((reserved, d4)) =>
            match Read(d4, 8)
            case None => None
            case Some((start, d5)) =>
              match Read(d5, 8)
              case None => None
              case Some((count, rest)) =>
                if reserved != 0 || term == "" || frequency == 0 then None
                else Some((TermHeader(field, term, frequency, start, count), rest))
  }

  lemma ReadStrOf(limits: SectionLimits, s: string, rest: string)
    requires |s| <= limits.stringBytes && |s| < U64_LIMIT
    ensures ReadStr(limits, Str(s) + rest) == Some((s, rest))
  {
    hide U64, Read;
    Push(U64(|s|), s, rest);
    ReadU64(|s|, s + rest);
    assert (s + rest)[..|s|] == s && (s + rest)[|s|..] == rest;
  }

  predicate HeaderFits(limits: SectionLimits, h: TermHeader) {
    && |h.field| <= limits.stringBytes && |h.term| <= limits.stringBytes && |h.field| < U64_LIMIT
    && |h.term| < U64_LIMIT
    && h.term != "" && 0 < h.frequency < U32_LIMIT && h.start < U64_LIMIT && h.count < U64_LIMIT
  }

  lemma ReadHeaderOf(limits: SectionLimits, h: TermHeader, rest: string)
    requires HeaderFits(limits, h)
    ensures ReadHeader(limits, HeaderBytes(h) + rest) == Some((h, rest))
  {
    hide Str, ReadStr, U32, U64, Read;
    var t5 := U64(h.start) + U64(h.count);
    var t4 := U32(0) + t5;
    var t3 := U32(h.frequency) + t4;
    var t2 := Str(h.term) + t3;
    Push(Str(h.field), t2, rest);
    Push(Str(h.term), t3, rest);
    Push(U32(h.frequency), t4, rest);
    Push(U32(0), t5, rest);
    Push(U64(h.start), U64(h.count), rest);
    ReadStrOf(limits, h.field, t2 + rest);
    ReadStrOf(limits, h.term, t3 + rest);
    ReadU32(h.frequency, t4 + rest);
    ReadU32(0, t5 + rest);
    ReadU64(h.start, U64(h.count) + rest);
    ReadU64(h.count, rest);
  }

  /** A name over the limit is not read. */
  lemma ReadHeaderLong(limits: SectionLimits, h: TermHeader, rest: string)
    requires |h.field| < U64_LIMIT && |h.term| < U64_LIMIT
    requires (|h.field| > limits.stringBytes || |h.term| > limits.stringBytes)
    ensures ReadHeader(limits, HeaderBytes(h) + rest) == None
  {
    hide U32, U64, Read;
    var t4 := U32(0) + (U64(h.start) + U64(h.count));
    var t2 := Str(h.term) + (U32(h.frequency) + t4);
    Push(Str(h.field), t2, rest);
    Push(Str(h.term), U32(h.frequency) + t4, rest);
    Push(U64(|h.field|), h.field, t2 + rest);
    ReadU64(|h.field|, h.field + (t2 + rest));
    if |h.field| <= limits.stringBytes {
      var tail := U32(h.frequency) + t4 + rest;
      ReadStrOf(limits, h.field, t2 + rest);
      Push(U64(|h.term|), h.term, tail);
      ReadU64(|h.term|, h.term + tail);
    }
  }

  // ---- compressed postings ----

  function PositionBytes(positions: seq<nat>): string
    requires ValidPositions(positions)
  {
    VarByte(positions[0]) + Deltas(positions[1..], positions[0])
  }

  function PostingBytes(postings: seq<Posting>, previous: nat): string
    requires ValidPostings(postings, previous)
  {
    if postings == [] then ""
    else
      VarByte(postings[0].doc - previous) +
      (VarByte(postings[0].frequency)
       + (PositionBytes(postings[0].positions) + PostingBytes(postings[1..], postings[0].doc)))
  }

  /** The first position may be zero, every later difference may not. */
  function ReadPositions(data: string, count: nat): Option<(seq<nat>, string)> {
    if count == 0 then Some(([], data))
    else
      match Decoded(data, 0)
      case Err(_) => None
      case Ok((first, rest)) =>
        match Undelta(rest, count - 1, first)
        case Err(_) => None
        case Ok((values, end)) => Some(([first] + values, end))
  }

  function ReadPostings(data: string, count: nat, previous: nat, budget: nat): Option<(seq<Posting>, string)>
    decreases count
  {
    if count == 0 then Some(([], data))
    else
      match Decoded(data, 0)
      case Err(_) => None
      case Ok((delta, d1)) =>
        match Decoded(d1, 0)
        case Err(_) => None
        case Ok((frequency, d2)) =>
          if delta == 0 || delta > U32_LIMIT - 1 - previous || frequency == 0 || frequency > budget then None
          else
            match ReadPositions(d2, frequency)
            case None => None
            case Some((positions, d3)) =>
              match ReadPostings(d3, count - 1, previous + delta, budget - frequency)
              case None => None
              case Some((more, end)) => Some(([Posting(previous + delta, frequency, positions)] + more, end))
  }

  lemma ReadPositionsOf(positions: seq<nat>, rest: string)
    requires ValidPositions(positions)
    ensures ReadPositions(PositionBytes(positions) + rest, |positions|) == Some((positions, rest))
  {
    hide VarByte, Decoded, Deltas, Undelta;
    var tail := Deltas(positions[1..], positions[0]);
    Push(VarByte(positions[0]), tail, rest);
    DecodesEncoded(positions[0], 0, tail + rest);
    UndeltaInvertsDeltas(positions[1..], positions[0], rest);
    assert positions == [positions[0]] + positions[1..];
  }

  lemma SomePosition(positions: seq<nat>)
    requires ValidPositions(positions)
    ensures |positions| > 0
  {
  }

  lemma {:induction false} ReadPostingsOf(postings: seq<Posting>, previous: nat, budget: nat, rest: string)
    requires ValidPostings(postings, previous) && PositionTotal(postings) <= budget
    ensures ReadPostings(PostingBytes(postings, previous) + rest, |postings|, previous, budget)
      == Some((postings, rest))
    decreases |postings|
  {
    hide VarByte, Decoded, ReadPositions, PositionBytes, ValidPositions;
    if postings == [] {
      assert PostingBytes(postings, previous) + rest == rest;
    } else {
      var p, others := postings[0], postings[1..];
      var t3 := PostingBytes(others, p.doc);
      var t2 := PositionBytes(p.positions) + t3;
      var t1 := VarByte(p.frequency) + t2;
      Push(VarByte(p.doc - previous), t1, rest);
      Push(VarByte(p.frequency), t2, rest);
      Push(PositionBytes(p.positions), t3, rest);
      DecodesEncoded(p.doc - previous, 0, t1 + rest);
      DecodesEncoded(p.frequency, 0, t2 + rest);
      assert p.frequency > 0 by { SomePosition(p.positions); }
      ReadPositionsOf(p.positions, t3 + rest);
      ReadPostingsOf(others, p.doc, budget - p.frequency, rest);
      assert postings == [p] + others;
    }
  }

  function CompressedPostings(records: seq<TermRecord>): string
    requires ValidRecords(records)
  {
    if records == [] then "" else PostingBytes(records[0].entry.postings, 0) + CompressedPostings(records[1..])
  }

  function CompressedTerms(records: seq<TermRecord>, offset: nat): string
    requires ValidRecords(records)
  {
    if records == [] then ""
    else
      var length := |PostingBytes(records[0].entry.postings, 0)|;
      HeaderBytes(TermHeader(records[0].field, records[0].term, records[0].entry.documentFrequency, offset, length))
      + CompressedTerms(records[1..], offset + length)
  }

  /** What decoding the terms gives: the records, what is left of the term section, where the posting
      section was left, and how many positions were read. */
  datatype Section = Section(records: seq<TermRecord>, rest: string, offset: nat, positions: nat)

  function ReadCompressed(limits: SectionLimits, terms: string, postings: string, count: nat, offset: nat, seen: nat)
    : Option<Section>
    decreases count
  {
    if count == 0 then Some(Section([], terms, offset, seen))
    else
      match ReadHeader(limits, terms)
      case None => None
      case Some((h, more)) =>
        if h.start != offset || h.start > |postings| || h.count > |postings| - h.start || seen > limits.positions
          then None
        else
          match ReadPostings(postings[h.start..h.start + h.count], h.frequency, 0, limits.positions - seen)
          case None => None
          case Some((list, left)) =>
            if left != "" then None
            else
              match ReadCompressed(limits, more, postings, count - 1, offset + h.count, seen + PositionTotal(list))
              case None => None
              case Some(t) =>
                Some(t.(records := [TermRecord(h.field, h.term, TermEntry(h.frequency, list))] + t.records))
  }

  /** Names within the read limit. */
  ghost predicate NamesShort(limits: SectionLimits, records: seq<TermRecord>) {
    forall i :: 0 <= i < |records| ==>
      |records[i].field| <= limits.stringBytes && |records[i].term| <= limits.stringBytes
  }

  /** Names whose sizes fit in 64 bits. */
  ghost predicate NamesWide(records: seq<TermRecord>) {
    forall i :: 0 <= i < |records| ==> |records[i].field| < U64_LIMIT && |records[i].term| < U64_LIMIT
  }

  /** Every header fits, wherever it points. */
  ghost predicate NamesFit(limits: SectionLimits, records: seq<TermRecord>) {
    NamesShort(limits, records) && NamesWide(records)
  }

  lemma {:induction false} ReadCompressedOf(limits: SectionLimits, records: seq<TermRecord>, before: string, seen: nat,
                                            rest: string)
    requires ValidRecords(records) && NamesFit(limits, records)
    requires seen + PositionCount(records) <= limits.positions
    requires |before| + |CompressedPostings(records)| < U64_LIMIT
    ensures ReadCompressed(limits, CompressedTerms(records, |before|) + rest,
                           before + CompressedPostings(records), |records|, |before|, seen)
      == Some(Section(records, rest, |before| + |CompressedPostings(records)|, seen + PositionCount(records)))
    decreases |records|
  {
    hide ReadPostings, PostingBytes, HeaderBytes, ReadHeader, ValidPostings, ReadCompressed;
    if records == [] {
      assert CompressedTerms(records, |before|) + rest == rest;
      NoTerms(limits, rest, before + CompressedPostings(records), |before|, seen);
    } else {
      var r, others := records[0], records[1..];
      assert forall i :: 0 <= i < |others| ==> others[i] == records[i + 1];
      var own := PostingBytes(r.entry.postings, 0);
      var h := TermHeader(r.field, r.term, r.entry.documentFrequency, |before|, |own|);
      var tail := CompressedTerms(others, |before| + |own|);
      Push(HeaderBytes(h), tail, rest);
      var section := before + CompressedPostings(records);
      assert section == (before + own) + CompressedPostings(others);
      assert section[|before|..|before| + |own|] == own;
      ReadTerm(limits, h, r.entry.postings, tail + rest, section, |others|, seen);
      ReadCompressedOf(limits, others, before + own, seen + PositionTotal(r.entry.postings), rest);
      assert records == [r] + others;
    }
  }

  /** The first record with a name over the limit ends the reading. */
  lemma {:induction false} ReadCompressedLong(limits: SectionLimits, records: seq<TermRecord>, before: string,
                                              seen: nat, rest: string)
    requires ValidRecords(records) && NamesWide(records) && !NamesShort(limits, records)
    requires seen + PositionCount(records) <= limits.positions
    requires |before| + |CompressedPostings(records)| < U64_LIMIT
    ensures ReadCompressed(limits, CompressedTerms(records, |before|) + rest,
                           before + CompressedPostings(records), |records|, |before|, seen)
      == None
    decreases |records|
  {
    hide ReadPostings, PostingBytes, HeaderBytes, ReadHeader, ValidPostings, ReadCompressed;
    var r, others := records[0], records[1..];
    assert forall i :: 0 <= i < |others| ==> others[i] == records[i + 1];
    var own := PostingBytes(r.entry.postings, 0);
    var h := TermHeader(r.field, r.term, r.entry.documentFrequency, |before|, |own|);
    var tail := CompressedTerms(others, |before| + |own|);
    Push(HeaderBytes(h), tail, rest);
    var section := before + CompressedPostings(records);
    if |r.field| > limits.stringBytes || |r.term| > limits.stringBytes {
      ReadHeaderLong(limits, h, tail + rest);
      NoHeader(limits, HeaderBytes(h) + (tail + rest), section, |records|, |before|, seen);
    } else {
      assert section == (before + own) + CompressedPostings(others);
      assert section[|before|..|before| + |own|] == own;
      ReadTerm(limits, h, r.entry.postings, tail + rest, section, |others|, seen);
      ReadCompressedLong(limits, others, before + own, seen + PositionTotal(r.entry.postings), rest);
    }
  }

  lemma NoHeader(limits: SectionLimits, terms: string, postings: string, count: nat, offset: nat, seen: nat)
    requires count > 0 && ReadHeader(limits, terms) == None
    ensures ReadCompressed(limits, terms, postings, count, offset, seen) == None
  {
    hide ReadHeader;
  }

  lemma NoTerms(limits: SectionLimits, terms: string, postings: string, offset: nat, seen: nat)
    ensures ReadCompressed(limits, terms, postings, 0, offset, seen) == Some(Section([], terms, offset, seen))
  {
  }

  /** One term is read and the reader goes on with the next. */
  lemma ReadTerm(limits: SectionLimits, h: TermHeader, list: seq<Posting>, more: string, section: string, count: nat,
                 seen: nat)
    requires HeaderFits(limits, h) && ValidPostings(list, 0) && h.frequency == |list|
    requires h.start + h.count <= |section| && section[h.start..h.start + h.count] == PostingBytes(list, 0)
    requires seen + PositionTotal(list) <= limits.positions
    ensures ReadCompressed(limits, HeaderBytes(h) + more, section, count + 1, h.start, seen) ==
      match ReadCompressed(limits, more, section, count, h.start + h.count, seen + PositionTotal(list))
      case None => None
      case Some(t) => Some(t.(records := [TermRecord(h.field, h.term, TermEntry(h.frequency, list))] + t.records))
  {
    hide ReadPostings, PostingBytes, HeaderBytes, ReadHeader, ValidPostings;
    ReadHeaderOf(limits, h, more);
    ReadPostingsOf(list, 0, limits.positions - seen, "");
    assert PostingBytes(list, 0) + "" == PostingBytes(list, 0);
  }

  // ---- fixed-width postings ----

  datatype RawPosting = RawPosting(document: nat, frequency: nat, start: nat, count: nat)

  function Words(values: seq<nat>): (s: string)
    ensures |s| == 4 * |values|
  {
    if values == [] then "" else U32(values[0]) + Words(values[1..])
  }

  function ReadWords(data: string, count: nat): Option<seq<nat>> {
    if count == 0 then Some([])
    else
      match Read(data, 4)
      case None => None
      case Some((v, rest)) =>
        match ReadWords(rest, count - 1)
        case None => None
        case Some(values) => Some([v] + values)
  }

  lemma {:induction false} ReadWordsOf(values: seq<nat>)
    requires forall i :: 0 <= i < |values| ==> values[i] < U32_LIMIT
    ensures ReadWords(Words(values), |values|) == Some(values)
  {
    hide U32, Read;
    if values != [] {
      ReadU32(values[0], Words(values[1..]));
      ReadWordsOf(values[1..]);
      assert values == [values[0]] + values[1..];
    }
  }

  /** All postings, all positions, in the order of the terms. */
  function AllPostings(records: seq<TermRecord>): seq<Posting> {
    if records == [] then [] else records[0].entry.postings + AllPostings(records[1..])
  }

  function AllPositions(postings: seq<Posting>): seq<nat> {
    if postings == [] then [] else postings[0].positions + AllPositions(postings[1..])
  }

  /** The posting records, each with the place of its positions. */
  function Raws(postings: seq<Posting>, start: nat): (r: seq<RawPosting>)
    ensures |r| == |postings|
  {
    if postings == [] then []
    else
      [RawPosting(postings[0].doc, postings[0].frequency, start, |postings[0].positions|)]
      + Raws(postings[1..], start + |postings[0].positions|)
  }

  function RawBytes(raws: seq<RawPosting>): (s: string)
    ensures |s| == 24 * |raws|
  {
    if raws == [] then ""
    else
      U32(raws[0].document)
      + (U32(raws[0].frequency) + (U64(raws[0].start) + (U64(raws[0].count) + RawBytes(raws[1..]))))
  }

  function ReadRaws(data: string, count: nat, positions: nat): Option<seq<RawPosting>> {
    if count == 0 then Some([])
    else
      match Read(data, 4)
      case None => None
      case Some((document, d1)) =>
        match Read(d1, 4)
        case None => None
        case Some((frequency, d2)) =>
          match Read(d2, 8)
          case None => None
          case Some((start, d3)) =>
            match Read(d3, 8)
            case None => None
            case Some((n, d4)) =>
              if frequency != n || start > positions || n > positions - start then None
              else
                match ReadRaws(d4, count - 1, positions)
                case None => None
                case Some(raws) => Some([RawPosting(document, frequency, start, n)] + raws)
  }

  predicate RawFits(raw: RawPosting, positions: nat) {
    && raw.document < U32_LIMIT && raw.frequency < U32_LIMIT && raw.frequency == raw.count
    && raw.start + raw.count <= positions < U64_LIMIT
  }

  lemma {:induction false} ReadRawsOf(raws: seq<RawPosting>, positions: nat)
    requires forall i :: 0 <= i < |raws| ==> RawFits(raws[i], positions)
    ensures ReadRaws(RawBytes(raws), |raws|, positions) == Some(raws)
  {
    hide U32, U64, Read;
    if raws != [] {
      var r, rest := raws[0], RawBytes(raws[1..]);
      ReadU32(r.document, U32(r.frequency) + (U64(r.start) + (U64(r.count) + rest)));
      ReadU32(r.frequency, U64(r.start) + (U64(r.count) + rest));
      ReadU64(r.start, U64(r.count) + rest);
      ReadU64(r.count, rest);
      assert forall i :: 0 <= i < |raws[1..]| ==> raws[1..][i] == raws[i + 1];
      ReadRawsOf(raws[1..], positions);
      assert raws == [r] + raws[1..];
    }
  }

  /** A posting record with its positions looked up. */
  function Resolved(raws: seq<RawPosting>, positions: seq<nat>): seq<Posting>
    requires forall i :: 0 <= i < |raws| ==> raws[i].start + raws[i].count <= |positions|
  {
    seq(|raws|, i requires 0 <= i < |raws| =>
      Posting(raws[i].document, raws[i].frequency, positions[raws[i].start..raws[i].start + raws[i].count]))
  }

  lemma {:induction false} RawAt(postings: seq<Posting>, before: seq<nat>, i: nat)
    requires i < |postings|
    ensures var all, raw := before + AllPositions(postings), Raws(postings, |before|)[i];
      && raw.document == postings[i].doc && raw.frequency == postings[i].frequency
      && raw.count == |postings[i].positions|
      && raw.start + raw.count <= |all| && all[raw.start..raw.start + raw.count] == postings[i].positions
    decreases |postings|
  {
    var p, others := postings[0], postings[1..];
    var all := before + AllPositions(postings);
    if i == 0 {
      assert all[|before|..|before| + |p.positions|] == p.positions;
    } else {
      RawAt(others, before + p.positions, i - 1);
      assert all == (before + p.positions) + AllPositions(others);
      assert Raws(postings, |before|)[i] == Raws(others, |before| + |p.positions|)[i - 1];
    }
  }

  /** Every posting record finds its own positions again. */
  lemma RawsResolve(postings: seq<Posting>)
    ensures var raws, all := Raws(postings, 0), AllPositions(postings);
      && (forall i :: 0 <= i < |raws| ==> raws[i].start + raws[i].count <= |all|)
      && Resolved(raws, all) == postings
  {
    hide Raws, AllPositions;
    var raws, all := Raws(postings, 0), AllPositions(postings);
    assert [] + all == all;
    forall i | 0 <= i < |raws|
      ensures raws[i].start + raws[i].count <= |all|
      ensures Posting(raws[i].document, raws[i].frequency, all[raws[i].start..raws[i].start + raws[i].count])
        == postings[i]
    {
      RawAt(postings, [], i);
    }
  }

  /** Posting records of valid postings fit their fields. */
  lemma {:induction false} RawsFit(postings: seq<Posting>, previous: nat, start: nat, bound: nat)
    requires forall i :: 0 <= i < |postings| ==>
      postings[i].doc < U32_LIMIT && postings[i].frequency == |postings[i].positions| < U32_LIMIT
    requires start + |AllPositions(postings)| <= bound < U64_LIMIT
    ensures forall i :: 0 <= i < |postings| ==> RawFits(Raws(postings, start)[i], bound)
    decreases |postings|
  {
    if postings != [] {
      var others := postings[1..];
      assert forall i :: 0 <= i < |others| ==> others[i] == postings[i + 1];
      RawsFit(others, previous, start + |postings[0].positions|, bound);
      forall i | 0 < i < |postings| ensures RawFits(Raws(postings, start)[i], bound) {
        assert Raws(postings, start)[i] == Raws(others, start + |postings[0].positions|)[i - 1];
      }
    }
  }

  function FixedTerms(records: seq<TermRecord>, start: nat): string {
    if records == [] then ""
    else
      var r := records[0];
      HeaderBytes(TermHeader(r.field, r.term, r.entry.documentFrequency, start, |r.entry.postings|))
      + FixedTerms(records[1..], start + |r.entry.postings|)
  }

  /** The terms, each taking its postings out of the resolved list. */
  function ReadFixed(limits: SectionLimits, terms: string, postings: seq<Posting>, count: nat)
    : Option<(seq<TermRecord>, string)> {
    if count == 0 then Some(([], terms))
    else
      match ReadHeader(limits, terms)
      case None => None
      case Some((h, more)) =>
        if h.frequency != h.count || h.start > |postings| || h.count > |postings| - h.start then None
        else
          match ReadFixed(limits, more, postings, count - 1)
          case None => None
          case Some((records, rest)) =>
            Some(([TermRecord(h.field, h.term, TermEntry(h.frequency, postings[h.start..h.start + h.count]))]
                  + records, rest))
  }

  lemma {:induction false} ReadFixedOf(limits: SectionLimits, records: seq<TermRecord>, before: seq<Posting>,
                                       rest: string)
    requires ValidRecords(records) && NamesFit(limits, records)
    requires |before| + |AllPostings(records)| < U64_LIMIT
    ensures ReadFixed(limits, FixedTerms(records, |before|) + rest, before + AllPostings(records), |records|)
      == Some((records, rest))
    decreases |records|
  {
    hide HeaderBytes, ReadHeader, ValidPostings;
    if records == [] {
      assert FixedTerms(records, |before|) + rest == rest;
    } else {
      var r, others := records[0], records[1..];
      var own := r.entry.postings;
      assert forall i :: 0 <= i < |others| ==> others[i] == records[i + 1];
      var h := TermHeader(r.field, r.term, r.entry.documentFrequency, |before|, |own|);
      var tail := FixedTerms(others, |before| + |own|);
      Push(HeaderBytes(h), tail, rest);
      ReadHeaderOf(limits, h, tail + rest);
      var all := before + AllPostings(records);
      assert all == (before + own) + AllPostings(others);
      assert all[|before|..|before| + |own|] == own;
      ReadFixedOf(limits, others, before + own, rest);
      assert records == [r] + others;
    }
  }

  lemma {:induction false} ReadFixedLong(limits: SectionLimits, records: seq<TermRecord>, before: seq<Posting>,
                                         rest: string)
    requires ValidRecords(records) && NamesWide(records) && !NamesShort(limits, records)
    requires |before| + |AllPostings(records)| < U64_LIMIT
    ensures ReadFixed(limits, FixedTerms(records, |before|) + rest, before + AllPostings(records), |records|) == None
    decreases |records|
  {
    hide HeaderBytes, ReadHeader, ValidPostings;
    var r, others := records[0], records[1..];
    var own := r.entry.postings;
    assert forall i :: 0 <= i < |others| ==> others[i] == records[i + 1];
    var h := TermHeader(r.field, r.term, r.entry.documentFrequency, |before|, |own|);
    var tail := FixedTerms(others, |before| + |own|);
    Push(HeaderBytes(h), tail, rest);
    if |r.field| > limits.stringBytes || |r.term| > limits.stringBytes {
      ReadHeaderLong(limits, h, tail + rest);
    } else {
      ReadHeaderOf(limits, h, tail + rest);
      assert before + AllPostings(records) == (before + own) + AllPostings(others);
      ReadFixedLong(limits, others, before + own, rest);
    }
  }

  // ---- the whole index ----

  function EncodeIndex(records: seq<TermRecord>, compressed: bool): EncodedIndex
    requires ValidRecords(records)
  {
    var postings := AllPostings(records);
    var positions := AllPositions(postings);
    if compressed then
      EncodedIndex(CompressedTerms(records, 0), CompressedPostings(records), "", |records|, |postings|, |positions|)
    else
      EncodedIndex(FixedTerms(records, 0), RawBytes(Raws(postings, 0)), Words(positions), |records|, |postings|,
                   |positions|)
  }

  /** `SegmentReader::open` on the three sections, up to the construction of the dictionary. */
  function DecodeIndex(limits: SectionLimits, e: EncodedIndex, compressed: bool): Option<seq<TermRecord>> {
    if e.positionCount > limits.positions || e.postingCount > limits.postings || e.termCount > limits.terms then None
    else if compressed then
      if e.positions != "" then None
      else
        match ReadCompressed(limits, e.terms, e.postings, e.termCount, 0, 0)
        case None => None
        case Some(t) =>
          if t.offset != |e.postings| || PostingCount(t.records) != e.postingCount || t.positions != e.positionCount
            || t.rest != "" then None
          else Some(t.records)
    else if |e.positions| != 4 * e.positionCount || |e.postings| != 24 * e.postingCount then None
    else
      match ReadWords(e.positions, e.positionCount)
      case None => None
      case Some(positions) =>
        match ReadRaws(e.postings, e.postingCount, |positions|)
        case None => None
        case Some(raws) =>
          if exists i :: 0 <= i < |raws| && raws[i].start + raws[i].count > |positions| then None
          else
            match ReadFixed(limits, e.terms, Resolved(raws, positions), e.termCount)
            case None => None
            case Some((records, rest)) => if rest != "" then None else Some(records)
  }

  lemma {:induction false} CountsAre(records: seq<TermRecord>)
    ensures PostingCount(records) == |AllPostings(records)|
    ensures PositionCount(records) == |AllPositions(AllPostings(records))|
  {
    if records != [] {
      CountsAre(records[1..]);
      TotalIs(records[0].entry.postings, AllPostings(records[1..]));
    }
  }

  lemma {:induction false} TotalIs(postings: seq<Posting>, more: seq<Posting>)
    ensures |AllPositions(postings + more)| == PositionTotal(postings) + |AllPositions(more)|
    decreases |postings|
  {
    if postings == [] {
      assert postings + more == more;
    } else {
      TotalIs(postings[1..], more);
      assert (postings + more)[1..] == postings[1..] + more;
    }
  }

  /** The read limits a dictionary has to respect. */
  ghost predicate WithinLimits(limits: SectionLimits, records: seq<TermRecord>)
  {
    && NamesShort(limits, records) && |records| <= limits.terms
    && |AllPostings(records)| <= limits.postings && |AllPositions(AllPostings(records))| <= limits.positions
  }

  /** Sizes that fit in memory: everything is counted in 64 bits. */
  ghost predicate Addressable(records: seq<TermRecord>)
    requires ValidRecords(records)
  {
    && NamesWide(records) && |AllPostings(records)| < U64_LIMIT && |AllPositions(AllPostings(records))| < U64_LIMIT
    && |CompressedPostings(records)| < U64_LIMIT
  }

  lemma CompressedRoundTrip(limits: SectionLimits, records: seq<TermRecord>)
    requires ValidRecords(records) && Addressable(records) && WithinLimits(limits, records)
    ensures DecodeIndex(limits, EncodeIndex(records, true), true) == Some(records)
  {
    hide ReadCompressed, CompressedTerms, CompressedPostings, AllPostings, AllPositions, PostingCount, PositionCount,
         NamesShort, NamesWide, ValidRecord;
    CountsAre(records);
    ReadCompressedOf(limits, records, "", 0, "");
    assert CompressedTerms(records, 0) + "" == CompressedTerms(records, 0);
    assert "" + CompressedPostings(records) == CompressedPostings(records);
  }

  lemma {:induction false} PostingsFit(records: seq<TermRecord>)
    requires ValidRecords(records)
    ensures forall p :: p in AllPostings(records) ==>
      p.doc < U32_LIMIT && p.frequency == |p.positions| < U32_LIMIT && ValidPositions(p.positions)
  {
    hide ValidPositions;
    if records != [] {
      assert forall i :: 0 <= i < |records[1..]| ==> records[1..][i] == records[i + 1];
      PostingsFit(records[1..]);
      EntryFits(records[0].entry.postings, 0);
    }
  }

  lemma {:induction false} EntryFits(postings: seq<Posting>, previous: nat)
    requires ValidPostings(postings, previous)
    ensures forall p :: p in postings ==>
      p.doc < U32_LIMIT && p.frequency == |p.positions| < U32_LIMIT && ValidPositions(p.positions)
    decreases |postings|
  {
    hide ValidPositions;
    if postings != [] {
      EntryFits(postings[1..], postings[0].doc);
      assert postings == [postings[0]] + postings[1..];
    }
  }

  lemma {:induction false} PositionsBelow(values: seq<nat>, previous: nat)
    requires IncreasingFrom(values, previous)
    ensures forall x :: x in values ==> x < U32_LIMIT
    decreases |values|
  {
    if values != [] {
      PositionsBelow(values[1..], values[0]);
      assert values == [values[0]] + values[1..];
    }
  }

  lemma {:induction false} PositionsFit(postings: seq<Posting>)
    requires forall p :: p in postings ==> ValidPositions(p.positions)
    ensures forall x :: x in AllPositions(postings) ==> x < U32_LIMIT
    decreases |postings|
  {
    if postings != [] {
      var positions := postings[0].positions;
      assert postings[0] in postings;
      PositionsBelow(positions[1..], positions[0]);
      assert positions == [positions[0]] + positions[1..];
      assert forall p :: p in postings[1..] ==> p in postings;
      PositionsFit(postings[1..]);
    }
  }

  lemma FixedDecodes(limits: SectionLimits, e: EncodedIndex, positions: seq<nat>, raws: seq<RawPosting>,
                     postings: seq<Posting>, records: seq<TermRecord>)
    requires e.positionCount <= limits.positions && e.postingCount <= limits.postings && e.termCount <= limits.terms
    requires |e.positions| == 4 * e.positionCount && |e.postings| == 24 * e.postingCount
    requires ReadWords(e.positions, e.positionCount) == Some(positions)
    requires ReadRaws(e.postings, e.postingCount, |positions|) == Some(raws)
    requires forall i :: 0 <= i < |raws| ==> raws[i].start + raws[i].count <= |positions|
    requires Resolved(raws, positions) == postings
    requires ReadFixed(limits, e.terms, postings, e.termCount) == Some((records, ""))
    ensures DecodeIndex(limits, e, false) == Some(records)
  {
    hide ReadWords, ReadRaws, Resolved, ReadFixed;
  }

  lemma FixedRoundTrip(limits: SectionLimits, records: seq<TermRecord>)
    requires ValidRecords(records) && Addressable(records) && WithinLimits(limits, records)
    ensures DecodeIndex(limits, EncodeIndex(records, false), false) == Some(records)
  {
    hide AllPostings, AllPositions, NamesShort, NamesWide, ValidRecord, Raws, RawBytes, ReadRaws, Words, ReadWords,
         FixedTerms, ReadFixed, Resolved, CompressedPostings, DecodeIndex;
    var postings := AllPostings(records);
    var positions, raws := AllPositions(postings), Raws(postings, 0);
    FixedParts(records);
    ReadFixedOf(limits, records, [], "");
    assert [] + postings == postings && FixedTerms(records, 0) + "" == FixedTerms(records, 0);
    FixedDecodes(limits, EncodeIndex(records, false), positions, raws, postings, records);
  }

  /** The position and posting sections read back, and the posting records find their positions. */
  lemma FixedParts(records: seq<TermRecord>)
    requires ValidRecords(records) && Addressable(records)
    ensures var postings := AllPostings(records);
      var positions, raws := AllPositions(postings), Raws(postings, 0);
      && ReadWords(Words(positions), |positions|) == Some(positions)
      && ReadRaws(RawBytes(raws), |raws|, |positions|) == Some(raws)
      && (forall i :: 0 <= i < |raws| ==> raws[i].start + raws[i].count <= |positions|)
      && Resolved(raws, positions) == postings
  {
    hide AllPostings, AllPositions, NamesWide, ValidRecord, Raws, RawBytes, ReadRaws, Words, ReadWords, RawFits,
         Resolved, ValidPositions, CompressedPostings;
    var postings := AllPostings(records);
    var positions, raws := AllPositions(postings), Raws(postings, 0);
    PostingsFit(records);
    PositionsFit(postings);
    assert forall i :: 0 <= i < |positions| ==> positions[i] in positions;
    ReadWordsOf(positions);
    assert forall i :: 0 <= i < |postings| ==> postings[i] in postings;
    RawsFit(postings, 0, 0, |positions|);
    ReadRawsOf(raws, |positions|);
    RawsResolve(postings);
  }

  /** A name over the limit, in either format. */
  lemma LongNameFails(limits: SectionLimits, records: seq<TermRecord>, compressed: bool)
    requires ValidRecords(records) && Addressable(records) && !NamesShort(limits, records)
    requires |AllPositions(AllPostings(records))| <= limits.positions
    ensures DecodeIndex(limits, EncodeIndex(records, compressed), compressed) == None
  {
    hide ReadCompressed, CompressedTerms, CompressedPostings, AllPostings, AllPositions, NamesShort, NamesWide,
         ValidRecord, Raws, RawBytes, ReadRaws, Words, ReadWords, FixedTerms, ReadFixed, Resolved;
    var postings := AllPostings(records);
    if compressed {
      CountsAre(records);
      ReadCompressedLong(limits, records, "", 0, "");
      assert CompressedTerms(records, 0) + "" == CompressedTerms(records, 0);
      assert "" + CompressedPostings(records) == CompressedPostings(records);
    } else {
      FixedParts(records);
      ReadFixedLong(limits, records, [], "");
      assert [] + postings == postings && FixedTerms(records, 0) + "" == FixedTerms(records, 0);
    }
  }

  /** Encoding knows no limits. Both formats decode to the dictionary that was encoded if and only if
      it respects the read limits, and otherwise to nothing. */
  lemma SectionsRoundTrip(limits: SectionLimits, records: seq<TermRecord>, compressed: bool)
    requires ValidRecords(records) && Addressable(records)
    ensures DecodeIndex(limits, EncodeIndex(records, compressed), compressed)
      == if WithinLimits(limits, records) then Some(records) else None
  {
    if WithinLimits(limits, records) {
      hide DecodeIndex, EncodeIndex, WithinLimits, Addressable;
      if compressed { CompressedRoundTrip(limits, records); } else { FixedRoundTrip(limits, records); }
    } else if |records| <= limits.terms && |AllPostings(records)| <= limits.postings
              && |AllPositions(AllPostings(records))| <= limits.positions {
      hide DecodeIndex, EncodeIndex, Addressable;
      LongNameFails(limits, records, compressed);
    } else {
      TooMany(limits, records, compressed);
    }
  }

  lemma TooMany(limits: SectionLimits, records: seq<TermRecord>, compressed: bool)
    requires ValidRecords(records)
    requires |records| > limits.terms || |AllPostings(records)| > limits.postings
      || |AllPositions(AllPostings(records))| > limits.positions
    ensures DecodeIndex(limits, EncodeIndex(records, compressed), compressed) == None
  {
    hide ReadCompressed, ReadWords, ReadRaws, ReadFixed, Raws, RawBytes, FixedTerms, CompressedTerms;
  }
}

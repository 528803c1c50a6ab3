/** The loops that write and read the posting sections (src/storage/segment.cpp), proved against the
    sections as values. */
module SectionCoding {
  import opened Basics
  import opened Bytes
  import opened IndexModel
  import opened VariableBytes
  import opened PostingSections

  // ---- writing compressed postings ----

  method AppendPositions(positions: seq<nat>, output: string) returns (r: string)
    requires ValidPositions(positions)
    ensures r == output + PositionBytes(positions)
  {
    hide VarByte;
    r := output;
    var previous: nat := 0;
    for k := 0 to |positions|
      invariant k == 0 ==> r == output && previous == 0
      invariant k > 0 ==>
        IncreasingFrom(positions[k..], previous) && output + PositionBytes(positions) == r + Deltas(positions[k..],
                       previous)
    {
      ghost var before, own := r, VarByte(positions[k] - previous);
      r := Encode(positions[k] - previous, r);
      previous := positions[k];
      assert positions[k..][1..] == positions[k + 1..];
      Push(before, own, Deltas(positions[k + 1..], previous));
    }
    assert positions[|positions|..] == [];
  }

  method AppendPostings(postings: seq<Posting>, output: string) returns (r: string)
    requires ValidPostings(postings, 0)
    ensures r == output + PostingBytes(postings, 0)
  {
    hide VarByte, PositionBytes, ValidPositions;
    r := output;
    var previous: nat := 0;
    assert postings[0..] == postings;
    for i := 0 to |postings|
      invariant ValidPostings(postings[i..], previous)
      invariant r + PostingBytes(postings[i..], previous) == output + PostingBytes(postings, 0)
    {
      var p := postings[i];
      assert postings[i..][1..] == postings[i + 1..];
      ghost var t3 := PostingBytes(postings[i + 1..], p.doc);
      ghost var t2 := PositionBytes(p.positions) + t3;
      ghost var t1 := VarByte(p.frequency) + t2;
      Push(r, VarByte(p.doc - previous), t1);
      r := Encode(p.doc - previous, r);
      Push(r, VarByte(p.frequency), t2);
      r := Encode(p.frequency, r);
      Push(r, PositionBytes(p.positions), t3);
      r := AppendPositions(p.positions, r);
      previous := p.doc;
    }
    assert postings[|postings|..] == [];
  }

  /** `encode_index` in the compressed format. */
  method EncodeCompressed(records: seq<TermRecord>) returns (e: EncodedIndex)
    requires ValidRecords(records)
    ensures e == EncodeIndex(records, true)
  {
    hide PostingBytes, HeaderBytes, ValidPostings, AllPositions;
    var terms, postings := "", "";
    var postingCount: nat, positionCount: nat := 0, 0;
    assert records[0..] == records;
    for i := 0 to |records|
      invariant ValidRecords(records[i..])
      invariant terms + CompressedTerms(records[i..], |postings|) == CompressedTerms(records, 0)
      invariant postings + CompressedPostings(records[i..]) == CompressedPostings(records)
      invariant postingCount + PostingCount(records[i..]) == PostingCount(records)
      invariant positionCount + PositionCount(records[i..]) == PositionCount(records)
    {
      var r := records[i];
      assert records[i..][1..] == records[i + 1..];
      var start := |postings|;
      Push(postings, PostingBytes(r.entry.postings, 0), CompressedPostings(records[i + 1..]));
      postings := AppendPostings(r.entry.postings, postings);
      var header := HeaderBytes(TermHeader(r.field, r.term, r.entry.documentFrequency, start, |postings| - start));
      Push(terms, header, CompressedTerms(records[i + 1..], |postings|));
      terms := terms + header;
      postingCount := postingCount + |r.entry.postings|;
      var positions := CountPositions(r.entry.postings);
      positionCount := positionCount + positions;
    }
    assert records[|records|..] == [];
    CountsAre(records);
    e := EncodedIndex(terms, postings, "", |records|, postingCount, positionCount);
  }

  method CountPositions(postings: seq<Posting>) returns (n: nat)
    ensures n == PositionTotal(postings)
  {
    n := 0;
    assert postings[0..] == postings;
    for i := 0 to |postings|
      invariant n + PositionTotal(postings[i..]) == PositionTotal(postings)
    {
      assert postings[i..][1..] == postings[i + 1..];
      n := n + |postings[i].positions|;
    }
  }

  // ---- writing fixed-width postings ----

  method AppendWords(values: seq<nat>, output: string) returns (r: string)
    ensures r == output + Words(values)
  {
    hide U32;
    r := output;
    assert values[0..] == values;
    for i := 0 to |values|
      invariant r + Words(values[i..]) == output + Words(values)
    {
      assert values[i..][1..] == values[i + 1..];
      Push(r, U32(values[i]), Words(values[i + 1..]));
      r := r + U32(values[i]);
    }
    assert values[|values|..] == [];
  }

  lemma NoWords()
    ensures Words([]) == ""
  {
  }

  lemma WordsCons(x: nat, values: seq<nat>)
    ensures Words([x] + values) == U32(x) + Words(values)
  {
    hide U32;
    assert ([x] + values)[1..] == values;
  }

  lemma {:induction false} WordsConcat(a: seq<nat>, b: seq<nat>)
    ensures Words(a + b) == Words(a) + Words(b)
  {
    hide U32, Words;
    if a == [] {
      NoWords();
      assert a + b == b;
    } else {
      var tail := a[1..];
      WordsConcat(tail, b);
      WordsCons(a[0], tail);
      WordsCons(a[0], tail + b);
      assert a == [a[0]] + tail && a + b == [a[0]] + (tail + b);
      Push(U32(a[0]), Words(tail), Words(b));
    }
  }

  function RawOne(raw: RawPosting): string {
    U32(raw.document) + (U32(raw.frequency) + (U64(raw.start) + U64(raw.count)))
  }

  lemma RawBytesCons(raw: RawPosting, more: seq<RawPosting>)
    ensures RawBytes([raw] + more) == RawOne(raw) + RawBytes(more)
  {
    hide U32, U64;
    assert ([raw] + more)[1..] == more;
  }

  /** The postings of one term: records go to one section, positions to the other. */
  method AppendRaws(list: seq<Posting>, ghost more: seq<Posting>, postings: string, positions: string, count: nat)
    returns (postings': string, positions': string, count': nat)
    ensures postings' + RawBytes(Raws(more, count')) == postings + RawBytes(Raws(list + more, count))
    ensures positions' + Words(AllPositions(more)) == positions + Words(AllPositions(list + more))
    ensures count' == count + PositionTotal(list)
  {
    hide U32, U64, Words, RawBytes, RawOne;
    postings', positions', count' := postings, positions, count;
    assert list[0..] + more == list + more;
    for i := 0 to |list|
      invariant postings' + RawBytes(Raws(list[i..] + more, count')) == postings + RawBytes(Raws(list + more, count))
      invariant positions' + Words(AllPositions(list[i..] + more)) == positions + Words(AllPositions(list + more))
      invariant count' + PositionTotal(list[i..]) == count + PositionTotal(list)
    {
      var p := list[i];
      assert (list[i..] + more)[1..] == list[i + 1..] + more;
      assert list[i..][1..] == list[i + 1..];
      var raw := RawPosting(p.doc, p.frequency, count', |p.positions|);
      ghost var tail := Raws(list[i + 1..] + more, count' + |p.positions|);
      RawBytesCons(raw, tail);
      Push(postings', RawOne(raw), RawBytes(tail));
      postings' := postings' + RawOne(raw);
      ghost var after := AllPositions(list[i + 1..] + more);
      WordsConcat(p.positions, after);
      Push(positions', Words(p.positions), Words(after));
      positions' := AppendWords(p.positions, positions');
      count' := count' + |p.positions|;
    }
    assert list[|list|..] + more == more;
  }

  /** `encode_index` in the fixed-width format. */
  method EncodeFixed(records: seq<TermRecord>) returns (e: EncodedIndex)
    requires ValidRecords(records)
    ensures e == EncodeIndex(records, false)
  {
    hide HeaderBytes, ValidRecord, AllPositions, Words, RawBytes, Raws, PositionTotal;
    var terms, postings, positions := "", "", "";
    var postingCount: nat, positionCount: nat := 0, 0;
    assert records[0..] == records;
    for i := 0 to |records|
      invariant terms + FixedTerms(records[i..], postingCount) == FixedTerms(records, 0)
      invariant postings + RawBytes(Raws(AllPostings(records[i..]), positionCount))
        == RawBytes(Raws(AllPostings(records), 0))
      invariant positions + Words(AllPositions(AllPostings(records[i..]))) == Words(AllPositions(AllPostings(records)))
      invariant postingCount + PostingCount(records[i..]) == PostingCount(records)
      invariant positionCount + PositionCount(records[i..]) == PositionCount(records)
    {
      var r := records[i];
      assert records[i..][1..] == records[i + 1..];
      postings, positions, positionCount := AppendRaws(r.entry.postings, AllPostings(records[i + 1..]), postings,
                                                       positions, positionCount);
      var header := HeaderBytes(TermHeader(r.field, r.term, r.entry.documentFrequency, postingCount,
                                           |r.entry.postings|));
      Push(terms, header, FixedTerms(records[i + 1..], postingCount + |r.entry.postings|));
      terms := terms + header;
      postingCount := postingCount + |r.entry.postings|;
    }
    assert records[|records|..] == [];
    NothingWritten(positionCount);
    CountsAre(records);
    e := EncodedIndex(terms, postings, positions, |records|, postingCount, positionCount);
  }

  lemma NothingWritten(start: nat)
    ensures RawBytes(Raws([], start)) == "" && Words(AllPositions([])) == ""
  {
  }

  // ---- reading compressed postings ----

  /** A list read so far, in front of what is still to be read. */
  function Before<T>(list: seq<T>, r: Option<(seq<T>, string)>): Option<(seq<T>, string)> {
    match r
    case None => None
    case Some((more, rest)) => Some((list + more, rest))
  }

  lemma BeforeNothing<T>(r: Option<(seq<T>, string)>)
    ensures Before([], r) == r
  {
    if r.Some? { assert [] + r.value.0 == r.value.0; }
  }

  lemma BeforeMore<T>(list: seq<T>, x: T, r: Option<(seq<T>, string)>)
    ensures Before(list, Before([x], r)) == Before(list + [x], r)
  {
    if r.Some? { assert list + ([x] + r.value.0) == (list + [x]) + r.value.0; }
  }

  lemma BeforeEnd<T>(list: seq<T>, rest: string)
    ensures Before(list, Some(([], rest))) == Some((list, rest))
  {
    assert list + [] == list;
  }

  /** The positions still to be read; only the first difference may be zero. */
  function PositionsFrom(data: string, count: nat, previous: nat, first: bool): Option<(seq<nat>, string)> {
    if count == 0 then Some(([], data))
    else
      match Decoded(data, 0)
      case Err(_) => None
      case Ok((delta, rest)) =>
        if (!first && delta == 0) || delta > U32_LIMIT - 1 - previous then None
        else Before<nat>([previous + delta], PositionsFrom(rest, count - 1, previous + delta, false))
  }

  lemma {:induction false} LaterPositions(data: string, count: nat, previous: nat)
    ensures PositionsFrom(data, count, previous, false) ==
      match Undelta(data, count, previous)
      case Err(_) => None
      case Ok(values) => Some(values)
    decreases count
  {
    hide Decoded;
    if count > 0 && Decoded(data, 0).Ok? {
      var (delta, rest) := Decoded(data, 0).value;
      LaterPositions(rest, count - 1, previous + delta);
    }
  }

  lemma PositionsAreRead(data: string, count: nat)
    ensures PositionsFrom(data, count, 0, true) == ReadPositions(data, count)
  {
    hide Decoded, Undelta;
    if count > 0 && Decoded(data, 0).Ok? {
      var (delta, rest) := Decoded(data, 0).value;
      DecodedBelow(data, 0);
      LaterPositions(rest, count - 1, delta);
    }
  }

  lemma {:induction false} DecodedBelow(data: string, i: nat)
    requires i <= 4 && Decoded(data, i).Ok?
    ensures Decoded(data, i).value.0 < Bound(i)
    decreases 4 - i
  {
    if i < 4 && data[0] as int % 256 < 128 { DecodedBelow(data[1..], i + 1); }
  }

  lemma NextPosition(data: string, count: nat, previous: nat, first: bool, delta: nat, rest: string)
    requires count > 0 && Decoded(data, 0) == Ok((delta, rest)) && (first || delta > 0)
    requires delta <= U32_LIMIT - 1 - previous
    ensures PositionsFrom(data, count, previous, first)
      == Before<nat>([previous + delta], PositionsFrom(rest, count - 1, previous + delta, false))
  {
    hide Decoded, Before;
  }

  method DecodePositions(input: string, offset: nat, count: nat) returns (r: Option<seq<nat>>, next: nat)
    requires offset <= |input|
    ensures offset <= next <= |input|
    ensures match ReadPositions(input[offset..], count)
      case None => r == None
      case Some((values, rest)) => r == Some(values) && input[next..] == rest
  {
    hide Decoded, ReadPositions, Before;
    PositionsAreRead(input[offset..], count);
    var values: seq<nat> := [];
    var previous: nat := 0;
    next := offset;
    BeforeNothing(PositionsFrom(input[offset..], count, 0, true));
    for k := 0 to count
      invariant offset <= next <= |input|
      invariant Before(values, PositionsFrom(input[next..], count - k, previous, k == 0))
        == ReadPositions(input[offset..], count)
    {
      BeforeNone(values);
      var delta, after := Decode(input, next);
      match delta {
        case Err(_) => return None, next;
        case Ok(delta) =>
          if (k != 0 && delta == 0) || delta > U32_LIMIT - 1 - previous { return None, next; }
          NextPosition(input[next..], count - k, previous, k == 0, delta, input[after..]);
          previous := previous + delta;
          next := after;
          BeforeMore(values, previous, PositionsFrom(input[next..], count - k - 1, previous, false));
          values := values + [previous];
      }
    }
    BeforeEnd(values, input[next..]);
    r := Some(values);
  }

  lemma BeforeNone<T>(list: seq<T>)
    ensures Before(list, None) == None
  {
  }

  method DecodePostings(input: string, count: nat, budget: nat) returns (r: Option<seq<Posting>>, next: nat, seen: nat)
    ensures next <= |input|
    ensures match ReadPostings(input, count, 0, budget)
      case None => r == None
      case Some((list, rest)) => r == Some(list) && input[next..] == rest && seen == PositionTotal(list) <= budget
  {
    hide Decoded, ReadPositions, Before;
    var list: seq<Posting> := [];
    var previous: nat := 0;
    next, seen := 0, 0;
    assert input[0..] == input;
    ghost var spec := ReadPostings(input, count, 0, budget);
    BeforeNothing(spec);
    for j := 0 to count
      invariant next <= |input| && seen == PositionTotal(list) <= budget
      invariant Before(list, ReadPostings(input[next..], count - j, previous, budget - seen)) == spec
    {
      BeforeNone(list);
      var delta, at := Decode(input, next);
      var frequency := 0;
      match delta {
        case Err(_) => return None, next, seen;
        case Ok(d) =>
          var decoded, after := Decode(input, at);
          match decoded {
            case Err(_) => return None, next, seen;
            case Ok(f) =>
              if d == 0 || d > U32_LIMIT - 1 - previous || f == 0 || f > budget - seen { return None, next, seen; }
              var positions, end := DecodePositions(input, after, f);
              if positions.None? { return None, next, seen; }
              var posting := Posting(previous + d, f, positions.value);
              OnePosting(input[next..], count - j, previous, budget - seen, posting, d, input[at..], input[after..],
                         input[end..]);
              PositionsRead(input[after..], f);
              BeforeMore(list, posting, ReadPostings(input[end..], count - j - 1, posting.doc, budget - seen - f));
              TotalOfMore(list, posting);
              list := list + [posting];
              previous, next, seen := posting.doc, end, seen + f;
          }
      }
    }
    BeforeEnd(list, input[next..]);
    r := Some(list);
  }

  lemma OnePosting(data: string, count: nat, previous: nat, budget: nat, p: Posting, delta: nat, d1: string,
                   d2: string, d3: string)
    requires count > 0 && Decoded(data, 0) == Ok((delta, d1)) && Decoded(d1, 0) == Ok((p.frequency, d2))
    requires p.doc == previous + delta
    requires 0 < delta <= U32_LIMIT - 1 - previous && 0 < p.frequency <= budget
    requires ReadPositions(d2, p.frequency) == Some((p.positions, d3))
    ensures ReadPostings(data, count, previous, budget)
      == Before([p], ReadPostings(d3, count - 1, p.doc, budget - p.frequency))
  {
    hide Decoded, ReadPositions;
  }

  lemma PositionsRead(data: string, count: nat)
    requires ReadPositions(data, count).Some?
    ensures |ReadPositions(data, count).value.0| == count
  {
    hide Decoded;
    if count > 0 {
      var (first, rest) := Decoded(data, 0).value;
      UndeltaCount(rest, count - 1, first);
    }
  }

  lemma {:induction false} UndeltaCount(data: string, count: nat, previous: nat)
    requires Undelta(data, count, previous).Ok?
    ensures |Undelta(data, count, previous).value.0| == count
    decreases count
  {
    hide Decoded;
    if count > 0 {
      var (delta, rest) := Decoded(data, 0).value;
      UndeltaCount(rest, count - 1, previous + delta);
    }
  }

  lemma {:induction false} TotalOfMore(list: seq<Posting>, p: Posting)
    ensures PositionTotal(list + [p]) == PositionTotal(list) + |p.positions|
    decreases |list|
  {
    if list == [] {
      assert list + [p] == [p] && [p][1..] == [];
    } else {
      TotalOfMore(list[1..], p);
      assert (list + [p])[1..] == list[1..] + [p];
    }
  }

  // ---- reading the terms of the compressed format ----

  function Behind(records: seq<TermRecord>, r: Option<Section>): Option<Section> {
    match r
    case None => None
    case Some(t) => Some(t.(records := records + t.records))
  }

  lemma BehindMore(records: seq<TermRecord>, x: TermRecord, r: Option<Section>)
    ensures Behind(records, Behind([x], r)) == Behind(records + [x], r)
  {
    if r.Some? { assert records + ([x] + r.value.records) == (records + [x]) + r.value.records; }
  }

  lemma BehindEnds(records: seq<TermRecord>, r: Option<Section>)
    ensures Behind([], r) == r && Behind(records, None) == None
    ensures r.Some? && r.value.records == [] ==> Behind(records, r) == Some(r.value.(records := records))
  {
    if r.Some? { assert [] + r.value.records == r.value.records && records + [] == records; }
  }

  lemma OneTerm(limits: SectionLimits, terms: string, postings: string, count: nat, offset: nat, seen: nat,
                h: TermHeader, more: string, list: seq<Posting>)
    requires count > 0 && ReadHeader(limits, terms) == Some((h, more))
    requires h.start == offset && h.start + h.count <= |postings| && seen <= limits.positions
    requires ReadPostings(postings[h.start..h.start + h.count], h.frequency, 0, limits.positions - seen)
      == Some((list, ""))
    ensures ReadCompressed(limits, terms, postings, count, offset, seen) ==
      Behind([TermRecord(h.field, h.term, TermEntry(h.frequency, list))],
             ReadCompressed(limits, more, postings, count - 1, offset + h.count, seen + PositionTotal(list)))
  {
    hide ReadHeader, ReadPostings;
  }

  lemma NoTerm(limits: SectionLimits, terms: string, postings: string, count: nat, offset: nat, seen: nat)
    requires count > 0
    requires match ReadHeader(limits, terms)
      case None => true
      case Some((h, more)) =>
        || h.start != offset || h.start > |postings| || h.count > |postings| - h.start || seen > limits.positions
        || match ReadPostings(postings[h.start..h.start + h.count], h.frequency, 0, limits.positions - seen)
           case None => true
           case Some((_, left)) => left != ""
    ensures ReadCompressed(limits, terms, postings, count, offset, seen) == None
  {
    hide ReadHeader, ReadPostings;
  }

  /** The terms of the compressed format; `offset` is where the next term's postings must begin. */
  method DecodeCompressed(limits: SectionLimits, terms: string, postings: string, count: nat)
    returns (r: Option<Section>)
    ensures r == ReadCompressed(limits, terms, postings, count, 0, 0)
  {
    hide ReadCompressed, ReadHeader, ReadPostings, Behind;
    var records: seq<TermRecord> := [];
    var rest: string, offset: nat, seen: nat := terms, 0, 0;
    ghost var spec := ReadCompressed(limits, terms, postings, count, 0, 0);
    BehindEnds([], spec);
    for i := 0 to count
      invariant seen <= limits.positions
      invariant Behind(records, ReadCompressed(limits, rest, postings, count - i, offset, seen)) == spec
    {
      BehindEnds(records, None);
      var header := ReadHeader(limits, rest);
      if header.None? {
        NoTerm(limits, rest, postings, count - i, offset, seen);
        return None;
      }
      var (h, more) := header.value;
      if h.start != offset || h.start > |postings| || h.count > |postings| - h.start {
        NoTerm(limits, rest, postings, count - i, offset, seen);
        return None;
      }
      var encoded := postings[h.start..h.start + h.count];
      var list, end, found := DecodePostings(encoded, h.frequency, limits.positions - seen);
      if list.None? || end != |encoded| {
        NoTerm(limits, rest, postings, count - i, offset, seen);
        return None;
      }
      OneTerm(limits, rest, postings, count - i, offset, seen, h, more, list.value);
      var record := TermRecord(h.field, h.term, TermEntry(h.frequency, list.value));
      BehindMore(records, record,
                 ReadCompressed(limits, more, postings, count - i - 1, offset + h.count, seen + found));
      records := records + [record];
      rest, offset, seen := more, offset + h.count, seen + found;
    }
    NoTerms(limits, rest, postings, offset, seen);
    BehindEnds(records, Some(Section([], rest, offset, seen)));
    r := Some(Section(records, rest, offset, seen));
  }

  // ---- reading the fixed-width format ----

  method DecodeWords(data: string, count: nat) returns (r: Option<seq<nat>>)
    ensures r == ReadWords(data, count)
  {
    hide Read;
    var values: seq<nat> := [];
    var rest := data;
    ghost var spec := ReadWords(data, count);
    assert spec.Some? ==> [] + spec.value == spec.value;
    for i := 0 to count
      invariant spec == match ReadWords(rest, count - i) case None => None case Some(more) => Some(values + more)
    {
      var word := Read(rest, 4);
      if word.None? { return None; }
      ghost var more := ReadWords(word.value.1, count - i - 1);
      if more.Some? { assert values + ([word.value.0] + more.value) == (values + [word.value.0]) + more.value; }
      values := values + [word.value.0];
      rest := word.value.1;
    }
    assert values + [] == values;
    r := Some(values);
  }

  function ReadRaw(data: string): Option<(RawPosting, string)> {
    match Read(data, 4)
    case None => None
    case Some((document, d1)) =>
      match Read(d1, 4)
      case None => None
      case Some((frequency, d2)) =>
        match Read(d2, 8)
        case None => None
        case Some((start, d3)) =>
          match Read(d3, 8)
          case None => None
          case Some((n, d4)) => Some((RawPosting(document, frequency, start, n), d4))
  }

  lemma RawsAre(data: string, count: nat, positions: nat)
    requires count > 0
    ensures ReadRaws(data, count, positions) ==
      match ReadRaw(data)
      case None => None
      case Some((raw, rest)) =>
        if raw.frequency != raw.count || raw.start > positions || raw.count > positions - raw.start then None
        else match ReadRaws(rest, count - 1, positions) case None => None case Some(more) => Some([raw] + more)
  {
    hide Read;
  }

  method DecodeRaws(data: string, count: nat, positions: nat) returns (r: Option<seq<RawPosting>>)
    ensures r == ReadRaws(data, count, positions)
    ensures r.Some? ==> forall i :: 0 <= i < |r.value| ==> r.value[i].start + r.value[i].count <= positions
  {
    hide ReadRaw, ReadRaws;
    var raws: seq<RawPosting> := [];
    var rest := data;
    ghost var spec := ReadRaws(data, count, positions);
    assert spec.Some? ==> [] + spec.value == spec.value;
    for i := 0 to count
      invariant spec
        == match ReadRaws(rest, count - i, positions) case None => None case Some(more) => Some(raws + more)
      invariant forall k :: 0 <= k < |raws| ==> raws[k].start + raws[k].count <= positions
    {
      RawsAre(rest, count - i, positions);
      var next := ReadRaw(rest);
      if next.None? { return None; }
      var (raw, after) := next.value;
      if raw.frequency != raw.count || raw.start > positions || raw.count > positions - raw.start { return None; }
      ghost var more := ReadRaws(after, count - i - 1, positions);
      if more.Some? { assert raws + ([raw] + more.value) == (raws + [raw]) + more.value; }
      raws := raws + [raw];
      rest := after;
    }
    NoRaws(rest, positions);
    assert raws + [] == raws;
    r := Some(raws);
  }

  lemma NoRaws(data: string, positions: nat)
    ensures ReadRaws(data, 0, positions) == Some([])
  {
  }

  /** The postings of one term, each with its positions copied out. */
  method ResolveRange(raws: seq<RawPosting>, positions: seq<nat>, start: nat, count: nat) returns (list: seq<Posting>)
    requires start + count <= |raws| && forall i :: 0 <= i < |raws| ==> raws[i].start + raws[i].count <= |positions|
    ensures list == Resolved(raws, positions)[start..start + count]
  {
    list := [];
    for j := 0 to count
      invariant list == Resolved(raws, positions)[start..start + j]
    {
      var raw := raws[start + j];
      list := list + [Posting(raw.document, raw.frequency, positions[raw.start..raw.start + raw.count])];
    }
  }

  lemma FixedIs(limits: SectionLimits, terms: string, postings: seq<Posting>, count: nat)
    requires count > 0
    ensures ReadFixed(limits, terms, postings, count) ==
      match ReadHeader(limits, terms)
      case None => None
      case Some((h, more)) =>
        if h.frequency != h.count || h.start > |postings| || h.count > |postings| - h.start then None
        else Before([TermRecord(h.field, h.term, TermEntry(h.frequency, postings[h.start..h.start + h.count]))],
                    ReadFixed(limits, more, postings, count - 1))
  {
    hide ReadHeader;
  }

  method DecodeFixed(limits: SectionLimits, terms: string, raws: seq<RawPosting>, positions: seq<nat>, count: nat)
    returns (r: Option<(seq<TermRecord>, string)>)
    requires forall i :: 0 <= i < |raws| ==> raws[i].start + raws[i].count <= |positions|
    ensures r == ReadFixed(limits, terms, Resolved(raws, positions), count)
  {
    hide ReadHeader, ReadFixed, Before;
    var records: seq<TermRecord> := [];
    var rest := terms;
    ghost var all := Resolved(raws, positions);
    ghost var spec := ReadFixed(limits, terms, all, count);
    BeforeNothing(spec);
    for i := 0 to count
      invariant Before(records, ReadFixed(limits, rest, all, count - i)) == spec
    {
      FixedIs(limits, rest, all, count - i);
      BeforeNone(records);
      var header := ReadHeader(limits, rest);
      if header.None? { return None; }
      var (h, more) := header.value;
      if h.frequency != h.count || h.start > |raws| || h.count > |raws| - h.start { return None; }
      var list := ResolveRange(raws, positions, h.start, h.count);
      var record := TermRecord(h.field, h.term, TermEntry(h.frequency, list));
      BeforeMore(records, record, ReadFixed(limits, more, all, count - i - 1));
      records := records + [record];
      rest := more;
    }
    NoFixed(limits, rest, all);
    BeforeEnd(records, rest);
    r := Some((records, rest));
  }

  lemma NoFixed(limits: SectionLimits, terms: string, postings: seq<Posting>)
    ensures ReadFixed(limits, terms, postings, 0) == Some(([], terms))
  {
  }

  // ---- the whole index ----

  /** `encode_index`. */
  method EncodeSections(records: seq<TermRecord>, compressed: bool) returns (e: EncodedIndex)
    requires ValidRecords(records)
    ensures e == EncodeIndex(records, compressed)
  {
    hide EncodeIndex;
    if compressed { e := EncodeCompressed(records); } else { e := EncodeFixed(records); }
  }

  method CountPostings(records: seq<TermRecord>) returns (n: nat)
    ensures n == PostingCount(records)
  {
    n := 0;
    assert records[0..] == records;
    for i := 0 to |records|
      invariant n + PostingCount(records[i..]) == PostingCount(records)
    {
      assert records[i..][1..] == records[i + 1..];
      n := n + |records[i].entry.postings|;
    }
  }

  /** `SegmentReader::open` on the three sections. */
  method DecodeSections(limits: SectionLimits, e: EncodedIndex, compressed: bool) returns (r: Option<seq<TermRecord>>)
    ensures r == DecodeIndex(limits, e, compressed)
  {
    hide ReadCompressed, ReadWords, ReadRaws, ReadFixed, PostingCount;
    if e.positionCount > limits.positions || e.postingCount > limits.postings || e.termCount > limits.terms {
      return None;
    }
    if compressed {
      if e.positions != "" { return None; }
      var section := DecodeCompressed(limits, e.terms, e.postings, e.termCount);
      if section.None? { return None; }
      var t := section.value;
      var count := CountPostings(t.records);
      if t.offset != |e.postings| || count != e.postingCount || t.positions != e.positionCount || t.rest != "" {
        return None;
      }
      return Some(t.records);
    }
    if |e.positions| != 4 * e.positionCount || |e.postings| != 24 * e.postingCount { return None; }
    var positions := DecodeWords(e.positions, e.positionCount);
    if positions.None? { return None; }
    var raws := DecodeRaws(e.postings, e.postingCount, |positions.value|);
    if raws.None? { return None; }
    var fixed := DecodeFixed(limits, e.terms, raws.value, positions.value, e.termCount);
    if fixed.None? || fixed.value.1 != "" { return None; }
    r := Some(fixed.value.0);
  }
}

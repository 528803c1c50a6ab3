/** Manifest files, CURRENT and the store that publishes them (src/storage/manifest.cpp). */
module Manifests {
  import opened Basics
  import opened Numbers
  import opened Bytes
  import WriteAhead

  datatype ManifestSegment = ManifestSegment(id: nat, filename: string)
  datatype IndexManifest = IndexManifest(generation: nat, segments: seq<ManifestSegment>)
  datatype ManifestError = IoError | Corruption | UnsupportedVersion | ResourceLimit | InvalidManifest | InjectedFailure

  const MANIFEST_MAGIC: string := "DSEMAN01"
  const CURRENT_MAGIC: string := "DSECUR01"
  const MAJOR: nat := 1
  const MINOR: nat := 0
  const MAXIMUM_BYTES: nat := 0x100_0000
  const MAXIMUM_SEGMENTS: nat := 1_000_000
  const HEADER: nat := 32

  function Checksum(data: string): (r: nat)
    ensures r < U32_LIMIT
  {
    WriteAhead.Crc32c(data)
  }

  // ---- what a manifest may list ----

  predicate PlainName(name: string) {
    name != "" && '/' !in name && '\\' !in name
  }

  /** A segment that can follow the ones already listed. */
  predicate Addable(known: seq<ManifestSegment>, s: ManifestSegment) {
    && s.id != 0 && PlainName(s.filename)
    && (forall k :: 0 <= k < |known| ==> known[k].id != s.id && known[k].filename != s.filename)
  }

  predicate Listable(segments: seq<ManifestSegment>) {
    forall i :: 0 <= i < |segments| ==> Addable(segments[..i], segments[i])
  }

  predicate Acceptable(m: IndexManifest) {
    m.generation != 0 && m.segments != [] && Listable(m.segments)
  }

  /** The widths of the numbers in memory. */
  predicate Fits(m: IndexManifest) {
    && m.generation < U64_LIMIT && |m.segments| < U64_LIMIT
    && (forall i :: 0 <= i < |m.segments| ==> SegmentFits(m.segments[i]))
  }

  predicate SegmentFits(s: ManifestSegment) {
    s.id < U64_LIMIT && |s.filename| < U64_LIMIT
  }

  // ---- encoding ----

  function Text(s: string): string {
    U64(|s|) + s
  }

  function Entry(s: ManifestSegment): (r: string)
    ensures |r| == 16 + |s.filename|
  {
    U64(s.id) + Text(s.filename)
  }

  function Payload(segments: seq<ManifestSegment>): string {
    if segments == [] then "" else Entry(segments[0]) + Payload(segments[1..])
  }

  function Header(major: nat, minor: nat, generation: nat, count: nat, checksum: nat, rest: string): string {
    MANIFEST_MAGIC + (Little(major, 2) + (Little(minor, 2) + (U64(generation) + (U64(count) + (U32(checksum) + rest)))))
  }

  function Encode(m: IndexManifest): string {
    var payload := Payload(m.segments);
    Header(MAJOR, MINOR, m.generation, |m.segments|, Checksum(payload), payload)
  }

  /** A manifest of one segment, byte by byte. */
  lemma KnownManifest()
    ensures var zeros := seq(7, _ => 0 as char);
      var entry := ([7 as char] + zeros) + (([1 as char] + zeros) + "a");
      Encode(IndexManifest(2, [ManifestSegment(7, "a")]))
      == "DSEMAN01" + (([1 as char] + zeros[..1]) + (zeros[..2] + (([2 as char] + zeros)
         + (([1 as char] + zeros) + (U32(WriteAhead.Crc32c(entry)) + entry)))))
  {
    hide WriteAhead.Crc32c, Little;
    var zeros := seq(7, _ => 0 as char);
    var segments := [ManifestSegment(7, "a")];
    assert Payload(segments[1..]) == "";
    assert Payload(segments) == Entry(segments[0]);
    SmallLittle(7, 8);
    SmallLittle(1, 8);
    SmallLittle(2, 8);
    SmallLittle(1, 2);
    SmallLittle(0, 2);
    assert [1 as char] + zeros[..1] == Little(1, 2);
    assert [0 as char] + zeros[..1] == zeros[..2] == Little(0, 2);
  }

  /** `encode_manifest`. */
  method EncodeManifest(m: IndexManifest) returns (r: string)
    ensures r == Encode(m)
  {
    hide Entry, Checksum;
    var payload := "";
    for i := 0 to |m.segments|
      invariant payload + Payload(m.segments[i..]) == Payload(m.segments)
    {
      assert m.segments[i..][1..] == m.segments[i + 1..];
      Push(payload, Entry(m.segments[i]), Payload(m.segments[i + 1..]));
      payload := payload + Entry(m.segments[i]);
    }
    assert payload == Payload(m.segments);
    r := Header(MAJOR, MINOR, m.generation, |m.segments|, Checksum(payload), payload);
  }

  // ---- decoding ----

  function ReadText(data: string): Option<(string, string)> {
    match Read(data, 8)
    case None => None
    case Some((length, rest)) => if length > |rest| then None else Some((rest[..length], rest[length..]))
  }

  function ReadEntry(data: string): Option<(ManifestSegment, string)> {
    match Read(data, 8)
    case None => None
    case Some((id, rest)) =>
      match ReadText(rest)
      case None => None
      case Some((name, rest)) => Some((ManifestSegment(id, name), rest))
  }

  /** `count` more entries, then nothing. */
  function ReadEntries(count: nat, known: seq<ManifestSegment>, data: string)
    : Result<seq<ManifestSegment>, ManifestError> {
    if count == 0 then if data == "" then Ok(known) else Err(Corruption)
    else
      match ReadEntry(data)
      case None => Err(InvalidManifest)
      case Some((s, rest)) =>
        if Addable(known, s) then ReadEntries(count - 1, known + [s], rest) else Err(InvalidManifest)
  }

  /** Everything `decode_manifest` tests before the entries. */
  function HeaderTrouble(bytes: string): Option<ManifestError> {
    if |bytes| < HEADER || bytes[..8] != MANIFEST_MAGIC then Some(Corruption)
    else if Value(bytes[8..10]) != MAJOR || Value(bytes[10..12]) > MINOR then Some(UnsupportedVersion)
    else if Value(bytes[12..20]) == 0 || Value(bytes[20..28]) == 0 then Some(InvalidManifest)
    else if Value(bytes[20..28]) > MAXIMUM_SEGMENTS then Some(ResourceLimit)
    else if Checksum(bytes[HEADER..]) != Value(bytes[28..32]) then Some(Corruption)
    else None
  }

  function Decode(bytes: string): Result<IndexManifest, ManifestError> {
    match HeaderTrouble(bytes)
    case Some(e) => Err(e)
    case None =>
      match ReadEntries(Value(bytes[20..28]), [], bytes[HEADER..])
      case Err(e) => Err(e)
      case Ok(segments) => Ok(IndexManifest(Value(bytes[12..20]), segments))
  }

  /** `decode_manifest`: the entries are read by a cursor that moves over the bytes. */
  method DecodeManifest(bytes: string) returns (r: Result<IndexManifest, ManifestError>)
    ensures r == Decode(bytes)
  {
    hide Value, Addable, ReadEntries, ReadEntry, HeaderTrouble;
    var trouble := HeaderTrouble(bytes);
    if trouble.Some? { return Err(trouble.value); }
    HeaderIsThere(bytes);
    var generation, count := Value(bytes[12..20]), Value(bytes[20..28]);
    var offset := HEADER;
    var segments: seq<ManifestSegment> := [];
    for i := 0 to count
      invariant 0 <= offset <= |bytes|
      invariant ReadEntries(count - i, segments, bytes[offset..]) == ReadEntries(count, [], bytes[HEADER..])
    {
      EntriesStep(count - i, segments, bytes[offset..]);
      var entry := ReadEntry(bytes[offset..]);
      if entry.None? || !Addable(segments, entry.value.0) { return Err(InvalidManifest); }
      EntryAdvances(bytes[offset..]);
      offset := offset + 16 + |entry.value.0.filename|;
      segments := segments + [entry.value.0];
    }
    NoEntries(segments, bytes[offset..]);
    if offset != |bytes| { return Err(Corruption); }
    r := Ok(IndexManifest(generation, segments));
  }

  lemma HeaderIsThere(bytes: string)
    requires HeaderTrouble(bytes).None?
    ensures |bytes| >= HEADER
  {
    hide Value, Checksum;
  }

  lemma EntriesStep(count: nat, known: seq<ManifestSegment>, data: string)
    requires count > 0
    ensures ReadEntries(count, known, data) ==
      match ReadEntry(data)
      case None => Err(InvalidManifest)
      case Some((s, rest)) =>
        if Addable(known, s) then ReadEntries(count - 1, known + [s], rest) else Err(InvalidManifest)
  {
    hide ReadEntry, Addable;
  }

  lemma NoEntries(known: seq<ManifestSegment>, data: string)
    ensures ReadEntries(0, known, data) == if data == "" then Ok(known) else Err(Corruption)
  {
  }

  lemma EntryAdvances(data: string)
    requires ReadEntry(data).Some?
    ensures var (s, rest) := ReadEntry(data).value;
      16 + |s.filename| <= |data| && rest == data[16 + |s.filename|..]
  {
    hide Value;
  }

  // ---- decoding inverts encoding ----

  lemma ReadEntryOf(s: ManifestSegment, rest: string)
    requires SegmentFits(s)
    ensures ReadEntry(Entry(s) + rest) == Some((s, rest))
  {
    hide Value, Little, U64;
    Push(U64(s.id), Text(s.filename), rest);
    ReadU64(s.id, Text(s.filename) + rest);
    Push(U64(|s.filename|), s.filename, rest);
    ReadU64(|s.filename|, s.filename + rest);
    assert (s.filename + rest)[..|s.filename|] == s.filename;
    assert (s.filename + rest)[|s.filename|..] == rest;
  }

  lemma ListablePrefix(known: seq<ManifestSegment>, more: seq<ManifestSegment>)
    requires Listable(known + more) && more != []
    ensures Addable(known, more[0])
  {
    assert (known + more)[..|known|] == known;
    assert (known + more)[|known|] == more[0];
  }

  lemma {:induction false} ReadEntriesOf(known: seq<ManifestSegment>, more: seq<ManifestSegment>)
    requires Listable(known + more) && forall i :: 0 <= i < |more| ==> SegmentFits(more[i])
    ensures ReadEntries(|more|, known, Payload(more)) == Ok(known + more)
    decreases |more|
  {
    hide Entry, Addable, ReadEntry, Listable;
    if more == [] {
      assert known + more == known;
    } else {
      ListablePrefix(known, more);
      ReadEntryOf(more[0], Payload(more[1..]));
      assert (known + [more[0]]) + more[1..] == known + more;
      ReadEntriesOf(known + [more[0]], more[1..]);
    }
  }

  /** The bytes of a header, field by field. */
  lemma HeaderParts(major: nat, minor: nat, generation: nat, count: nat, checksum: nat, rest: string)
    ensures var b := Header(major, minor, generation, count, checksum, rest);
      && |b| == HEADER + |rest| && b[..8] == MANIFEST_MAGIC && b[8..10] == Little(major, 2)
      && b[10..12] == Little(minor, 2)
      && b[12..20] == U64(generation) && b[20..28] == U64(count) && b[28..32] == U32(checksum) && b[HEADER..] == rest
  {
    hide Little, U64, U32;
    var b := Header(major, minor, generation, count, checksum, rest);
    var b1 := U32(checksum) + rest;
    var b2 := U64(count) + b1;
    var b3 := U64(generation) + b2;
    var b4 := Little(minor, 2) + b3;
    var b5 := Little(major, 2) + b4;
    assert b[8..] == b5 && b5[2..] == b4 && b4[2..] == b3 && b3[8..] == b2 && b2[8..] == b1;
    assert b[10..] == b4 && b[12..] == b3 && b[20..] == b2 && b[28..] == b1 && b1[4..] == rest;
    assert b[8..10] == b5[..2] && b[10..12] == b4[..2] && b[12..20] == b3[..8] && b[20..28] == b2[..8]
      && b[28..32] == b1[..4];
  }

  lemma SmallNumbers()
    ensures Value(Little(MAJOR, 2)) == MAJOR && Value(Little(MINOR, 2)) == MINOR
  {
    assert Power(2) == 65536 by { assert Power(1) == 256; }
    LittleRoundTrip(MAJOR, 2);
    LittleRoundTrip(MINOR, 2);
  }

  lemma WideNumbers(v: nat, c: nat)
    requires v < U64_LIMIT && c < U32_LIMIT
    ensures Value(U64(v)) == v && Value(U32(c)) == c
  {
    hide Value, Little, Power;
    Widths();
    LittleRoundTrip(v, 8);
    LittleRoundTrip(c, 4);
  }

  lemma HeaderOf(m: IndexManifest)
    requires Fits(m)
    ensures var b := Encode(m);
      && HeaderTrouble(b) == (
          if m.generation == 0 || m.segments == [] then Some(InvalidManifest)
          else if |m.segments| > MAXIMUM_SEGMENTS then Some(ResourceLimit)
          else None)
      && |b| == HEADER + |Payload(m.segments)| && b[HEADER..] == Payload(m.segments)
      && Value(b[12..20]) == m.generation && Value(b[20..28]) == |m.segments|
  {
    hide Value, Little, U64, U32, Payload, Header, Checksum;
    var payload := Payload(m.segments);
    HeaderParts(MAJOR, MINOR, m.generation, |m.segments|, Checksum(payload), payload);
    SmallNumbers();
    WideNumbers(m.generation, Checksum(payload));
    WideNumbers(|m.segments|, 0);
  }

  lemma {:induction false} ReadEntriesAre(count: nat, known: seq<ManifestSegment>, data: string)
    requires ReadEntries(count, known, data).Ok? && Listable(known)
    ensures var all := ReadEntries(count, known, data).value;
      Listable(all) && |all| == |known| + count && all[..|known|] == known
    decreases count
  {
    hide Addable, ReadEntry;
    if count > 0 {
      var (s, rest) := ReadEntry(data).value;
      AddedIsListable(known, s);
      ReadEntriesAre(count - 1, known + [s], rest);
      var all := ReadEntries(count, known, data).value;
      assert all[..|known|] == all[..|known| + 1][..|known|];
    }
  }

  lemma AddedIsListable(known: seq<ManifestSegment>, s: ManifestSegment)
    requires Listable(known) && Addable(known, s)
    ensures Listable(known + [s])
  {
    hide Addable;
    forall i | 0 <= i < |known| + 1 ensures Addable((known + [s])[..i], (known + [s])[i]) {
      if i < |known| {
        assert (known + [s])[..i] == known[..i];
      } else {
        assert (known + [s])[..i] == known;
      }
    }
  }

  /** A manifest reads back as itself exactly when it lists distinct, plainly named segments, at
      most a million of them. */
  lemma DecodeInvertsEncode(m: IndexManifest)
    requires Fits(m)
    ensures Decode(Encode(m)) == Ok(m) <==> Acceptable(m) && |m.segments| <= MAXIMUM_SEGMENTS
  {
    hide Encode, HeaderTrouble, Value, Listable, ReadEntries;
    HeaderOf(m);
    if Acceptable(m) && |m.segments| <= MAXIMUM_SEGMENTS {
      assert [] + m.segments == m.segments;
      ReadEntriesOf([], m.segments);
    } else if Decode(Encode(m)) == Ok(m) {
      assert Listable([]) by { NothingListed(); }
      ReadEntriesAre(|m.segments|, [], Payload(m.segments));
    }
  }

  lemma NothingListed()
    ensures Listable([])
  {
  }

  // ---- decoding accepts nothing else ----

  lemma {:induction false} ValueRoundTrip(s: string)
    requires IsBytes(s)
    ensures Little(Value(s), |s|) == s
  {
    if s != "" {
      ValueRoundTrip(s[1..]);
      assert (Value(s) % 256) as char == s[0];
    }
  }

  lemma SliceIsNumber(bytes: string, from: nat, to: nat)
    requires IsBytes(bytes) && from <= to <= |bytes|
    ensures Little(Value(bytes[from..to]), to - from) == bytes[from..to]
  {
    ValueRoundTrip(bytes[from..to]);
  }

  lemma ReadEntryIs(data: string)
    requires IsBytes(data) && ReadEntry(data).Some?
    ensures var (s, rest) := ReadEntry(data).value;
      data == Entry(s) + rest && IsBytes(rest)
  {
    hide Value, Little;
    EntryAdvances(data);
    var (s, rest) := ReadEntry(data).value;
    SliceIsNumber(data, 0, 8);
    SliceIsNumber(data, 8, 16);
    assert data[8..][..8] == data[8..16];
    assert s.filename == data[16..16 + |s.filename|];
    assert data == data[0..8] + (data[8..16] + data[16..16 + |s.filename|]) + rest;
  }

  lemma {:induction false} ReadEntriesFrom(count: nat, known: seq<ManifestSegment>, data: string)
    requires IsBytes(data) && ReadEntries(count, known, data).Ok?
    ensures var all := ReadEntries(count, known, data).value;
      |known| <= |all| && all[..|known|] == known && data == Payload(all[|known|..])
    decreases count
  {
    hide Addable, ReadEntry, Entry;
    if count > 0 {
      var (s, rest) := ReadEntry(data).value;
      ReadEntryIs(data);
      ReadEntriesFrom(count - 1, known + [s], rest);
      var all := ReadEntries(count, known, data).value;
      var n := |known|;
      assert all[..n] == all[..n + 1][..n];
      assert all[n] == all[..n + 1][n] == s;
      assert all[n..][1..] == all[n + 1..];
    }
  }

  /** Only encodings decode: two files with the same meaning are the same file. */
  lemma DecodedIsEncoded(bytes: string)
    requires IsBytes(bytes) && Decode(bytes).Ok?
    ensures bytes == Encode(Decode(bytes).value)
  {
    hide Value, Little, Listable, ReadEntries, Checksum;
    var count := Value(bytes[20..28]);
    ReadEntriesFrom(count, [], bytes[HEADER..]);
    NothingListed();
    ReadEntriesAre(count, [], bytes[HEADER..]);
    var all := ReadEntries(count, [], bytes[HEADER..]).value;
    assert all[0..] == all;
    SliceIsNumber(bytes, 8, 10);
    SliceIsNumber(bytes, 10, 12);
    SliceIsNumber(bytes, 12, 20);
    SliceIsNumber(bytes, 20, 28);
    SliceIsNumber(bytes, 28, 32);
    HeaderSplit(bytes);
  }

  lemma HeaderSplit(bytes: string)
    requires |bytes| >= HEADER
    ensures bytes == bytes[..8]
      + (bytes[8..10] + (bytes[10..12] + (bytes[12..20] + (bytes[20..28] + (bytes[28..32] + bytes[HEADER..])))))
  {
    assert bytes[28..] == bytes[28..32] + bytes[HEADER..];
    assert bytes[20..] == bytes[20..28] + bytes[28..];
    assert bytes[12..] == bytes[12..20] + bytes[20..];
    assert bytes[10..] == bytes[10..12] + bytes[12..];
    assert bytes[8..] == bytes[8..10] + bytes[10..];
  }

  // ---- CURRENT ----

  function EncodeCurrent(name: string): string {
    CURRENT_MAGIC + (U32(Checksum(Text(name))) + Text(name))
  }

  function DecodeCurrent(bytes: string): Result<string, ManifestError> {
    if |bytes| < 20 || bytes[..8] != CURRENT_MAGIC then Err(Corruption)
    else if Checksum(bytes[12..]) != Value(bytes[8..12]) then Err(Corruption)
    else
      match ReadText(bytes[12..])
      case None => Err(Corruption)
      case Some((name, rest)) => if rest != "" || name == "" || '/' in name then Err(Corruption) else Ok(name)
  }

  /** CURRENT gives back the name it was written with, if that is a file name at all. */
  lemma CurrentRoundTrip(name: string)
    requires |name| < U64_LIMIT
    ensures DecodeCurrent(EncodeCurrent(name)) == if name == "" || '/' in name then Err(Corruption) else Ok(name)
  {
    hide Value, Little, U64, U32, Checksum;
    var b := EncodeCurrent(name);
    var tail := Text(name);
    assert b[8..] == U32(Checksum(tail)) + tail;
    assert b[8..12] == b[8..][..4] && b[12..] == b[8..][4..];
    assert b[8..12] == U32(Checksum(tail)) && b[12..] == tail;
    WideNumbers(0, Checksum(tail));
    ReadU64(|name|, name);
    assert name[..|name|] == name && name[|name|..] == "";
  }

  function ManifestName(generation: nat): (r: string)
    ensures |r| >= 9
  {
    "MANIFEST-" + Decimal(generation)
  }

  lemma NamesDiffer(a: nat, b: nat)
    ensures ManifestName(a) == ManifestName(b) ==> a == b
    ensures ManifestName(a) != "CURRENT"
  {
    hide Decimal;
    if ManifestName(a) == ManifestName(b) {
      assert ManifestName(a)[9..] == Decimal(a) && ManifestName(b)[9..] == Decimal(b);
      DecimalInjective(a, b);
    }
  }

  function Ten(k: nat): nat {
    if k == 0 then 1 else 10 * Ten(k - 1)
  }

  lemma {:induction false} DecimalIsShort(n: nat, k: nat)
    requires k > 0 && n < Ten(k)
    ensures |Decimal(n)| <= k && AllDigits(Decimal(n))
  {
    if n >= 10 { DecimalIsShort(n / 10, k - 1); }
  }

  /** The name of every generation can be written to CURRENT and read back. */
  lemma NameReadsBack(generation: nat)
    requires generation < U64_LIMIT
    ensures var b := EncodeCurrent(ManifestName(generation));
      |b| <= MAXIMUM_BYTES && DecodeCurrent(b) == Ok(ManifestName(generation))
  {
    hide Decimal, DecodeCurrent, Checksum, Little;
    assert Ten(20) > U64_LIMIT by { TenTwenty(); }
    DecimalIsShort(generation, 20);
    var name := ManifestName(generation);
    assert '/' !in name;
    CurrentRoundTrip(name);
  }

  lemma TenTwenty()
    ensures Ten(20) > U64_LIMIT
  {
    assert Ten(5) == 100000 by { assert Ten(3) == 1000; }
    assert Ten(10) == 100000 * Ten(5) by { assert Ten(8) == 1000 * Ten(5); }
    assert Ten(15) == 100000 * Ten(10) by { assert Ten(13) == 1000 * Ten(10); }
    assert Ten(20) == 100000 * Ten(15) by { assert Ten(18) == 1000 * Ten(15); }
  }

  // ---- the store ----

  /** How replacing one file ends: the rename happened or not, and was made durable or not. */
  datatype Replacement = Replaced | NotReplaced | ReplacedUnsynced

  function Size(m: IndexManifest): nat { HEADER + |Payload(m.segments)| }

  /** What opening a store finds: the published manifest, unless its file is over the limit. */
  function Loads(current: Option<IndexManifest>): Result<IndexManifest, ManifestError> {
    match current
    case None => Err(IoError)
    case Some(m) => if Size(m) > MAXIMUM_BYTES then Err(ResourceLimit) else Ok(m)
  }

  lemma {:induction false} EntriesAreLong(segments: seq<ManifestSegment>)
    ensures |Payload(segments)| >= 16 * |segments|
    ensures Listable(segments) ==> |Payload(segments)| >= 17 * |segments|
    decreases |segments|
  {
    hide Entry;
    if segments != [] {
      EntriesAreLong(segments[1..]);
      if Listable(segments) {
        assert Listable(segments[1..]) by { TailIsListable(segments); }
        assert Addable(segments[..0], segments[0]);
      }
    }
  }

  lemma TailIsListable(segments: seq<ManifestSegment>)
    requires Listable(segments) && segments != []
    ensures Listable(segments[1..])
  {
    var tail := segments[1..];
    forall i | 0 <= i < |tail| ensures Addable(tail[..i], tail[i]) {
      assert Addable(segments[..i + 1], segments[i + 1]);
      assert tail[..i] == segments[..i + 1][1..];
    }
  }

  /** The byte limit implies the segment limit, so it alone decides what reads back. */
  lemma SizeDecides(m: IndexManifest)
    requires Fits(m) && Acceptable(m)
    ensures |Encode(m)| == Size(m)
    ensures Size(m) <= MAXIMUM_BYTES ==> Decode(Encode(m)) == Ok(m)
  {
    hide Payload, Decode, Encode, HeaderTrouble, Listable;
    HeaderOf(m);
    EntriesAreLong(m.segments);
    DecodeInvertsEncode(m);
  }

  /** The segments of a writer that never merges: "segment-1.dseg", "segment-2.dseg" and so on. */
  function Numbered(n: nat): (r: seq<ManifestSegment>)
    ensures |r| == n
  {
    seq(n, (i: nat) => ManifestSegment(i + 1, "segment-" + Decimal(i + 1) + ".dseg"))
  }

  lemma NumberedAt(n: nat, i: nat)
    requires i < n < U64_LIMIT
    ensures var s := Numbered(n)[i];
      s.id == i + 1 && SegmentFits(s) && PlainName(s.filename) && |s.filename| >= 14
        && s.filename[8..|s.filename| - 5] == Decimal(i + 1)
  {
    hide Decimal, PlainName, AllDigits, Ten;
    TenTwenty();
    DecimalIsShort(i + 1, 20);
    SegmentName(Decimal(i + 1));
  }

  lemma SegmentName(digits: string)
    requires AllDigits(digits) && digits != ""
    ensures var name := "segment-" + digits + ".dseg";
      PlainName(name) && |name| == 13 + |digits| && name[8..|name| - 5] == digits
  {
    var name := "segment-" + digits + ".dseg";
    forall c | c in name ensures c != '/' && c != '\\' {
      var k :| 0 <= k < |name| && name[k] == c;
      if 8 <= k < 8 + |digits| { assert c == digits[k - 8]; }
    }
  }

  lemma NumberedIsListable(n: nat)
    requires n < U64_LIMIT
    ensures Listable(Numbered(n)) && forall i :: 0 <= i < n ==>
      SegmentFits(Numbered(n)[i]) && |Numbered(n)[i].filename| >= 14
  {
    hide Numbered, PlainName, SegmentFits, Decimal;
    var all := Numbered(n);
    forall i | 0 <= i < n ensures SegmentFits(all[i]) && |all[i].filename| >= 14 { NumberedAt(n, i); }
    forall i | 0 <= i < n ensures Addable(all[..i], all[i]) {
      NumberedAt(n, i);
      forall k | 0 <= k < i ensures all[..i][k].id != all[i].id && all[..i][k].filename != all[i].filename {
        NumberedAt(n, k);
        if all[k].filename == all[i].filename { DecimalInjective(i + 1, k + 1); }
      }
    }
  }

  lemma {:induction false} LongNames(segments: seq<ManifestSegment>)
    requires forall i :: 0 <= i < |segments| ==> |segments[i].filename| >= 14
    ensures |Payload(segments)| >= 30 * |segments|
    decreases |segments|
  {
    hide Entry;
    if segments != [] { LongNames(segments[1..]); }
  }

  /** `publish` itself sets no limit: from 559240 segments on, a manifest it accepts cannot be loaded. */
  lemma AcceptedButUnreadable(n: nat, generation: nat)
    requires 559_240 <= n < U64_LIMIT && 0 < generation < U64_LIMIT
    ensures var m := IndexManifest(generation, Numbered(n));
      Fits(m) && Acceptable(m) && Loads(Some(m)) == Err(ResourceLimit)
  {
    hide Numbered, Payload, SegmentFits, Listable;
    NumberedIsListable(n);
    LongNames(Numbered(n));
  }

  class ManifestStore {
    /** The metadata files by name, and the segment files that open, with the ID each carries. */
    var files: map<string, string>
    const segments: map<string, nat>

    /** The manifest CURRENT leads to. */
    ghost var current: Option<IndexManifest>

    ghost predicate Valid()
      reads this
    {
      && (current.Some? <==> "CURRENT" in files)
      && (current.Some? ==>
            && Fits(current.value) && Acceptable(current.value)
            && var name := ManifestName(current.value.generation);
               files["CURRENT"] == EncodeCurrent(name) && name in files && files[name] == Encode(current.value))
    }

    constructor (segments: map<string, nat>)
      ensures Valid() && current == None && this.segments == segments
    {
      files := map[];
      this.segments := segments;
      current := None;
    }

    method ReadFile(name: string) returns (r: Result<string, ManifestError>)
      ensures r ==
        if name !in files then Err(IoError)
        else if |files[name]| > MAXIMUM_BYTES then Err(ResourceLimit) else Ok(files[name])
    {
      if name !in files { return Err(IoError); }
      if |files[name]| > MAXIMUM_BYTES { return Err(ResourceLimit); }
      r := Ok(files[name]);
    }

    /** `load_current`. */
    method LoadCurrent() returns (r: Result<IndexManifest, ManifestError>)
      requires Valid()
      ensures r == Loads(current)
    {
      hide Encode, Decode, EncodeCurrent, DecodeCurrent, Fits, Acceptable, Size;
      if current.Some? {
        NameReadsBack(CurrentFits());
        SizeDecides(current.value);
      }
      var currentBytes := ReadFile("CURRENT");
      if currentBytes.Err? { return Err(currentBytes.error); }
      var name := DecodeCurrent(currentBytes.value);
      match name {
        case Err(e) => return Err(e);
        case Ok(name) =>
          var manifestBytes := ReadFile(name);
          if manifestBytes.Err? { return Err(manifestBytes.error); }
          r := DecodeManifest(manifestBytes.value);
      }
    }

    ghost function CurrentFits(): (generation: nat)
      requires Valid() && current.Some?
      reads this
      ensures generation < U64_LIMIT
    {
      current.value.generation
    }

    predicate Openable(s: ManifestSegment) {
      s.filename in segments && segments[s.filename] == s.id
    }

    /** Why `publish` refuses a manifest, from what is published now. */
    ghost function Refusal(m: IndexManifest): Option<ManifestError>
      reads this
    {
      if m.generation == 0 || m.segments == [] then Some(InvalidManifest)
      else if current.Some? && Loads(current).Err? then Some(Loads(current).error)
      else if current.Some? && m.generation <= current.value.generation then Some(InvalidManifest)
      else if !Listable(m.segments) || exists i :: 0 <= i < |m.segments| && !Openable(m.segments[i])
        then Some(InvalidManifest)
      else None
    }

    method CheckSegments(list: seq<ManifestSegment>) returns (ok: bool)
      ensures ok <==> Listable(list) && forall i :: 0 <= i < |list| ==> Openable(list[i])
    {
      for i := 0 to |list|
        invariant forall j :: 0 <= j < i ==> Addable(list[..j], list[j]) && Openable(list[j])
      {
        if !Addable(list[..i], list[i]) || !Openable(list[i]) { return false; }
      }
      ok := true;
    }

    /** `publish`: the manifest file first, then CURRENT. Until CURRENT is replaced the old manifest
        stays published whatever fails; afterwards the new one is, even if the call reports an error. */
    method Publish(m: IndexManifest, first: Replacement, stop: bool, second: Replacement)
      returns (r: Result<(), ManifestError>)
      requires Valid() && Fits(m)
      modifies this
      ensures Valid()
      ensures match old(Refusal(m))
        case Some(e) => r == Err(e) && current == old(current)
        case None =>
          if !first.Replaced? then r == Err(IoError) && current == old(current)
          else if stop then r == Err(InjectedFailure) && current == old(current)
          else if second.NotReplaced? then r == Err(IoError) && current == old(current)
          else r == (if second.Replaced? then Ok(()) else Err(IoError)) && current == Some(m)
      ensures current != old(current) ==>
        && current == Some(m) && m.generation > 0 && m.segments != []
        && (old(current).Some? ==> m.generation > old(current).value.generation)
    {
      hide Encode, EncodeCurrent, Listable, Fits, Size;
      if m.generation == 0 || m.segments == [] { return Err(InvalidManifest); }
      if "CURRENT" in files {
        var now := LoadCurrent();
        if now.Err? { return Err(now.error); }
        if m.generation <= now.value.generation { return Err(InvalidManifest); }
      }
      var listed := CheckSegments(m.segments);
      if !listed { return Err(InvalidManifest); }
      var name := ManifestName(m.generation);
      var encoded := EncodeManifest(m);
      NamesDiffer(m.generation, if current.Some? then current.value.generation else 0);
      if current.Some? { NamesDiffer(current.value.generation, m.generation); }
      if first.NotReplaced? { return Err(IoError); }
      files := files[name := encoded];
      if first.ReplacedUnsynced? { return Err(IoError); }
      if stop { return Err(InjectedFailure); }
      if second.NotReplaced? { return Err(IoError); }
      files := files["CURRENT" := EncodeCurrent(name)];
      current := Some(m);
      if second.ReplacedUnsynced? { return Err(IoError); }
      r := Ok(());
    }

    /** `open_current`: the published manifest and every segment it lists. */
    method OpenCurrent() returns (r: Result<IndexManifest, ManifestError>)
      requires Valid()
      ensures r == match Loads(current)
        case Err(e) => Err(e)
        case Ok(m) => if forall i :: 0 <= i < |m.segments| ==> Openable(m.segments[i]) then Ok(m) else Err(Corruption)
    {
      hide Size, Fits, Acceptable, Encode, EncodeCurrent;
      var loaded := LoadCurrent();
      match loaded {
        case Err(e) => return Err(e);
        case Ok(m) =>
          for i := 0 to |m.segments|
            invariant forall j :: 0 <= j < i ==> Openable(m.segments[j])
          {
            if !Openable(m.segments[i]) { return Err(Corruption); }
          }
          r := Ok(m);
      }
    }
  }
}

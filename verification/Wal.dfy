/** Little-endian integers in byte strings. A byte is a character below 256. */
module Bytes {
  import opened Basics

  predicate IsBytes(s: string) { forall i :: 0 <= i < |s| ==> s[i] as int < 256 }

  function Power(n: nat): (p: nat)
    ensures p > 0
  {
    if n == 0 then 1 else 256 * Power(n - 1)
  }

  function Little(v: nat, width: nat): (s: string)
    ensures |s| == width && IsBytes(s)
  {
    if width == 0 then "" else [(v % 256) as char] + Little(v / 256, width - 1)
  }

  function Value(s: string): nat {
    if s == "" then 0 else s[0] as int + 256 * Value(s[1..])
  }

  lemma {:induction false} LittleRoundTrip(v: nat, width: nat)
    requires v < Power(width)
    ensures Value(Little(v, width)) == v
  {
    if width > 0 {
      LittleRoundTrip(v / 256, width - 1);
      assert Little(v, width)[1..] == Little(v / 256, width - 1);
    }
  }

  lemma QuotientIs(v: int, p: int, q: int, rest: int)
    requires v == p * q + rest && 0 <= rest < p
    ensures v / p == q
  {
    var k := v / p - q;
    assert k * p == rest - v % p;
    assert k >= 1 ==> k * p >= p;
    assert k <= -1 ==> k * p <= -p;
  }

  lemma QuotientOfQuotient(v: nat, base: nat, p: nat)
    requires base > 0 && p > 0
    ensures base * p > 0 && (v / base) / p == v / (base * p)
  {
    var q, r, s := (v / base) / p, (v / base) % p, v % base;
    assert v == base * (p * q + r) + s;
    assert v == (base * p) * q + (base * r + s);
    assert base * r <= base * (p - 1);
    QuotientIs(v, base * p, q, base * r + s);
  }

  /** The lowest byte comes first: each is one digit in base 256. */
  lemma {:induction false} LittleAt(v: nat, width: nat, i: nat)
    requires i < width
    ensures Little(v, width)[i] as int == v / Power(i) % 256
  {
    if i > 0 {
      LittleAt(v / 256, width - 1, i - 1);
      QuotientOfQuotient(v, 256, Power(i - 1));
    }
  }

  lemma {:induction false} SmallLittle(v: nat, width: nat)
    requires v < 256 && width > 0
    ensures Little(v, width) == [v as char] + seq(width - 1, _ => 0 as char)
    decreases width
  {
    if width > 1 { SmallLittle(0, width - 1); }
  }

  lemma LittleIs(v: nat, width: nat)
    requires width > 0
    ensures Little(v, width) == [(v % 256) as char] + Little(v / 256, width - 1)
  {
  }

  lemma Widths()
    ensures Power(4) == U32_LIMIT && Power(8) == U64_LIMIT
  {
    assert Power(2) == 65536;
    assert Power(3) == 16777216;
    assert Power(5) == 256 * Power(4);
    assert Power(6) == 256 * Power(5);
    assert Power(7) == 256 * Power(6);
    assert Power(8) == 256 * Power(7);
  }

  function U32(v: nat): (s: string)
    ensures |s| == 4
  {
    Little(v, 4)
  }

  function U64(v: nat): (s: string)
    ensures |s| == 8
  {
    Little(v, 8)
  }

  /** The value of the first bytes and what follows them. */
  function Read(data: string, width: nat): Option<(nat, string)> {
    if |data| < width then None else Some((Value(data[..width]), data[width..]))
  }

  lemma ReadLittle(v: nat, width: nat, rest: string)
    requires v < Power(width)
    ensures Read(Little(v, width) + rest, width) == Some((v, rest))
  {
    LittleRoundTrip(v, width);
    assert (Little(v, width) + rest)[..width] == Little(v, width);
    assert (Little(v, width) + rest)[width..] == rest;
  }

  lemma ReadU32(v: nat, rest: string)
    requires v < U32_LIMIT
    ensures Read(U32(v) + rest, 4) == Some((v, rest))
  {
    hide Little, Value, Power;
    Widths();
    ReadLittle(v, 4, rest);
  }

  lemma ReadU64(v: nat, rest: string)
    requires v < U64_LIMIT
    ensures Read(U64(v) + rest, 8) == Some((v, rest))
  {
    hide Little, Value, Power;
    Widths();
    ReadLittle(v, 8, rest);
  }

  /** Concatenations lean to the right. */
  lemma Push(a: string, b: string, rest: string)
    ensures (a + b) + rest == a + (b + rest)
  {
  }
}

/** The write-ahead log (src/storage/write_ahead_log.cpp). */
module WriteAhead {
  import opened Basics
  import opened Schemas
  import opened Bytes

  datatype WalError = IoError | Corruption | ResourceLimit
  datatype WalLimits = WalLimits(fileBytes: nat, recordBytes: nat, records: nat, stringBytes: nat)

  const MAGIC: string := "DWAL"
  const MAXIMUM_ENTRIES: nat := 1_000_000

  // ---- CRC32C, section 12.1 of RFC 3720 ----

  function CrcStep(crc: bv32): bv32 {
    (crc >> 1) ^ (if crc & 1 == 1 then 0x82f63b78 else 0)
  }

  function CrcMix(crc: bv32, c: char): bv32 {
    crc ^ ((c as int % 256) as bv32)
  }

  function CrcBits(crc: bv32, bits: nat): bv32
    decreases bits
  {
    if bits == 0 then crc else CrcBits(CrcStep(crc), bits - 1)
  }

  function CrcBytes(crc: bv32, data: string): bv32
    decreases |data|
  {
    if data == "" then crc else CrcBytes(CrcBits(CrcMix(crc, data[0]), 8), data[1..])
  }

  function Crc32c(data: string): (r: nat)
    ensures r < U32_LIMIT
  {
    (!CrcBytes(0xffff_ffff, data)) as nat
  }

  lemma EightBits(c0: bv32, character: char, m: bv32, c1: bv32, c2: bv32, c3: bv32, c4: bv32, c5: bv32, c6: bv32,
                  c7: bv32, c8: bv32)
    requires m == CrcMix(c0, character) && c1 == CrcStep(m) && c2 == CrcStep(c1) && c3 == CrcStep(c2)
    requires c4 == CrcStep(c3) && c5 == CrcStep(c4) && c6 == CrcStep(c5) && c7 == CrcStep(c6) && c8 == CrcStep(c7)
    ensures CrcBits(CrcMix(c0, character), 8) == c8
  {
    hide CrcStep, CrcMix;
    assert CrcBits(c8, 0) == c8;
    assert CrcBits(c7, 1) == c8;
    assert CrcBits(c6, 2) == c8;
    assert CrcBits(c5, 3) == c8;
    assert CrcBits(c4, 4) == c8;
    assert CrcBits(c3, 5) == c8;
    assert CrcBits(c2, 6) == c8;
    assert CrcBits(c1, 7) == c8;
  }

  /** A known value of CRC32C: polynomial, bit order, start value and final complement are the standard's. */
  lemma KnownCrc()
    ensures Crc32c("a") == 0xc1d04330
  {
    EightBits(0xffffffff, 'a', 0xffffff9e, 0x7fffffcf, 0xbd09c49f, 0xdc72d937,
              0xeccf57e3, 0xf4919089, 0xf8bef33c, 0x7c5f799e, 0x3e2fbccf);
    hide CrcBits, CrcMix;
    assert "a"[1..] == "";
    assert CrcBytes(0x3e2fbccf, "") == 0x3e2fbccf;
    assert CrcBytes(0xffff_ffff, "a") == 0x3e2fbccf;
    assert !(0x3e2fbccf as bv32) == 0xc1d04330;
  }

  // ---- encoding a document ----

  function Text(s: string): string {
    U32(|s|) + s
  }

  function Entries(m: map<string, string>, keys: seq<string>): string
    requires forall k :: k in keys ==> k in m
  {
    if keys == [] then "" else Text(keys[0]) + (Text(m[keys[0]]) + Entries(m, keys[1..]))
  }

  function MapBytes(m: map<string, string>): string {
    U32(|m|) + Entries(m, SortedKeys(m.Keys))
  }

  function Flag(deleted: bool): string {
    [if deleted then 1 as char else 0 as char]
  }

  function Payload(d: Document): string {
    Text(d.id) + (U64(d.version) + (Flag(d.deleted) + (MapBytes(d.fields) + MapBytes(d.metadata))))
  }

  /** The record of a deletion, byte by byte. */
  lemma KnownRecord()
    ensures var zero := 0 as char;
      Payload(Document("a", map[], map[], 0x0102, true))
      == [1 as char, zero, zero, zero, 'a', 2 as char, 1 as char, zero, zero, zero, zero, zero, zero, 1 as char]
         + [zero, zero, zero, zero, zero, zero, zero, zero]
  {
    hide Little;
    var d := Document("a", map[], map[], 0x0102, true);
    SmallLittle(1, 4);
    SmallLittle(0, 4);
    SmallLittle(1, 7);
    LittleIs(0x0102, 8);
    assert U32(0) == [0 as char, 0 as char, 0 as char, 0 as char];
    assert Text(d.id) == [1 as char, 0 as char, 0 as char, 0 as char, 'a'];
    assert MapBytes(map[]) == U32(0);
  }

  predicate TextFits(s: string, bound: nat) { |s| <= bound }

  predicate MapFits(m: map<string, string>, bound: nat) {
    forall k :: k in m ==> TextFits(k, bound) && TextFits(m[k], bound)
  }

  /** Sizes fit their fields and the version fits in 64 bits. */
  predicate Encodable(d: Document) {
    && |d.id| < U32_LIMIT && d.version < U64_LIMIT
    && |d.fields| < U32_LIMIT && MapFits(d.fields, U32_LIMIT - 1)
    && |d.metadata| < U32_LIMIT && MapFits(d.metadata, U32_LIMIT - 1)
  }

  // ---- decoding a document ----

  function ReadText(limits: WalLimits, data: string): Option<(string, string)> {
    match Read(data, 4)
    case None => None
    case Some((n, rest)) => if n > limits.stringBytes || n > |rest| then None else Some((rest[..n], rest[n..]))
  }

  function ReadEntries(limits: WalLimits, count: nat, target: map<string, string>, data: string)
    : Option<(map<string, string>, string)>
    decreases count
  {
    if count == 0 then Some((target, data))
    else
      match ReadText(limits, data)
      case None => None
      case Some((key, more)) =>
        match ReadText(limits, more)
        case None => None
        case Some((value, rest)) =>
          if key == "" || key in target then None else ReadEntries(limits, count - 1, target[key := value], rest)
  }

  function ReadMap(limits: WalLimits, data: string): Option<(map<string, string>, string)> {
    match Read(data, 4)
    case None => None
    case Some((count, rest)) => if count > MAXIMUM_ENTRIES then None else ReadEntries(limits, count, map[], rest)
  }

  function Decode(limits: WalLimits, payload: string): Result<Document, WalError> {
    match ReadText(limits, payload)
    case None => Err(Corruption)
    case Some((id, more)) =>
      match Read(more, 8)
      case None => Err(Corruption)
      case Some((version, rest)) =>
        match Read(rest, 1)
        case None => Err(Corruption)
        case Some((deleted, body)) =>
          if id == "" || deleted > 1 then Err(Corruption)
          else
            match ReadMap(limits, body)
            case None => Err(Corruption)
            case Some((fields, tail)) =>
              match ReadMap(limits, tail)
              case None => Err(Corruption)
              case Some((metadata, end)) =>
                if end != "" then Err(Corruption) else Ok(Document(id, fields, metadata, version, deleted == 1))
  }

  // ---- round trip ----

  predicate MapReadable(limits: WalLimits, m: map<string, string>) {
    |m| <= MAXIMUM_ENTRIES && MapFits(m, limits.stringBytes) && "" !in m
  }

  /** The limits a document has to respect to be read back. */
  predicate WithinLimits(limits: WalLimits, d: Document) {
    d.id != "" && |d.id| <= limits.stringBytes && MapReadable(limits, d.fields) && MapReadable(limits, d.metadata)
  }

  lemma ReadTextOf(limits: WalLimits, s: string, rest: string)
    requires |s| < U32_LIMIT
    ensures ReadText(limits, Text(s) + rest) == if |s| <= limits.stringBytes then Some((s, rest)) else None
  {
    hide U32, Read;
    Push(U32(|s|), s, rest);
    ReadU32(|s|, s + rest);
    assert (s + rest)[..|s|] == s && (s + rest)[|s|..] == rest;
  }

  predicate EntriesFit(limits: WalLimits, m: map<string, string>, keys: seq<string>)
    requires forall k :: k in keys ==> k in m
  {
    forall i :: 0 <= i < |keys| ==>
      keys[i] != "" && |keys[i]| <= limits.stringBytes && |m[keys[i]]| <= limits.stringBytes
  }

  function Restricted(m: map<string, string>, keys: seq<string>): map<string, string> {
    map k | k in m && k in keys :: m[k]
  }

  lemma {:induction false} ReadEntriesOf(limits: WalLimits, m: map<string, string>, keys: seq<string>,
                                         target: map<string, string>, rest: string)
    requires forall k :: k in keys ==> k in m && k !in target
    requires forall i, j :: 0 <= i < j < |keys| ==> keys[i] != keys[j]
    requires MapFits(m, U32_LIMIT - 1)
    ensures ReadEntries(limits, |keys|, target, Entries(m, keys) + rest) ==
      if EntriesFit(limits, m, keys) then Some((target + Restricted(m, keys), rest)) else None
    decreases |keys|
  {
    hide Text, ReadText, EntriesFit, ReadEntries, Restricted;
    if keys == [] {
      assert Entries(m, keys) + rest == rest;
      NoEntries(limits, m, target, rest);
    } else {
      var k, others := keys[0], keys[1..];
      var tail := Entries(m, others) + rest;
      Push(Text(k), Text(m[k]) + Entries(m, others), rest);
      Push(Text(m[k]), Entries(m, others), rest);
      ReadEntry(limits, |others|, target, k, m[k], tail);
      assert forall i :: 0 <= i < |others| ==> others[i] == keys[i + 1];
      ReadEntriesOf(limits, m, others, target[k := m[k]], rest);
      EntriesSplit(limits, m, keys);
      RestrictedMore(m, keys, target);
    }
  }

  lemma NoEntries(limits: WalLimits, m: map<string, string>, target: map<string, string>, rest: string)
    ensures ReadEntries(limits, 0, target, rest) == Some((target, rest)) && EntriesFit(limits, m, [])
    ensures target + Restricted(m, []) == target
  {
    assert Restricted(m, []) == map[];
  }

  lemma ReadEntry(limits: WalLimits, count: nat, target: map<string, string>, key: string, value: string, tail: string)
    requires |key| < U32_LIMIT && |value| < U32_LIMIT && key !in target
    ensures ReadEntries(limits, count + 1, target, Text(key) + (Text(value) + tail)) ==
      if key != "" && |key| <= limits.stringBytes && |value| <= limits.stringBytes
      then ReadEntries(limits, count, target[key := value], tail) else None
  {
    hide Text, ReadText;
    ReadTextOf(limits, key, Text(value) + tail);
    ReadTextOf(limits, value, tail);
  }

  lemma RestrictedMore(m: map<string, string>, keys: seq<string>, target: map<string, string>)
    requires keys != [] && keys[0] in m
    ensures target[keys[0] := m[keys[0]]] + Restricted(m, keys[1..]) == target + Restricted(m, keys)
  {
    assert keys == [keys[0]] + keys[1..];
    assert forall k :: k in keys <==> k == keys[0] || k in keys[1..];
  }

  lemma EntriesSplit(limits: WalLimits, m: map<string, string>, keys: seq<string>)
    requires keys != [] && forall k :: k in keys ==> k in m
    ensures EntriesFit(limits, m, keys) <==>
      keys[0] != "" && |keys[0]| <= limits.stringBytes && |m[keys[0]]| <= limits.stringBytes
        && EntriesFit(limits, m, keys[1..])
  {
    assert forall i :: 0 <= i < |keys[1..]| ==> keys[1..][i] == keys[i + 1];
    if EntriesFit(limits, m, keys[1..]) && keys[0] != "" && |keys[0]| <= limits.stringBytes
      && |m[keys[0]]| <= limits.stringBytes {
      forall i | 0 <= i < |keys|
        ensures keys[i] != "" && |keys[i]| <= limits.stringBytes && |m[keys[i]]| <= limits.stringBytes
      {
        if i > 0 { assert keys[i] == keys[1..][i - 1]; }
      }
    }
  }

  lemma ReadMapOf(limits: WalLimits, m: map<string, string>, rest: string)
    requires |m| < U32_LIMIT && MapFits(m, U32_LIMIT - 1)
    ensures ReadMap(limits, MapBytes(m) + rest) == if MapReadable(limits, m) then Some((m, rest)) else None
  {
    hide U32, Read, Entries, ReadEntries, SortedKeys;
    var keys := SortedKeys(m.Keys);
    Push(U32(|m|), Entries(m, keys), rest);
    ReadU32(|m|, Entries(m, keys) + rest);
    forall i, j | 0 <= i < j < |keys| ensures keys[i] != keys[j] { SortedKeysAscend(m.Keys, i, j); }
    ReadEntriesOf(limits, m, keys, map[], rest);
    assert map[] + Restricted(m, keys) == m;
    MapFitIs(limits, m, keys);
    assert |m| == |m.Keys|;
  }

  lemma MapFitIs(limits: WalLimits, m: map<string, string>, keys: seq<string>)
    requires forall k :: k in keys <==> k in m
    ensures EntriesFit(limits, m, keys) <==> MapFits(m, limits.stringBytes) && "" !in m
  {
    if EntriesFit(limits, m, keys) {
      forall k | k in m ensures k != "" && TextFits(k, limits.stringBytes) && TextFits(m[k], limits.stringBytes) {
        var i :| 0 <= i < |keys| && keys[i] == k;
      }
    }
    assert forall i :: 0 <= i < |keys| ==> keys[i] in keys;
  }

  lemma ReadFlag(deleted: bool, rest: string)
    ensures Read(Flag(deleted) + rest, 1) == Some((if deleted then 1 else 0, rest))
  {
    var s := Flag(deleted);
    assert (s + rest)[..1] == s && (s + rest)[1..] == rest;
    assert s[1..] == "" && Value("") == 0;
    assert Value(s) == s[0] as int;
  }

  /** A logged document reads back as itself exactly when it respects the limits. */
  lemma DecodeInvertsEncode(limits: WalLimits, d: Document)
    requires Encodable(d)
    ensures Decode(limits, Payload(d)) == if WithinLimits(limits, d) then Ok(d) else Err(Corruption)
  {
    hide Text, ReadText, U64, Flag, Read, MapBytes, ReadMap, MapReadable, MapFits;
    var maps := MapBytes(d.fields) + MapBytes(d.metadata);
    ReadTextOf(limits, d.id, U64(d.version) + (Flag(d.deleted) + maps));
    ReadU64(d.version, Flag(d.deleted) + maps);
    ReadFlag(d.deleted, maps);
    ReadMapOf(limits, d.fields, MapBytes(d.metadata));
    assert MapBytes(d.metadata) + "" == MapBytes(d.metadata);
    ReadMapOf(limits, d.metadata, "");
  }

  // ---- framing ----

  const HEADER: nat := 12

  /** One record: magic, length, checksum, payload. */
  function Frame(d: Document): (r: string)
    ensures |r| == HEADER + |Payload(d)|
  {
    MAGIC + (U32(|Payload(d)|) + (U32(Crc32c(Payload(d))) + Payload(d)))
  }

  function Records(documents: seq<Document>): string {
    if documents == [] then "" else Records(documents[..|documents| - 1]) + Frame(documents[|documents| - 1])
  }

  /** What `append` accepts. */
  predicate Loggable(d: Document) {
    Encodable(d) && |Payload(d)| < U32_LIMIT
  }

  /** What `replay` can read back. */
  predicate Replayable(limits: WalLimits, d: Document) {
    Loggable(d) && WithinLimits(limits, d) && |Payload(d)| <= limits.recordBytes
  }

  datatype Replayed = Replayed(documents: seq<Document>, validEnd: nat)

  /** The replay loop from a position on. A record that is not there completely ends it; anything
      else that is wrong is an error. */
  function ReplayFrom(limits: WalLimits, bytes: string, position: nat, documents: seq<Document>)
    : (r: Result<Replayed, WalError>)
    requires position <= |bytes|
    ensures r.Ok? ==> position <= r.value.validEnd <= |bytes|
    decreases |bytes| - position
  {
    if |bytes| - position < HEADER then Ok(Replayed(documents, position))
    else if bytes[position..position + 4] != MAGIC then Err(Corruption)
    else
      var length, checksum := Value(bytes[position + 4..position + 8]), Value(bytes[position + 8..position + 12]);
      var start := position + HEADER;
      if length > limits.recordBytes then Err(ResourceLimit)
      else if length > |bytes| - start then Ok(Replayed(documents, position))
      else if |documents| >= limits.records then Err(ResourceLimit)
      else
        var payload := bytes[start..start + length];
        if Crc32c(payload) != checksum then Err(Corruption)
        else
          match Decode(limits, payload)
          case Err(e) => Err(e)
          case Ok(d) => ReplayFrom(limits, bytes, start + length, documents + [d])
  }

  /** What `replay` finds in a file: nothing at all if the file is over its limit. */
  function ReplayFile(limits: WalLimits, bytes: string): (r: Result<Replayed, WalError>)
    ensures r.Ok? ==> r.value.validEnd <= |bytes|
  {
    if |bytes| > limits.fileBytes then Err(ResourceLimit) else ReplayFrom(limits, bytes, 0, [])
  }

  /** The read limits, as a condition on what was appended. */
  predicate ReadableLog(limits: WalLimits, documents: seq<Document>) {
    && |Records(documents)| <= limits.fileBytes && |documents| <= limits.records
    && forall i :: 0 <= i < |documents| ==> Replayable(limits, documents[i])
  }

  // ---- reading back what was written ----

  lemma HeaderOf(d: Document, bytes: string, p: nat)
    requires Loggable(d) && p + HEADER <= |bytes|
    requires forall i :: 0 <= i < HEADER ==> bytes[p + i] == Frame(d)[i]
    ensures bytes[p..p + 4] == MAGIC
    ensures Value(bytes[p + 4..p + 8]) == |Payload(d)| && Value(bytes[p + 8..p + 12]) == Crc32c(Payload(d))
  {
    hide Payload, Little, Value, Crc32c, Power, Encodable;
    var length, crc := U32(|Payload(d)|), U32(Crc32c(Payload(d)));
    Widths();
    LittleRoundTrip(|Payload(d)|, 4);
    LittleRoundTrip(Crc32c(Payload(d)), 4);
    var f := Frame(d);
    assert f[..4] == MAGIC && f[4..8] == length && f[8..12] == crc;
    assert bytes[p..p + 4] == f[..4] && bytes[p + 4..p + 8] == f[4..8] && bytes[p + 8..p + 12] == f[8..12];
  }

  /** A complete record is read and the loop goes on behind it. */
  lemma ReadRecord(limits: WalLimits, bytes: string, p: nat, documents: seq<Document>, d: Document)
    requires Replayable(limits, d) && |documents| < limits.records
    requires p + |Frame(d)| <= |bytes| && bytes[p..p + |Frame(d)|] == Frame(d)
    ensures ReplayFrom(limits, bytes, p, documents) == ReplayFrom(limits, bytes, p + |Frame(d)|, documents + [d])
  {
    hide Payload, Crc32c, Decode, Encodable, WithinLimits, Value, U32;
    var f := Frame(d);
    forall i | 0 <= i < HEADER ensures bytes[p + i] == f[i] { assert bytes[p..p + |f|][i] == f[i]; }
    HeaderOf(d, bytes, p);
    DecodeInvertsEncode(limits, d);
    assert f[HEADER..] == Payload(d);
    assert bytes[p + HEADER..p + |f|] == bytes[p..p + |f|][HEADER..];
  }

  /** A record cut off anywhere ends the replay where it began. */
  lemma CutRecord(limits: WalLimits, bytes: string, p: nat, documents: seq<Document>, d: Document)
    requires Replayable(limits, d) && p <= |bytes| < p + |Frame(d)| && bytes[p..] == Frame(d)[..|bytes| - p]
    ensures ReplayFrom(limits, bytes, p, documents) == Ok(Replayed(documents, p))
  {
    hide Payload, Crc32c, Decode, Encodable, WithinLimits, Value, U32;
    if |bytes| - p >= HEADER {
      forall i | 0 <= i < HEADER
        ensures bytes[p + i] == Frame(d)[i]
      {
        assert bytes[p..][i] == Frame(d)[..|bytes| - p][i];
      }
      HeaderOf(d, bytes, p);
    }
  }

  lemma {:induction false} RecordsSplit(documents: seq<Document>, i: nat)
    requires i < |documents|
    ensures |Records(documents[..i + 1])| <= |Records(documents)|
    ensures Records(documents)[..|Records(documents[..i + 1])|] == Records(documents[..i + 1])
    ensures Records(documents[..i + 1]) == Records(documents[..i]) + Frame(documents[i])
    decreases |documents|
  {
    hide Frame, Payload;
    var n := |documents| - 1;
    assert documents[..i + 1][..i] == documents[..i];
    if i == n {
      assert documents[..i + 1] == documents;
      assert Records(documents)[..|Records(documents)|] == Records(documents);
    } else {
      RecordsSplit(documents[..n], i);
      assert documents[..n][..i + 1] == documents[..i + 1];
    }
  }

  /** Complete records, then nothing or the beginning of one more: replay returns the complete ones. */
  lemma {:induction false} ReplayComplete(limits: WalLimits, documents: seq<Document>, k: nat, bytes: string, i: nat)
    requires i <= k <= |documents| <= limits.records
    requires forall j :: 0 <= j < |documents| ==> Replayable(limits, documents[j])
    requires |Records(documents[..k])| <= |bytes| && bytes[..|Records(documents[..k])|] == Records(documents[..k])
    requires if k == |documents| then |bytes| == |Records(documents[..k])|
             else var p := |Records(documents[..k])|;
               |bytes| < p + |Frame(documents[k])| && bytes[p..] == Frame(documents[k])[..|bytes| - p]
    ensures |Records(documents[..i])| <= |bytes|
    ensures ReplayFrom(limits, bytes, |Records(documents[..i])|, documents[..i])
      == Ok(Replayed(documents[..k], |Records(documents[..k])|))
    decreases k - i
  {
    hide Frame, Payload, ReplayFrom, Replayable, Records;
    if i == k {
      if k < |documents| {
        CutRecord(limits, bytes, |Records(documents[..k])|, documents[..k], documents[k]);
      } else {
        NothingLeft(limits, bytes, documents[..k]);
      }
    } else {
      ReplayComplete(limits, documents, k, bytes, i + 1);
      var whole := documents[..k];
      RecordsSplit(whole, i);
      assert whole[..i + 1] == documents[..i + 1] && whole[..i] == documents[..i];
      var p, q := |Records(documents[..i])|, |Records(documents[..i + 1])|;
      assert bytes[..q] == Records(documents[..i + 1]) by { assert bytes[..q] == bytes[..|Records(whole)|][..q]; }
      assert bytes[p..q] == bytes[..q][p..];
      ReadRecord(limits, bytes, p, documents[..i], documents[i]);
      assert documents[..i] + [documents[i]] == documents[..i + 1];
    }
  }

  lemma NothingLeft(limits: WalLimits, bytes: string, documents: seq<Document>)
    ensures ReplayFrom(limits, bytes, |bytes|, documents) == Ok(Replayed(documents, |bytes|))
  {
  }

  /** Number of records that lie wholly before a cut. */
  function Whole(documents: seq<Document>, cut: nat): (k: nat)
    ensures k <= |documents|
  {
    if documents == [] || |Records(documents)| <= cut then |documents| else Whole(documents[..|documents| - 1], cut)
  }

  lemma {:induction false} WholeBounds(documents: seq<Document>, cut: nat)
    ensures var k := Whole(documents, cut);
      && (documents[..k] == [] || |Records(documents[..k])| <= cut)
      && (k < |documents| ==> cut < |Records(documents[..k + 1])|)
  {
    hide Records;
    if documents != [] && |Records(documents)| > cut {
      var n := |documents| - 1;
      WholeBounds(documents[..n], cut);
      var k := Whole(documents[..n], cut);
      assert documents[..n][..k] == documents[..k];
      if k < n { assert documents[..n][..k + 1] == documents[..k + 1]; } else {
        assert documents[..k + 1] == documents;
      }
    } else {
      assert documents[..|documents|] == documents;
    }
  }

  lemma NoRecords()
    ensures Records([]) == ""
  {
  }

  /** For every list of documents and every byte at which the file may have been cut off, replay
      returns exactly the documents whose records lie wholly before the cut, and that boundary, unless
      what is left of the file is over the file limit. */
  lemma ReplayOfCut(limits: WalLimits, documents: seq<Document>, cut: nat)
    requires |documents| <= limits.records && forall i :: 0 <= i < |documents| ==> Replayable(limits, documents[i])
    requires cut <= |Records(documents)|
    ensures var k := Whole(documents, cut);
      ReplayFile(limits, Records(documents)[..cut]) ==
      if cut > limits.fileBytes then Err(ResourceLimit) else Ok(Replayed(documents[..k], |Records(documents[..k])|))
  {
    hide Frame, Payload, ReplayFrom, Replayable, Records;
    var k := Whole(documents, cut);
    WholeBounds(documents, cut);
    NoRecords();
    var all := Records(documents);
    var bytes := all[..cut];
    if k == |documents| {
      assert documents[..k] == documents;
      assert bytes == all;
    } else {
      RecordsSplit(documents, k);
      var p, q := |Records(documents[..k])|, |Records(documents[..k + 1])|;
      assert all[..q] == Records(documents[..k]) + Frame(documents[k]);
      assert bytes == all[..q][..cut];
      assert bytes[p..] == Frame(documents[k])[..cut - p];
      assert bytes[..p] == Records(documents[..k]);
    }
    assert documents[..0] == [];
    ReplayComplete(limits, documents, k, bytes, 0);
  }

  // ---- what append accepts and replay refuses ----

  /** A record that is complete but over a limit fails the replay. */
  lemma BadRecord(limits: WalLimits, bytes: string, p: nat, documents: seq<Document>, d: Document)
    requires Loggable(d) && (!Replayable(limits, d) || |documents| >= limits.records)
    requires p + |Frame(d)| <= |bytes| && bytes[p..p + |Frame(d)|] == Frame(d)
    ensures ReplayFrom(limits, bytes, p, documents).Err?
  {
    hide Payload, Crc32c, Decode, Encodable, WithinLimits, Value, U32;
    var f := Frame(d);
    forall i | 0 <= i < HEADER ensures bytes[p + i] == f[i] { assert bytes[p..p + |f|][i] == f[i]; }
    HeaderOf(d, bytes, p);
    DecodeInvertsEncode(limits, d);
    assert f[HEADER..] == Payload(d);
    assert bytes[p + HEADER..p + |f|] == bytes[p..p + |f|][HEADER..];
  }

  /** The first `i` records, all readable, are read, whatever follows the last. */
  lemma {:induction false} ReadUpTo(limits: WalLimits, documents: seq<Document>, tail: string, i: nat)
    requires i <= |documents| && i <= limits.records && forall j :: 0 <= j < i ==> Replayable(limits, documents[j])
    ensures |Records(documents[..i])| <= |Records(documents)|
    ensures ReplayFrom(limits, Records(documents) + tail, 0, []) ==
      ReplayFrom(limits, Records(documents) + tail, |Records(documents[..i])|, documents[..i])
  {
    hide Frame, Payload, ReplayFrom, Replayable, Records;
    PrefixOfRecords(documents, i);
    if i == 0 {
      NoRecords();
      assert documents[..0] == [];
    } else {
      var bytes := Records(documents) + tail;
      ReadUpTo(limits, documents, tail, i - 1);
      RecordStands(documents, i - 1);
      var p, q := |Records(documents[..i - 1])|, |Records(documents[..i])|;
      assert bytes[p..q] == Records(documents)[p..q];
      ReadRecord(limits, bytes, p, documents[..i - 1], documents[i - 1]);
      assert documents[..i - 1] + [documents[i - 1]] == documents[..i];
    }
  }

  lemma RecordStands(documents: seq<Document>, i: nat)
    requires i < |documents|
    ensures var p, q := |Records(documents[..i])|, |Records(documents[..i + 1])|;
      q == p + |Frame(documents[i])| <= |Records(documents)| && Records(documents)[p..q] == Frame(documents[i])
  {
    hide Frame, Payload, Records;
    RecordsSplit(documents, i);
    var p, q := |Records(documents[..i])|, |Records(documents[..i + 1])|;
    assert Records(documents)[p..q] == Records(documents)[..q][p..];
  }

  /** What is left of an append that did not finish: the first `reached` bytes of a record. */
  datatype Torn = Torn(document: Document, reached: nat)

  /** `append` had begun to write it and had not come to its end. */
  predicate IsTorn(t: Torn) {
    Loggable(t.document) && t.reached < |Frame(t.document)|
  }

  function TailBytes(torn: Option<Torn>): string
    requires torn.Some? ==> IsTorn(torn.value)
  {
    match torn
    case None => ""
    case Some(t) => Frame(t.document)[..t.reached]
  }

  /** `replay` tests the length of a record before it tests whether the record is there. */
  predicate ReadableTail(limits: WalLimits, torn: Option<Torn>) {
    match torn
    case None => true
    case Some(t) => t.reached < HEADER || |Payload(t.document)| <= limits.recordBytes
  }

  lemma TailOf(limits: WalLimits, bytes: string, p: nat, documents: seq<Document>, t: Torn)
    requires IsTorn(t) && p + t.reached == |bytes| && bytes[p..] == Frame(t.document)[..t.reached]
    ensures ReplayFrom(limits, bytes, p, documents)
      == if ReadableTail(limits, Some(t)) then Ok(Replayed(documents, p)) else Err(ResourceLimit)
  {
    hide Payload, Crc32c, Decode, Encodable, Value, U32;
    if t.reached >= HEADER {
      forall i | 0 <= i < HEADER ensures bytes[p + i] == Frame(t.document)[i] {
        assert bytes[p..][i] == Frame(t.document)[..t.reached][i];
      }
      HeaderOf(t.document, bytes, p);
    }
  }

  /** `append` knows no read limits. A log it wrote, with or without a torn record at its end, replays
      if and only if the file, the number of complete records and each of them are within the limits
      and the torn record does not announce more than one. Then all complete records come back, and
      nothing else; otherwise nothing does. */
  lemma ReplaysWithTailIff(limits: WalLimits, documents: seq<Document>, torn: Option<Torn>)
    requires (forall i :: 0 <= i < |documents| ==> Loggable(documents[i])) && (torn.Some? ==> IsTorn(torn.value))
    ensures var r := ReplayFile(limits, Records(documents) + TailBytes(torn));
      && (r.Ok? <==>
            && ReadableLog(limits, documents) && ReadableTail(limits, torn)
            && |Records(documents)| + |TailBytes(torn)| <= limits.fileBytes)
      && (r.Ok? ==> r.value == Replayed(documents, |Records(documents)|))
  {
    hide Frame, Payload, ReplayFrom, Replayable, Records, ReadableTail, Loggable;
    var tail := TailBytes(torn);
    var bytes := Records(documents) + tail;
    var i := 0;
    while i < |documents| && i < limits.records && Replayable(limits, documents[i])
      invariant i <= |documents| && i <= limits.records && forall j :: 0 <= j < i ==> Replayable(limits, documents[j])
    {
      i := i + 1;
    }
    ReadUpTo(limits, documents, tail, i);
    var p := |Records(documents[..i])|;
    if i == |documents| {
      assert documents[..i] == documents;
      assert bytes[p..] == tail;
      if torn.Some? {
        TailOf(limits, bytes, p, documents, torn.value);
      } else {
        NoTail(limits);
        NothingLeft(limits, bytes, documents);
      }
    } else {
      RecordStands(documents, i);
      assert bytes[p..p + |Frame(documents[i])|] == Records(documents)[p..p + |Frame(documents[i])|];
      BadRecord(limits, bytes, p, documents[..i], documents[i]);
    }
  }

  lemma NoTail(limits: WalLimits)
    ensures ReadableTail(limits, None)
  {
  }

  /** The same without a torn record. */
  lemma ReplaysIff(limits: WalLimits, documents: seq<Document>)
    requires forall i :: 0 <= i < |documents| ==> Loggable(documents[i])
    ensures ReplayFile(limits, Records(documents)).Ok? <==> ReadableLog(limits, documents)
    ensures ReadableLog(limits, documents) ==>
      ReplayFile(limits, Records(documents)) == Ok(Replayed(documents, |Records(documents)|))
  {
    hide Records, ReplayFile, Loggable, Replayable;
    NoTail(limits);
    ReplaysWithTailIff(limits, documents, None);
    assert Records(documents) + "" == Records(documents);
  }

  /** A document whose record is over the limit because of its ID, and nothing else. */
  function OverRecord(limits: WalLimits): Document {
    Document(seq(limits.recordBytes + 1, _ => 'a'), map[], map[], 1, false)
  }

  /** An append of it that is cut off behind the header stops every later replay, although the log
      holds no complete record at all. */
  lemma TornOverLimitFails(limits: WalLimits, n: nat)
    requires limits.recordBytes < U32_LIMIT - 32 && HEADER <= n < |Frame(OverRecord(limits))| && n <= limits.fileBytes
    ensures ReadableLog(limits, []) && ReplayFile(limits, Frame(OverRecord(limits))[..n]) == Err(ResourceLimit)
  {
    hide ReplayFrom, Records, Frame, Payload;
    var d := OverRecord(limits);
    BarePayload(d);
    NoRecords();
    var bytes := Frame(d)[..n];
    assert bytes[0..] == bytes;
    TailOf(limits, bytes, 0, [], Torn(d, n));
  }

  /** A document with an ID one byte over the read limit, and nothing else. */
  function LongNamed(limits: WalLimits): Document {
    Document(seq(limits.stringBytes + 1, _ => 'a'), map[], map[], 1, false)
  }

  /** It is appended without complaint, and the log no longer replays. */
  lemma LoggedButUnreadable(limits: WalLimits)
    requires limits.stringBytes < U32_LIMIT - 32
    ensures Loggable(LongNamed(limits)) && ReplayFile(limits, Records([LongNamed(limits)])).Err?
  {
    hide ReplayFile, Records, Frame, Payload;
    var d := LongNamed(limits);
    BarePayload(d);
    assert Loggable([d][0]) && !Replayable(limits, [d][0]);
    ReplaysIff(limits, [d]);
  }

  /** The limits `replay` has when its caller gives none. */
  const DEFAULT_LIMITS: WalLimits := WalLimits(0x4000_0000, 0x400_0000, 10_000_000, 0x100_0000)

  /** Eleven hundred puts of documents with a megabyte of ID. */
  function LongLog(): (r: seq<Document>)
    ensures |r| == 1100
  {
    seq(1100, (i: nat) => Document(seq(1_000_000, _ => 'a'), map[], map[], i + 1, false))
  }

  /** Every one of them is within the limits and so is their number, yet the file they make is not. */
  lemma OverlongLogFails()
    ensures |LongLog()| <= DEFAULT_LIMITS.records && forall i :: 0 <= i < |LongLog()| ==>
      Replayable(DEFAULT_LIMITS, LongLog()[i])
    ensures ReplayFile(DEFAULT_LIMITS, Records(LongLog())) == Err(ResourceLimit)
  {
    hide ReplayFrom, Records, Payload, LongLog;
    forall i | 0 <= i < |LongLog()|
      ensures Replayable(DEFAULT_LIMITS, LongLog()[i]) && |Frame(LongLog()[i])| >= 1_000_000
    {
      LongLogAt(i);
      BarePayload(LongLog()[i]);
    }
    RecordsAreLong(LongLog());
  }

  lemma LongLogAt(i: nat)
    requires i < |LongLog()|
    ensures var d := LongLog()[i];
      |d.id| == 1_000_000 && d.fields == map[] && d.metadata == map[] && d.version == i + 1 <= 1100
  {
  }

  lemma {:induction false} RecordsAreLong(documents: seq<Document>)
    requires forall i :: 0 <= i < |documents| ==> |Frame(documents[i])| >= 1_000_000
    ensures |Records(documents)| >= 1_000_000 * |documents|
  {
    hide Frame;
    if documents != [] { RecordsAreLong(documents[..|documents| - 1]); }
  }

  lemma BarePayload(d: Document)
    requires d.fields == map[] && d.metadata == map[]
    ensures |Payload(d)| == |d.id| + 21
  {
    hide Little, MapBytes;
    EmptyMapBytes();
  }

  lemma EmptyMapBytes()
    ensures MapBytes(map[]) == U32(0)
  {
    var m: map<string, string> := map[];
    assert m.Keys == {};
    assert SortedKeys({}) == [];
  }

  // ---- the loops that write and read a document ----

  method ComputeCrc(data: string) returns (r: nat)
    ensures r == Crc32c(data)
  {
    hide CrcMix, CrcBits;
    var crc: bv32 := 0xffff_ffff;
    assert data[0..] == data;
    for i := 0 to |data|
      invariant CrcBytes(crc, data[i..]) == CrcBytes(0xffff_ffff, data)
    {
      assert data[i..][1..] == data[i + 1..];
      crc := EightSteps(CrcMix(crc, data[i]));
    }
    r := (!crc) as nat;
  }

  method EightSteps(start: bv32) returns (crc: bv32)
    ensures crc == CrcBits(start, 8)
  {
    hide CrcStep;
    crc := start;
    for bit := 0 to 8
      invariant CrcBits(crc, 8 - bit) == CrcBits(start, 8)
    {
      crc := CrcStep(crc);
    }
  }

  method AddString(out: string, value: string) returns (r: Option<string>)
    ensures r == if |value| < U32_LIMIT then Some(out + Text(value)) else None
  {
    if |value| >= U32_LIMIT { return None; }
    r := Some(out + Text(value));
  }

  method AddMap(out: string, values: map<string, string>) returns (r: Option<string>)
    ensures r == if |values| < U32_LIMIT && MapFits(values, U32_LIMIT - 1) then Some(out + MapBytes(values)) else None
  {
    hide Text, U32, Entries;
    if |values| >= U32_LIMIT { return None; }
    var keys := SortedKeys(values.Keys);
    var written := out + U32(|values|);
    assert keys[0..] == keys;
    Push(out, U32(|values|), Entries(values, keys));
    for i := 0 to |keys|
      invariant written + Entries(values, keys[i..]) == out + MapBytes(values)
      invariant forall k :: 0 <= k < i ==> TextFits(keys[k], U32_LIMIT - 1) && TextFits(values[keys[k]], U32_LIMIT - 1)
    {
      var key := keys[i];
      assert key in values && !TextFits(key, U32_LIMIT - 1) ==> !MapFits(values, U32_LIMIT - 1);
      var withKey := AddString(written, key);
      if withKey.None? { return None; }
      var withValue := AddString(withKey.value, values[key]);
      if withValue.None? { return None; }
      NextEntry(values, keys, i, written);
      written := withValue.value;
    }
    AllFit(values, keys);
    NothingWritten(values, keys[|keys|..], written);
    r := Some(written);
  }

  lemma NextEntry(values: map<string, string>, keys: seq<string>, i: nat, written: string)
    requires i < |keys| && forall k :: k in keys ==> k in values
    ensures written + Entries(values, keys[i..])
      == ((written + Text(keys[i])) + Text(values[keys[i]])) + Entries(values, keys[i + 1..])
  {
    hide Text;
    var tail := Entries(values, keys[i + 1..]);
    assert keys[i..][1..] == keys[i + 1..];
    Push(written, Text(keys[i]), Text(values[keys[i]]) + tail);
    Push(written + Text(keys[i]), Text(values[keys[i]]), tail);
  }

  lemma NothingWritten(values: map<string, string>, keys: seq<string>, written: string)
    requires keys == []
    ensures written + Entries(values, keys) == written
  {
  }

  lemma AllFit(values: map<string, string>, keys: seq<string>)
    requires (forall k :: k in values ==> k in keys) && (forall k :: k in keys ==> k in values)
    requires forall i :: 0 <= i < |keys| ==>
      TextFits(keys[i], U32_LIMIT - 1) && TextFits(values[keys[i]], U32_LIMIT - 1)
    ensures MapFits(values, U32_LIMIT - 1)
  {
    forall k | k in values ensures TextFits(k, U32_LIMIT - 1) && TextFits(values[k], U32_LIMIT - 1) {
      var i :| 0 <= i < |keys| && keys[i] == k;
    }
  }

  /** `encode`. */
  method EncodeDocument(d: Document) returns (r: Result<string, WalError>)
    requires d.version < U64_LIMIT
    ensures r == if Encodable(d) then Ok(Payload(d)) else Err(ResourceLimit)
  {
    hide Text, MapBytes, U64, Flag, MapFits;
    var start := AddString("", d.id);
    if start.None? { return Err(ResourceLimit); }
    var head := start.value + U64(d.version) + Flag(d.deleted);
    var fields := AddMap(head, d.fields);
    if fields.None? { return Err(ResourceLimit); }
    var all := AddMap(fields.value, d.metadata);
    if all.None? { return Err(ResourceLimit); }
    FiveParts(Text(d.id), U64(d.version), Flag(d.deleted), MapBytes(d.fields), MapBytes(d.metadata));
    r := Ok(all.value);
  }

  lemma FiveParts(a: string, b: string, c: string, d: string, e: string)
    ensures ((("" + a + b) + c) + d) + e == a + (b + (c + (d + e)))
  {
  }

  lemma {:induction false} ValueAppend(s: string, c: char)
    ensures Value(s + [c]) == Value(s) + c as int * Power(|s|)
  {
    if s == "" {
      assert s + [c] == [c] && [c][1..] == "";
    } else {
      ValueAppend(s[1..], c);
      assert (s + [c])[1..] == s[1..] + [c];
      Regroup(c as int, Power(|s| - 1));
    }
  }

  lemma Regroup(c: nat, p: nat)
    ensures 256 * (c * p) == c * (256 * p)
  {
  }

  /** A position that moves over the bytes of a record. */
  class Cursor {
    const data: string
    const limits: WalLimits
    var position: nat

    predicate Valid()
      reads this
    {
      position <= |data|
    }

    function Rest(): string
      requires Valid()
      reads this
    {
      data[position..]
    }

    constructor (data: string, limits: WalLimits)
      ensures Valid() && this.data == data && this.limits == limits && Rest() == data
    {
      this.data := data;
      this.limits := limits;
      position := 0;
    }

    method Number(width: nat) returns (r: Option<nat>)
      requires Valid()
      modifies this
      ensures Valid()
      ensures match Read(old(Rest()), width)
        case None => r == None
        case Some((v, rest)) => r == Some(v) && Rest() == rest
    {
      hide Value, Power;
      if |data| - position < width { return None; }
      var start := position;
      var v, scale := 0, 1;
      NoValue();
      assert data[start..start] == "";
      for i := 0 to width
        invariant position == start + i && v == Value(data[start..start + i]) && scale == Power(i)
      {
        assert data[start..start + i + 1] == data[start..start + i] + [data[start + i]];
        ValueAppend(data[start..start + i], data[start + i]);
        PowerStep(i);
        v := v + data[position] as int * scale;
        scale := 256 * scale;
        position := position + 1;
      }
      assert data[start..][..width] == data[start..start + width];
      r := Some(v);
    }

    method String() returns (r: Option<string>)
      requires Valid()
      modifies this
      ensures Valid()
      ensures match ReadText(limits, old(Rest()))
        case None => r == None
        case Some((s, rest)) => r == Some(s) && Rest() == rest
    {
      hide Value;
      var n := Number(4);
      if n.None? || n.value > limits.stringBytes || n.value > |data| - position { return None; }
      var s := data[position..position + n.value];
      assert Rest()[..n.value] == s && Rest()[n.value..] == data[position + n.value..];
      position := position + n.value;
      r := Some(s);
    }

    method Strings() returns (r: Option<map<string, string>>)
      requires Valid()
      modifies this
      ensures Valid()
      ensures match ReadMap(limits, old(Rest()))
        case None => r == None
        case Some((m, rest)) => r == Some(m) && Rest() == rest
    {
      hide Read, ReadText;
      var count := Number(4);
      if count.None? || count.value > MAXIMUM_ENTRIES { return None; }
      var target: map<string, string> := map[];
      ghost var spec := ReadEntries(limits, count.value, map[], Rest());
      for i := 0 to count.value
        invariant Valid() && ReadEntries(limits, count.value - i, target, Rest()) == spec
      {
        var key := String();
        if key.None? { return None; }
        var value := String();
        if value.None? || key.value == "" || key.value in target { return None; }
        target := target[key.value := value.value];
      }
      r := Some(target);
    }
  }

  lemma NoValue()
    ensures Value("") == 0 && Power(0) == 1
  {
  }

  lemma PowerStep(i: nat)
    ensures Power(i + 1) == 256 * Power(i)
  {
  }

  /** `decode`. */
  method DecodeDocument(limits: WalLimits, payload: string) returns (r: Result<Document, WalError>)
    ensures r == Decode(limits, payload)
  {
    hide Read, ReadText, ReadMap;
    var c := new Cursor(payload, limits);
    var id := c.String();
    if id.None? { return Err(Corruption); }
    var version := c.Number(8);
    if version.None? { return Err(Corruption); }
    var deleted := c.Number(1);
    if deleted.None? || id.value == "" || deleted.value > 1 { return Err(Corruption); }
    var fields := c.Strings();
    if fields.None? { return Err(Corruption); }
    var metadata := c.Strings();
    if metadata.None? || c.position != |payload| { return Err(Corruption); }
    r := Ok(Document(id.value, fields.value, metadata.value, version.value, deleted.value == 1));
  }

  // ---- the log file ----

  class WriteAheadLog {
    var file: Option<string>

    function Content(): string
      reads this
    {
      match file case Some(bytes) => bytes case None => ""
    }

    constructor ()
      ensures file == None
    {
      file := None;
    }

    /** `reached` is how many bytes of the record get to the file before a failure, if there is one;
        `synced` is whether they are then made durable. An error may leave all of them there. */
    method Append(d: Document, reached: nat, synced: bool) returns (r: Result<(), WalError>)
      requires d.version < U64_LIMIT
      modifies this
      ensures !Loggable(d) ==> r == Err(ResourceLimit) && file == old(file)
      ensures Loggable(d) && reached >= |Frame(d)| ==>
        r == (if synced then Ok(()) else Err(IoError)) && file == Some(old(Content()) + Frame(d))
      ensures Loggable(d) && reached < |Frame(d)| ==>
        r == Err(IoError) && file == Some(old(Content()) + Frame(d)[..reached])
    {
      hide Payload, Encodable;
      var payload := EncodeDocument(d);
      if payload.Err? { return Err(payload.error); }
      if |payload.value| >= U32_LIMIT { return Err(ResourceLimit); }
      var checksum := ComputeCrc(payload.value);
      var record := MAGIC + (U32(|payload.value|) + (U32(checksum) + payload.value));
      if reached < |record| {
        file := Some(Content() + record[..reached]);
        return Err(IoError);
      }
      file := Some(Content() + record);
      if !synced { return Err(IoError); }
      r := Ok(());
    }

    /** Reads the log and cuts a torn tail off, so that later appends continue a sound file. */
    method Replay(limits: WalLimits) returns (r: Result<seq<Document>, WalError>)
      modifies this
      ensures old(file).None? ==> r == Ok([]) && file == None
      ensures old(file).Some? ==>
        match ReplayFile(limits, old(Content()))
        case Err(e) => r == Err(e) && file == old(file)
        case Ok(replayed) => r == Ok(replayed.documents) && file == Some(old(Content())[..replayed.validEnd])
    {
      hide Crc32c, Decode, Value;
      if file.None? { return Ok([]); }
      var bytes := file.value;
      if |bytes| > limits.fileBytes { return Err(ResourceLimit); }
      var documents: seq<Document> := [];
      var position, validEnd := 0, 0;
      while |bytes| - position >= HEADER
        invariant 0 <= position == validEnd <= |bytes| && file == Some(bytes)
        invariant ReplayFrom(limits, bytes, position, documents) == ReplayFrom(limits, bytes, 0, [])
        decreases |bytes| - position
      {
        if bytes[position..position + 4] != MAGIC { return Err(Corruption); }
        var length, checksum := Value(bytes[position + 4..position + 8]), Value(bytes[position + 8..position + 12]);
        var start := position + HEADER;
        if length > limits.recordBytes { return Err(ResourceLimit); }
        if length > |bytes| - start { break; }
        if |documents| >= limits.records { return Err(ResourceLimit); }
        var payload := bytes[start..start + length];
        var computed := ComputeCrc(payload);
        if computed != checksum { return Err(Corruption); }
        var decoded := DecodeDocument(limits, payload);
        if decoded.Err? { return Err(decoded.error); }
        documents := documents + [decoded.value];
        position := start + length;
        validEnd := position;
      }
      if validEnd < |bytes| { file := Some(bytes[..validEnd]); } else { assert bytes[..validEnd] == bytes; }
      r := Ok(documents);
    }

    method Reset()
      modifies this
      ensures file == Some("")
    {
      file := Some("");
    }
  }

  /** What a replay leaves in the file. */
  function Repaired(limits: WalLimits, bytes: string): string {
    match ReplayFile(limits, bytes)
    case Ok(replayed) => bytes[..replayed.validEnd]
    case Err(_) => bytes
  }

  /** A crash during an append, a replay, and one more append: the log then holds the records that
      were complete and the new one, and replays as these unless the file is over its limit, before
      the repair or after the append. */
  lemma AppendAfterRepair(limits: WalLimits, documents: seq<Document>, cut: nat, d: Document)
    requires |documents| < limits.records && forall i :: 0 <= i < |documents| ==> Replayable(limits, documents[i])
    requires cut <= |Records(documents)| && Replayable(limits, d)
    ensures var kept := documents[..Whole(documents, cut)];
      ReplayFile(limits, Repaired(limits, Records(documents)[..cut]) + Frame(d)) ==
      if cut > limits.fileBytes || |Records(kept + [d])| > limits.fileBytes then Err(ResourceLimit)
      else Ok(Replayed(kept + [d], |Records(kept + [d])|))
  {
    hide Frame, Payload, ReplayFrom, Replayable, Records;
    var k := Whole(documents, cut);
    var kept := documents[..k];
    ReplayOfCut(limits, documents, cut);
    WholeBounds(documents, cut);
    NoRecords();
    PrefixOfRecords(documents, k);
    if cut > limits.fileBytes { return; }
    var repaired := Records(documents)[..cut][..|Records(kept)|];
    assert repaired == Records(kept);
    var more := kept + [d];
    RecordsSplit(more, k);
    assert more[..k] == kept && more[..k + 1] == more;
    ReplayOfCut(limits, more, |Records(more)|);
    assert Records(more)[..|Records(more)|] == Records(more);
    assert Whole(more, |Records(more)|) == |more|;
  }

  lemma PrefixOfRecords(documents: seq<Document>, k: nat)
    requires k <= |documents|
    ensures |Records(documents[..k])| <= |Records(documents)|
    ensures Records(documents)[..|Records(documents[..k])|] == Records(documents[..k])
  {
    hide Frame, Payload;
    if k > 0 { RecordsSplit(documents, k - 1); } else { assert documents[..0] == []; }
  }
}

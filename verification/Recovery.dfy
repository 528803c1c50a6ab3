/** Persistent mutation logs, replica snapshots and catch-up (src/distributed/replication.cpp). */
module ReplicaRecovery {
  import opened Basics
  import opened Numbers
  import opened Schemas
  import opened IndexModel
  import opened Views
  import opened MemoryIndex
  import opened Generations
  import opened Replication
  import WriteAhead

  // ---- a mutation record as a log document ----

  predicate Tagged(tag: string, key: string) {
    |key| >= |tag| && key[..|tag|] == tag
  }

  function TagKeys(tag: string, keys: set<string>): set<string> {
    set k | k in keys :: tag + k
  }

  /** Every key gets the tag in front. */
  function Tag(tag: string, m: map<string, string>): map<string, string> {
    map key | key in TagKeys(tag, m.Keys) && key[|tag|..] in m :: m[key[|tag|..]]
  }

  /** The keys that carry the tag, without it. */
  function Untag(tag: string, m: map<string, string>): map<string, string> {
    map k | k in (set key | key in m && Tagged(tag, key) :: key[|tag|..]) && tag + k in m :: m[tag + k]
  }

  lemma TagAt(tag: string, m: map<string, string>, key: string)
    ensures key in Tag(tag, m) <==> Tagged(tag, key) && key[|tag|..] in m
    ensures key in Tag(tag, m) ==> Tag(tag, m)[key] == m[key[|tag|..]]
  {
    if Tagged(tag, key) {
      assert tag + key[|tag|..] == key;
    }
    if key in Tag(tag, m) {
      var k :| k in m && tag + k == key;
      assert key[..|tag|] == tag;
    }
  }

  lemma BothAt(a: map<string, string>, b: map<string, string>, key: string)
    ensures var all := Tag("f:", a) + Tag("m:", b);
      && (key in all <==> (Tagged("f:", key) && key[2..] in a) || (Tagged("m:", key) && key[2..] in b))
      && (key in all && Tagged("f:", key) ==> key[2..] in a && all[key] == a[key[2..]])
      && (key in all && Tagged("m:", key) ==> key[2..] in b && all[key] == b[key[2..]])
  {
    hide Tag;
    TagAt("f:", a, key);
    TagAt("m:", b, key);
    assert Tagged("f:", key) ==> key[0] == 'f';
    assert Tagged("m:", key) ==> key[0] == 'm';
  }

  lemma UntagAt(tag: string, m: map<string, string>, k: string)
    ensures k in Untag(tag, m) <==> tag + k in m
    ensures k in Untag(tag, m) ==> Untag(tag, m)[k] == m[tag + k]
  {
    var key := tag + k;
    assert Tagged(tag, key) && key[|tag|..] == k;
  }

  /** Two kinds of keys in one map come apart again. */
  lemma UntagBoth(a: map<string, string>, b: map<string, string>)
    ensures Untag("f:", Tag("f:", a) + Tag("m:", b)) == a
    ensures Untag("m:", Tag("f:", a) + Tag("m:", b)) == b
  {
    hide Tag, Untag;
    var all := Tag("f:", a) + Tag("m:", b);
    forall k ensures k in Untag("f:", all) <==> k in a
             ensures k in Untag("f:", all) ==> Untag("f:", all)[k] == a[k]
    {
      var key := "f:" + k;
      assert Tagged("f:", key) && key[2..] == k && key[0] == 'f';
      UntagAt("f:", all, k);
      BothAt(a, b, key);
    }
    forall k ensures k in Untag("m:", all) <==> k in b
             ensures k in Untag("m:", all) ==> Untag("m:", all)[k] == b[k]
    {
      var key := "m:" + k;
      assert Tagged("m:", key) && key[2..] == k && key[0] == 'm';
      UntagAt("m:", all, k);
      BothAt(a, b, key);
    }
  }

  function Wrap(r: MutationRecord): Document {
    Document(
      r.operationId,
      Tag("f:", r.document.fields) + Tag("m:", r.document.metadata),
      map["@shard" := Decimal(r.shard), "@epoch" := Decimal(r.epoch), "@document" := r.document.id,
          "@deleted" := if r.document.deleted then "1" else "0", "@version" := Decimal(r.document.version)],
      r.sequence,
      false)
  }

  function Unwrap(shard: nat, epoch: nat, expected: nat, w: Document): Result<MutationRecord, ReplicationError> {
    if w.id == "" || w.version != expected
      || !({"@shard", "@epoch", "@document", "@version", "@deleted"} <= w.metadata.Keys) then
      Err(SequenceGap)
    else if ParseU64(w.metadata["@shard"]) != Some(shard) || ParseU64(w.metadata["@epoch"]) != Some(epoch)
            || ParseU64(w.metadata["@version"]).None? || w.metadata["@deleted"] !in {"0", "1"} then
      Err(WrongEpoch)
    else if exists key :: key in w.fields && !Tagged("f:", key) && !Tagged("m:", key) then
      Err(ConflictingOperation)
    else
      Ok(MutationRecord(shard, epoch, w.id, w.version,
                        Document(w.metadata["@document"], Untag("f:", w.fields), Untag("m:", w.fields),
                                 ParseU64(w.metadata["@version"]).value, w.metadata["@deleted"] == "1")))
  }

  /** A record the log takes: identified, and its numbers fit in 64 bits. */
  predicate Identified(r: MutationRecord) {
    && 0 < r.shard < U64_LIMIT && 0 < r.epoch < U64_LIMIT && r.sequence != 0
    && r.operationId != "" && r.document.id != "" && r.document.version < U64_LIMIT
  }

  lemma UnwrapInvertsWrap(r: MutationRecord)
    requires Identified(r)
    ensures Unwrap(r.shard, r.epoch, r.sequence, Wrap(r)) == Ok(r)
  {
    hide Decimal, ParseU64, Tag, Untag, Tagged;
    var w := Wrap(r);
    ParseU64RoundTrip(r.shard);
    ParseU64RoundTrip(r.epoch);
    ParseU64RoundTrip(r.document.version);
    UntagBoth(r.document.fields, r.document.metadata);
    forall key | key in w.fields ensures Tagged("f:", key) || Tagged("m:", key) {
      TagAt("f:", r.document.fields, key);
      TagAt("m:", r.document.metadata, key);
    }
  }

  function WrapAll(records: seq<MutationRecord>): (r: seq<Document>)
    ensures |r| == |records|
  {
    seq(|records|, i requires 0 <= i < |records| => Wrap(records[i]))
  }

  function UnwrapAll(shard: nat, epoch: nat, entries: seq<Document>): Result<seq<MutationRecord>, ReplicationError> {
    if entries == [] then Ok([])
    else
      var n := |entries| - 1;
      match UnwrapAll(shard, epoch, entries[..n])
      case Err(e) => Err(e)
      case Ok(records) =>
        match Unwrap(shard, epoch, n + 1, entries[n])
        case Err(e) => Err(e)
        case Ok(record) => Ok(records + [record])
  }

  /** One shard, one epoch, sequence 1, 2, 3 and so on. */
  ghost predicate GapFree(shard: nat, epoch: nat, records: seq<MutationRecord>) {
    forall i :: 0 <= i < |records| ==>
      records[i].shard == shard && records[i].epoch == epoch && records[i].sequence == i + 1
  }

  lemma {:induction false} UnwrapAllInverts(shard: nat, epoch: nat, records: seq<MutationRecord>)
    requires GapFree(shard, epoch, records) && forall i :: 0 <= i < |records| ==> Identified(records[i])
    ensures UnwrapAll(shard, epoch, WrapAll(records)) == Ok(records)
  {
    hide Wrap, Unwrap;
    if records != [] {
      var n := |records| - 1;
      UnwrapAllInverts(shard, epoch, records[..n]);
      assert WrapAll(records)[..n] == WrapAll(records[..n]);
      UnwrapInvertsWrap(records[n]);
      assert records == records[..n] + [records[n]];
    }
  }

  /** Nothing but gap-free records of the right shard and epoch is ever given back. */
  lemma {:induction false} UnwrappedIsGapFree(shard: nat, epoch: nat, entries: seq<Document>)
    requires UnwrapAll(shard, epoch, entries).Ok?
    ensures |UnwrapAll(shard, epoch, entries).value| == |entries|
    ensures GapFree(shard, epoch, UnwrapAll(shard, epoch, entries).value)
  {
    hide Untag, Tagged, ParseU64;
    if entries != [] { UnwrappedIsGapFree(shard, epoch, entries[..|entries| - 1]); }
  }

  // ---- the records in the file ----

  /** What a log file gives back. */
  function ReplayRecords(limits: WriteAhead.WalLimits, shard: nat, epoch: nat, bytes: string)
    : Result<seq<MutationRecord>, ReplicationError>
  {
    match WriteAhead.ReplayFile(limits, bytes)
    case Err(_) => Err(MutationError)
    case Ok(replayed) => UnwrapAll(shard, epoch, replayed.documents)
  }

  /** The file after these records were appended. */
  function LogBytes(records: seq<MutationRecord>): string {
    WriteAhead.Records(WrapAll(records))
  }

  /** What `append` can write. */
  ghost predicate AllLoggable(records: seq<MutationRecord>) {
    forall i :: 0 <= i < |records| ==> Identified(records[i]) && WriteAhead.Loggable(Wrap(records[i]))
  }

  lemma LogBytesAppend(records: seq<MutationRecord>, record: MutationRecord)
    ensures LogBytes(records + [record]) == LogBytes(records) + WriteAhead.Frame(Wrap(record))
  {
    hide Wrap, WriteAhead.Frame;
    var all := WrapAll(records + [record]);
    assert all[..|records|] == WrapAll(records);
  }

  /** The file gives back every gap-free list of records appended to it if and only if it respects the
      read limits, and otherwise nothing. */
  lemma LogRoundTrip(limits: WriteAhead.WalLimits, shard: nat, epoch: nat, records: seq<MutationRecord>)
    requires GapFree(shard, epoch, records) && AllLoggable(records)
    ensures ReplayRecords(limits, shard, epoch, LogBytes(records)) ==
      if WriteAhead.ReadableLog(limits, WrapAll(records)) then Ok(records) else Err(MutationError)
  {
    hide Wrap, Identified, UnwrapAll, WriteAhead.Loggable, WriteAhead.Records, WriteAhead.ReplayFile,
         WriteAhead.ReadableLog;
    WriteAhead.ReplaysIff(limits, WrapAll(records));
    UnwrapAllInverts(shard, epoch, records);
  }

  /** An append that did not finish: the file gives back the records before it, and is repaired, if and
      only if these are within the read limits and the torn record does not announce more than one.
      Otherwise nothing comes back and the file stays as it is. */
  lemma TornAppend(limits: WriteAhead.WalLimits, shard: nat, epoch: nat, records: seq<MutationRecord>,
                   record: MutationRecord, reached: nat)
    requires GapFree(shard, epoch, records) && AllLoggable(records)
    requires WriteAhead.Loggable(Wrap(record)) && reached < |WriteAhead.Frame(Wrap(record))|
    ensures var bytes := LogBytes(records) + WriteAhead.Frame(Wrap(record))[..reached];
      var readable :=
        && WriteAhead.ReadableLog(limits, WrapAll(records)) && |bytes| <= limits.fileBytes
        && (reached < WriteAhead.HEADER || |WriteAhead.Payload(Wrap(record))| <= limits.recordBytes);
      && ReplayRecords(limits, shard, epoch, bytes) == (if readable then Ok(records) else Err(MutationError))
      && WriteAhead.Repaired(limits, bytes) == (if readable then LogBytes(records) else bytes)
  {
    hide Wrap, Identified, UnwrapAll, WriteAhead.Loggable, WriteAhead.Records, WriteAhead.ReplayFile, WriteAhead.Frame,
         WriteAhead.Payload, WriteAhead.ReadableLog;
    WriteAhead.ReplaysWithTailIff(limits, WrapAll(records), Some(WriteAhead.Torn(Wrap(record), reached)));
    UnwrapAllInverts(shard, epoch, records);
    var bytes := LogBytes(records) + WriteAhead.Frame(Wrap(record))[..reached];
    assert bytes[..|LogBytes(records)|] == LogBytes(records);
  }

  /** An append that reported an error after the whole record had reached the file, tried again: the
      sequence number is there twice and nothing is given back any more. */
  lemma RepeatedAppendFails(limits: WriteAhead.WalLimits, shard: nat, epoch: nat, records: seq<MutationRecord>,
                            record: MutationRecord, again: MutationRecord)
    requires GapFree(shard, epoch, records + [record]) && AllLoggable(records + [record] + [again])
    requires again.sequence == record.sequence
    requires WriteAhead.ReadableLog(limits, WrapAll(records + [record] + [again]))
    ensures ReplayRecords(limits, shard, epoch, LogBytes(records + [record] + [again])) == Err(SequenceGap)
  {
    hide Identified, WriteAhead.Loggable, WriteAhead.Records, WriteAhead.ReplayFile, WriteAhead.ReadableLog, Decimal,
         ParseU64, Tag;
    var some, all := records + [record], records + [record] + [again];
    WriteAhead.ReplaysIff(limits, WrapAll(all));
    assert WrapAll(all)[..|some|] == WrapAll(some);
    forall i | 0 <= i < |some| ensures Identified(some[i]) { assert some[i] == all[i]; }
    UnwrapAllInverts(shard, epoch, some);
    assert some[|records|] == record;
    assert WrapAll(all)[|some|] == Wrap(again);
  }

  /** A record without these has no identity in the log. */
  predicate Complete(r: MutationRecord) {
    r.shard != 0 && r.epoch != 0 && r.sequence != 0 && r.operationId != "" && r.document.id != ""
  }

  class PersistentMutationLog {
    const wal: WriteAhead.WriteAheadLog

    constructor ()
      ensures fresh(wal) && wal.file == None
    {
      wal := new WriteAhead.WriteAheadLog();
    }

    /** The outcome of the file operation is as for the log underneath: part of the record, or all of
        it, may stay behind when an error is reported. */
    method Append(record: MutationRecord, reached: nat, synced: bool) returns (r: Result<(), ReplicationError>)
      requires record.sequence < U64_LIMIT
      modifies wal
      ensures !Complete(record) ==> r == Err(ConflictingOperation)
      ensures r == Err(ConflictingOperation) ==> wal.file == old(wal.file)
      ensures r != Err(ConflictingOperation) ==>
        var frame := WriteAhead.Frame(Wrap(record));
        && (!WriteAhead.Loggable(Wrap(record)) ==> r == Err(MutationError) && wal.file == old(wal.file))
        && (WriteAhead.Loggable(Wrap(record)) && reached < |frame| ==>
              r == Err(MutationError) && wal.Content() == old(wal.Content()) + frame[..reached])
        && (WriteAhead.Loggable(Wrap(record)) && reached >= |frame| ==>
              r == (if synced then Ok(()) else Err(MutationError)) && wal.Content() == old(wal.Content()) + frame)
    {
      hide Tag, Decimal, WriteAhead.Loggable, WriteAhead.Frame;
      if !Complete(record) { return Err(ConflictingOperation); }
      var written := wal.Append(Wrap(record), reached, synced);
      if written.Err? { return Err(MutationError); }
      r := Ok(());
    }

    method Replay(limits: WriteAhead.WalLimits, shard: nat, epoch: nat)
      returns (r: Result<seq<MutationRecord>, ReplicationError>)
      modifies wal
      ensures r == ReplayRecords(limits, shard, epoch, old(wal.Content()))
      ensures wal.Content() == WriteAhead.Repaired(limits, old(wal.Content()))
    {
      hide Unwrap, WriteAhead.ReplayFile;
      EmptyLog(limits);
      var replayed := wal.Replay(limits);
      if replayed.Err? { return Err(MutationError); }
      var entries := replayed.value;
      var records: seq<MutationRecord> := [];
      for i := 0 to |entries|
        invariant UnwrapAll(shard, epoch, entries[..i]) == Ok(records)
      {
        assert entries[..i + 1][..i] == entries[..i];
        var record := Unwrap(shard, epoch, i + 1, entries[i]);
        if record.Err? {
          UnwrapStops(shard, epoch, entries, i + 1);
          return Err(record.error);
        }
        records := records + [record.value];
      }
      assert entries[..|entries|] == entries;
      r := Ok(records);
    }
  }

  lemma EmptyLog(limits: WriteAhead.WalLimits)
    ensures WriteAhead.ReplayFile(limits, "") == Ok(WriteAhead.Replayed([], 0))
  {
  }

  lemma {:induction false} UnwrapStops(shard: nat, epoch: nat, entries: seq<Document>, n: nat)
    requires n <= |entries| && UnwrapAll(shard, epoch, entries[..n]).Err?
    ensures UnwrapAll(shard, epoch, entries) == UnwrapAll(shard, epoch, entries[..n])
    decreases |entries| - n
  {
    hide Unwrap;
    if n < |entries| {
      assert entries[..n + 1][..n] == entries[..n];
      UnwrapStops(shard, epoch, entries, n + 1);
    } else {
      assert entries[..n] == entries;
    }
  }

  // ---- recovery from the log ----

  /** The first record that a fresh replica turns away. */
  function FirstRefusal(shard: nat, epoch: nat, schema: Schema, records: seq<MutationRecord>): Option<ReplicationError>
    requires Usable(schema)
  {
    if records == [] then None
    else
      var n := |records| - 1;
      match FirstRefusal(shard, epoch, schema, records[..n])
      case Some(e) => Some(e)
      case None =>
        var refusal := Refusal(schema, Folded([], records[..n]), MAXIMUM_ID, records[n].document);
        match Judge(shard, epoch, n, Known(records[..n]), refusal, records[n])
        case Err(e) => Some(e)
        case Ok(_) => None
  }

  lemma {:induction false} RefusalLasts(shard: nat, epoch: nat, schema: Schema, records: seq<MutationRecord>, n: nat)
    requires Usable(schema) && n <= |records| && FirstRefusal(shard, epoch, schema, records[..n]).Some?
    ensures FirstRefusal(shard, epoch, schema, records) == FirstRefusal(shard, epoch, schema, records[..n])
    decreases |records| - n
  {
    hide Judge, Refusal, Known, Folded, Usable;
    if n < |records| {
      assert records[..n + 1][..n] == records[..n];
      RefusalLasts(shard, epoch, schema, records, n + 1);
    } else {
      assert records[..n] == records;
    }
  }

  /** A known operation is a record before this one. */
  lemma {:induction false} KnownIsEarlier(records: seq<MutationRecord>, op: string)
    requires op in Known(records)
    ensures exists i :: 0 <= i < |records| && records[i] == Known(records)[op]
    ensures Known(records)[op].operationId == op
  {
    var n := |records| - 1;
    if records[n].operationId != op {
      KnownIsEarlier(records[..n], op);
      var i :| 0 <= i < n && records[..n][i] == Known(records)[op];
      assert records[i] == Known(records)[op];
    }
  }

  /** In a gap-free list nothing is taken for a repeat. */
  lemma NoRepeats(shard: nat, epoch: nat, records: seq<MutationRecord>, n: nat, refusal: Option<IndexError>)
    requires GapFree(shard, epoch, records) && n < |records|
    ensures Judge(shard, epoch, n, Known(records[..n]), refusal, records[n]) != Ok(Duplicate)
  {
    hide Known;
    var op := records[n].operationId;
    if op in Known(records[..n]) {
      KnownIsEarlier(records[..n], op);
      var i :| 0 <= i < n && records[..n][i] == Known(records[..n])[op];
      assert records[i].sequence != records[n].sequence;
    }
  }

  lemma OrderedPrefix(shard: nat, epoch: nat, schema: Schema, records: seq<MutationRecord>)
    requires records != [] && Ordered(shard, epoch, schema, records)
    ensures Ordered(shard, epoch, schema, records[..|records| - 1])
  {
    hide Usable, Refusal, Folded;
    var head := records[..|records| - 1];
    assert forall i :: 0 <= i < |head| ==> head[i] == records[i] && head[..i] == records[..i];
  }

  lemma OrderedNext(shard: nat, epoch: nat, schema: Schema, head: seq<MutationRecord>, record: MutationRecord)
    requires Ordered(shard, epoch, schema, head)
    requires record.shard == shard && record.epoch == epoch && record.sequence == |head| + 1
    ensures Ordered(shard, epoch, schema, head + [record]) <==>
      && record.operationId != "" && record.operationId !in Known(head)
      && Refusal(schema, Folded([], head), MAXIMUM_ID, record.document).None?
  {
    hide Usable, Refusal, Folded, Known;
    var all := head + [record];
    KnownOperations(head, record.operationId);
    assert forall i :: 0 <= i < |head| ==> all[i] == head[i] && all[..i] == head[..i];
    assert all[..|head|] == head && all[|head|] == record;
  }

  /** Exactly the ordered lists go in whole. */
  lemma {:induction false} OrderedGoesIn(shard: nat, epoch: nat, schema: Schema, records: seq<MutationRecord>)
    requires Usable(schema) && GapFree(shard, epoch, records)
    ensures FirstRefusal(shard, epoch, schema, records) == None <==> Ordered(shard, epoch, schema, records)
  {
    hide Usable, Refusal, Known, Folded, Ordered;
    if records == [] {
      assert Ordered(shard, epoch, schema, records) by { NothingOrdered(shard, epoch, schema); }
    } else {
      var n := |records| - 1;
      var head := records[..n];
      OrderedGoesIn(shard, epoch, schema, head);
      if Ordered(shard, epoch, schema, records) { OrderedPrefix(shard, epoch, schema, records); }
      if Ordered(shard, epoch, schema, head) {
        assert records == head + [records[n]];
        OrderedNext(shard, epoch, schema, head, records[n]);
        NoRepeats(shard, epoch, records, n, Refusal(schema, Folded([], head), MAXIMUM_ID, records[n].document));
      }
    }
  }

  lemma NothingOrdered(shard: nat, epoch: nat, schema: Schema)
    requires Usable(schema)
    ensures Ordered(shard, epoch, schema, [])
  {
  }

  /** Applying records in turn: all go in, or the first that is turned away ends it. */
  method ApplyAll(replica: OrderedReplica, records: seq<MutationRecord>) returns (r: Result<(), ReplicationError>)
    requires replica.Valid() && replica.base == [] && replica.start == 0 && replica.log == []
    requires Usable(replica.index.schema) && GapFree(replica.shard, replica.epoch, records)
    modifies replica, replica.index
    ensures replica.Valid()
    ensures match FirstRefusal(replica.shard, replica.epoch, replica.index.schema, records)
      case Some(e) => r == Err(e)
      case None =>
        && r == Ok(()) && Follows(replica, replica.shard, replica.epoch, replica.index.schema, records)
        && replica.appliedSequence == |records|
  {
    hide InMemoryIndex.Valid, OrderedReplica.Valid, GapFree, Judge, Known, Refusal, Folded, Usable;
    ReplicaIsEmpty(replica);
    for i := 0 to |records|
      invariant replica.Valid() && FirstRefusal(replica.shard, replica.epoch, replica.index.schema, records[..i]).None?
      invariant Follows(replica, replica.shard, replica.epoch, replica.index.schema, records)
      invariant replica.appliedSequence == i
    {
      ReplicaIndex(replica);
      assert records[..i + 1][..i] == records[..i];
      NextAnswer(replica, records, i);
      var applied := replica.Apply(records[i]);
      match applied {
        case Err(e) =>
          RefusalLasts(replica.shard, replica.epoch, replica.index.schema, records, i + 1);
          return Err(e);
        case Ok(outcome) =>
          assert outcome == Applied by { assert outcome.Applied? || outcome.Duplicate?; }
          AppliedFollows(replica, replica.shard, replica.epoch, replica.index.schema, records, i, i);
      }
    }
    assert records[..|records|] == records;
    r := Ok(());
  }

  lemma NextAnswer(replica: OrderedReplica, records: seq<MutationRecord>, i: nat)
    requires replica.index.Valid() && Usable(replica.index.schema) && GapFree(replica.shard, replica.epoch, records)
    requires i < |records| && replica.appliedSequence == i
    requires Follows(replica, replica.shard, replica.epoch, replica.index.schema, records)
    ensures replica.Answer(records[i]) == Judge(replica.shard, replica.epoch, i, Known(records[..i]),
                                                Refusal(replica.index.schema, Folded([], records[..i]), MAXIMUM_ID,
                                                        records[i].document), records[i])
    ensures replica.Answer(records[i]) != Ok(Duplicate)
  {
    hide InMemoryIndex.Valid, GapFree, Judge, Known, Refusal, Folded, Usable;
    NoRepeats(replica.shard, replica.epoch, records, i,
              Refusal(replica.index.schema, Folded([], records[..i]), MAXIMUM_ID, records[i].document));
  }

  lemma ReplicaIsEmpty(replica: OrderedReplica)
    requires replica.Valid() && replica.start == 0 && replica.log == []
    ensures replica.appliedSequence == 0
  {
  }

  lemma ReplicaIndex(replica: OrderedReplica)
    requires replica.Valid()
    ensures replica.index.Valid()
  {
  }

  /** `recover_replica`: the replica rebuilt from its log is the one that applied the records the file
      gives back. */
  method RecoverReplica(node: string, shard: nat, epoch: nat, log: PersistentMutationLog, schema: Schema)
    returns (r: Result<OrderedReplica, ReplicationError>)
    requires Usable(schema)
    modifies log.wal
    ensures r.Ok? ==> fresh(r.value) && r.value.Valid() && r.value.index.slots == Folded([], r.value.log)
    ensures match ReplayRecords(WriteAhead.DEFAULT_LIMITS, shard, epoch, old(log.wal.Content()))
      case Err(e) => r == Err(e)
      case Ok(records) =>
        match FirstRefusal(shard, epoch, schema, records)
        case Some(e) => r == Err(e)
        case None =>
          r.Ok? && Follows(r.value, shard, epoch, schema, records) && r.value.appliedSequence == |records|
  {
    hide InMemoryIndex.Valid, GapFree, Usable, FirstRefusal, UnwrapAll;
    ghost var bytes := log.wal.Content();
    var replayed := log.Replay(WriteAhead.DEFAULT_LIMITS, shard, epoch);
    if replayed.Err? { return Err(replayed.error); }
    ReplayedIsGapFree(WriteAhead.DEFAULT_LIMITS, shard, epoch, bytes);
    var index := new InMemoryIndex(schema, MAXIMUM_ID);
    var replica := new OrderedReplica(node, shard, epoch, index, 0);
    var applied := ApplyAll(replica, replayed.value);
    if applied.Err? { return Err(applied.error); }
    r := Ok(replica);
  }

  lemma ReplayedIsGapFree(limits: WriteAhead.WalLimits, shard: nat, epoch: nat, bytes: string)
    requires ReplayRecords(limits, shard, epoch, bytes).Ok?
    ensures GapFree(shard, epoch, ReplayRecords(limits, shard, epoch, bytes).value)
  {
    hide UnwrapAll, WriteAhead.ReplayFile, GapFree;
    UnwrappedIsGapFree(shard, epoch, WriteAhead.ReplayFile(limits, bytes).value.documents);
  }

  // ---- recovery from a snapshot ----

  lemma ContentsOfStore(slots: Slots, d: Document)
    requires DistinctIds(slots)
    ensures ContentsOf(Store(slots, d)) == ContentsOf(slots)[d.id := d]
  {
    match Find(slots, d.id)
    case None => assert (slots + [d])[..|slots|] == slots;
    case Some(i) => ContentsOfUpdate(slots, i, d);
  }

  lemma {:induction false} ContentsOfUpdate(slots: Slots, i: nat, d: Document)
    requires DistinctIds(slots) && i < |slots| && slots[i].id == d.id
    ensures ContentsOf(slots[i := d]) == ContentsOf(slots)[d.id := d]
    decreases |slots|
  {
    var n := |slots| - 1;
    if i == n {
      assert slots[i := d][..n] == slots[..n];
    } else {
      assert slots[i := d][..n] == slots[..n][i := d];
      ContentsOfUpdate(slots[..n], i, d);
    }
  }

  lemma {:induction false} ContentsSize(slots: Slots)
    requires DistinctIds(slots)
    ensures |ContentsOf(slots)| == |slots|
  {
    if slots != [] {
      var n := |slots| - 1;
      ContentsSize(slots[..n]);
      ContentsKeys(slots[..n], slots[n].id);
      assert slots[n].id !in ContentsOf(slots[..n]);
      assert ContentsOf(slots).Keys == ContentsOf(slots[..n]).Keys + {slots[n].id};
      assert |ContentsOf(slots).Keys| == |ContentsOf(slots)|
        && |ContentsOf(slots[..n]).Keys| == |ContentsOf(slots[..n])|;
    }
  }

  /** Whether a mutation is accepted depends on the documents, not on their internal IDs. */
  lemma RefusalByContents(schema: Schema, a: Slots, b: Slots, maximum: nat, d: Document)
    requires Usable(schema) && DistinctIds(a) && DistinctIds(b) && ContentsOf(a) == ContentsOf(b)
    ensures Refusal(schema, a, maximum, d) == Refusal(schema, b, maximum, d)
  {
    hide FieldsAccepted, MetadataAccepted, Analyzable, Usable, DistinctIds;
    ContentsSize(a);
    ContentsSize(b);
    ContentsKeys(a, d.id);
    ContentsKeys(b, d.id);
    if Find(a, d.id).Some? {
      ContentsAt(a, d.id);
      ContentsAt(b, d.id);
    }
  }

  lemma FoldStep(base: Slots, log: seq<MutationRecord>, n: nat)
    requires n < |log|
    ensures Folded(base, log[..n + 1]) == Store(Folded(base, log[..n]), log[n].document)
  {
    assert log[..n + 1][..n] == log[..n];
  }

  /** A replica restored at sequence `k` and one that applied everything hold the same documents
      after each further record, and accept the same next one. */
  lemma {:induction false} CatchUpAgrees(shard: nat, epoch: nat, schema: Schema, log: seq<MutationRecord>, k: nat,
                                         base: Slots, n: nat)
    requires Ordered(shard, epoch, schema, log) && k <= n <= |log|
    requires DistinctIds(base) && ContentsOf(base) == ContentsOf(Folded([], log[..k]))
    ensures DistinctIds(Folded(base, log[k..n])) && DistinctIds(Folded([], log[..n]))
    ensures ContentsOf(Folded(base, log[k..n])) == ContentsOf(Folded([], log[..n]))
    ensures n < |log| ==> Refusal(schema, Folded(base, log[k..n]), MAXIMUM_ID, log[n].document).None?
    decreases n
  {
    hide Refusal, Store, ContentsOf, Folded, DistinctIds, Ordered;
    FoldedDistinct(base, log[k..n]);
    assert DistinctIds([]) by { NoIds(); }
    FoldedDistinct([], log[..n]);
    if n == k {
      assert log[k..n] == [];
      FoldNothing(base);
    } else {
      CatchUpAgrees(shard, epoch, schema, log, k, base, n - 1);
      assert log[k..n] == log[k..][..n - k] && log[k..n - 1] == log[k..][..n - 1 - k];
      FoldStep(base, log[k..], n - 1 - k);
      FoldStep([], log, n - 1);
      ContentsOfStore(Folded(base, log[k..n - 1]), log[n - 1].document);
      ContentsOfStore(Folded([], log[..n - 1]), log[n - 1].document);
    }
    if n < |log| {
      AcceptedInPlace(shard, epoch, schema, log, n);
      RefusalByContents(schema, Folded(base, log[k..n]), Folded([], log[..n]), MAXIMUM_ID, log[n].document);
    }
  }

  lemma NoIds()
    ensures DistinctIds([])
  {
  }

  lemma FoldNothing(base: Slots)
    ensures Folded(base, []) == base
  {
  }

  lemma AcceptedInPlace(shard: nat, epoch: nat, schema: Schema, log: seq<MutationRecord>, n: nat)
    requires Ordered(shard, epoch, schema, log) && n < |log|
    ensures Usable(schema) && Refusal(schema, Folded([], log[..n]), MAXIMUM_ID, log[n].document).None?
  {
    hide Refusal, Folded, Usable;
  }

  /** Two corpora with the same documents have the same postings up to the renaming of internal IDs. */
  lemma SamePostings(schema: Schema, a: Slots, b: Slots, f: string, t: string, i: nat, j: nat, p: Posting)
    requires i < |a| && j < |b| && a[i] == b[j]
    requires p in Postings(schema, a, f, t) && p.doc == i + 1
    ensures Posting(j + 1, p.frequency, p.positions) in Postings(schema, b, f, t)
  {
    hide FieldTokens, IndexModel.Positions, Terms, Postings;
    var k :| 0 <= k < |Postings(schema, a, f, t)| && Postings(schema, a, f, t)[k] == p;
    PostingHasSlot(schema, a, f, t, k);
    var l := SlotHasPosting(schema, b, f, t, j);
    assert Postings(schema, b, f, t)[l] == Posting(j + 1, p.frequency, p.positions);
  }

  /** The renaming is a bijection between the slots. */
  lemma SameSlots(a: Slots, b: Slots, i: nat)
    requires DistinctIds(a) && DistinctIds(b) && ContentsOf(a) == ContentsOf(b) && i < |a|
    ensures |a| == |b| && Find(b, a[i].id).Some? && b[Find(b, a[i].id).value] == a[i]
  {
    ContentsSize(a);
    ContentsSize(b);
    FindDistinct(a, i);
    ContentsKeys(a, a[i].id);
    ContentsKeys(b, a[i].id);
    ContentsAt(a, a[i].id);
    ContentsAt(b, a[i].id);
  }

  /** The documents of an index in order of internal ID. */
  method SlotsOf(index: InMemoryIndex) returns (r: Slots)
    requires index.Valid()
    ensures r == index.slots
  {
    hide HoldsPostings, HoldsStatistics, DistinctIds, Storable, Usable;
    r := [];
    while |r| + 1 in index.externalIds
      invariant |r| <= |index.slots| && r == index.slots[..|r|]
      decreases |index.slots| - |r|
    {
      RecordAt(index.schema, index.slots, index.documents, index.externalIds, |r| + 1);
      r := r + [index.documents[index.externalIds[|r| + 1]].document];
    }
  }

  /** `write_replica_snapshot`: the documents under the applied sequence as segment ID. The file depends
      on the internal IDs too; `fits` is what its check on reading back accepts besides their number. */
  method WriteSnapshot(replica: OrderedReplica, fits: Slots -> bool) returns (r: Result<Segment, ReplicationError>)
    requires replica.Valid()
    ensures var slots := Folded(replica.base, replica.log);
      r == if replica.appliedSequence == 0 then Err(StaleSequence)
           else if |slots| > MAXIMUM_SEGMENT_DOCUMENTS || !fits(slots) then Err(MutationError)
           else Ok(Segment(replica.appliedSequence, replica.index.schema, ContentsOf(slots)))
  {
    hide InMemoryIndex.Valid, ContentsOf, Folded;
    if replica.appliedSequence == 0 { return Err(StaleSequence); }
    var documents := Snapshot(replica.index);
    var snapshot := SlotsOf(replica.index);
    if |snapshot| > MAXIMUM_SEGMENT_DOCUMENTS || !fits(snapshot) { return Err(MutationError); }
    r := Ok(Segment(replica.appliedSequence, replica.index.schema, documents));
  }

  /** `OrderedReplica::restore`. */
  method Restore(node: string, shard: nat, epoch: nat, snapshot: Segment)
    returns (r: Result<OrderedReplica, ReplicationError>)
    requires Usable(snapshot.schema) && AllStorable(snapshot.schema, snapshot.documents)
    ensures shard == 0 || epoch == 0 || snapshot.id == 0 ==> r == Err(InvalidTopology)
    ensures r.Ok? <==> shard != 0 && epoch != 0 && snapshot.id != 0 && |snapshot.documents| <= MAXIMUM_DOCUMENTS
    ensures r.Ok? ==>
      && fresh(r.value) && fresh(r.value.index) && r.value.Valid() && r.value.shard == shard && r.value.epoch == epoch
      && r.value.index.schema == snapshot.schema && r.value.log == [] && r.value.start == snapshot.id
      && DistinctIds(r.value.base) && ContentsOf(r.value.base) == snapshot.documents
  {
    if shard == 0 || epoch == 0 || snapshot.id == 0 { return Err(InvalidTopology); }
    var index := BuildIndex(snapshot.schema, snapshot.documents);
    if index.Err? { return Err(MutationError); }
    var replica := new OrderedReplica(node, shard, epoch, index.value, snapshot.id);
    r := Ok(replica);
  }

  /** A restored replica takes every later record of the log and ends with the primary's documents. */
  method CatchUp(replica: OrderedReplica, log: seq<MutationRecord>, k: nat) returns (r: Result<(), ReplicationError>)
    requires replica.Valid() && replica.log == [] && replica.start == k <= |log|
    requires Ordered(replica.shard, replica.epoch, replica.index.schema, log)
    requires DistinctIds(replica.base) && ContentsOf(replica.base) == ContentsOf(Folded([], log[..k]))
    modifies replica, replica.index
    ensures r == Ok(()) && replica.Valid() && replica.appliedSequence == |log|
    ensures ContentsOf(replica.index.slots) == ContentsOf(Folded([], log))
  {
    hide InMemoryIndex.Valid, Ordered, ContentsOf, Folded, DistinctIds;
    assert log[k..k] == [];
    for i := k to |log|
      invariant replica.Valid() && replica.log == log[k..i] && replica.appliedSequence == i
    {
      CatchUpAgrees(replica.shard, replica.epoch, replica.index.schema, log, k, replica.base, i);
      NextIsApplied(replica, log, k, i);
      assert log[k..i] + [log[i]] == log[k..i + 1];
      var applied := replica.Apply(log[i]);
      match applied {
        case Err(e) => return Err(e);
        case Ok(_) =>
      }
    }
    CatchUpAgrees(replica.shard, replica.epoch, replica.index.schema, log, k, replica.base, |log|);
    assert log[..|log|] == log;
    r := Ok(());
  }

  lemma NextIsApplied(replica: OrderedReplica, log: seq<MutationRecord>, k: nat, i: nat)
    requires replica.Valid() && k <= i < |log| && replica.log == log[k..i] && replica.appliedSequence == i
    requires Ordered(replica.shard, replica.epoch, replica.index.schema, log)
    requires Refusal(replica.index.schema, Folded(replica.base, log[k..i]), MAXIMUM_ID, log[i].document).None?
    ensures replica.Answer(log[i]) == Ok(Applied)
  {
    hide InMemoryIndex.Valid, Refusal, Folded;
    var mine := log[k..i];
    forall a, b | 0 <= a < b < |mine| ensures mine[a].operationId != mine[b].operationId {
      assert mine[a] == log[k + a] && mine[b] == log[k + b];
    }
    KnownOperations(mine, log[i].operationId);
    forall a | 0 <= a < |mine| ensures mine[a].operationId != log[i].operationId { assert mine[a] == log[k + a]; }
  }
}

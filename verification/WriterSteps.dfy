/** Each step of the writer keeps the invariant. */
module WriterSteps {
  import opened Basics
  import opened Schemas
  import opened Generations
  import opened WriterMachine
  import opened WriterSafety
  import WriteAhead

  // ---- puts ----

  lemma FromMore(p: Contents, history: seq<Document>, d: Document)
    requires From(p, history)
    ensures From(p, history + [d])
  {
  }

  lemma FreezeKeeps(disk: Disk, history: seq<Document>, m: Memory)
    requires ContentsOk(disk, history, m) && !m.failed
    ensures ContentsOk(disk, history, Freeze(m))
  {
    hide From, Above, PartsOf, Ordered;
    if m.buffered != 0 {
      var n := Freeze(m);
      assert Older(disk, n) == Older(disk, m) + [m.active];
      assert Above(map[], m.active) by { AboveNothing(m.active); }
      assert From(map[], history) by { FromNothing(history); }
      forall p: Contents | p in Older(disk, n) ensures From(p, history) && Above(n.active, p) { AboveNothing(p); }
      forall d: Document | d in history && m.worker != Failing ensures Covered(Older(disk, n) + [n.active], d) {
        CoveredMore(Older(disk, m) + [m.active], Older(disk, n) + [n.active], d);
      }
    }
  }

  lemma AboveNothing(p: Contents)
    ensures Above(map[], p)
  {
  }

  lemma FromNothing(history: seq<Document>)
    ensures From(map[], history)
  {
  }

  /** Steps that leave the files and the publication alone. */
  lemma SamePublication(disk: Disk, m: Memory, disk': Disk, m': Memory)
    requires disk' == disk.(wal := disk'.wal, torn := disk'.torn)
    requires m'.manifest == m.manifest && m'.nextSegment == m.nextSegment && m'.worker == m.worker
    requires m'.job == m.job && m'.reader == m.reader && (m.failed ==> m'.failed)
    requires ManifestOk(disk, m) && JobOk(disk, m) && ReaderOk(disk, m)
    ensures ManifestOk(disk', m') && JobOk(disk', m') && ReaderOk(disk', m')
    ensures CurrentManifest(disk') == CurrentManifest(disk) && CurrentParts(disk') == CurrentParts(disk)
  {
    hide Prepared, AscendingBelow, PartsOf, FileOf;
  }

  /** The document is newer than everything logged. */
  ghost predicate Fresh(history: seq<Document>, d: Document) {
    forall e: Document :: e in history && e.id == d.id ==> e.version < d.version
  }

  lemma LoggedHistory(c: Config, s: State, d: Document)
    requires HistoryOk(c, s) && Fresh(s.history, d) && c.accepts(d)
    ensures Ordered(s.history + [d])
    ensures forall e: Document :: e in s.history + [d] ==> c.accepts(e)
  {
    var more := s.history + [d];
    forall i, j | 0 <= i < j < |more| && more[i].id == more[j].id ensures more[i].version < more[j].version {
      if j == |s.history| { assert s.history[i] in s.history; }
    }
  }

  lemma LoggedDisk(disk: Disk, history: seq<Document>, d: Document)
    requires DiskOk(disk, history)
    ensures DiskOk(disk.(wal := disk.wal + [d]), history + [d])
  {
    hide From, PartsOf, AscendingBelow;
    var after := disk.(wal := disk.wal + [d]);
    assert CurrentParts(after) == CurrentParts(disk) && CurrentManifest(after) == CurrentManifest(disk);
    forall p: Contents | p in CurrentParts(after) ensures From(p, history + [d]) { FromMore(p, history, d); }
    forall e: Document | e in history + [d] ensures e in after.wal || Covered(CurrentParts(after), e) {
      assert e in history || e == d;
    }
  }

  /** What is left of an append is neither lost nor recovered. */
  lemma TornDisk(disk: Disk, history: seq<Document>, torn: Option<WriteAhead.Torn>)
    requires DiskOk(disk, history)
    ensures DiskOk(disk.(torn := torn), history)
    ensures CurrentManifest(disk.(torn := torn)) == CurrentManifest(disk)
    ensures CurrentParts(disk.(torn := torn)) == CurrentParts(disk)
  {
    hide From, PartsOf, AscendingBelow;
  }

  lemma AboveMore(active: Contents, p: Contents, history: seq<Document>, versions: map<string, nat>, d: Document)
    requires Above(active, p) && From(p, history)
    requires forall e: Document :: e in history ==> e.id in versions && versions[e.id] >= e.version
    requires d.id in versions ==> d.version > versions[d.id]
    ensures Above(active[d.id := d], p)
  {
  }

  lemma FreshByVersions(history: seq<Document>, versions: map<string, nat>, d: Document)
    requires forall e: Document :: e in history ==> e.id in versions && versions[e.id] >= e.version
    requires d.id in versions ==> d.version > versions[d.id]
    ensures Fresh(history, d)
    ensures forall e: Document :: e in history + [d] ==>
      e.id in versions[d.id := d.version] && versions[d.id := d.version][e.id] >= e.version
  {
    forall e: Document | e in history + [d]
      ensures e.id in versions[d.id := d.version] && versions[d.id := d.version][e.id] >= e.version
    {
      assert e in history || e == d;
    }
  }

  /** A document that is only in memory is newer than any part, or it would have been refused. */
  lemma LoggedContents(disk: Disk, disk': Disk, history: seq<Document>, m: Memory, m': Memory, d: Document)
    requires ContentsOk(disk, history, m) && !m.failed && disk' == disk.(wal := disk'.wal, torn := disk'.torn)
    requires d.id in m.versions ==> d.version > m.versions[d.id]
    requires m'
      == m.(active := m.active[d.id := d], versions := m.versions[d.id := d.version], buffered := m.buffered + 1)
    ensures Fresh(history, d)
    ensures ContentsOk(disk', history + [d], m')
  {
    hide PartsOf, From, Above, AllCovered, Fresh;
    assert Older(disk', m') == Older(disk, m);
    assert d.id in m'.active;
    FreshByVersions(history, m.versions, d);
    forall p: Contents | p in Older(disk, m) ensures From(p, history + [d]) && Above(m'.active, p) {
      FromMore(p, history, d);
      AboveMore(m.active, p, history, m.versions, d);
    }
    FromPut(m.active, history, d);
    if m.worker != Failing { LoggedCovers(Older(disk, m), m.active, history, m.versions, d); }
  }

  lemma FromPut(active: Contents, history: seq<Document>, d: Document)
    requires From(active, history)
    ensures From(active[d.id := d], history + [d])
  {
    FromMore(active, history, d);
  }

  lemma LoggedCovers(older: seq<Contents>, active: Contents, history: seq<Document>, versions: map<string, nat>,
                     d: Document)
    requires AllCovered(older + [active], history) && From(active, history)
    requires forall e: Document :: e in history ==> e.id in versions && versions[e.id] >= e.version
    requires d.id in versions ==> d.version > versions[d.id]
    ensures AllCovered(older + [active[d.id := d]], history + [d])
  {
    forall e: Document | e in history + [d] ensures Covered(older + [active[d.id := d]], e) {
      hide AllCovered, Covered;
      LoggedCover(older, active, history, d, e);
    }
  }

  lemma LoggedCover(older: seq<Contents>, active: Contents, history: seq<Document>, d: Document, e: Document)
    requires AllCovered(older + [active], history) && e in history + [d]
    requires d.id in active ==> active[d.id].version < d.version
    ensures Covered(older + [active[d.id := d]], e)
  {
    var now := active[d.id := d];
    var after := older + [now];
    assert after[|older|] == now && now in after;
    if e != d {
      assert e in history;
      var p: Contents :| p in older + [active] && e.id in p && p[e.id].version >= e.version;
      if p in older {
        var i :| 0 <= i < |older| && older[i] == p;
        assert after[i] == p;
      } else {
        assert p == active;
        assert e.id in now && now[e.id].version >= e.version;
      }
    }
  }

  /** After a failed append the active index is not relied on any more. */
  lemma FailedContents(disk: Disk, disk': Disk, history: seq<Document>, more: seq<Document>, m: Memory, m': Memory)
    requires ContentsOk(disk, history, m) && disk' == disk.(wal := disk'.wal, torn := disk'.torn) && history <= more
    requires m'.failed && m'.manifest == m.manifest && m'.worker == m.worker && m'.frozen == m.frozen
    ensures ContentsOk(disk', more, m')
  {
    hide PartsOf, AllCovered;
    assert Older(disk', m') == Older(disk, m);
    forall p: Contents | p in Older(disk, m) ensures From(p, more) {
      assert forall d: Document :: d in history ==> d in more;
    }
  }

  lemma AcceptKeeps(c: Config, s: State, m: Memory, d: Document, append: Append)
    requires HistoryOk(c, s) && DiskOk(s.disk, s.history) && MemoryOk(s.disk, s.history, m) && !m.failed
    ensures Inv(c, Accept(c, s, m, d, append))
  {
    hide ContentsOk, DiskOk, ManifestOk, JobOk, ReaderOk, Ordered, Freeze;
    if (d.id in m.versions && d.version <= m.versions[d.id]) || !c.accepts(d) { return; }
    var active := m.active[d.id := d];
    var logged := m.(active := active, versions := m.versions[d.id := d.version], buffered := m.buffered + 1);
    var disk' := s.disk.(wal := s.disk.wal + [d]);
    var after := Accept(c, s, m, d, append);
    LoggedContents(s.disk, disk', s.history, m, logged, d);
    LoggedHistory(c, s, d);
    LoggedDisk(s.disk, s.history, d);
    match append {
      case Appended =>
        FreezeKeeps(disk', s.history + [d], logged);
        FreezeFrame(logged);
        SamePublication(s.disk, m, disk', after.memory.value);
        TailContents(disk', s.history + [d], logged);
      case NotRecorded(_) =>
        FailedContents(s.disk, after.disk, s.history, s.history, m, after.memory.value);
        SamePublication(s.disk, m, after.disk, after.memory.value);
        TornDisk(s.disk, s.history, after.disk.torn);
      case RecordedButFailed =>
        FailedContents(s.disk, disk', s.history, s.history + [d], m, after.memory.value);
        SamePublication(s.disk, m, disk', after.memory.value);
    }
  }

  lemma FreezeFrame(m: Memory)
    ensures var n := Freeze(m);
      && n.manifest == m.manifest && n.nextSegment == m.nextSegment && n.worker == m.worker
      && n.job == m.job && n.reader == m.reader && n.failed == m.failed
  {
  }

  lemma TailContents(disk: Disk, history: seq<Document>, m: Memory)
    requires ContentsOk(disk, history, m)
    ensures forall parked, tails, refresh, reader ::
      ContentsOk(disk, history, m.(parked := parked, tails := tails, refresh := refresh, reader := reader))
  {
    hide From, Above, PartsOf, AllCovered;
    forall parked, tails, refresh, reader
      ensures ContentsOk(disk, history, m.(parked := parked, tails := tails, refresh := refresh, reader := reader))
    {
      var n := m.(parked := parked, tails := tails, refresh := refresh, reader := reader);
      assert Older(disk, n) == Older(disk, m);
    }
  }

  /** Waiting, arriving and rotating change nothing that was promised. */
  lemma WaitingKeeps(disk: Disk, history: seq<Document>, m: Memory, m': Memory)
    requires MemoryOk(disk, history, m)
    requires m' == m.(parked := m'.parked, tails := m'.tails, refresh := m'.refresh)
    ensures MemoryOk(disk, history, m')
  {
    hide ContentsOk, ManifestOk, JobOk, ReaderOk;
    TailContents(disk, history, m);
    assert m' == m.(parked := m'.parked, tails := m'.tails, refresh := m'.refresh, reader := m.reader);
    SamePublication(disk, m, disk, m');
  }

  lemma FrozenKeeps(disk: Disk, history: seq<Document>, m: Memory)
    requires MemoryOk(disk, history, m) && !m.failed
    ensures MemoryOk(disk, history, Freeze(m))
  {
    hide ContentsOk, ManifestOk, JobOk, ReaderOk, Freeze;
    FreezeKeeps(disk, history, m);
    FreezeFrame(m);
    SamePublication(disk, m, disk, Freeze(m));
  }

  lemma PutKeeps(c: Config, s: State, m: Memory, d: Document, append: Append)
    requires Inv(c, s) && s.memory == Some(m) && PutArrives(c, s, m, d, append).Some?
    ensures Inv(c, PutArrives(c, s, m, d, append).value)
  {
    hide HistoryOk, DiskOk, MemoryOk, Accept, Freeze;
    if m.buffered < c.maxBuffered {
      AcceptKeeps(c, s, m, d, append);
    } else if |m.frozen| < c.maxFrozen {
      FrozenKeeps(s.disk, s.history, m);
      FreezeFrame(m);
      AcceptKeeps(c, s, Freeze(m), d, append);
    } else {
      WaitingKeeps(s.disk, s.history, m, m.(parked := m.parked + [d]));
      DownUnchanged(c, s, m.(parked := m.parked + [d]));
    }
  }

  lemma DownUnchanged(c: Config, s: State, m: Memory)
    requires Inv(c, s) && MemoryOk(s.disk, s.history, m)
    ensures Inv(c, Up(s, m))
  {
    hide DiskOk, MemoryOk;
  }

  lemma ResumeKeeps(c: Config, s: State, m: Memory, i: nat, append: Append)
    requires Inv(c, s) && s.memory == Some(m) && PutResumes(c, s, m, i, append).Some?
    ensures Inv(c, PutResumes(c, s, m, i, append).value)
  {
    hide HistoryOk, DiskOk, MemoryOk, Accept, Freeze;
    var woken := m.(parked := m.parked[..i] + m.parked[i + 1..]);
    WaitingKeeps(s.disk, s.history, m, woken);
    FrozenKeeps(s.disk, s.history, woken);
    FreezeFrame(woken);
    AcceptKeeps(c, s, Freeze(woken), m.parked[i], append);
  }

  lemma RotateKeeps(c: Config, s: State, m: Memory)
    requires Inv(c, s) && s.memory == Some(m) && TailResumes(c, s, m).Some?
    ensures Inv(c, TailResumes(c, s, m).value)
  {
    hide HistoryOk, DiskOk, MemoryOk, Freeze;
    var woken := m.(tails := m.tails - 1);
    WaitingKeeps(s.disk, s.history, m, woken);
    FrozenKeeps(s.disk, s.history, woken);
    DownUnchanged(c, s, Freeze(woken));
  }

  // ---- refresh ----

  lemma RefreshWaits(c: Config, s: State, m: Memory, m': Memory)
    requires Inv(c, s) && s.memory == Some(m) && m' == m.(refresh := m'.refresh)
    ensures Inv(c, Up(s, m'))
  {
    hide HistoryOk, DiskOk, MemoryOk;
    WaitingKeeps(s.disk, s.history, m, m');
    DownUnchanged(c, s, m');
  }

  lemma RefreshFreezeKeeps(c: Config, s: State, m: Memory)
    requires Inv(c, s) && s.memory == Some(m) && RefreshFreezes(c, s, m).Some?
    ensures Inv(c, RefreshFreezes(c, s, m).value)
  {
    hide HistoryOk, DiskOk, MemoryOk, Freeze;
    FrozenKeeps(s.disk, s.history, m);
    WaitingKeeps(s.disk, s.history, Freeze(m), Freeze(m).(refresh := WaitingForIdle));
    DownUnchanged(c, s, Freeze(m).(refresh := WaitingForIdle));
  }

  /** With nothing frozen, in flight or buffered, the published segments hold everything. */
  lemma IdleIsPublished(disk: Disk, history: seq<Document>, m: Memory)
    requires MemoryOk(disk, history, m) && !m.failed && !Busy(m) && m.frozen == [] && m.buffered == 0
    ensures AllCovered(CurrentParts(disk), history)
  {
    hide From, Above, ManifestOk, Prepared;
    var parts := PartsOf(disk.files, m.manifest.segments);
    assert Older(disk, m) + [m.active] == parts + [map[]];
    forall d: Document | d in history ensures Covered(CurrentParts(disk), d) {
      assert Covered(parts + [map[]], d);
      assert Covered(parts, d) by {
        var p: Contents :| p in parts + [map[]] && d.id in p && p[d.id].version >= d.version;
        assert p in parts;
      }
      InstalledOrCurrent(disk, m, d);
    }
  }

  /** While `manifest_` is behind CURRENT both cover the same documents. */
  lemma InstalledOrCurrent(disk: Disk, m: Memory, d: Document)
    requires ManifestOk(disk, m) && JobOk(disk, m) && Covered(PartsOf(disk.files, m.manifest.segments), d)
    requires !m.failed && m.worker != Failing
    ensures Covered(CurrentParts(disk), d)
  {
    hide AscendingBelow, Complete, PartsOf;
    if m.job.Some? && m.job.value.stage.Installing? {
      var before := Before(disk, m, m.job.value.compaction);
      CoveredMore(PartsOf(disk.files, m.manifest.segments), before, d);
    }
  }

  lemma EmptiedDisk(disk: Disk, history: seq<Document>)
    requires DiskOk(disk, history) && AllCovered(CurrentParts(disk), history)
    ensures DiskOk(disk.(wal := [], torn := None), history)
  {
    hide From, AscendingBelow;
    assert CurrentParts(disk.(wal := [], torn := None)) == CurrentParts(disk);
  }

  lemma ResetMemory(disk: Disk, disk': Disk, history: seq<Document>, m: Memory, m': Memory)
    requires MemoryOk(disk, history, m) && disk' == disk.(wal := disk'.wal, torn := disk'.torn)
    requires m' == m.(refresh := m'.refresh, failed := m'.failed) && (m.failed ==> m'.failed)
    ensures MemoryOk(disk', history, m')
  {
    hide From, Above, AllCovered, ManifestOk, JobOk, ReaderOk;
    SamePublication(disk, m, disk', m');
    assert Older(disk', m') == Older(disk, m);
  }

  /** Resetting the log is safe when the active index is empty. */
  lemma ResetKeeps(c: Config, s: State, m: Memory, reset: Reset)
    requires Inv(c, s) && s.memory == Some(m) && RefreshResets(s, m, reset).Some?
    requires m.buffered == 0 || reset == Kept
    ensures Inv(c, RefreshResets(s, m, reset).value)
  {
    hide DiskOk, MemoryOk, Ordered;
    var after := RefreshResets(s, m, reset).value;
    ResetMemory(s.disk, after.disk, s.history, m, after.memory.value);
    if reset != Kept {
      IdleIsPublished(s.disk, s.history, m);
      EmptiedDisk(s.disk, s.history);
    }
  }

  // ---- the background thread ----

  lemma TakeKeeps(c: Config, s: State, m: Memory)
    requires Inv(c, s) && s.memory == Some(m) && WorkerTakes(s, m).Some?
    ensures Inv(c, WorkerTakes(s, m).value)
  {
    hide HistoryOk, DiskOk, Prepared, AscendingBelow, Complete, From, Above, PartsOf;
    var n := WorkerTakes(s, m).value.memory.value;
    assert m.frozen == [m.frozen[0]] + m.frozen[1..];
    assert Older(s.disk, n) == Older(s.disk, m);
    assert MemoryOk(s.disk, s.history, n);
    DownUnchanged(c, s, n);
  }

  lemma LockKeeps(c: Config, s: State, m: Memory, job: Job)
    requires Inv(c, s) && s.memory == Some(m) && m.job.None? && job.stage == Planning
    requires job.party.Caller? ==> job.compaction
    requires job.party.Background? ==> if job.compaction then m.worker == Merging else m.worker.Flushing?
    ensures Inv(c, Up(s, m.(job := Some(job))))
  {
    hide HistoryOk, DiskOk, From, Above, AllCovered, AscendingBelow, Complete, PartsOf;
    assert Older(s.disk, m.(job := Some(job))) == Older(s.disk, m);
    assert MemoryOk(s.disk, s.history, m.(job := Some(job)));
    DownUnchanged(c, s, m.(job := Some(job)));
  }

  lemma SameContents(disk: Disk, disk': Disk, history: seq<Document>, m: Memory, m': Memory)
    requires ContentsOk(disk, history, m)
    requires m' == m.(job := m'.job, nextSegment := m'.nextSegment, reader := m'.reader)
    requires PartsOf(disk'.files, m.manifest.segments) == PartsOf(disk.files, m.manifest.segments)
    ensures ContentsOk(disk', history, m')
  {
    hide From, Above, AllCovered, PartsOf;
    assert Older(disk', m') == Older(disk, m);
  }

  lemma SameReader(disk: Disk, m: Memory, m': Memory)
    requires ReaderOk(disk, m) && m' == m.(job := m'.job, nextSegment := m'.nextSegment)
    ensures ReaderOk(disk, m')
  {
    hide FileOf;
  }

  lemma PartsSame(files: map<nat, Contents>, files': map<nat, Contents>, ids: seq<nat>)
    requires forall i :: 0 <= i < |ids| ==> FileOf(files, ids[i]) == FileOf(files', ids[i])
    ensures PartsOf(files, ids) == PartsOf(files', ids)
  {
  }

  lemma ReplacesItself(parts: seq<Contents>)
    ensures Replaces(parts, parts)
  {
  }

  lemma AscendingPush(ids: seq<nat>, id: nat)
    requires AscendingBelow(ids, id) && id > 0
    ensures AscendingBelow(ids + [id], id + 1) && AscendingBelow(ids, id + 1) && id !in ids
  {
  }

  /** The plan of a flush adds exactly the snapshot. */
  lemma FlushPrepared(disk: Disk, m: Memory)
    requires ManifestOk(disk, m) && m.worker.Flushing?
    ensures var id := m.nextSegment;
      Prepared(Before(disk, m, false), m.manifest.generation, id + 1, disk.files[id := m.worker.snapshot],
               Manifest(m.manifest.generation + 1, m.manifest.segments + [id]))
  {
    var id, segments := m.nextSegment, m.manifest.segments;
    var files := disk.files[id := m.worker.snapshot];
    AscendingPush(segments, id);
    PartsSame(disk.files, files, segments);
    assert PartsOf(files, segments + [id]) == Before(disk, m, false);
    ReplacesItself(Before(disk, m, false));
  }

  lemma PlanFlushKeeps(c: Config, s: State, m: Memory)
    requires Inv(c, s) && s.memory == Some(m) && FlushPlans(s, m).Some?
    ensures Inv(c, FlushPlans(s, m).value)
  {
    hide HistoryOk, DiskOk, ContentsOk, ReaderOk, Prepared, Complete;
    var n := FlushPlans(s, m).value.memory.value;
    FlushPrepared(s.disk, m);
    AscendingPush(m.manifest.segments, m.nextSegment);
    SameContents(s.disk, s.disk, s.history, m, n);
    SameReader(s.disk, m, n);
    assert Before(s.disk, n, false) == Before(s.disk, m, false);
    assert MemoryOk(s.disk, s.history, n);
    DownUnchanged(c, s, n);
  }

  // ---- compaction ----

  lemma {:induction false} OthersAscend(ids: seq<nat>, selected: set<nat>, bound: nat)
    requires AscendingBelow(ids, bound)
    ensures AscendingBelow(Others(ids, selected), bound)
    ensures forall x :: x in Others(ids, selected) ==> x in ids
  {
    if ids != [] {
      var n := |ids| - 1;
      var head := ids[..n];
      OthersAscend(head, selected, bound);
      var kept := Others(head, selected);
      assert forall x :: x in head ==> x in ids && x < ids[n] by {
        forall x | x in head ensures x in ids && x < ids[n] { var i :| 0 <= i < n && ids[i] == x; }
      }
      assert forall i :: 0 <= i < |kept| ==> kept[i] in head;
      assert Others(ids, selected) == kept + if n in selected then [] else [ids[n]];
    }
  }

  lemma {:induction false} PartsOfOthers(files: map<nat, Contents>, ids: seq<nat>, selected: set<nat>)
    ensures PartsOf(files, Others(ids, selected)) == Others(PartsOf(files, ids), selected)
  {
    if ids != [] {
      var n := |ids| - 1;
      PartsOfOthers(files, ids[..n], selected);
      assert PartsOf(files, ids)[..n] == PartsOf(files, ids[..n]);
    }
  }

  /** Merging some of the parts keeps what they cover and adds nothing. */
  lemma CompactedReplaces(parts: seq<Contents>, selected: set<nat>)
    ensures Replaces(parts, Compacted(parts, selected))
  {
    hide JoinAll, Chosen, Others;
    var after := Compacted(parts, selected);
    forall p: Contents, id | p in after && id in p
      ensures exists q: Contents :: q in parts && id in q && q[id] == p[id]
    {
      var i :| 0 <= i < |after| && after[i] == p;
      CompactedFrom(parts, selected, i, id);
      var k :| 0 <= k < |parts| && id in parts[k] && parts[k][id] == p[id];
      assert parts[k] in parts;
    }
    forall d: Document | Covered(parts, d) ensures Covered(after, d) { CompactedCovers(parts, selected, d); }
  }

  lemma CompactedCovers(parts: seq<Contents>, selected: set<nat>, d: Document)
    requires Covered(parts, d)
    ensures Covered(Compacted(parts, selected), d)
  {
    hide JoinAll, Chosen, Others;
    var after, chosen, others := Compacted(parts, selected), Chosen(parts, selected), Others(parts, selected);
    ChosenMembers(parts, selected);
    var p: Contents :| p in parts && d.id in p && p[d.id].version >= d.version;
    var i :| 0 <= i < |parts| && parts[i] == p;
    if i in selected {
      assert p in chosen;
      JoinAllIsNewest(chosen, d.id);
      var k :| 0 <= k < |chosen| && chosen[k] == p;
      assert after[|others|] == JoinAll(chosen) && JoinAll(chosen) in after;
    } else {
      assert p in others;
      CoveredMore(others, after, d);
    }
  }

  /** The parts of the next manifest are the compacted parts. */
  lemma CompactionParts(files: map<nat, Contents>, segments: seq<nat>, selected: set<nat>, id: nat)
    requires id !in segments
    ensures var parts := PartsOf(files, segments);
      PartsOf(files[id := JoinAll(Chosen(parts, selected))], Others(segments, selected) + [id])
        == Compacted(parts, selected)
  {
    hide JoinAll, Chosen, Others;
    var parts, others := PartsOf(files, segments), Others(segments, selected);
    var after := files[id := JoinAll(Chosen(parts, selected))];
    ChosenMembers(segments, selected);
    forall i | 0 <= i < |others| ensures FileOf(files, others[i]) == FileOf(after, others[i]) {
      assert others[i] in others;
      assert others[i] in segments;
    }
    PartsSame(files, after, others);
    PartsOfOthers(files, segments, selected);
    assert PartsOf(after, others + [id]) == PartsOf(after, others) + [FileOf(after, id)];
  }

  lemma AllPresent(files: map<nat, Contents>, segments: seq<nat>, others: seq<nat>, id: nat, output: Contents)
    requires forall i :: 0 <= i < |segments| ==> segments[i] in files
    requires forall x :: x in others ==> x in segments
    ensures forall i :: 0 <= i < |others + [id]| ==> (others + [id])[i] in files[id := output]
  {
    forall i | 0 <= i < |others| ensures others[i] in files {
      assert others[i] in others;
      var k :| 0 <= k < |segments| && segments[k] == others[i];
    }
  }

  lemma CompactionPrepared(disk: Disk, m: Memory, selected: set<nat>)
    requires ManifestOk(disk, m)
    ensures var id, parts := m.nextSegment, PartsOf(disk.files, m.manifest.segments);
      Prepared(Before(disk, m, true), m.manifest.generation, id + 1, disk.files[id := JoinAll(Chosen(parts, selected))],
               Manifest(m.manifest.generation + 1, Others(m.manifest.segments, selected) + [id]))
  {
    hide JoinAll, Chosen, Others, Replaces, PartsOf, AscendingBelow, FileOf, Compacted;
    var id, segments := m.nextSegment, m.manifest.segments;
    var parts, others := PartsOf(disk.files, segments), Others(segments, selected);
    OthersAscend(segments, selected, id);
    AscendingPush(others, id);
    AscendingPush(segments, id);
    CompactionParts(disk.files, segments, selected, id);
    CompactedReplaces(parts, selected);
    AllPresent(disk.files, segments, others, id, JoinAll(Chosen(parts, selected)));
    assert Before(disk, m, true) == parts;
  }

  lemma PlanCompactionKeeps(c: Config, s: State, m: Memory, selected: set<nat>)
    requires Inv(c, s) && s.memory == Some(m) && CompactionPlans(c, s, m, selected).Some?
    ensures Inv(c, CompactionPlans(c, s, m, selected).value)
  {
    hide HistoryOk, DiskOk, ContentsOk, ReaderOk, Prepared, Complete, JoinAll, Chosen, Others, PartsOf;
    var n := CompactionPlans(c, s, m, selected).value.memory.value;
    if !Lagging(s.disk, m) { CompactionPrepared(s.disk, m, selected); }
    AscendingPush(m.manifest.segments, m.nextSegment);
    AscendingPush(CurrentManifest(s.disk).segments, m.nextSegment);
    SameContents(s.disk, s.disk, s.history, m, n);
    SameReader(s.disk, m, n);
    assert Before(s.disk, n, true) == Before(s.disk, m, true);
    assert MemoryOk(s.disk, s.history, n);
    DownUnchanged(c, s, n);
  }

  /** The lock is given up without a new manifest. */
  lemma ReleaseKeeps(c: Config, s: State, m: Memory, worker: Worker)
    requires Inv(c, s) && s.memory == Some(m) && m.job.Some?
    requires worker == Failing || (worker == Finishing && m.job.value.compaction && !m.job.value.stage.Installing?)
    ensures Inv(c, Up(s, Released(m, m.job.value.party, worker)))
  {
    hide HistoryOk, DiskOk, From, Above, AscendingBelow, Complete, Prepared, PartsOf, Covered;
    var n := Released(m, m.job.value.party, worker);
    assert forall p: Contents :: p in Older(s.disk, n) ==> p in Older(s.disk, m);
    if n.worker != Failing { assert Older(s.disk, n) == Older(s.disk, m); }
    if m.job.value.stage.Installing? { FallsBehind(s.disk, m); }
    assert MemoryOk(s.disk, s.history, n);
    DownUnchanged(c, s, n);
  }

  /** A publication that fails after the rename of CURRENT leaves `manifest_` behind. */
  lemma FallsBehind(disk: Disk, m: Memory)
    requires ManifestOk(disk, m) && JobOk(disk, m) && m.job.Some? && m.job.value.stage.Installing?
    ensures var n := Released(m, m.job.value.party, Failing);
      Lagging(disk, n) && ManifestOk(disk, n)
  {
    hide AscendingBelow, Complete, Replaces, PartsOf;
    var n := Released(m, m.job.value.party, Failing);
    if m.job.value.compaction {
      assert Before(disk, m, true) == PartsOf(disk.files, m.manifest.segments);
    }
  }

  lemma ReportKeeps(c: Config, s: State, m: Memory)
    requires Inv(c, s) && s.memory == Some(m) && WorkerReports(s, m).Some?
    ensures Inv(c, WorkerReports(s, m).value)
  {
    hide HistoryOk, DiskOk, From, Above, AscendingBelow, Complete, Prepared, PartsOf, Covered;
    var n := WorkerReports(s, m).value.memory.value;
    assert Older(s.disk, n) == Older(s.disk, m);
    assert MemoryOk(s.disk, s.history, n);
    DownUnchanged(c, s, n);
  }

  // ---- publication ----

  /** A file no manifest in use names can be written without anyone noticing. */
  lemma UnusedFile(disk: Disk, history: seq<Document>, m: Memory, files: map<nat, Contents>)
    requires ContentsOk(disk, history, m) && ManifestOk(disk, m) && ReaderOk(disk, m) && DiskOk(disk, history)
    requires forall id :: id in m.manifest.segments || id in CurrentManifest(disk).segments ==>
      (id in disk.files <==> id in files) && FileOf(files, id) == FileOf(disk.files, id)
    ensures var after := disk.(files := files);
      && ContentsOk(after, history, m) && ManifestOk(after, m) && ReaderOk(after, m) && DiskOk(after, history)
      && Before(after, m, true) == Before(disk, m, true) && Before(after, m, false) == Before(disk, m, false)
      && CurrentManifest(after) == CurrentManifest(disk)
  {
    hide From, Above, AllCovered, FileOf, PartsOf, AscendingBelow;
    var after := disk.(files := files);
    PartsSame(disk.files, files, m.manifest.segments);
    PartsSame(disk.files, files, CurrentManifest(disk).segments);
    assert Older(after, m) == Older(disk, m);
    assert CurrentParts(after) == CurrentParts(disk);
  }

  lemma WriteKeeps(c: Config, s: State, m: Memory)
    requires Inv(c, s) && s.memory == Some(m) && SegmentWritten(s, m).Some?
    ensures Inv(c, SegmentWritten(s, m).value)
  {
    hide Ordered, DiskOk, ContentsOk, ManifestOk, ReaderOk, Prepared, FileOf, Before;
    var after := SegmentWritten(s, m).value;
    var n := after.memory.value;
    var stage := m.job.value.stage;
    OtherFiles(s.disk.files, stage.id, stage.output);
    UnusedFile(s.disk, s.history, m, after.disk.files);
    SameBefore(after.disk, m, n);
    SameContents(after.disk, after.disk, s.history, m, n);
    SameReader(after.disk, m, n);
    SameManifest(after.disk, m, n);
  }

  lemma OtherFiles(files: map<nat, Contents>, id: nat, output: Contents)
    ensures forall k :: k != id ==> FileOf(files[id := output], k) == FileOf(files, k)
  {
  }

  lemma SameBefore(disk: Disk, m: Memory, m': Memory)
    requires m' == m.(job := m'.job)
    ensures Before(disk, m', true) == Before(disk, m, true) && Before(disk, m', false) == Before(disk, m, false)
  {
  }

  lemma SameManifest(disk: Disk, m: Memory, m': Memory)
    requires ManifestOk(disk, m) && m' == m.(job := m'.job)
    requires m.job.Some? ==> !m.job.value.stage.Installing?
    ensures ManifestOk(disk, m')
  {
    hide AscendingBelow, Complete;
  }

  /** A manifest file of a later generation can be written without anyone noticing. */
  lemma UnusedManifest(disk: Disk, history: seq<Document>, m: Memory, manifests: map<nat, seq<nat>>)
    requires ContentsOk(disk, history, m) && ManifestOk(disk, m) && ReaderOk(disk, m) && DiskOk(disk, history)
    requires forall g :: g == m.manifest.generation || g == disk.current ==>
      (g in manifests <==> g in disk.manifests) && (g in manifests ==> manifests[g] == disk.manifests[g])
    ensures var after := disk.(manifests := manifests);
      && ContentsOk(after, history, m) && ManifestOk(after, m) && ReaderOk(after, m) && DiskOk(after, history)
      && CurrentManifest(after) == CurrentManifest(disk)
  {
    hide From, Above, AllCovered, FileOf, PartsOf, AscendingBelow;
    var after := disk.(manifests := manifests);
    assert Older(after, m) == Older(disk, m);
    assert CurrentParts(after) == CurrentParts(disk);
  }

  lemma RecordKeeps(c: Config, s: State, m: Memory)
    requires Inv(c, s) && s.memory == Some(m) && ManifestRecorded(c, s, m).Some?
    ensures Inv(c, ManifestRecorded(c, s, m).value)
  {
    hide Ordered, DiskOk, ContentsOk, ReaderOk, FileOf, PartsOf, Replaces, AscendingBelow, Complete;
    var after := ManifestRecorded(c, s, m).value;
    var n := after.memory.value;
    UnusedManifest(s.disk, s.history, m, after.disk.manifests);
    SameBefore(after.disk, m, n);
    assert Before(after.disk, m, m.job.value.compaction) == Before(s.disk, m, m.job.value.compaction);
    SameContents(after.disk, after.disk, s.history, m, n);
    SameReader(after.disk, m, n);
    SameManifest(after.disk, m, n);
  }

  lemma {:induction false} NextBounds(ids: seq<nat>, bound: nat)
    requires AscendingBelow(ids, bound)
    ensures AscendingBelow(ids, NextAfter(ids)) && NextAfter(ids) > 0
  {
    if ids != [] {
      var n := |ids| - 1;
      NextBounds(ids[..n], bound);
      assert forall i :: 0 <= i < n ==> ids[..n][i] == ids[i];
    }
  }

  /** Parts that replace earlier ones come from the same history and cover as much. */
  lemma ReplacedDisk(disk: Disk, history: seq<Document>, before: seq<Contents>, after: Disk)
    requires DiskOk(disk, history) && after == disk.(current := after.current)
    requires forall p: Contents :: p in before ==> From(p, history)
    requires forall p: Contents :: p in CurrentParts(disk) ==> p in before
    requires Replaces(before, CurrentParts(after)) && Readable(after)
    requires AscendingBelow(CurrentManifest(after).segments, NextAfter(CurrentManifest(after).segments))
    ensures DiskOk(after, history)
  {
    hide AscendingBelow, Readable, CurrentParts;
    forall p: Contents | p in CurrentParts(after)
      ensures From(p, history)
    {
      ReplacedFrom(before, CurrentParts(after), p, history);
    }
    forall d: Document | d in history && d !in after.wal ensures Covered(CurrentParts(after), d) {
      CoveredMore(CurrentParts(disk), before, d);
    }
  }

  lemma ReplacedFrom(before: seq<Contents>, after: seq<Contents>, p: Contents, history: seq<Document>)
    requires Replaces(before, after) && p in after && forall q: Contents :: q in before ==> From(q, history)
    ensures From(p, history)
  {
    forall id | id in p ensures p[id].id == id && p[id] in history {
      var q: Contents :| q in before && id in q && q[id] == p[id];
    }
  }

  /** Renaming CURRENT.tmp makes the next generation the one a crash leaves. */
  lemma SwitchKeeps(c: Config, s: State, m: Memory)
    requires Inv(c, s) && s.memory == Some(m) && CurrentSwitched(s, m).Some?
    ensures Inv(c, CurrentSwitched(s, m).value)
  {
    hide Ordered, FileOf, PartsOf, Replaces, AscendingBelow, From, Above, AllCovered;
    var after := CurrentSwitched(s, m).value;
    var n := after.memory.value;
    var next := m.job.value.stage.next;
    var before := Before(s.disk, m, m.job.value.compaction);
    assert CurrentManifest(after.disk) == next;
    NextBounds(next.segments, m.nextSegment);
    forall p: Contents | p in before ensures From(p, s.history) { assert p in Older(s.disk, m); }
    ReplacedDisk(s.disk, s.history, before, after.disk);
    SameBefore(s.disk, m, n);
    SameContents(s.disk, after.disk, s.history, m, n);
  }

  /** After installation the new parts take the place of the old ones in memory as well. */
  lemma InstalledContents(disk: Disk, history: seq<Document>, m: Memory, m': Memory, compaction: bool)
    requires ContentsOk(disk, history, m)
    requires m' == m.(manifest := m'.manifest, job := m'.job, worker := m'.worker)
    requires Replaces(Before(disk, m, compaction), PartsOf(disk.files, m'.manifest.segments))
    requires if compaction then m'.worker == m.worker else m'.worker == Merging || m'.worker == Finishing
    requires !compaction ==> m.worker.Flushing?
    ensures ContentsOk(disk, history, m')
  {
    hide PartsOf, Replaces;
    var before, after := Before(disk, m, compaction), PartsOf(disk.files, m'.manifest.segments);
    forall p: Contents | p in Older(disk, m') ensures From(p, history) && (!m.failed ==> Above(m.active, p)) {
      if p in after {
        forall q: Contents | q in before ensures From(q, history) { assert q in Older(disk, m); }
        ReplacedFrom(before, after, p, history);
        if !m.failed {
          forall q: Contents | q in before ensures Above(m.active, q) { assert q in Older(disk, m); }
          ReplacedAbove(before, after, p, m.active);
        }
      } else {
        assert p in Older(disk, m);
      }
    }
    if !m.failed && m.worker != Failing {
      forall d: Document | d in history ensures Covered(Older(disk, m') + [m'.active], d) {
        assert Covered(Older(disk, m) + [m.active], d);
        ReplacedCovered(disk, m, m', compaction, d);
      }
    }
  }

  lemma ReplacedAbove(before: seq<Contents>, after: seq<Contents>, p: Contents, active: Contents)
    requires Replaces(before, after) && p in after && forall q: Contents :: q in before ==> Above(active, q)
    ensures Above(active, p)
  {
    forall id | id in active && id in p ensures p[id].version < active[id].version {
      var q: Contents :| q in before && id in q && q[id] == p[id];
    }
  }

  lemma ReplacedCovered(disk: Disk, m: Memory, m': Memory, compaction: bool, d: Document)
    requires m' == m.(manifest := m'.manifest, job := m'.job, worker := m'.worker)
    requires Replaces(Before(disk, m, compaction), PartsOf(disk.files, m'.manifest.segments))
    requires compaction ==> m'.worker == m.worker
    requires Covered(Older(disk, m) + [m.active], d)
    ensures Covered(Older(disk, m') + [m'.active], d)
  {
    hide PartsOf;
    var before, after := Before(disk, m, compaction), PartsOf(disk.files, m'.manifest.segments);
    var p: Contents :| p in Older(disk, m) + [m.active] && d.id in p && p[d.id].version >= d.version;
    if p in before {
      assert Covered(before, d);
      CoveredMore(after, Older(disk, m') + [m'.active], d);
    } else {
      assert p in Older(disk, m') + [m'.active];
    }
  }

  lemma InstallKeeps(c: Config, s: State, m: Memory)
    requires Inv(c, s) && s.memory == Some(m) && m.reader.None? && ManifestInstalled(c, s, m).Some?
    ensures Inv(c, ManifestInstalled(c, s, m).value)
  {
    hide HistoryOk, DiskOk, ContentsOk, FileOf, PartsOf, Replaces, AscendingBelow;
    var n := ManifestInstalled(c, s, m).value.memory.value;
    InstalledContents(s.disk, s.history, m, n, m.job.value.compaction);
    assert MemoryOk(s.disk, s.history, n);
    DownUnchanged(c, s, n);
  }

  // ---- reclaiming ----

  lemma ReclaimSegmentKeeps(c: Config, s: State, m: Memory, id: nat)
    requires Inv(c, s) && s.memory == Some(m) && SegmentReclaimed(c, s, m, id).Some?
    ensures Inv(c, SegmentReclaimed(c, s, m, id).value)
  {
    hide Ordered, DiskOk, ContentsOk, ReaderOk, FileOf, Before, AscendingBelow, Complete;
    var after := SegmentReclaimed(c, s, m, id).value;
    FewerFiles(s.disk.files, id);
    UnusedFile(s.disk, s.history, m, after.disk.files);
  }

  lemma FewerFiles(files: map<nat, Contents>, id: nat)
    ensures forall k :: k != id ==> FileOf(files - {id}, k) == FileOf(files, k)
  {
  }

  lemma ReclaimManifestKeeps(c: Config, s: State, m: Memory)
    requires Inv(c, s) && s.memory == Some(m) && ManifestReclaimed(c, s, m).Some?
    ensures Inv(c, ManifestReclaimed(c, s, m).value)
  {
    hide Ordered, DiskOk, ContentsOk, ReaderOk, Before, AscendingBelow, Complete;
    var after := ManifestReclaimed(c, s, m).value;
    UnusedManifest(s.disk, s.history, m, after.disk.manifests);
  }

  // ---- readers ----

  lemma ReaderKeeps(c: Config, s: State, m: Memory, m': Memory)
    requires Inv(c, s) && s.memory == Some(m) && m' == m.(reader := m'.reader) && ReaderOk(s.disk, m')
    ensures Inv(c, Up(s, m'))
  {
    hide HistoryOk, DiskOk, ContentsOk, ReaderOk, AscendingBelow, Complete, Prepared;
    SameContents(s.disk, s.disk, s.history, m, m');
    SameBeforeForReader(s.disk, m, m');
    assert MemoryOk(s.disk, s.history, m');
    DownUnchanged(c, s, m');
  }

  lemma SameBeforeForReader(disk: Disk, m: Memory, m': Memory)
    requires m' == m.(reader := m'.reader)
    ensures Before(disk, m', true) == Before(disk, m, true) && Before(disk, m', false) == Before(disk, m, false)
  {
  }

  lemma AdvanceKeeps(c: Config, s: State, m: Memory)
    requires Inv(c, s) && s.memory == Some(m) && ReaderReads(s, m).Some?
    ensures Inv(c, ReaderReads(s, m).value)
  {
    hide HistoryOk, DiskOk, ContentsOk, AscendingBelow, JobOk;
    ReaderKeeps(c, s, m, ReaderReads(s, m).value.memory.value);
  }

  // ---- crash and open ----

  lemma CleanKeeps(c: Config, s: State, files: map<nat, Contents>, manifests: map<nat, seq<nat>>)
    requires Inv(c, s) && s.memory.None?
    requires forall id :: id in CurrentManifest(s.disk).segments ==>
      (id in s.disk.files <==> id in files) && FileOf(files, id) == FileOf(s.disk.files, id)
    requires (s.disk.current in manifests <==> s.disk.current in s.disk.manifests)
      && (s.disk.current in manifests ==> manifests[s.disk.current] == s.disk.manifests[s.disk.current])
    ensures Inv(c, s.(disk := s.disk.(files := files, manifests := manifests)))
  {
    hide From, Ordered, FileOf, PartsOf, AscendingBelow;
    var after := s.disk.(files := files, manifests := manifests);
    PartsSame(s.disk.files, files, CurrentManifest(s.disk).segments);
    assert CurrentManifest(after) == CurrentManifest(s.disk);
    assert CurrentParts(after) == CurrentParts(s.disk);
  }

  /** What reopening builds stands for everything logged. */
  lemma OpenedContents(disk: Disk, history: seq<Document>)
    requires DiskOk(disk, history) && forall d: Document :: d in disk.wal ==> d in history
    ensures ContentsOk(disk, history, Opened(disk))
  {
    hide DiskOk, Published, Replay, PartsOf, Above, From, Covered, ReplayedFrom;
    var m := Opened(disk);
    ReplayIs(VersionsOf(Published(disk)), disk.wal);
    assert Older(disk, m) == CurrentParts(disk);
    OpenedParts(disk, history);
    forall p: Contents | p in CurrentParts(disk) ensures Above(m.active, p) { OpenedAbove(disk, p); }
    forall d: Document | d in history
      ensures d.id in m.versions && m.versions[d.id] >= d.version && Covered(CurrentParts(disk) + [m.active], d)
    {
      OpenedCovers(disk, history, d);
    }
    ReplayCounts(VersionsOf(Published(disk)), disk.wal);
  }

  lemma OpenedParts(disk: Disk, history: seq<Document>)
    requires DiskOk(disk, history) && forall d: Document :: d in disk.wal ==> d in history
    ensures forall p: Contents :: p in CurrentParts(disk) ==> From(p, history)
    ensures From(Opened(disk).active, history)
  {
    hide Published, Replay, CurrentParts, Readable, AscendingBelow;
    ReplayIs(VersionsOf(Published(disk)), disk.wal);
  }

  lemma OpenedAbove(disk: Disk, p: Contents)
    requires p in CurrentParts(disk)
    ensures Above(Opened(disk).active, p)
  {
    hide Published, Replay, CurrentParts;
    var m := Opened(disk);
    ReplayIs(VersionsOf(Published(disk)), disk.wal);
    forall id | id in m.active && id in p
      ensures p[id].version < m.active[id].version
    {
      PartBelowPublished(disk, p, id);
    }
  }

  lemma OpenedCovers(disk: Disk, history: seq<Document>, d: Document)
    requires DiskOk(disk, history) && d in history
    ensures var m := Opened(disk);
      d.id in m.versions && m.versions[d.id] >= d.version && Covered(CurrentParts(disk) + [m.active], d)
  {
    hide Published, Replay, CurrentParts, Readable, AscendingBelow, From;
    ReplayIs(VersionsOf(Published(disk)), disk.wal);
    if d !in disk.wal {
      CoveredPublished(disk, d);
      CoveredMore(CurrentParts(disk), CurrentParts(disk) + [Opened(disk).active], d);
    } else {
      ReplayedCovered(disk, history, d);
    }
  }

  lemma PartBelowPublished(disk: Disk, p: Contents, id: string)
    requires p in CurrentParts(disk) && id in p
    ensures id in Published(disk) && p[id].version <= Published(disk)[id].version
  {
    hide JoinAll;
    JoinAllIsNewest(CurrentParts(disk), id);
    var i :| 0 <= i < |CurrentParts(disk)| && CurrentParts(disk)[i] == p;
  }

  /** A logged document is either replayed or already superseded by a segment. */
  lemma ReplayedCovered(disk: Disk, history: seq<Document>, d: Document)
    requires d in disk.wal
    ensures Covered(CurrentParts(disk) + [Replay(VersionsOf(Published(disk)), disk.wal).active], d)
  {
    hide JoinAll, Replay, CurrentParts;
    var replayed := Replay(VersionsOf(Published(disk)), disk.wal);
    ReplayIs(VersionsOf(Published(disk)), disk.wal);
    var all := CurrentParts(disk) + [replayed.active];
    if d.id in replayed.active {
      assert all[|all| - 1] == replayed.active;
      assert replayed.active in all;
    } else {
      assert d.id in Published(disk) && Published(disk)[d.id].version >= d.version;
      PublishedHasPart(disk, d.id);
      var p: Contents :| p in CurrentParts(disk) && d.id in p && p[d.id] == Published(disk)[d.id];
      assert p in all;
    }
  }

  lemma PublishedHasPart(disk: Disk, id: string)
    requires id in Published(disk)
    ensures exists p: Contents :: p in CurrentParts(disk) && id in p && p[id] == Published(disk)[id]
  {
    hide JoinAll;
    JoinAllIsNewest(CurrentParts(disk), id);
    var i :| 0 <= i < |CurrentParts(disk)| && id in CurrentParts(disk)[i]
      && CurrentParts(disk)[i][id] == Published(disk)[id];
    assert CurrentParts(disk)[i] in CurrentParts(disk);
  }

  lemma SameOpened(disk: Disk, torn: Option<WriteAhead.Torn>)
    ensures Opened(disk.(torn := torn)) == Opened(disk)
  {
    hide Replay;
    assert Published(disk.(torn := torn)) == Published(disk);
  }

  lemma DiskAscends(disk: Disk, history: seq<Document>)
    requires DiskOk(disk, history)
    ensures Readable(disk) && AscendingBelow(CurrentManifest(disk).segments, NextAfter(CurrentManifest(disk).segments))
  {
    hide From, Covered, PartsOf;
  }

  lemma OpenKeeps(c: Config, s: State)
    requires Inv(c, s) && Opens(c, s).Some?
    ensures Inv(c, Opens(c, s).value)
  {
    hide Ordered, ContentsOk, DiskOk, Replay, PartsOf, Published;
    var disk := s.disk.(torn := None);
    TornDisk(s.disk, s.history, None);
    SameOpened(s.disk, None);
    OpenedContents(disk, s.history);
    DiskAscends(disk, s.history);
    NextBounds(CurrentManifest(disk).segments, NextAfter(CurrentManifest(disk).segments));
  }
}

/** What every step of the writer keeps. */
module WriterSafety {
  import opened Schemas
  import opened Generations
  import opened WriterMachine

  // ---- documents and histories ----

  /** Versions of one document only grow. */
  ghost predicate Ordered(history: seq<Document>) {
    forall i, j :: 0 <= i < j < |history| && history[i].id == history[j].id ==> history[i].version < history[j].version
  }

  ghost predicate From(p: Contents, history: seq<Document>) {
    forall id :: id in p ==> p[id].id == id && p[id] in history
  }

  /** Some part holds `d` or a newer version. */
  ghost predicate Covered(parts: seq<Contents>, d: Document) {
    exists p: Contents :: p in parts && d.id in p && p[d.id].version >= d.version
  }

  ghost predicate AllCovered(parts: seq<Contents>, history: seq<Document>) {
    forall d: Document :: d in history ==> Covered(parts, d)
  }

  /** Whatever `a` and `p` share is newer in `a`. */
  ghost predicate Above(a: Contents, p: Contents) {
    forall id :: id in a && id in p ==> p[id].version < a[id].version
  }

  lemma CoveredMore(parts: seq<Contents>, more: seq<Contents>, d: Document)
    requires Covered(parts, d) && forall p: Contents :: p in parts ==> p in more
    ensures Covered(more, d)
  {
  }

  lemma {:induction false} LatestFrom(history: seq<Document>)
    ensures From(Latest(history), history)
  {
    if history != [] { LatestFrom(history[..|history| - 1]); }
  }

  lemma {:induction false} LatestCovers(history: seq<Document>, i: nat)
    requires Ordered(history) && i < |history|
    ensures history[i].id in Latest(history) && Latest(history)[history[i].id].version >= history[i].version
    decreases |history|
  {
    if i < |history| - 1 { LatestCovers(history[..|history| - 1], i); }
  }

  lemma SameVersionSame(history: seq<Document>, d: Document, e: Document)
    requires Ordered(history) && d in history && e in history && d.id == e.id && d.version == e.version
    ensures d == e
  {
    var i :| 0 <= i < |history| && history[i] == d;
    var j :| 0 <= j < |history| && history[j] == e;
  }

  /** Contents from the history that miss nothing newer are its newest versions. */
  lemma NewestIsLatest(history: seq<Document>, c: Contents)
    requires Ordered(history) && From(c, history) && AllCovered([c], history)
    ensures c == Latest(history)
  {
    hide Ordered, Latest;
    LatestFrom(history);
    forall id | id in c ensures id in Latest(history) {
      var i :| 0 <= i < |history| && history[i] == c[id];
      LatestCovers(history, i);
    }
    forall id | id in Latest(history) ensures id in c && c[id] == Latest(history)[id] {
      var l := Latest(history)[id];
      assert Covered([c], l);
      var i :| 0 <= i < |history| && history[i] == c[id];
      LatestCovers(history, i);
      SameVersionSame(history, c[id], l);
    }
  }

  // ---- replay ----

  ghost predicate ReplayedFrom(versions: map<string, nat>, wal: seq<Document>, r: Replayed) {
    && (forall id :: id in versions ==> id in r.versions && r.versions[id] >= versions[id])
    && (forall d: Document :: d in wal ==> d.id in r.versions && r.versions[d.id] >= d.version)
    && (forall id :: id in r.active ==>
        r.active[id].id == id && r.active[id] in wal && id in r.versions && r.versions[id] == r.active[id].version)
    && (forall id :: id in r.active && id in versions ==> versions[id] < r.active[id].version)
    && (forall id :: id in r.versions && id !in r.active ==> id in versions && r.versions[id] == versions[id])
    && (r.buffered == 0 <==> r.active == map[])
  }

  /** What replay says about one ID. */
  ghost predicate ReplayedAt(versions: map<string, nat>, wal: seq<Document>, r: Replayed, id: string) {
    && (id in versions ==> id in r.versions && r.versions[id] >= versions[id])
    && (id in r.active ==>
          && r.active[id].id == id && r.active[id] in wal && id in r.versions && r.versions[id] == r.active[id].version
          && (id in versions ==> versions[id] < r.active[id].version))
    && (id in r.versions && id !in r.active ==> id in versions && r.versions[id] == versions[id])
  }

  lemma ReplayStepAt(versions: map<string, nat>, wal: seq<Document>, d: Document, r: Replayed, id: string)
    requires ReplayedAt(versions, wal, r, id)
    ensures ReplayedAt(versions, wal + [d], ReplayOne(r, d), id)
    ensures id in r.versions ==> id in ReplayOne(r, d).versions && ReplayOne(r, d).versions[id] >= r.versions[id]
  {
    assert (wal + [d])[|wal|] == d;
    if id in r.active { assert r.active[id] in wal + [d]; }
  }

  lemma {:induction false} ReplayAt(versions: map<string, nat>, wal: seq<Document>, id: string)
    ensures ReplayedAt(versions, wal, Replay(versions, wal), id)
  {
    hide ReplayOne;
    if wal != [] {
      var n := |wal| - 1;
      ReplayAt(versions, wal[..n], id);
      assert wal == wal[..n] + [wal[n]];
      hide ReplayedAt;
      ReplayStepAt(versions, wal[..n], wal[n], Replay(versions, wal[..n]), id);
    }
  }

  lemma {:induction false} ReplaySees(versions: map<string, nat>, wal: seq<Document>, i: nat)
    requires i < |wal|
    ensures wal[i].id in Replay(versions, wal).versions && Replay(versions, wal).versions[wal[i].id] >= wal[i].version
  {
    var n := |wal| - 1;
    if i < n {
      ReplaySees(versions, wal[..n], i);
      ReplayAt(versions, wal[..n], wal[i].id);
      ReplayStepAt(versions, wal[..n], wal[n], Replay(versions, wal[..n]), wal[i].id);
    }
  }

  lemma {:induction false} ReplayCounts(versions: map<string, nat>, wal: seq<Document>)
    ensures Replay(versions, wal).buffered == 0 <==> Replay(versions, wal).active == map[]
  {
    if wal != [] {
      var n := |wal| - 1;
      ReplayCounts(versions, wal[..n]);
      if Replay(versions, wal) != Replay(versions, wal[..n]) { assert wal[n].id in Replay(versions, wal).active; }
    }
  }

  lemma ReplayIs(versions: map<string, nat>, wal: seq<Document>)
    ensures ReplayedFrom(versions, wal, Replay(versions, wal))
  {
    hide Replay;
    var r := Replay(versions, wal);
    forall id ensures ReplayedAt(versions, wal, r, id) { ReplayAt(versions, wal, id); }
    forall d: Document | d in wal ensures d.id in r.versions && r.versions[d.id] >= d.version {
      var i :| 0 <= i < |wal| && wal[i] == d;
      ReplaySees(versions, wal, i);
    }
    ReplayCounts(versions, wal);
    AllReplayed(versions, wal, r);
  }

  lemma AllReplayed(versions: map<string, nat>, wal: seq<Document>, r: Replayed)
    requires forall id :: ReplayedAt(versions, wal, r, id)
    requires forall d: Document :: d in wal ==> d.id in r.versions && r.versions[d.id] >= d.version
    requires r.buffered == 0 <==> r.active == map[]
    ensures ReplayedFrom(versions, wal, r)
  {
    forall id | id in versions
      ensures id in r.versions && r.versions[id] >= versions[id]
    {
      assert ReplayedAt(versions, wal, r, id);
    }
    forall id | id in r.active
      ensures r.active[id].id == id && r.active[id] in wal && id in r.versions && r.versions[id] == r.active[id].version
      ensures id in versions ==> versions[id] < r.active[id].version
    {
      assert ReplayedAt(versions, wal, r, id);
    }
    forall id | id in r.versions && id !in r.active ensures id in versions && r.versions[id] == versions[id] {
      assert ReplayedAt(versions, wal, r, id);
    }
  }

  // ---- the invariant ----

  ghost predicate AscendingBelow(ids: seq<nat>, bound: nat) {
    && (forall i, j :: 0 <= i < j < |ids| ==> ids[i] < ids[j])
    && (forall i :: 0 <= i < |ids| ==> 0 < ids[i] < bound)
  }

  function CurrentParts(disk: Disk): seq<Contents> {
    PartsOf(disk.files, CurrentManifest(disk).segments)
  }

  ghost predicate HistoryOk(c: Config, s: State) {
    && Ordered(s.history)
    && (forall d: Document :: d in s.history ==> c.accepts(d))
    && (forall d: Document :: d in s.disk.wal ==> d in s.history)
    && (forall d: Document :: d in s.acked ==> d in s.history)
  }

  /** Nothing logged is lost: it is still in the log or superseded by a published segment. */
  ghost predicate DiskOk(disk: Disk, history: seq<Document>) {
    && Readable(disk)
    && AscendingBelow(CurrentManifest(disk).segments, NextAfter(CurrentManifest(disk).segments))
    && (forall p: Contents :: p in CurrentParts(disk) ==> From(p, history))
    && (forall d: Document :: d in history ==> d in disk.wal || Covered(CurrentParts(disk), d))
  }

  function InFlight(m: Memory): seq<Contents> {
    if m.worker.Flushing? then [m.worker.snapshot] else []
  }

  /** Everything on its way to a segment, or in one, except the active index. */
  function Older(disk: Disk, m: Memory): seq<Contents> {
    PartsOf(disk.files, m.manifest.segments) + InFlight(m) + m.frozen
  }

  ghost predicate ContentsOk(disk: Disk, history: seq<Document>, m: Memory) {
    && (forall p: Contents :: p in Older(disk, m) ==> From(p, history))
    && (m.worker == Exited ==> m.failed)
    && (!m.failed ==>
          && From(m.active, history)
          && (forall p: Contents :: p in Older(disk, m) ==> Above(m.active, p))
          && (forall d: Document :: d in history ==> d.id in m.versions && m.versions[d.id] >= d.version)
          && (m.buffered == 0 <==> m.active == map[]))
    && (!m.failed && m.worker != Failing ==> AllCovered(Older(disk, m) + [m.active], history))
  }

  /** A manifest whose files are all present. */
  ghost predicate Complete(disk: Disk, manifest: Manifest) {
    && (manifest.generation == 0 <==> manifest.segments == [])
    && (manifest.generation != 0 ==>
        manifest.generation in disk.manifests && disk.manifests[manifest.generation] == manifest.segments)
    && (forall i :: 0 <= i < |manifest.segments| ==> manifest.segments[i] in disk.files)
  }

  /** `manifest_` is not what CURRENT names, and nobody is about to install that. */
  predicate Lagging(disk: Disk, m: Memory) {
    m.manifest != CurrentManifest(disk) && !(m.job.Some? && m.job.value.stage.Installing?)
  }

  /** A publication failed after the rename of CURRENT. Unless the writer has failed with it, that was
      a compaction: CURRENT says what `manifest_` said. */
  ghost predicate LagOk(disk: Disk, m: Memory) {
    Lagging(disk, m) ==>
      && m.manifest.generation + 1 == disk.current
      && (!m.failed && m.worker != Failing ==> Replaces(PartsOf(disk.files, m.manifest.segments), CurrentParts(disk)))
  }

  ghost predicate ManifestOk(disk: Disk, m: Memory) {
    && AscendingBelow(m.manifest.segments, m.nextSegment)
    && AscendingBelow(CurrentManifest(disk).segments, m.nextSegment)
    && Complete(disk, m.manifest) && Complete(disk, CurrentManifest(disk))
    && CurrentManifest(disk).generation == disk.current
    && LagOk(disk, m)
    && m.nextSegment > 0
  }

  /** What a publication works on: the installed segments and, for a flush, the snapshot. */
  function Before(disk: Disk, m: Memory, compaction: bool): seq<Contents> {
    PartsOf(disk.files, m.manifest.segments) + if compaction then [] else InFlight(m)
  }

  /** The new parts say what the old ones said. */
  ghost predicate Replaces(before: seq<Contents>, after: seq<Contents>) {
    && (forall p: Contents, id :: p in after && id in p ==>
        exists q: Contents :: q in before && id in q && q[id] == p[id])
    && (forall d: Document :: Covered(before, d) ==> Covered(after, d))
  }

  /** The next manifest, once its new file is among `files`. */
  ghost predicate Prepared(before: seq<Contents>, generation: nat, bound: nat, files: map<nat, Contents>,
                           next: Manifest) {
    && next.generation == generation + 1 && next.segments != []
    && AscendingBelow(next.segments, bound)
    && (forall i :: 0 <= i < |next.segments| ==> next.segments[i] in files)
    && Replaces(before, PartsOf(files, next.segments))
  }

  ghost predicate JobOk(disk: Disk, m: Memory) {
    m.job.Some? ==>
      var job := m.job.value;
      var before := Before(disk, m, job.compaction);
      && (job.party.Caller? ==> job.compaction)
      && (job.party.Background? ==> if job.compaction then m.worker == Merging else m.worker.Flushing?)
      && match job.stage
         case Planning => true
         case Writing(id, output, next) =>
           && id !in m.manifest.segments && id !in CurrentManifest(disk).segments
           && next.generation == m.manifest.generation + 1
           && (!Lagging(disk, m) ==>
               Prepared(before, m.manifest.generation, m.nextSegment, disk.files[id := output], next))
         case Recording(next) =>
           && next.generation == m.manifest.generation + 1
           && (!Lagging(disk, m) ==> Prepared(before, m.manifest.generation, m.nextSegment, disk.files, next))
         case Switching(next) =>
           && !Lagging(disk, m) && Prepared(before, m.manifest.generation, m.nextSegment, disk.files, next)
           && next.generation in disk.manifests && disk.manifests[next.generation] == next.segments
         case Installing(next) =>
           Prepared(before, m.manifest.generation, m.nextSegment, disk.files, next) && CurrentManifest(disk) == next
         case Reclaiming(obsolete) => !Lagging(disk, m) && job.compaction && obsolete.generation < m.manifest.generation
  }

  /** A reader is on the installed or on the current manifest, and has read its files. */
  ghost predicate ReaderOk(disk: Disk, m: Memory) {
    match m.reader
    case None => true
    case Some(Located(g)) => g != 0 && (g == m.manifest.generation || g == disk.current)
    case Some(Loaded(manifest, read)) =>
      && (manifest == m.manifest || manifest == CurrentManifest(disk))
      && |read| <= |manifest.segments|
      && forall i :: 0 <= i < |read| ==> read[i] == FileOf(disk.files, manifest.segments[i])
  }

  ghost predicate MemoryOk(disk: Disk, history: seq<Document>, m: Memory) {
    ContentsOk(disk, history, m) && ManifestOk(disk, m) && JobOk(disk, m) && ReaderOk(disk, m)
  }

  ghost predicate Inv(c: Config, s: State) {
    HistoryOk(c, s) && DiskOk(s.disk, s.history) && (s.memory.Some? ==> MemoryOk(s.disk, s.history, s.memory.value))
  }

  // ---- the invariant gives durability ----

  lemma CoveredPublished(disk: Disk, d: Document)
    requires Covered(CurrentParts(disk), d)
    ensures d.id in Published(disk) && Published(disk)[d.id].version >= d.version
  {
    hide JoinAll;
    var parts := CurrentParts(disk);
    JoinAllIsNewest(parts, d.id);
    var p: Contents :| p in parts && d.id in p && p[d.id].version >= d.version;
    var i :| 0 <= i < |parts| && parts[i] == p;
  }

  lemma PublishedFrom(disk: Disk, history: seq<Document>)
    requires forall p: Contents :: p in CurrentParts(disk) ==> From(p, history)
    ensures From(Published(disk), history)
  {
    hide JoinAll;
    var parts := CurrentParts(disk);
    forall id | id in Published(disk) ensures Published(disk)[id].id == id && Published(disk)[id] in history {
      JoinAllIsNewest(parts, id);
      var i :| 0 <= i < |parts| && id in parts[i] && parts[i][id] == Published(disk)[id];
      assert parts[i] in parts;
    }
  }

  lemma RecoveredFrom(disk: Disk, history: seq<Document>)
    requires forall p: Contents :: p in CurrentParts(disk) ==> From(p, history)
    requires forall d: Document :: d in disk.wal ==> d in history
    ensures From(Recovered(disk), history)
  {
    hide Published, CurrentParts, Replay;
    PublishedFrom(disk, history);
    ReplayIs(VersionsOf(Published(disk)), disk.wal);
  }

  lemma RecoveredCovers(disk: Disk, d: Document)
    requires d in disk.wal || Covered(CurrentParts(disk), d)
    ensures Covered([Recovered(disk)], d)
  {
    hide Published, CurrentParts, Replay;
    var published := Published(disk);
    var replayed := Replay(VersionsOf(published), disk.wal);
    ReplayIs(VersionsOf(published), disk.wal);
    if d !in disk.wal { CoveredPublished(disk, d); }
    var r := Recovered(disk);
    assert d.id in replayed.versions && replayed.versions[d.id] >= d.version;
    assert r in [r];
  }

  /** Reopening recovers exactly the newest logged version of every document. */
  lemma OkIsDurable(c: Config, s: State)
    requires HistoryOk(c, s) && DiskOk(s.disk, s.history)
    ensures Durable(s)
  {
    hide Recovered, Latest, Ordered, From, Covered, Readable;
    RecoveredFrom(s.disk, s.history);
    forall d: Document | d in s.history ensures Covered([Recovered(s.disk)], d) { RecoveredCovers(s.disk, d); }
    NewestIsLatest(s.history, Recovered(s.disk));
  }
}

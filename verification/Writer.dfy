/** The durable index writer (src/storage/index_writer.cpp, src/storage/manifest.cpp) as a step
    machine. A step is what one thread does between two points where another thread or a crash
    can intervene: a stretch under `mutex_`, or one durable file operation. */
module WriterMachine {
  import opened Basics
  import opened Schemas
  import opened Generations
  import WriteAhead

  datatype Manifest = Manifest(generation: nat, segments: seq<nat>)

  /** Writer options, which documents the in-memory index takes, which logs replay, with or without a
      torn record at their end, and which manifest files load within their read limits. */
  datatype Config = Config(maxBuffered: nat, maxFrozen: nat, mergeThreshold: nat, mergeWidth: nat, reclaim: bool,
                           accepts: Document -> bool, replays: (seq<Document>, Option<WriteAhead.Torn>) -> bool,
                           loads: Manifest -> bool)

  /** What `IndexWriter::open` demands of its options. */
  predicate ValidConfig(c: Config) {
    c.maxBuffered > 0 && c.maxFrozen > 0 && c.mergeWidth >= 2 && (c.mergeThreshold == 0 || c.mergeThreshold >= 2)
  }

  // ---- durable state ----

  /** The directory: the complete records of the log and what is left of an append that did not finish,
      the complete segment and manifest files, and CURRENT (0: absent). */
  datatype Disk = Disk(wal: seq<Document>, torn: Option<WriteAhead.Torn>, files: map<nat, Contents>,
                       manifests: map<nat, seq<nat>>, current: nat)

  function FileOf(files: map<nat, Contents>, id: nat): Contents {
    if id in files then files[id] else map[]
  }

  function PartsOf(files: map<nat, Contents>, ids: seq<nat>): (r: seq<Contents>)
    ensures |r| == |ids|
  {
    seq(|ids|, i requires 0 <= i < |ids| => FileOf(files, ids[i]))
  }

  /** The manifest CURRENT names. */
  function CurrentManifest(disk: Disk): Manifest {
    if disk.current != 0 && disk.current in disk.manifests
      then Manifest(disk.current, disk.manifests[disk.current]) else Manifest(0, [])
  }

  /** CURRENT, if present, names a manifest within the read limit. */
  predicate CurrentLoads(c: Config, disk: Disk) {
    disk.current != 0 ==> c.loads(CurrentManifest(disk))
  }

  // ---- volatile state ----

  datatype Refresh = NotRefreshing | WaitingToFreeze | WaitingForIdle

  /** The background thread; it is busy from taking a frozen index until it has finished or failed. */
  datatype Worker = Waiting | Flushing(snapshot: Contents) | Merging | Finishing | Failing | Exited

  datatype Party = Background | Caller

  /** How far the holder of `publication_mutex_` has come. */
  datatype Stage =
    | Planning
    | Writing(id: nat, output: Contents, next: Manifest)
    | Recording(next: Manifest)
    | Switching(next: Manifest)
    | Installing(next: Manifest)
    | Reclaiming(obsolete: Manifest)

  datatype Job = Job(party: Party, compaction: bool, stage: Stage)

  /** `open_search_view` in progress: CURRENT read, then the manifest, then segment after segment. */
  datatype Reader = Located(generation: nat) | Loaded(manifest: Manifest, read: seq<Contents>)

  datatype Memory = Memory(
    active: Contents,
    buffered: nat,
    frozen: seq<Contents>,
    manifest: Manifest,
    versions: map<string, nat>,
    nextSegment: nat,
    refresh: Refresh,
    failed: bool,
    worker: Worker,
    job: Option<Job>,
    parked: seq<Document>,
    tails: nat,
    reader: Option<Reader>)

  /** `history` is every mutation whose log record became durable, `acked` those reported as logged. */
  datatype State = State(disk: Disk, memory: Option<Memory>, history: seq<Document>, acked: seq<Document>)

  function Init(): State {
    State(Disk([], None, map[], map[], 0), None, [], [])
  }

  function Up(s: State, m: Memory): State {
    s.(memory := Some(m))
  }

  // ---- put ----

  /** How an append ends; one that does not finish leaves the first `reached` bytes of its record. */
  datatype Append = Appended | NotRecorded(reached: nat) | RecordedButFailed

  /** `freeze_active_locked`. */
  function Freeze(m: Memory): Memory {
    if m.buffered == 0 then m else m.(frozen := m.frozen + [m.active], active := map[], buffered := 0)
  }

  /** The rest of `put` once it holds the lock and has room. */
  function Accept(c: Config, s: State, m: Memory, d: Document, append: Append): State {
    if d.id in m.versions && d.version <= m.versions[d.id] then Up(s, m)
    else if !c.accepts(d) then Up(s, m)
    else
      var active := m.active[d.id := d];
      match append
      case NotRecorded(reached) =>
        Up(s, m.(active := active, failed := true)).(disk := s.disk.(torn := Some(WriteAhead.Torn(d, reached))))
      case RecordedButFailed =>
        Up(s, m.(active := active, failed := true)).(disk := s.disk.(wal := s.disk.wal + [d]),
           history := s.history + [d])
      case Appended =>
        var logged := m.(active := active, versions := m.versions[d.id := d.version], buffered := m.buffered + 1);
        Up(s, if logged.buffered < c.maxBuffered then logged
              else if |logged.frozen| < c.maxFrozen then Freeze(logged)
              else logged.(tails := logged.tails + 1))
        .(disk := s.disk.(wal := s.disk.wal + [d]), history := s.history + [d], acked := s.acked + [d])
  }

  /** A put passes the wait on `refreshing_`; when the buffer is full and no room is left it parks. */
  function PutArrives(c: Config, s: State, m: Memory, d: Document, append: Append): Option<State> {
    if m.refresh != NotRefreshing || m.failed then None
    else if m.buffered < c.maxBuffered then Some(Accept(c, s, m, d, append))
    else if |m.frozen| < c.maxFrozen then Some(Accept(c, s, Freeze(m), d, append))
    else Some(Up(s, m.(parked := m.parked + [d])))
  }

  /** A parked put finds room. It does not look at `refreshing_` again. */
  function PutResumes(c: Config, s: State, m: Memory, i: nat, append: Append): Option<State> {
    if i >= |m.parked| || m.failed || |m.frozen| >= c.maxFrozen then None
    else Some(Accept(c, s, Freeze(m.(parked := m.parked[..i] + m.parked[i + 1..])), m.parked[i], append))
  }

  /** A put that filled the buffer finds room to rotate it. */
  function TailResumes(c: Config, s: State, m: Memory): Option<State> {
    if m.tails == 0 || m.failed || |m.frozen| >= c.maxFrozen then None
    else Some(Up(s, Freeze(m.(tails := m.tails - 1))))
  }

  // ---- refresh ----

  datatype Reset = Emptied | Kept | EmptiedButFailed

  function RefreshStarts(s: State, m: Memory): Option<State> {
    if m.refresh != NotRefreshing || m.failed then None
    else Some(Up(s, m.(refresh := if m.buffered == 0 then WaitingForIdle else WaitingToFreeze)))
  }

  function RefreshFreezes(c: Config, s: State, m: Memory): Option<State> {
    if m.refresh != WaitingToFreeze || m.failed || |m.frozen| >= c.maxFrozen then None
    else Some(Up(s, Freeze(m).(refresh := WaitingForIdle)))
  }

  predicate Busy(m: Memory) {
    m.worker != Waiting && m.worker != Exited
  }

  /** Everything frozen is published: the log is reset. */
  function RefreshResets(s: State, m: Memory, reset: Reset): Option<State> {
    if m.refresh != WaitingForIdle || m.failed || Busy(m) || m.frozen != [] then None
    else
      var emptied := s.disk.(wal := [], torn := None);
      match reset
      case Emptied => Some(Up(s, m.(refresh := NotRefreshing)).(disk := emptied))
      case Kept => Some(Up(s, m.(refresh := NotRefreshing, failed := true)))
      case EmptiedButFailed => Some(Up(s, m.(refresh := NotRefreshing, failed := true)).(disk := emptied))
  }

  function RefreshFails(s: State, m: Memory): Option<State> {
    if m.refresh == NotRefreshing || !m.failed then None else Some(Up(s, m.(refresh := NotRefreshing)))
  }

  // ---- the background thread and publication ----

  function WorkerTakes(s: State, m: Memory): Option<State> {
    if m.worker != Waiting || m.frozen == [] then None
    else Some(Up(s, m.(worker := Flushing(m.frozen[0]), frozen := m.frozen[1..])))
  }

  function FlushLocks(s: State, m: Memory): Option<State> {
    if !m.worker.Flushing? || m.job.Some? then None
    else Some(Up(s, m.(job := Some(Job(Background, false, Planning)))))
  }

  function CompactionLocks(s: State, m: Memory, party: Party): Option<State> {
    if m.job.Some? || (party.Background? && m.worker != Merging) then None
    else Some(Up(s, m.(job := Some(Job(party, true, Planning)))))
  }

  /** An ID is allotted and the next generation is the present one with the new segment. */
  function FlushPlans(s: State, m: Memory): Option<State> {
    if m.job != Some(Job(Background, false, Planning)) || !m.worker.Flushing? then None
    else
      var id := m.nextSegment;
      var next := Manifest(m.manifest.generation + 1, m.manifest.segments + [id]);
      Some(Up(s, m.(nextSegment := id + 1, job := Some(Job(Background, false, Writing(id, m.worker.snapshot, next))))))
  }

  /** The chosen segments, whichever they are, are merged; the others stay, in order of their IDs. The
      choice is among the segments of `manifest_`, the readers are those of CURRENT; where a chosen
      position is beyond them the behaviour of the code is undefined and the machine has no step. */
  function CompactionPlans(c: Config, s: State, m: Memory, selected: set<nat>): Option<State> {
    if m.job.None? || !m.job.value.compaction || m.job.value.stage != Planning then None
    else if |m.manifest.segments| <= 1 || |selected| != Min(c.mergeWidth, |m.manifest.segments|) then None
    else if exists i :: i in selected && i >= |m.manifest.segments| then None
    else if !CurrentLoads(c, s.disk) || exists i :: i in selected && i >= |CurrentManifest(s.disk).segments| then None
    else
      var id := m.nextSegment;
      var parts := PartsOf(s.disk.files, CurrentManifest(s.disk).segments);
      var next := Manifest(m.manifest.generation + 1, Others(m.manifest.segments, selected) + [id]);
      Some(Up(s, m.(nextSegment := id + 1,
                    job := Some(Job(m.job.value.party, true, Writing(id, JoinAll(Chosen(parts, selected)), next))))))
  }

  /** The thread that held the publication lock goes on. */
  function Released(m: Memory, party: Party, worker: Worker): Memory {
    m.(job := None, worker := if party.Background? then worker else m.worker)
  }

  function CompactionSkips(s: State, m: Memory): Option<State> {
    if m.job.None? || !m.job.value.compaction || m.job.value.stage != Planning || |m.manifest.segments| > 1 then None
    else Some(Up(s, Released(m, m.job.value.party, Finishing)))
  }

  /** The segment file is complete under its name. */
  function SegmentWritten(s: State, m: Memory): Option<State> {
    if m.job.None? || !m.job.value.stage.Writing? then None
    else
      var stage := m.job.value.stage;
      Some(Up(s, m.(job := Some(m.job.value.(stage := Recording(stage.next)))))
           .(disk := s.disk.(files := s.disk.files[stage.id := stage.output])))
  }

  /** What `ManifestStore::publish` checks first. */
  predicate Publishable(c: Config, disk: Disk, next: Manifest) {
    && next.generation != 0 && next.segments != []
    && (disk.current != 0 ==> disk.current in disk.manifests && CurrentLoads(c, disk) && next.generation > disk.current)
    && (forall i :: 0 <= i < |next.segments| ==> next.segments[i] != 0 && next.segments[i] in disk.files)
    && (forall i, j :: 0 <= i < j < |next.segments| ==> next.segments[i] != next.segments[j])
  }

  function ManifestRecorded(c: Config, s: State, m: Memory): Option<State> {
    if m.job.None? || !m.job.value.stage.Recording? || !Publishable(c, s.disk, m.job.value.stage.next) then None
    else
      var next := m.job.value.stage.next;
      Some(Up(s, m.(job := Some(m.job.value.(stage := Switching(next)))))
           .(disk := s.disk.(manifests := s.disk.manifests[next.generation := next.segments])))
  }

  function CurrentSwitched(s: State, m: Memory): Option<State> {
    if m.job.None? || !m.job.value.stage.Switching? then None
    else
      var next := m.job.value.stage.next;
      Some(Up(s, m.(job := Some(m.job.value.(stage := Installing(next)))))
           .(disk := s.disk.(current := next.generation)))
  }

  /** `manifest_` follows CURRENT; a flush may go on to compact, a compaction to reclaim. */
  function ManifestInstalled(c: Config, s: State, m: Memory): Option<State> {
    if m.job.None? || !m.job.value.stage.Installing? then None
    else
      var job := m.job.value;
      var next := job.stage.next;
      if job.compaction then Some(Up(s, m.(manifest := next, job := Some(job.(stage := Reclaiming(m.manifest))))))
      else
        var crowded := c.mergeThreshold != 0 && |next.segments| >= c.mergeThreshold;
        Some(Up(s, Released(m.(manifest := next), job.party, if crowded then Merging else Finishing)))
  }

  /** One superseded segment file goes. */
  function SegmentReclaimed(c: Config, s: State, m: Memory, id: nat): Option<State> {
    if m.job.None? || !m.job.value.stage.Reclaiming? || !c.reclaim then None
    else if id !in m.job.value.stage.obsolete.segments || id in m.manifest.segments then None
    else Some(s.(disk := s.disk.(files := s.disk.files - {id})))
  }

  function ManifestReclaimed(c: Config, s: State, m: Memory): Option<State> {
    if m.job.None? || !m.job.value.stage.Reclaiming? || !c.reclaim || m.job.value.stage.obsolete.generation == 0
      then None
    else Some(s.(disk := s.disk.(manifests := s.disk.manifests - {m.job.value.stage.obsolete.generation})))
  }

  function CompactionEnds(s: State, m: Memory): Option<State> {
    if m.job.None? || !m.job.value.stage.Reclaiming? then None
    else Some(Up(s, Released(m, m.job.value.party, Finishing)))
  }

  /** A file operation of the publication fails. After the rename of CURRENT it is the one that makes
      the rename durable: the call reports an error and `manifest_` stays behind CURRENT. */
  function JobFails(s: State, m: Memory): Option<State> {
    if m.job.None? || m.job.value.stage.Reclaiming? then None
    else Some(Up(s, Released(m, m.job.value.party, Failing)))
  }

  function WorkerReports(s: State, m: Memory): Option<State> {
    if m.worker == Finishing then Some(Up(s, m.(worker := Waiting)))
    else if m.worker == Failing then Some(Up(s, m.(worker := Exited, failed := true)))
    else None
  }

  // ---- readers ----

  /** `open_search_view` takes the lock and reads CURRENT. */
  function ReaderStarts(c: Config, s: State, m: Memory): Option<State> {
    if m.failed || s.disk.current == 0 || !CurrentLoads(c, s.disk) then None
    else Some(Up(s, m.(reader := Some(Located(s.disk.current)))))
  }

  /** The reader finds the next file it needs; a missing file disables the step. */
  function ReaderReads(s: State, m: Memory): Option<State> {
    match m.reader
    case None => None
    case Some(Located(g)) =>
      if g in s.disk.manifests then Some(Up(s, m.(reader := Some(Loaded(Manifest(g, s.disk.manifests[g]), [])))))
      else None
    case Some(Loaded(manifest, read)) =>
      if |read| < |manifest.segments| && manifest.segments[|read|] in s.disk.files
      then Some(Up(s, m.(reader := Some(Loaded(manifest, read + [s.disk.files[manifest.segments[|read|]]])))))
      else None
  }

  function ReaderEnds(s: State, m: Memory): Option<State> {
    match m.reader
    case Some(Loaded(manifest, read)) => if |read| == |manifest.segments| then Some(Up(s, m.(reader := None))) else None
    case _ => None
  }

  // ---- crash and open ----

  /** The log is replayed over the versions the segments hold. */
  datatype Replayed = Replayed(active: Contents, versions: map<string, nat>, buffered: nat)

  function VersionsOf(contents: Contents): map<string, nat> {
    map id | id in contents :: contents[id].version
  }

  function ReplayOne(r: Replayed, d: Document): Replayed {
    if d.id in r.versions && d.version <= r.versions[d.id] then r
    else Replayed(r.active[d.id := d], r.versions[d.id := d.version], r.buffered + 1)
  }

  function Replay(versions: map<string, nat>, wal: seq<Document>): Replayed {
    if wal == [] then Replayed(map[], versions, 0) else ReplayOne(Replay(versions, wal[..|wal| - 1]), wal[|wal| - 1])
  }

  function Published(disk: Disk): Contents {
    JoinAll(PartsOf(disk.files, CurrentManifest(disk).segments))
  }

  function NextAfter(ids: seq<nat>): nat {
    if ids == [] then 1
    else
      var n := |ids| - 1;
      var before := NextAfter(ids[..n]);
      if ids[n] + 1 > before then ids[n] + 1 else before
  }

  /** A file of no current use is cleaned up while the writer opens. */
  function SegmentCleaned(c: Config, s: State, id: nat): Option<State> {
    if s.memory.Some? || !c.reclaim || id in CurrentManifest(s.disk).segments then None
    else Some(s.(disk := s.disk.(files := s.disk.files - {id})))
  }

  function ManifestCleaned(c: Config, s: State, generation: nat): Option<State> {
    if s.memory.Some? || !c.reclaim || generation == s.disk.current then None
    else Some(s.(disk := s.disk.(manifests := s.disk.manifests - {generation})))
  }

  /** The state `IndexWriter::open` builds. */
  function Opened(disk: Disk): Memory {
    var manifest := CurrentManifest(disk);
    var replayed := Replay(VersionsOf(Published(disk)), disk.wal);
    Memory(replayed.active, replayed.buffered, [], manifest, replayed.versions, NextAfter(manifest.segments),
           NotRefreshing, false, Waiting, None, [], 0, None)
  }

  /** The process ends, possibly in the middle of an append. */
  function Crashes(c: Config, s: State, torn: Option<WriteAhead.Torn>): Option<State> {
    match torn
    case None => Some(s.(memory := None))
    case Some(t) =>
      if s.memory.Some? && !s.memory.value.failed && c.accepts(t.document)
      then Some(s.(memory := None, disk := s.disk.(torn := torn))) else None
  }

  /** Opening reads CURRENT, its manifest and every segment, replays the log and cuts off a torn record. */
  function Opens(c: Config, s: State): Option<State> {
    if s.memory.Some? || !ValidConfig(c) then None
    else if s.disk.current != 0 && s.disk.current !in s.disk.manifests then None
    else if !CurrentLoads(c, s.disk) || !c.replays(s.disk.wal, s.disk.torn) then None
    else if exists id :: id in CurrentManifest(s.disk).segments && id !in s.disk.files then None
    else if exists i :: 0 <= i < |s.disk.wal| && !c.accepts(s.disk.wal[i]) then None
    else Some(Up(s, Opened(s.disk)).(disk := s.disk.(torn := None)))
  }

  // ---- steps and runs ----

  datatype Step =
    | Put(d: Document, append: Append) | Resume(i: nat, append: Append) | Rotate
    | StartRefresh | FreezeForRefresh | ResetLog(reset: Reset) | AbandonRefresh
    | TakeFrozen | LockFlush | LockCompaction(party: Party) | PlanFlush | PlanCompaction(selected: set<nat>)
    | SkipCompaction
    | WriteSegment | RecordManifest | SwitchCurrent | InstallManifest
    | ReclaimSegment(id: nat) | ReclaimManifest | EndCompaction | FailJob | ReportWorker
    | StartReader | AdvanceReader | EndReader
    | Crash(torn: Option<WriteAhead.Torn>) | CleanSegment(id: nat) | CleanManifest(generation: nat) | Open

  /** Steps that need `mutex_` wait for a reader to finish. */
  predicate NeedsMutex(step: Step) {
    match step
    case LockFlush => false
    case LockCompaction(_) => false
    case WriteSegment => false
    case RecordManifest => false
    case SwitchCurrent => false
    case ReclaimSegment(_) => false
    case ReclaimManifest => false
    case EndCompaction => false
    case FailJob => false
    case AdvanceReader => false
    case EndReader => false
    case _ => true
  }

  function Running(c: Config, s: State, m: Memory, step: Step): Option<State> {
    match step
    case Put(d, append) => PutArrives(c, s, m, d, append)
    case Resume(i, append) => PutResumes(c, s, m, i, append)
    case Rotate => TailResumes(c, s, m)
    case StartRefresh => RefreshStarts(s, m)
    case FreezeForRefresh => RefreshFreezes(c, s, m)
    case ResetLog(reset) => RefreshResets(s, m, reset)
    case AbandonRefresh => RefreshFails(s, m)
    case TakeFrozen => WorkerTakes(s, m)
    case LockFlush => FlushLocks(s, m)
    case LockCompaction(party) => CompactionLocks(s, m, party)
    case PlanFlush => FlushPlans(s, m)
    case PlanCompaction(selected) => CompactionPlans(c, s, m, selected)
    case SkipCompaction => CompactionSkips(s, m)
    case WriteSegment => SegmentWritten(s, m)
    case RecordManifest => ManifestRecorded(c, s, m)
    case SwitchCurrent => CurrentSwitched(s, m)
    case InstallManifest => ManifestInstalled(c, s, m)
    case ReclaimSegment(id) => SegmentReclaimed(c, s, m, id)
    case ReclaimManifest => ManifestReclaimed(c, s, m)
    case EndCompaction => CompactionEnds(s, m)
    case FailJob => JobFails(s, m)
    case ReportWorker => WorkerReports(s, m)
    case StartReader => ReaderStarts(c, s, m)
    case AdvanceReader => ReaderReads(s, m)
    case EndReader => ReaderEnds(s, m)
    case _ => None
  }

  /** The state after a step, if the step can be taken. */
  function Do(c: Config, s: State, step: Step): Option<State> {
    match step
    case Crash(torn) => Crashes(c, s, torn)
    case CleanSegment(id) => SegmentCleaned(c, s, id)
    case CleanManifest(generation) => ManifestCleaned(c, s, generation)
    case Open => Opens(c, s)
    case _ =>
      if s.memory.None? || (NeedsMutex(step) && s.memory.value.reader.Some?) then None
      else Running(c, s, s.memory.value, step)
  }

  /** The state a run from an empty directory reaches. */
  function Run(c: Config, steps: seq<Step>): Option<State> {
    if steps == [] then Some(Init())
    else
      match Run(c, steps[..|steps| - 1])
      case None => None
      case Some(s) => Do(c, s, steps[|steps| - 1])
  }

  // ---- what reopening recovers ----

  /** Published segments and the replayed log together. */
  function Recovered(disk: Disk): Contents {
    Join(Published(disk), Replay(VersionsOf(Published(disk)), disk.wal).active)
  }

  /** The newest logged version of every document. */
  function Latest(history: seq<Document>): Contents {
    if history == [] then map[]
    else Latest(history[..|history| - 1])[history[|history| - 1].id := history[|history| - 1]]
  }

  /** CURRENT can be opened and reopening gives exactly the newest logged version of every document. */
  ghost predicate Durable(s: State) {
    && Readable(s.disk)
    && Recovered(s.disk) == Latest(s.history)
  }

  /** CURRENT, if present, names a complete manifest whose segment files all exist. */
  ghost predicate Readable(disk: Disk) {
    disk.current != 0 ==>
      && disk.current in disk.manifests && disk.manifests[disk.current] != []
      && forall i :: 0 <= i < |disk.manifests[disk.current]| ==> disk.manifests[disk.current][i] in disk.files
  }
}

/** Whole runs of the writer: what survives a crash, and exactly when something does not. */
module WriterDurability {
  import opened Basics
  import opened Schemas
  import opened Generations
  import opened WriterMachine
  import opened WriterSafety
  import opened WriterSteps
  import WriteAhead

  /** The step does not empty the log while a logged mutation is only in the active index. */
  predicate SafeReset(s: State, step: Step) {
    step.ResetLog? && step.reset != Kept && s.memory.Some? ==> s.memory.value.buffered == 0
  }

  lemma InitOk(c: Config)
    ensures Inv(c, Init())
  {
  }

  lemma RunningKeeps(c: Config, s: State, m: Memory, step: Step)
    requires Inv(c, s) && s.memory == Some(m) && SafeReset(s, step)
    requires Running(c, s, m, step).Some? && (NeedsMutex(step) ==> m.reader.None?)
    ensures Inv(c, Running(c, s, m, step).value)
  {
    hide Inv, PutArrives, PutResumes, TailResumes, RefreshFreezes, RefreshResets, WorkerTakes, FlushPlans,
         CompactionPlans, SegmentWritten, ManifestRecorded, CurrentSwitched, ManifestInstalled, SegmentReclaimed,
         ManifestReclaimed, ReaderReads;
    match step
    case Put(d, append) => PutKeeps(c, s, m, d, append);
    case Resume(i, append) => ResumeKeeps(c, s, m, i, append);
    case Rotate => RotateKeeps(c, s, m);
    case StartRefresh =>
      RefreshWaits(c, s, m, m.(refresh := if m.buffered == 0 then WaitingForIdle else WaitingToFreeze));
    case FreezeForRefresh => RefreshFreezeKeeps(c, s, m);
    case ResetLog(reset) => ResetKeeps(c, s, m, reset);
    case AbandonRefresh => RefreshWaits(c, s, m, m.(refresh := NotRefreshing));
    case TakeFrozen => TakeKeeps(c, s, m);
    case LockFlush => LockKeeps(c, s, m, Job(Background, false, Planning));
    case LockCompaction(party) => LockKeeps(c, s, m, Job(party, true, Planning));
    case PlanFlush => PlanFlushKeeps(c, s, m);
    case PlanCompaction(selected) => PlanCompactionKeeps(c, s, m, selected);
    case SkipCompaction => ReleaseKeeps(c, s, m, Finishing);
    case WriteSegment => WriteKeeps(c, s, m);
    case RecordManifest => RecordKeeps(c, s, m);
    case SwitchCurrent => SwitchKeeps(c, s, m);
    case InstallManifest => InstallKeeps(c, s, m);
    case ReclaimSegment(id) => ReclaimSegmentKeeps(c, s, m, id);
    case ReclaimManifest => ReclaimManifestKeeps(c, s, m);
    case EndCompaction => EndCompactionKeeps(c, s, m);
    case FailJob => ReleaseKeeps(c, s, m, Failing);
    case ReportWorker => ReportKeeps(c, s, m);
    case StartReader => StartReaderKeeps(c, s, m);
    case AdvanceReader => AdvanceKeeps(c, s, m);
    case EndReader => EndReaderKeeps(c, s, m);
    case _ =>
  }

  lemma EndCompactionKeeps(c: Config, s: State, m: Memory)
    requires Inv(c, s) && s.memory == Some(m) && CompactionEnds(s, m).Some?
    ensures Inv(c, CompactionEnds(s, m).value)
  {
    hide HistoryOk, DiskOk, ContentsOk, ManifestOk, ReaderOk;
    ReleaseKeeps(c, s, m, Finishing);
  }

  lemma StartReaderKeeps(c: Config, s: State, m: Memory)
    requires Inv(c, s) && s.memory == Some(m) && ReaderStarts(c, s, m).Some?
    ensures Inv(c, ReaderStarts(c, s, m).value)
  {
    hide HistoryOk, DiskOk, ContentsOk, ManifestOk, JobOk;
    ReaderKeeps(c, s, m, m.(reader := Some(Located(s.disk.current))));
  }

  lemma EndReaderKeeps(c: Config, s: State, m: Memory)
    requires Inv(c, s) && s.memory == Some(m) && ReaderEnds(s, m).Some?
    ensures Inv(c, ReaderEnds(s, m).value)
  {
    hide HistoryOk, DiskOk, ContentsOk, ManifestOk, JobOk;
    ReaderKeeps(c, s, m, m.(reader := None));
  }

  /** Every step keeps the invariant, except a reset of the log with mutations still buffered. */
  lemma StepKeeps(c: Config, s: State, step: Step)
    requires Inv(c, s) && Do(c, s, step).Some? && SafeReset(s, step)
    ensures Inv(c, Do(c, s, step).value)
  {
    hide Running, Opens, HistoryOk, DiskOk, MemoryOk;
    match step
    case Crash(torn) => CrashKeeps(c, s, torn);
    case CleanSegment(id) =>
      FewerFiles(s.disk.files, id);
      CleanKeeps(c, s, s.disk.files - {id}, s.disk.manifests);
    case CleanManifest(g) => CleanKeeps(c, s, s.disk.files, s.disk.manifests - {g});
    case Open => OpenKeeps(c, s);
    case _ => RunningKeeps(c, s, s.memory.value, step);
  }

  lemma CrashKeeps(c: Config, s: State, torn: Option<WriteAhead.Torn>)
    requires Inv(c, s) && Crashes(c, s, torn).Some?
    ensures Inv(c, Crashes(c, s, torn).value)
  {
    hide DiskOk, MemoryOk, Ordered;
    TornDisk(s.disk, s.history, Crashes(c, s, torn).value.disk.torn);
    assert s.disk.(torn := s.disk.torn) == s.disk;
  }

  // ---- the guard ----

  /** A put goes on only while no refresh is under way. */
  predicate Guarded(s: State, step: Step) {
    step.Resume? && s.memory.Some? ==> s.memory.value.refresh == NotRefreshing
  }

  /** A refresh that waits for the worker has nothing buffered. */
  predicate Quiet(s: State) {
    s.memory.Some? && s.memory.value.refresh == WaitingForIdle ==> s.memory.value.buffered == 0
  }

  lemma AcceptIsQuiet(c: Config, s: State, m: Memory, d: Document, append: Append)
    ensures var t := Accept(c, s, m, d, append); t.memory.Some? && t.memory.value.refresh == m.refresh
  {
  }

  /** Steps of the worker, of publications and of readers leave the buffer and the refresh alone. */
  lemma OtherStepsAreQuiet(c: Config, s: State, m: Memory, step: Step)
    requires s.memory == Some(m) && Running(c, s, m, step).Some?
    requires !(step.Put? || step.Resume? || step.Rotate? || step.StartRefresh? || step.FreezeForRefresh?
               || step.ResetLog? || step.AbandonRefresh?)
    ensures var t := Running(c, s, m, step).value;
      t.memory.Some? && t.memory.value.refresh == m.refresh && t.memory.value.buffered == m.buffered
  {
    hide PartsOf, JoinAll, Publishable, Others, Chosen, PutArrives, PutResumes, TailResumes, RefreshFreezes,
         RefreshResets;
  }

  lemma RunningIsQuiet(c: Config, s: State, m: Memory, step: Step)
    requires Quiet(s) && s.memory == Some(m) && Guarded(s, step) && Running(c, s, m, step).Some?
    ensures Quiet(Running(c, s, m, step).value) && SafeReset(s, step)
  {
    hide Accept, WorkerTakes, FlushLocks, CompactionLocks, FlushPlans, CompactionPlans, CompactionSkips,
         SegmentWritten, ManifestRecorded, CurrentSwitched, ManifestInstalled, SegmentReclaimed, ManifestReclaimed,
         CompactionEnds, JobFails, WorkerReports, ReaderStarts, ReaderReads, ReaderEnds;
    match step
    case Put(d, append) =>
      AcceptIsQuiet(c, s, m, d, append);
      AcceptIsQuiet(c, s, Freeze(m), d, append);
    case Resume(i, append) =>
      AcceptIsQuiet(c, s, Freeze(m.(parked := m.parked[..i] + m.parked[i + 1..])), m.parked[i], append);
    case Rotate =>
    case StartRefresh =>
    case FreezeForRefresh =>
    case ResetLog(_) =>
    case AbandonRefresh =>
    case _ => OtherStepsAreQuiet(c, s, m, step);
  }

  /** Under the guard nothing is buffered between the freeze and the reset. */
  lemma QuietKeeps(c: Config, s: State, step: Step)
    requires Quiet(s) && Guarded(s, step) && Do(c, s, step).Some?
    ensures Quiet(Do(c, s, step).value) && SafeReset(s, step)
  {
    hide Running, Replay, Published;
    if s.memory.Some? && Running(c, s, s.memory.value, step).Some? { RunningIsQuiet(c, s, s.memory.value, step); }
  }

  ghost predicate RunIsGuarded(c: Config, steps: seq<Step>) {
    forall n :: 0 <= n < |steps| && Run(c, steps[..n]).Some? ==> Guarded(Run(c, steps[..n]).value, steps[n])
  }

  ghost predicate RunResetsSafely(c: Config, steps: seq<Step>) {
    forall n :: 0 <= n < |steps| && Run(c, steps[..n]).Some? ==> SafeReset(Run(c, steps[..n]).value, steps[n])
  }

  lemma {:induction false} SafeRunKeeps(c: Config, steps: seq<Step>)
    requires Run(c, steps).Some? && RunResetsSafely(c, steps)
    ensures Inv(c, Run(c, steps).value)
  {
    hide Inv, Do, SafeReset;
    if steps == [] {
      InitOk(c);
    } else {
      var n := |steps| - 1;
      forall k | 0 <= k < n && Run(c, steps[..n][..k]).Some?
        ensures SafeReset(Run(c, steps[..n][..k]).value, steps[..n][k])
      {
        assert steps[..n][..k] == steps[..k];
      }
      SafeRunKeeps(c, steps[..n]);
      StepKeeps(c, Run(c, steps[..n]).value, steps[n]);
    }
  }

  lemma {:induction false} GuardedRunIsQuiet(c: Config, steps: seq<Step>)
    requires Run(c, steps).Some? && RunIsGuarded(c, steps)
    ensures Quiet(Run(c, steps).value) && RunResetsSafely(c, steps)
  {
    hide Do, SafeReset, Guarded, Quiet;
    if steps == [] {
      assert Quiet(Init()) by { NothingRunning(); }
    } else {
      var n := |steps| - 1;
      forall k | 0 <= k < n && Run(c, steps[..n][..k]).Some?
        ensures Guarded(Run(c, steps[..n][..k]).value, steps[..n][k])
      {
        assert steps[..n][..k] == steps[..k];
      }
      GuardedRunIsQuiet(c, steps[..n]);
      QuietKeeps(c, Run(c, steps[..n]).value, steps[n]);
      forall k | 0 <= k < |steps| && Run(c, steps[..k]).Some? ensures SafeReset(Run(c, steps[..k]).value, steps[k]) {
        if k < n { assert steps[..n][..k] == steps[..k]; }
      }
    }
  }

  lemma NothingRunning()
    ensures Quiet(Init())
  {
  }

  /** No acknowledged mutation is older than what reopening finds, and the version found is intact. */
  ghost predicate NothingLost(s: State) {
    && Durable(s)
    && forall d: Document :: d in s.acked ==>
         && d.id in Recovered(s.disk) && Recovered(s.disk)[d.id].version >= d.version
         && (Recovered(s.disk)[d.id].version == d.version ==> Recovered(s.disk)[d.id] == d)
  }

  lemma OkLosesNothing(c: Config, s: State)
    requires Inv(c, s)
    ensures NothingLost(s)
  {
    hide Recovered, Latest, DiskOk, MemoryOk, Readable;
    OkIsDurable(c, s);
    forall d: Document | d in s.acked
      ensures d.id in Recovered(s.disk) && Recovered(s.disk)[d.id].version >= d.version
      ensures Recovered(s.disk)[d.id].version == d.version ==> Recovered(s.disk)[d.id] == d
    {
      var i :| 0 <= i < |s.history| && s.history[i] == d;
      LatestCovers(s.history, i);
      LatestFrom(s.history);
      if Latest(s.history)[d.id].version == d.version { SameVersionSame(s.history, Latest(s.history)[d.id], d); }
    }
  }

  /** Durability: in every run in which puts respect `refreshing_`, with crashes anywhere, reopening
      yields exactly the newest logged version of every document. */
  lemma GuardedRunsLoseNothing(c: Config, steps: seq<Step>)
    requires Run(c, steps).Some? && RunIsGuarded(c, steps)
    ensures NothingLost(Run(c, steps).value)
  {
    hide Run, Inv, NothingLost, RunIsGuarded, RunResetsSafely;
    GuardedRunIsQuiet(c, steps);
    SafeRunKeeps(c, steps);
    OkLosesNothing(c, Run(c, steps).value);
  }

  lemma OkReopens(c: Config, s: State)
    requires Inv(c, s) && ValidConfig(c) && s.memory.None?
    ensures Opens(c, s).Some? <==> c.replays(s.disk.wal, s.disk.torn) && CurrentLoads(c, s.disk)
    ensures Opens(c, s).Some? ==>
      && Opens(c, s).value.memory.Some?
      && Join(Published(s.disk), Opens(c, s).value.memory.value.active) == Latest(s.history)
  {
    hide Latest, Published, Replay, Ordered, From, Covered;
    OkIsDurable(c, s);
  }

  /** After any guarded run and a crash, in the middle of an append or not, the writer opens again if and
      only if the log, with what is left of an append at its end, and the manifest that CURRENT names
      are within their read limits, and what it then publishes or buffers is exactly the newest logged
      version of every document. */
  lemma GuardedRunsReopen(c: Config, steps: seq<Step>, torn: Option<WriteAhead.Torn>)
    requires Run(c, steps).Some? && RunIsGuarded(c, steps) && ValidConfig(c)
    requires Crashes(c, Run(c, steps).value, torn).Some?
    ensures var s := Run(c, steps).value;
      var down := Crashes(c, s, torn).value;
      && (Opens(c, down).Some? <==> c.replays(down.disk.wal, down.disk.torn) && CurrentLoads(c, down.disk))
      && (Opens(c, down).Some? ==>
            && Opens(c, down).value.memory.Some?
            && Join(Published(s.disk), Opens(c, down).value.memory.value.active) == Latest(s.history))
  {
    hide Run, Inv, Opens, RunIsGuarded, RunResetsSafely, Latest, Published, CurrentLoads;
    GuardedRunIsQuiet(c, steps);
    SafeRunKeeps(c, steps);
    var s := Run(c, steps).value;
    CrashKeeps(c, s, torn);
    var down := Crashes(c, s, torn).value;
    OkReopens(c, down);
    SamePublished(s.disk, down.disk.torn);
  }

  lemma SamePublished(disk: Disk, torn: Option<WriteAhead.Torn>)
    ensures Published(disk.(torn := torn)) == Published(disk)
  {
  }

  /** What the log file holds. */
  function LogFile(disk: Disk): string
    requires disk.torn.Some? ==> WriteAhead.IsTorn(disk.torn.value)
  {
    WriteAhead.Records(disk.wal) + WriteAhead.TailBytes(disk.torn)
  }

  /** The condition on the log, for the log format of the writer: the file, the number of complete
      records and each of them are within the read limits, and a torn record that shows its length does
      not announce more than the record limit. */
  lemma ReopensWithinLimits(c: Config, steps: seq<Step>, torn: Option<WriteAhead.Torn>, limits: WriteAhead.WalLimits)
    requires Run(c, steps).Some? && RunIsGuarded(c, steps) && ValidConfig(c)
    requires Crashes(c, Run(c, steps).value, torn).Some?
    requires var disk := Crashes(c, Run(c, steps).value, torn).value.disk;
      && (forall d: Document :: d in disk.wal ==> WriteAhead.Loggable(d))
      && (disk.torn.Some? ==> WriteAhead.IsTorn(disk.torn.value))
      && (c.replays(disk.wal, disk.torn) <==> WriteAhead.ReplayFile(limits, LogFile(disk)).Ok?)
    ensures var down := Crashes(c, Run(c, steps).value, torn).value;
      Opens(c, down).Some? <==>
        && WriteAhead.ReadableLog(limits, down.disk.wal) && WriteAhead.ReadableTail(limits, down.disk.torn)
        && |LogFile(down.disk)| <= limits.fileBytes && CurrentLoads(c, down.disk)
  {
    hide Run, Opens, RunIsGuarded, CurrentLoads, WriteAhead.ReadableLog, WriteAhead.ReplayFile, WriteAhead.Records,
         WriteAhead.Loggable, WriteAhead.ReadableTail, WriteAhead.TailBytes, WriteAhead.IsTorn, Published, Latest,
         Crashes;
    GuardedRunsReopen(c, steps, torn);
    var disk := Crashes(c, Run(c, steps).value, torn).value.disk;
    WriteAhead.ReplaysWithTailIff(limits, disk.wal, disk.torn);
  }

  // ---- the end of the log ----

  /** While the writer can still append, the log ends with a complete record. */
  predicate EndsWhole(s: State) {
    s.memory.Some? && !s.memory.value.failed ==> s.disk.torn.None?
  }

  lemma AcceptEndsWhole(c: Config, s: State, m: Memory, d: Document, append: Append)
    requires s.disk.torn.None?
    ensures EndsWhole(Accept(c, s, m, d, append))
  {
  }

  /** Only puts and resets touch the end of the log. */
  lemma OtherStepsEndWhole(c: Config, s: State, m: Memory, step: Step)
    requires EndsWhole(s) && s.memory == Some(m) && Running(c, s, m, step).Some?
    requires !(step.Put? || step.Resume? || step.Rotate? || step.ResetLog?)
    ensures EndsWhole(Running(c, s, m, step).value)
  {
    hide PartsOf, JoinAll, Publishable, Others, Chosen, PutArrives, PutResumes, TailResumes, RefreshResets;
  }

  lemma RunningEndsWhole(c: Config, s: State, m: Memory, step: Step)
    requires EndsWhole(s) && s.memory == Some(m) && Running(c, s, m, step).Some?
    ensures EndsWhole(Running(c, s, m, step).value)
  {
    hide Accept, WorkerTakes, FlushLocks, CompactionLocks, FlushPlans, CompactionPlans, CompactionSkips, SegmentWritten,
         ManifestRecorded, CurrentSwitched, ManifestInstalled, SegmentReclaimed, ManifestReclaimed, CompactionEnds,
         JobFails, WorkerReports, ReaderStarts, ReaderReads, ReaderEnds, RefreshFreezes, RefreshStarts;
    match step
    case Put(d, append) =>
      if s.disk.torn.None? {
        AcceptEndsWhole(c, s, m, d, append);
        AcceptEndsWhole(c, s, Freeze(m), d, append);
      }
    case Resume(i, append) =>
      if i < |m.parked| && s.disk.torn.None? {
        AcceptEndsWhole(c, s, Freeze(m.(parked := m.parked[..i] + m.parked[i + 1..])), m.parked[i], append);
      }
    case Rotate =>
    case ResetLog(_) =>
    case _ => OtherStepsEndWhole(c, s, m, step);
  }

  lemma StepEndsWhole(c: Config, s: State, step: Step)
    requires EndsWhole(s) && Do(c, s, step).Some?
    ensures EndsWhole(Do(c, s, step).value)
  {
    hide Running, Opened;
    if s.memory.Some? && Running(c, s, s.memory.value, step).Some? { RunningEndsWhole(c, s, s.memory.value, step); }
  }

  /** In every run, guarded or not, a record is only ever appended behind a complete one: after an append
      that did not finish nothing is appended until the log has been replayed and cut. */
  lemma {:induction false} AppendsFollowWholeRecords(c: Config, steps: seq<Step>)
    requires Run(c, steps).Some?
    ensures EndsWhole(Run(c, steps).value)
  {
    hide Do;
    if steps != [] {
      AppendsFollowWholeRecords(c, steps[..|steps| - 1]);
      StepEndsWhole(c, Run(c, steps[..|steps| - 1]).value, steps[|steps| - 1]);
    }
  }

  // ---- exactly when the code, without the guard, is durable ----

  /** A reset of the log is safe if and only if the active index is empty. */
  lemma ResetIsSafeIff(c: Config, s: State, m: Memory, reset: Reset)
    requires Inv(c, s) && s.memory == Some(m) && RefreshResets(s, m, reset).Some? && reset != Kept
    ensures Durable(RefreshResets(s, m, reset).value) <==> m.buffered == 0
  {
    hide HistoryOk, DiskOk, MemoryOk, Durable;
    if m.buffered == 0 {
      ResetKeeps(c, s, m, reset);
      OkIsDurable(c, RefreshResets(s, m, reset).value);
    } else {
      BufferedIsLost(c, s, m, reset);
    }
  }

  /** After a refresh that had nothing left to freeze, the published segments alone hold the newest
      logged version of every document: a search view sees everything acknowledged. */
  lemma RefreshPublishesAll(c: Config, s: State, m: Memory)
    requires Inv(c, s) && s.memory == Some(m) && RefreshResets(s, m, Emptied).Some? && m.buffered == 0
    ensures Published(RefreshResets(s, m, Emptied).value.disk) == Latest(s.history)
  {
    hide HistoryOk, DiskOk, MemoryOk, Published, Latest, Recovered;
    ResetKeeps(c, s, m, Emptied);
    OkIsDurable(c, RefreshResets(s, m, Emptied).value);
    PublishedOf(RefreshResets(s, m, Emptied).value.disk);
    assert RefreshResets(s, m, Emptied).value.disk.(wal := [], torn := None) == RefreshResets(s, m, Emptied).value.disk;
  }

  lemma PublishedOf(disk: Disk)
    ensures Recovered(disk.(wal := [], torn := None)) == Published(disk)
  {
    hide JoinAll;
    var empty := disk.(wal := [], torn := None);
    assert Published(empty) == Published(disk);
    assert Join(Published(disk), map[]) == Published(disk);
  }

  /** What is only in the active index when the log is emptied does not survive a crash. */
  lemma ActiveIsLost(c: Config, s: State, m: Memory, reset: Reset, id: string)
    requires Inv(c, s) && s.memory == Some(m) && RefreshResets(s, m, reset).Some? && reset != Kept && id in m.active
    ensures var after := RefreshResets(s, m, reset).value;
      id in Recovered(after.disk) ==> Recovered(after.disk)[id].version < m.active[id].version
  {
    hide Recovered, Published, ManifestOk, JobOk, ReaderOk, PartsOf, DiskOk, HistoryOk, From;
    var after := RefreshResets(s, m, reset).value;
    PublishedOf(s.disk);
    assert Recovered(after.disk) == Published(s.disk);
    if id in Published(s.disk) { PublishedBelow(s.disk, m, id); }
  }

  lemma BufferedIsLost(c: Config, s: State, m: Memory, reset: Reset)
    requires Inv(c, s) && s.memory == Some(m) && RefreshResets(s, m, reset).Some? && reset != Kept && m.buffered != 0
    ensures !Durable(RefreshResets(s, m, reset).value)
  {
    hide Recovered, Latest, ManifestOk, JobOk, ReaderOk, Ordered, Readable, DiskOk, Above, AllCovered;
    var id :| id in m.active;
    var i :| 0 <= i < |s.history| && s.history[i] == m.active[id];
    LatestCovers(s.history, i);
    ActiveIsLost(c, s, m, reset, id);
  }

  lemma PublishedBelow(disk: Disk, m: Memory, id: string)
    requires ManifestOk(disk, m) && JobOk(disk, m)
    requires id in m.active && id in Published(disk) && !Busy(m) && !m.failed
    requires forall p: Contents :: p in PartsOf(disk.files, m.manifest.segments) ==> Above(m.active, p)
    ensures Published(disk)[id].version < m.active[id].version
  {
    hide PartsOf, Published, AscendingBelow, Complete;
    PublishedHasPart(disk, id);
    var p: Contents :| p in CurrentParts(disk) && id in p && p[id] == Published(disk)[id];
    if m.job.Some? && m.job.value.stage.Installing? {
      var before := Before(disk, m, m.job.value.compaction);
      assert before == PartsOf(disk.files, m.manifest.segments);
      ReplacedAbove(before, CurrentParts(disk), p, m.active);
    } else if Lagging(disk, m) {
      ReplacedAbove(PartsOf(disk.files, m.manifest.segments), CurrentParts(disk), p, m.active);
    }
  }

  /** The first step at which a run goes wrong, if any, is an unsafe reset: a run of the code is
      durable throughout if and only if it never resets the log with mutations buffered. */
  lemma RunIsDurableIff(c: Config, steps: seq<Step>)
    requires Run(c, steps).Some?
    ensures (forall n :: 0 <= n <= |steps| ==> Run(c, steps[..n]).Some? && Durable(Run(c, steps[..n]).value))
      <==> RunResetsSafely(c, steps)
  {
    hide Do, Durable, SafeReset, Inv, Run;
    PrefixesRun(c, steps);
    if RunResetsSafely(c, steps) {
      forall n | 0 <= n <= |steps| ensures Durable(Run(c, steps[..n]).value) {
        SafePrefix(c, steps, n);
        SafeRunKeeps(c, steps[..n]);
        InvIsDurable(c, Run(c, steps[..n]).value);
      }
    } else {
      var n := FirstUnsafe(c, steps);
      SafeRunKeeps(c, steps[..n]);
      RunExtends(c, steps, n);
      assert Run(c, steps[..n + 1]).Some?;
      UnsafeStepLoses(c, Run(c, steps[..n]).value, steps[n]);
    }
  }

  lemma InvIsDurable(c: Config, s: State)
    requires Inv(c, s)
    ensures Durable(s)
  {
    hide HistoryOk, DiskOk, MemoryOk, Durable;
    OkIsDurable(c, s);
  }

  lemma RunExtends(c: Config, steps: seq<Step>, n: nat)
    requires n < |steps| && Run(c, steps[..n]).Some?
    ensures Run(c, steps[..n + 1]) == Do(c, Run(c, steps[..n]).value, steps[n])
  {
    hide Do;
    assert steps[..n + 1][..n] == steps[..n];
  }

  lemma {:induction false} PrefixesRun(c: Config, steps: seq<Step>)
    requires Run(c, steps).Some?
    ensures forall n :: 0 <= n <= |steps| ==> Run(c, steps[..n]).Some?
  {
    hide Do;
    if steps != [] {
      var last := |steps| - 1;
      PrefixesRun(c, steps[..last]);
      forall n | 0 <= n <= |steps| ensures Run(c, steps[..n]).Some? {
        if n <= last { assert steps[..last][..n] == steps[..n]; } else { assert steps[..n] == steps; }
      }
    } else {
      assert steps[..0] == steps;
    }
  }

  lemma SafePrefix(c: Config, steps: seq<Step>, n: nat)
    requires n <= |steps|
    requires forall k :: 0 <= k < n && Run(c, steps[..k]).Some? ==> SafeReset(Run(c, steps[..k]).value, steps[k])
    ensures RunResetsSafely(c, steps[..n])
  {
    hide Run, SafeReset;
    forall k | 0 <= k < n && Run(c, steps[..n][..k]).Some?
      ensures SafeReset(Run(c, steps[..n][..k]).value, steps[..n][k])
    {
      assert steps[..n][..k] == steps[..k];
    }
  }

  lemma FirstUnsafe(c: Config, steps: seq<Step>) returns (n: nat)
    requires !RunResetsSafely(c, steps)
    ensures n < |steps| && Run(c, steps[..n]).Some? && !SafeReset(Run(c, steps[..n]).value, steps[n])
    ensures RunResetsSafely(c, steps[..n])
  {
    hide Run, SafeReset;
    n := 0;
    while Run(c, steps[..n]).None? || SafeReset(Run(c, steps[..n]).value, steps[n])
      invariant n < |steps|
      invariant forall k :: 0 <= k < n && Run(c, steps[..k]).Some? ==> SafeReset(Run(c, steps[..k]).value, steps[k])
      decreases |steps| - n
    {
      n := n + 1;
    }
    SafePrefix(c, steps, n);
  }

  lemma UnsafeStepLoses(c: Config, s: State, step: Step)
    requires Inv(c, s) && !SafeReset(s, step) && Do(c, s, step).Some?
    ensures !Durable(Do(c, s, step).value)
  {
    hide Inv, Durable;
    ResetIsSafeIff(c, s, s.memory.value, step.reset);
  }

  // ---- publication ----

  /** The checks of `ManifestStore::publish` pass if and only if `manifest_` is what CURRENT names and
      that is within the read limit: then the generation is new, its segment files all exist, and no
      ID repeats. */
  lemma RecordingIsPublishable(c: Config, s: State, m: Memory)
    requires Inv(c, s) && s.memory == Some(m) && m.job.Some? && m.job.value.stage.Recording?
    ensures Publishable(c, s.disk, m.job.value.stage.next) <==>
      m.manifest == CurrentManifest(s.disk) && CurrentLoads(c, s.disk)
  {
    hide HistoryOk, ContentsOk, ReaderOk, Replaces, From, Covered, PartsOf;
  }
}

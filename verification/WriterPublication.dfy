/** Publication, reclaiming and readers, over every run of the code: no guard on puts is needed. */
module WriterPublication {
  import opened Basics
  import opened Schemas
  import opened Generations
  import opened WriterMachine
  import opened WriterSafety
  import opened WriterSteps

  ghost predicate DirectoryOk(disk: Disk) {
    Readable(disk) && AscendingBelow(CurrentManifest(disk).segments, NextAfter(CurrentManifest(disk).segments))
  }

  ghost predicate ProcessOk(disk: Disk, m: Memory) {
    ManifestOk(disk, m) && JobOk(disk, m) && ReaderOk(disk, m)
  }

  ghost predicate PublicationOk(s: State) {
    DirectoryOk(s.disk) && (s.memory.Some? ==> ProcessOk(s.disk, s.memory.value))
  }

  // ---- steps that do not publish ----

  /** Only the log and what is not yet with the publisher changed. */
  ghost predicate OnlyLog(s: State, m: Memory, t: State) {
    && t.memory.Some? && t.disk == s.disk.(wal := t.disk.wal, torn := t.disk.torn)
    && var n := t.memory.value;
       && n.manifest == m.manifest && n.nextSegment == m.nextSegment && n.worker == m.worker
       && n.job == m.job && n.reader == m.reader && (m.failed ==> n.failed)
  }

  lemma OnlyLogKeeps(s: State, m: Memory, t: State)
    requires PublicationOk(s) && s.memory == Some(m) && OnlyLog(s, m, t)
    ensures PublicationOk(t) && t.disk.current == s.disk.current
  {
    hide ManifestOk, JobOk, ReaderOk, AscendingBelow;
    SamePublication(s.disk, m, t.disk, t.memory.value);
  }

  lemma AcceptIsLog(c: Config, s: State, m: Memory, d: Document, append: Append)
    ensures OnlyLog(s, m, Accept(c, s, m, d, append))
  {
  }

  predicate LogStep(step: Step) {
    step.Put? || step.Resume? || step.Rotate? || step.StartRefresh? || step.FreezeForRefresh? || step.ResetLog?
      || step.AbandonRefresh?
  }

  lemma LogStepsAre(c: Config, s: State, m: Memory, step: Step)
    requires LogStep(step) && Running(c, s, m, step).Some?
    ensures OnlyLog(s, m, Running(c, s, m, step).value)
  {
    hide Accept;
    match step
    case Put(d, append) =>
      AcceptIsLog(c, s, m, d, append);
      AcceptIsLog(c, s, Freeze(m), d, append);
    case Resume(i, append) =>
      AcceptIsLog(c, s, Freeze(m.(parked := m.parked[..i] + m.parked[i + 1..])), m.parked[i], append);
    case _ =>
  }

  // ---- steps that move the publication along ----

  lemma WorkerStepKeeps(s: State, m: Memory, m': Memory)
    requires PublicationOk(s) && s.memory == Some(m)
    requires m' == m.(worker := m'.worker, frozen := m'.frozen, failed := m'.failed)
    requires m.worker == Waiting || m.worker == Finishing || m.worker == Failing
    requires (m.failed ==> m'.failed) && (m.worker == Failing || m'.worker == Failing ==> m'.failed)
    ensures PublicationOk(Up(s, m'))
  {
    hide AscendingBelow, Complete, Prepared, PartsOf;
  }

  lemma LockStepKeeps(s: State, m: Memory, job: Job)
    requires PublicationOk(s) && s.memory == Some(m) && m.job.None? && job.stage == Planning
    requires job.party.Caller? ==> job.compaction
    requires job.party.Background? ==> if job.compaction then m.worker == Merging else m.worker.Flushing?
    ensures PublicationOk(Up(s, m.(job := Some(job))))
  {
    hide AscendingBelow, Complete;
  }

  lemma PlanStepKeeps(s: State, m: Memory, job: Job)
    requires PublicationOk(s) && s.memory == Some(m) && m.job.Some? && m.job.value.stage == Planning
    requires job.stage.Writing? && job == m.job.value.(stage := job.stage) && job.stage.id == m.nextSegment
    requires job.stage.next.generation == m.manifest.generation + 1
    requires !Lagging(s.disk, m) ==>
      Prepared(Before(s.disk, m, job.compaction), m.manifest.generation, m.nextSegment + 1,
               s.disk.files[m.nextSegment := job.stage.output], job.stage.next)
    ensures PublicationOk(Up(s, m.(nextSegment := m.nextSegment + 1, job := Some(job))))
  {
    hide Prepared, Complete, ReaderOk;
    var n := m.(nextSegment := m.nextSegment + 1, job := Some(job));
    AscendingPush(m.manifest.segments, m.nextSegment);
    SameReader(s.disk, m, n);
    assert Before(s.disk, n, job.compaction) == Before(s.disk, m, job.compaction);
  }

  lemma PlanFlushPublishes(s: State, m: Memory)
    requires PublicationOk(s) && s.memory == Some(m) && FlushPlans(s, m).Some?
    ensures PublicationOk(FlushPlans(s, m).value)
  {
    hide DirectoryOk, ManifestOk, JobOk, ReaderOk, Prepared;
    FlushPrepared(s.disk, m);
    var t := FlushPlans(s, m).value;
    PlanStepKeeps(s, m, t.memory.value.job.value);
  }

  lemma PlanCompactionPublishes(c: Config, s: State, m: Memory, selected: set<nat>)
    requires PublicationOk(s) && s.memory == Some(m) && CompactionPlans(c, s, m, selected).Some?
    ensures PublicationOk(CompactionPlans(c, s, m, selected).value)
  {
    hide DirectoryOk, ManifestOk, JobOk, ReaderOk, Prepared, PartsOf, JoinAll, Chosen, Others;
    if !Lagging(s.disk, m) { CompactionPrepared(s.disk, m, selected); }
    var t := CompactionPlans(c, s, m, selected).value;
    PlanStepKeeps(s, m, t.memory.value.job.value);
  }

  lemma ReleaseStepKeeps(s: State, m: Memory, worker: Worker)
    requires PublicationOk(s) && s.memory == Some(m) && m.job.Some?
    requires worker == Failing || !m.job.value.stage.Installing?
    ensures PublicationOk(Up(s, Released(m, m.job.value.party, worker)))
  {
    hide AscendingBelow, Complete;
  }

  /** Files outside the manifests in use do not matter. */
  lemma UnusedFileIsIgnored(disk: Disk, m: Memory, files: map<nat, Contents>)
    requires DirectoryOk(disk) && ManifestOk(disk, m) && ReaderOk(disk, m)
    requires forall id :: id in m.manifest.segments || id in CurrentManifest(disk).segments ==>
      (id in disk.files <==> id in files) && FileOf(files, id) == FileOf(disk.files, id)
    ensures var after := disk.(files := files);
      && DirectoryOk(after) && ManifestOk(after, m) && ReaderOk(after, m)
      && Before(after, m, true) == Before(disk, m, true) && Before(after, m, false) == Before(disk, m, false)
      && CurrentManifest(after) == CurrentManifest(disk)
  {
    hide FileOf, PartsOf, AscendingBelow;
    PartsSame(disk.files, files, m.manifest.segments);
    PartsSame(disk.files, files, CurrentManifest(disk).segments);
  }

  lemma WritePublishes(s: State, m: Memory)
    requires PublicationOk(s) && s.memory == Some(m) && SegmentWritten(s, m).Some?
    ensures PublicationOk(SegmentWritten(s, m).value)
  {
    hide DirectoryOk, ManifestOk, ReaderOk, Prepared, FileOf, Before;
    var after := SegmentWritten(s, m).value;
    var n, stage := after.memory.value, m.job.value.stage;
    OtherFiles(s.disk.files, stage.id, stage.output);
    UnusedFileIsIgnored(s.disk, m, after.disk.files);
    SameBefore(after.disk, m, n);
    SameReader(after.disk, m, n);
    SameManifest(after.disk, m, n);
  }

  lemma UnusedManifestIsIgnored(disk: Disk, m: Memory, manifests: map<nat, seq<nat>>)
    requires DirectoryOk(disk) && ManifestOk(disk, m) && ReaderOk(disk, m)
    requires forall g :: g == m.manifest.generation || g == disk.current ==>
      (g in manifests <==> g in disk.manifests) && (g in manifests ==> manifests[g] == disk.manifests[g])
    ensures var after := disk.(manifests := manifests);
      DirectoryOk(after) && ManifestOk(after, m) && ReaderOk(after,
                  m) && CurrentManifest(after) == CurrentManifest(disk)
  {
    hide FileOf, AscendingBelow;
  }

  lemma RecordPublishes(c: Config, s: State, m: Memory)
    requires PublicationOk(s) && s.memory == Some(m) && ManifestRecorded(c, s, m).Some?
    ensures PublicationOk(ManifestRecorded(c, s, m).value)
  {
    hide DirectoryOk, ReaderOk, FileOf, PartsOf, Replaces, AscendingBelow, Complete;
    var after := ManifestRecorded(c, s, m).value;
    var n := after.memory.value;
    UnusedManifestIsIgnored(s.disk, m, after.disk.manifests);
    SameBefore(after.disk, m, n);
    assert Before(after.disk, m, m.job.value.compaction) == Before(s.disk, m, m.job.value.compaction);
    SameReader(after.disk, m, n);
    SameManifest(after.disk, m, n);
  }

  lemma SwitchPublishes(s: State, m: Memory)
    requires PublicationOk(s) && s.memory == Some(m) && CurrentSwitched(s, m).Some?
    ensures PublicationOk(CurrentSwitched(s, m).value)
    ensures CurrentSwitched(s, m).value.disk.current > s.disk.current
  {
    hide FileOf, PartsOf, Replaces, AscendingBelow;
    var after := CurrentSwitched(s, m).value;
    var n, next := after.memory.value, m.job.value.stage.next;
    assert CurrentManifest(after.disk) == next;
    NextBounds(next.segments, m.nextSegment);
    SameBefore(s.disk, m, n);
  }

  lemma InstallPublishes(c: Config, s: State, m: Memory)
    requires PublicationOk(s) && s.memory == Some(m) && m.reader.None? && ManifestInstalled(c, s, m).Some?
    ensures PublicationOk(ManifestInstalled(c, s, m).value)
  {
    hide FileOf, PartsOf, Replaces, AscendingBelow;
  }

  lemma ReclaimPublishes(c: Config, s: State, m: Memory, id: nat)
    requires PublicationOk(s) && s.memory == Some(m)
    ensures SegmentReclaimed(c, s, m, id).Some? ==> PublicationOk(SegmentReclaimed(c, s, m, id).value)
    ensures ManifestReclaimed(c, s, m).Some? ==> PublicationOk(ManifestReclaimed(c, s, m).value)
  {
    hide DirectoryOk, ReaderOk, FileOf, Before, AscendingBelow, Complete;
    if SegmentReclaimed(c, s, m, id).Some? {
      FewerFiles(s.disk.files, id);
      UnusedFileIsIgnored(s.disk, m, s.disk.files - {id});
    }
    if ManifestReclaimed(c, s, m).Some? {
      UnusedManifestIsIgnored(s.disk, m, s.disk.manifests - {m.job.value.stage.obsolete.generation});
    }
  }

  lemma ReaderStepKeeps(s: State, m: Memory, m': Memory)
    requires PublicationOk(s) && s.memory == Some(m) && m' == m.(reader := m'.reader) && ReaderOk(s.disk, m')
    ensures PublicationOk(Up(s, m'))
  {
    hide DirectoryOk, ReaderOk, AscendingBelow, Complete, Prepared;
    SameBeforeForReader(s.disk, m, m');
  }

  lemma AdvancePublishes(s: State, m: Memory)
    requires PublicationOk(s) && s.memory == Some(m) && ReaderReads(s, m).Some?
    ensures PublicationOk(ReaderReads(s, m).value)
  {
    hide DirectoryOk, AscendingBelow, JobOk;
    ReaderStepKeeps(s, m, ReaderReads(s, m).value.memory.value);
  }

  lemma OpenPublishes(c: Config, s: State)
    requires PublicationOk(s) && Opens(c, s).Some?
    ensures PublicationOk(Opens(c, s).value)
  {
    hide Replay, PartsOf, Published;
    NextBounds(CurrentManifest(s.disk).segments, NextAfter(CurrentManifest(s.disk).segments));
  }

  lemma CleanPublishes(c: Config, s: State, id: nat)
    requires PublicationOk(s)
    ensures SegmentCleaned(c, s, id).Some? ==> PublicationOk(SegmentCleaned(c, s, id).value)
    ensures ManifestCleaned(c, s, id).Some? ==> PublicationOk(ManifestCleaned(c, s, id).value)
  {
    hide ProcessOk, AscendingBelow;
  }

  lemma RunningPublishes(c: Config, s: State, m: Memory, step: Step)
    requires PublicationOk(s) && s.memory == Some(m)
    requires Running(c, s, m, step).Some? && (NeedsMutex(step) ==> m.reader.None?)
    ensures PublicationOk(Running(c, s, m, step).value)
    ensures var t := Running(c, s, m, step).value;
      t.disk.current != s.disk.current ==> step == SwitchCurrent && t.disk.current > s.disk.current
  {
    hide PublicationOk, PutArrives, PutResumes, TailResumes, RefreshFreezes, RefreshResets, OnlyLog,
         CompactionPlans, Publishable;
    if LogStep(step) {
      LogStepsAre(c, s, m, step);
      OnlyLogKeeps(s, m, Running(c, s, m, step).value);
      return;
    }
    match step {
      case TakeFrozen => WorkerStepKeeps(s, m, Running(c, s, m, step).value.memory.value);
      case LockFlush => LockStepKeeps(s, m, Job(Background, false, Planning));
      case LockCompaction(party) => LockStepKeeps(s, m, Job(party, true, Planning));
      case PlanFlush => PlanFlushPublishes(s, m);
      case PlanCompaction(selected) =>
        PlanCompactionPublishes(c, s, m, selected);
        PlanKeepsDisk(c, s, m, selected);
      case SkipCompaction => ReleaseStepKeeps(s, m, Finishing);
      case WriteSegment => WritePublishes(s, m);
      case RecordManifest => RecordPublishes(c, s, m);
      case SwitchCurrent => SwitchPublishes(s, m);
      case InstallManifest => InstallPublishes(c, s, m);
      case ReclaimSegment(id) => ReclaimPublishes(c, s, m, id);
      case ReclaimManifest => ReclaimPublishes(c, s, m, 0);
      case EndCompaction => ReleaseStepKeeps(s, m, Finishing);
      case FailJob => ReleaseStepKeeps(s, m, Failing);
      case ReportWorker => WorkerStepKeeps(s, m, Running(c, s, m, step).value.memory.value);
      case StartReader => StartPublishes(c, s, m);
      case AdvanceReader => AdvancePublishes(s, m);
      case EndReader => EndPublishes(s, m);
      case _ =>
    }
  }

  lemma PlanKeepsDisk(c: Config, s: State, m: Memory, selected: set<nat>)
    requires CompactionPlans(c, s, m, selected).Some?
    ensures CompactionPlans(c, s, m, selected).value.disk == s.disk
  {
    hide PartsOf, JoinAll, Chosen, Others;
  }

  lemma StartPublishes(c: Config, s: State, m: Memory)
    requires PublicationOk(s) && s.memory == Some(m) && ReaderStarts(c, s, m).Some?
    ensures PublicationOk(ReaderStarts(c, s, m).value)
  {
    hide DirectoryOk, ManifestOk, JobOk;
    ReaderStepKeeps(s, m, m.(reader := Some(Located(s.disk.current))));
  }

  lemma EndPublishes(s: State, m: Memory)
    requires PublicationOk(s) && s.memory == Some(m) && ReaderEnds(s, m).Some?
    ensures PublicationOk(ReaderEnds(s, m).value)
  {
    hide DirectoryOk, ManifestOk, JobOk;
    ReaderStepKeeps(s, m, m.(reader := None));
  }

  /** CURRENT changes only by the rename that ends a publication, and only to a later generation. */
  lemma StepPublishes(c: Config, s: State, step: Step)
    requires PublicationOk(s) && Do(c, s, step).Some?
    ensures PublicationOk(Do(c, s, step).value)
    ensures var t := Do(c, s, step).value;
      t.disk.current != s.disk.current ==> step == SwitchCurrent && t.disk.current > s.disk.current
  {
    hide Running, ProcessOk, Opened;
    match step
    case Crash(_) =>
    case CleanSegment(id) => CleanPublishes(c, s, id);
    case CleanManifest(g) => CleanPublishes(c, s, g);
    case Open => OpenPublishes(c, s);
    case _ => RunningPublishes(c, s, s.memory.value, step);
  }

  // ---- whole runs ----

  lemma {:induction false} EveryRunPublishes(c: Config, steps: seq<Step>)
    requires Run(c, steps).Some?
    ensures PublicationOk(Run(c, steps).value)
  {
    hide PublicationOk, Do;
    if steps == [] {
      EmptyDirectory();
    } else {
      EveryRunPublishes(c, steps[..|steps| - 1]);
      StepPublishes(c, Run(c, steps[..|steps| - 1]).value, steps[|steps| - 1]);
    }
  }

  lemma EmptyDirectory()
    ensures PublicationOk(Init())
  {
  }

  /** In every run and across every crash, CURRENT names a complete manifest whose files all exist,
      a reader finds every file it goes on to open, and a publication passes the checks of the store if
      and only if `manifest_` is what CURRENT names and that is within the read limit. */
  lemma NoFileIsMissed(c: Config, steps: seq<Step>)
    requires Run(c, steps).Some?
    ensures var s := Run(c, steps).value;
      && Readable(s.disk)
      && (s.memory.Some? ==>
            var m := s.memory.value;
            && (m.job.Some? && m.job.value.stage.Recording? ==>
                  (Publishable(c, s.disk, m.job.value.stage.next)
                   <==> m.manifest == CurrentManifest(s.disk) && CurrentLoads(c, s.disk)))
            && (m.reader.Some? ==> ReaderReads(s, m).Some? || ReaderEnds(s, m).Some?))
  {
    hide Run;
    EveryRunPublishes(c, steps);
    var s := Run(c, steps).value;
    if s.memory.Some? { NothingIsMissed(c, s, s.memory.value); }
  }

  lemma NothingIsMissed(c: Config, s: State, m: Memory)
    requires PublicationOk(s) && s.memory == Some(m)
    ensures m.job.Some? && m.job.value.stage.Recording? ==>
      (Publishable(c, s.disk, m.job.value.stage.next) <==>
       m.manifest == CurrentManifest(s.disk) && CurrentLoads(c, s.disk))
    ensures m.reader.Some? ==> ReaderReads(s, m).Some? || ReaderEnds(s, m).Some?
  {
    hide Replaces, PartsOf;
  }

  /** What a reader returns is exactly the segments of one published generation. */
  lemma ReaderSeesAGeneration(c: Config, steps: seq<Step>)
    requires Run(c, steps).Some? && Run(c, steps).value.memory.Some?
    ensures var s := Run(c, steps).value;
      ReaderEnds(s, s.memory.value).Some? ==>
        && s.memory.value.reader.Some? && s.memory.value.reader.value.Loaded?
        && var r := s.memory.value.reader.value;
        && r.read == PartsOf(s.disk.files, r.manifest.segments)
        && (r.manifest.segments != [] ==>
              r.manifest.generation in s.disk.manifests
                && s.disk.manifests[r.manifest.generation] == r.manifest.segments)
  {
    hide Run, PublicationOk, ReaderEnds;
    EveryRunPublishes(c, steps);
    var s := Run(c, steps).value;
    if ReaderEnds(s, s.memory.value).Some? { ReadIsComplete(s, s.memory.value); }
  }

  lemma ReadIsComplete(s: State, m: Memory)
    requires PublicationOk(s) && s.memory == Some(m) && ReaderEnds(s, m).Some?
    ensures m.reader.Some? && m.reader.value.Loaded?
    ensures var r := m.reader.value;
      && r.read == PartsOf(s.disk.files, r.manifest.segments)
      && (r.manifest.segments != [] ==>
            r.manifest.generation in s.disk.manifests && s.disk.manifests[r.manifest.generation] == r.manifest.segments)
  {
    hide JobOk, AscendingBelow;
  }

  /** The generation CURRENT names never goes back. */
  lemma {:induction false} GenerationsIncrease(c: Config, steps: seq<Step>, n: nat)
    requires Run(c, steps).Some? && n <= |steps|
    ensures Run(c, steps[..n]).Some? && Run(c, steps[..n]).value.disk.current <= Run(c, steps).value.disk.current
  {
    hide PublicationOk, Do;
    if n == |steps| {
      assert steps[..n] == steps;
    } else {
      var last := |steps| - 1;
      assert steps[..last][..n] == steps[..n];
      GenerationsIncrease(c, steps[..last], n);
      EveryRunPublishes(c, steps[..last]);
      StepPublishes(c, Run(c, steps[..last]).value, steps[last]);
    }
  }
}

/** What automatic merging achieves (src/storage/index_writer.cpp:51, 58-75): however long a writer runs, its
    segments stay few. */
module WriterMerging {
  import opened Basics
  import opened Schemas
  import opened Generations
  import opened WriterMachine

  /** The state after more steps. */
  function RunFrom(c: Config, s: State, steps: seq<Step>): Option<State> {
    if steps == [] then Some(s)
    else
      match RunFrom(c, s, steps[..|steps| - 1])
      case None => None
      case Some(t) => Do(c, t, steps[|steps| - 1])
  }

  /** What the holder of the publication lock prepares: one segment more, or at least one less. */
  predicate NextFits(m: Memory, compaction: bool, next: Manifest) {
    if compaction then |next.segments| < |m.manifest.segments|
    else |next.segments| == |m.manifest.segments| + 1 && m.worker.Flushing?
  }

  predicate JobFits(m: Memory) {
    m.job.Some? ==>
      && (m.job.value.party.Background? ==> if m.job.value.compaction then m.worker == Merging else m.worker.Flushing?)
      && (m.job.value.party.Caller? ==> m.job.value.compaction)
      && match m.job.value.stage
         case Writing(_, _, next) => NextFits(m, m.job.value.compaction, next)
         case Recording(next) => NextFits(m, m.job.value.compaction, next)
         case Switching(next) => NextFits(m, m.job.value.compaction, next)
         case Installing(next) => NextFits(m, m.job.value.compaction, next)
         case Reclaiming(_) => m.job.value.compaction
         case Planning => true
  }

  /** No more than `few` segments; one more from a flush that calls for a merge until that has been done. */
  predicate Few(few: nat, m: Memory) {
    && |m.manifest.segments| <= few + 1
    && (m.worker == Waiting || m.worker.Flushing? || m.worker == Finishing ==> |m.manifest.segments| <= few)
    && (m.worker == Merging && m.job.Some? && m.job.value.party.Background? && m.job.value.stage.Reclaiming? ==>
        |m.manifest.segments| <= few)
    && JobFits(m)
  }

  predicate StaysFew(few: nat, s: State) {
    s.memory.Some? ==> Few(few, s.memory.value)
  }

  lemma PlanIsSmaller(c: Config, s: State, m: Memory, selected: set<nat>)
    requires ValidConfig(c) && CompactionPlans(c, s, m, selected).Some?
    ensures |Others(m.manifest.segments, selected)| + 1 < |m.manifest.segments|
  {
    hide Others, Chosen, JoinAll, PartsOf, CurrentLoads;
    ChosenMembers(m.manifest.segments, selected);
    ChosenCount(m.manifest.segments, selected);
  }

  lemma AcceptIsFew(c: Config, s: State, m: Memory, d: Document, append: Append, few: nat)
    requires Few(few, m)
    ensures StaysFew(few, Accept(c, s, m, d, append))
  {
  }

  lemma PutsStayFew(c: Config, s: State, m: Memory, step: Step, few: nat)
    requires Few(few, m) && s.memory == Some(m) && Running(c, s, m, step).Some?
    requires step.Put? || step.Resume? || step.Rotate? || step.FreezeForRefresh?
    ensures StaysFew(few, Running(c, s, m, step).value)
  {
    hide Accept, Few, Freeze;
    FreezeIsFew(m, few);
    match step
    case Put(d, append) =>
      AcceptIsFew(c, s, m, d, append, few);
      AcceptIsFew(c, s, Freeze(m), d, append, few);
      QueuesDoNotMatter(m, m.(parked := m.parked + [d]), few);
    case Resume(i, append) =>
      if i < |m.parked| {
        var woken := m.(parked := m.parked[..i] + m.parked[i + 1..]);
        QueuesDoNotMatter(m, woken, few);
        FreezeIsFew(woken, few);
        AcceptIsFew(c, s, Freeze(woken), m.parked[i], append, few);
      }
    case Rotate =>
      if m.tails > 0 {
        QueuesDoNotMatter(m, m.(tails := m.tails - 1), few);
        FreezeIsFew(m.(tails := m.tails - 1), few);
      }
    case _ => QueuesDoNotMatter(Freeze(m), Freeze(m).(refresh := WaitingForIdle), few);
  }

  lemma FreezeIsFew(m: Memory, few: nat)
    requires Few(few, m)
    ensures Few(few, Freeze(m))
  {
  }

  lemma QueuesDoNotMatter(m: Memory, n: Memory, few: nat)
    requires n == m.(parked := n.parked, tails := n.tails, refresh := n.refresh, failed := n.failed, reader := n.reader)
    requires Few(few, m)
    ensures Few(few, n)
  {
  }

  lemma OthersStayFew(c: Config, s: State, m: Memory, step: Step, few: nat)
    requires ValidConfig(c) && c.mergeThreshold != 0 && c.mergeThreshold <= few + 1
    requires Few(few, m) && s.memory == Some(m) && Running(c, s, m, step).Some?
    requires !(step.Put? || step.Resume? || step.Rotate? || step.FreezeForRefresh?)
    ensures StaysFew(few, Running(c, s, m, step).value)
  {
    hide PutArrives, PutResumes, TailResumes, RefreshFreezes, Few, FlushPlans, CompactionPlans, CompactionSkips,
         SegmentWritten, ManifestRecorded, CurrentSwitched, ManifestInstalled, SegmentReclaimed, ManifestReclaimed,
         CompactionEnds, JobFails, RefreshStarts, RefreshResets, RefreshFails, WorkerTakes, FlushLocks,
         CompactionLocks, WorkerReports, ReaderStarts, ReaderReads, ReaderEnds;
    if || step.PlanFlush? || step.PlanCompaction? || step.SkipCompaction? || step.WriteSegment? || step.RecordManifest?
       || step.SwitchCurrent? || step.InstallManifest? || step.ReclaimSegment? || step.ReclaimManifest?
       || step.EndCompaction? || step.FailJob? {
      JobsStayFew(c, s, m, step, few);
    } else {
      WaitsStayFew(c, s, m, step, few);
    }
  }

  lemma WaitsStayFew(c: Config, s: State, m: Memory, step: Step, few: nat)
    requires Few(few, m) && s.memory == Some(m) && Running(c, s, m, step).Some?
    requires || step.StartRefresh? || step.ResetLog? || step.AbandonRefresh? || step.TakeFrozen? || step.LockFlush?
             || step.LockCompaction? || step.ReportWorker? || step.StartReader? || step.AdvanceReader?
             || step.EndReader?
    ensures StaysFew(few, Running(c, s, m, step).value)
  {
    hide PutArrives, PutResumes, TailResumes, RefreshFreezes, FlushPlans, CompactionPlans, CompactionSkips,
         SegmentWritten, ManifestRecorded, CurrentSwitched, ManifestInstalled, SegmentReclaimed, ManifestReclaimed,
         CompactionEnds, JobFails, CurrentLoads, Few, WorkerTakes, WorkerReports, FlushLocks, CompactionLocks;
    if step.TakeFrozen? || step.ReportWorker? {
      WorkerStaysFew(s, m, few);
    } else if step.LockFlush? || step.LockCompaction? {
      LocksStayFew(s, m, few);
    } else {
      QueuesDoNotMatter(m, Running(c, s, m, step).value.memory.value, few);
    }
  }

  lemma WorkerStaysFew(s: State, m: Memory, few: nat)
    requires Few(few, m)
    ensures WorkerTakes(s, m).Some? ==> StaysFew(few, WorkerTakes(s, m).value)
    ensures WorkerReports(s, m).Some? ==> StaysFew(few, WorkerReports(s, m).value)
  {
  }

  lemma LocksStayFew(s: State, m: Memory, few: nat)
    requires Few(few, m)
    ensures FlushLocks(s, m).Some? ==> StaysFew(few, FlushLocks(s, m).value)
    ensures forall party :: CompactionLocks(s, m, party).Some? ==> StaysFew(few, CompactionLocks(s, m, party).value)
  {
  }

  lemma JobsStayFew(c: Config, s: State, m: Memory, step: Step, few: nat)
    requires ValidConfig(c) && c.mergeThreshold != 0 && c.mergeThreshold <= few + 1
    requires Few(few, m) && s.memory == Some(m) && Running(c, s, m, step).Some?
    requires || step.PlanFlush? || step.PlanCompaction? || step.SkipCompaction? || step.WriteSegment?
             || step.RecordManifest? || step.SwitchCurrent? || step.InstallManifest? || step.ReclaimSegment?
             || step.ReclaimManifest? || step.EndCompaction? || step.FailJob?
    ensures StaysFew(few, Running(c, s, m, step).value)
  {
    hide PutArrives, PutResumes, TailResumes, RefreshFreezes, RefreshStarts, RefreshResets, RefreshFails, WorkerTakes,
         WorkerReports, FlushLocks, CompactionLocks, ReaderStarts, ReaderReads, ReaderEnds, PartsOf, JoinAll, Chosen,
         Others, Publishable, CurrentLoads;
    if step.PlanCompaction? { PlanIsSmaller(c, s, m, step.selected); }
  }

  lemma StepStaysFew(c: Config, s: State, step: Step, few: nat)
    requires ValidConfig(c) && c.mergeThreshold != 0 && c.mergeThreshold <= few + 1
    requires s.memory.Some? && StaysFew(few, s) && Do(c, s, step).Some? && !step.Crash?
    ensures Do(c, s, step).value.memory.Some? && StaysFew(few, Do(c, s, step).value)
  {
    hide Running, Few, Opens;
    if Running(c, s, s.memory.value, step).Some? {
      RunningStaysUp(c, s, s.memory.value, step);
      if step.Put? || step.Resume? || step.Rotate? || step.FreezeForRefresh? {
        PutsStayFew(c, s, s.memory.value, step, few);
      } else {
        OthersStayFew(c, s, s.memory.value, step, few);
      }
    }
    if step.Open? { NoSecondOpening(c, s); }
  }

  lemma NoSecondOpening(c: Config, s: State)
    requires s.memory.Some?
    ensures Opens(c, s).None?
  {
    hide CurrentLoads;
  }

  lemma RunningStaysUp(c: Config, s: State, m: Memory, step: Step)
    requires s.memory == Some(m) && Running(c, s, m, step).Some?
    ensures Running(c, s, m, step).value.memory.Some?
  {
    hide PartsOf, JoinAll, Chosen, Others, Publishable, CurrentLoads;
  }

  /** A writer that starts with up to `few` segments, and merges automatically no later than at one more,
      never has more than that one more, and whenever its background thread waits for work it has no more
      than `few`: over any run without a crash, whoever else merges and whatever fails. */
  lemma {:induction false} SegmentsStayFew(c: Config, s: State, steps: seq<Step>, few: nat)
    requires ValidConfig(c) && c.mergeThreshold != 0 && c.mergeThreshold <= few + 1
    requires s.memory.Some? && s.memory.value.worker == Waiting && s.memory.value.job.None?
    requires |s.memory.value.manifest.segments| <= few
    requires RunFrom(c, s, steps).Some? && forall i :: 0 <= i < |steps| ==> !steps[i].Crash?
    ensures var t := RunFrom(c, s, steps).value;
      && t.memory.Some? && |t.memory.value.manifest.segments| <= few + 1
      && (t.memory.value.worker == Waiting ==> |t.memory.value.manifest.segments| <= few)
  {
    FewAllAlong(c, s, steps, few);
  }

  lemma {:induction false} FewAllAlong(c: Config, s: State, steps: seq<Step>, few: nat)
    requires ValidConfig(c) && c.mergeThreshold != 0 && c.mergeThreshold <= few + 1
    requires s.memory.Some? && StaysFew(few, s) && RunFrom(c, s, steps).Some?
    requires forall i :: 0 <= i < |steps| ==> !steps[i].Crash?
    ensures RunFrom(c, s, steps).value.memory.Some? && StaysFew(few, RunFrom(c, s, steps).value)
  {
    hide Do, StaysFew;
    if steps != [] {
      var n := |steps| - 1;
      FewAllAlong(c, s, steps[..n], few);
      StepStaysFew(c, RunFrom(c, s, steps[..n]).value, steps[n], few);
    }
  }
}

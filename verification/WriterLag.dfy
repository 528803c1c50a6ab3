/** A publication that fails after the rename of CURRENT leaves `manifest_` behind it
    (src/storage/manifest.cpp:112-123). Nothing is lost, but nothing is published any more until the
    writer is opened again. */
module WriterLag {
  import opened Basics
  import opened Generations
  import opened WriterMachine
  import opened WriterSafety
  import opened WriterSteps
  import opened WriterDurability
  import opened WriterPublication
  import opened WriterRace

  // ---- every run ----

  /** The writer is up and behind CURRENT. */
  predicate Behind(s: State) {
    s.memory.Some? && Lagging(s.disk, s.memory.value)
  }

  lemma RunningStaysBehind(c: Config, s: State, step: Step)
    requires PublicationOk(s) && Behind(s) && Running(c, s, s.memory.value, step).Some?
    ensures var t := Running(c, s, s.memory.value, step).value;
      Behind(t) && CurrentManifest(t.disk) == CurrentManifest(s.disk)
  {
    hide PutArrives, PutResumes, TailResumes, RefreshFreezes, RefreshResets, OnlyLog, PartsOf, Replaces, AscendingBelow,
         Others, Chosen, JoinAll, ReaderOk, Complete, Prepared, Before;
    if LogStep(step) {
      LogStepsAre(c, s, s.memory.value, step);
      OnlyLogStaysBehind(s, Running(c, s, s.memory.value, step).value);
    }
  }

  lemma OnlyLogStaysBehind(s: State, t: State)
    requires Behind(s) && OnlyLog(s, s.memory.value, t)
    ensures Behind(t) && CurrentManifest(t.disk) == CurrentManifest(s.disk)
  {
  }

  /** Until it is opened again a writer that is behind stays behind, and CURRENT stays what it is. */
  lemma {:induction false} BehindForGood(c: Config, steps: seq<Step>, n: nat)
    requires Run(c, steps).Some? && n <= |steps|
    requires Run(c, steps[..n]).Some? && Behind(Run(c, steps[..n]).value)
    requires forall i :: n <= i < |steps| ==> !steps[i].Crash?
    ensures var s := Run(c, steps).value;
      Behind(s) && CurrentManifest(s.disk) == CurrentManifest(Run(c, steps[..n]).value.disk)
  {
    hide PublicationOk, Running, Behind, Opens;
    if n == |steps| {
      assert steps[..n] == steps;
    } else {
      var last := |steps| - 1;
      assert steps[..last][..n] == steps[..n];
      BehindForGood(c, steps[..last], n);
      EveryRunPublishes(c, steps[..last]);
      StaysBehind(c, Run(c, steps[..last]).value, steps[last]);
    }
  }

  lemma StaysBehind(c: Config, s: State, step: Step)
    requires PublicationOk(s) && Behind(s) && !step.Crash? && Do(c, s, step).Some?
    ensures Behind(Do(c, s, step).value) && CurrentManifest(Do(c, s, step).value.disk) == CurrentManifest(s.disk)
  {
    hide PublicationOk, Running, Lagging;
    RunningStaysBehind(c, s, step);
  }

  /** A compaction that is behind reads the segments CURRENT names at positions of `manifest_`. With
      fewer of them than it merges, every choice has a position past the end. */
  lemma ChoicePassesTheEnd(disk: Disk, selected: set<nat>)
    requires |CurrentManifest(disk).segments| < |selected|
    ensures exists i :: i in selected && i >= |CurrentManifest(disk).segments|
  {
    var n := |CurrentManifest(disk).segments|;
    if forall i :: i in selected ==> i < n {
      var all := Positions(n);
      assert selected <= all;
      SubsetSize(selected, all);
      assert false;
    }
  }

  // ---- one run ----

  const MERGE: seq<Step> :=
    [LockCompaction(Caller)] + [PlanCompaction({0, 1})] + [WriteSegment] + [RecordManifest] + [SwitchCurrent]
      + [FailJob]

  /** Two segments are published, a caller's `merge_all` merges them and fails once CURRENT is renamed,
      then the buffer fills again and the worker comes as far as the checks of the store. */
  function LagSteps(): seq<Step> {
    [Open] + [Put(Doc("a"), Appended)] + [Put(Doc("b"), Appended)] + [TakeFrozen] + FLUSH
    + [Put(Doc("c"), Appended)] + [Put(Doc("d"), Appended)] + [TakeFrozen] + FLUSH + MERGE
    + [Put(Doc("e"), Appended)] + [Put(Doc("f"), Appended)] + [TakeFrozen] + [LockFlush] + [PlanFlush] + [WriteSegment]
  }

  /** The caller's compaction has come to a stage and changed nothing else of the control state. */
  ghost predicate Compacting(s: State, t: State, stage: Stage) {
    && s.memory.Some? && t.memory.Some?
    && var m, n := s.memory.value, t.memory.value;
       && n == m.(job := n.job, nextSegment := n.nextSegment)
       && n.job == Some(Job(Caller, true, stage))
       && (stage.Planning? || stage.Writing? || stage.Recording? ==>
             t.disk.manifests == s.disk.manifests && t.disk.current == s.disk.current)
  }

  ghost predicate TwoSegments(s: State) {
    s.memory.Some? && s.memory.value.manifest == CurrentManifest(s.disk) && |s.memory.value.manifest.segments| == 2
  }

  lemma PlanMerge(steps: seq<Step>, s: State) returns (t: State, stage: Stage)
    requires Reaches(steps, s) && TwoSegments(s) && s.memory.value.job.None? && s.memory.value.reader.None?
    ensures Reaches(steps + [LockCompaction(Caller)] + [PlanCompaction({0, 1})], t)
    ensures stage.Writing? && |stage.next.segments| == 1 && Compacting(s, t, stage)
  {
    hide Reaches, Running, CompactionPlans, JoinAll, PartsOf;
    var m := s.memory.value;
    LockIs(s, m);
    var locked := CompactionLocks(s, m, Caller).value;
    Then(steps, s, LockCompaction(Caller));
    PlanIs(locked, locked.memory.value, {0, 1});
    PlanDoes(locked, locked.memory.value);
    t := CompactionPlans(RaceConfig(), locked, locked.memory.value, {0, 1}).value;
    Then(steps + [LockCompaction(Caller)], locked, PlanCompaction({0, 1}));
    stage := t.memory.value.job.value.stage;
  }

  lemma LockIs(s: State, m: Memory)
    ensures Running(RaceConfig(), s, m, LockCompaction(Caller)) == CompactionLocks(s, m, Caller)
  {
    hide CompactionLocks;
  }

  lemma PlanIs(s: State, m: Memory, selected: set<nat>)
    ensures Running(RaceConfig(), s, m, PlanCompaction(selected)) == CompactionPlans(RaceConfig(), s, m, selected)
  {
    hide CompactionPlans;
  }

  lemma PlanDoes(s: State, m: Memory)
    requires s.memory == Some(m) && TwoSegments(s) && m.job == Some(Job(Caller, true, Planning))
    ensures var r := CompactionPlans(RaceConfig(), s, m, {0, 1});
      && r.Some? && r.value.memory.Some? && r.value.disk == s.disk
      && var n := r.value.memory.value;
         && n == m.(job := n.job, nextSegment := n.nextSegment)
         && n.job.Some? && n.job.value == Job(Caller, true, n.job.value.stage)
         && n.job.value.stage.Writing? && |n.job.value.stage.next.segments| == 1
  {
    hide JoinAll, PartsOf;
    NoneLeft(m.manifest.segments);
  }

  lemma NoneLeft(ids: seq<nat>)
    requires |ids| == 2
    ensures Others(ids, {0, 1}) == []
  {
    assert ids[..1][..0] == [];
    assert Others(ids[..1], {0, 1}) == [];
  }

  lemma WriteMerge(steps: seq<Step>, s: State, r: State, stage: Stage) returns (t: State)
    requires Reaches(steps, r) && stage.Writing? && Compacting(s, r, stage) && s.memory.value.reader.None?
    ensures Reaches(steps + [WriteSegment], t) && Compacting(s, t, Recording(stage.next))
  {
    hide Reaches, Running;
    WriteIs(r, r.memory.value);
    t := SegmentWritten(r, r.memory.value).value;
    Then(steps, r, WriteSegment);
  }

  lemma WriteIs(s: State, m: Memory)
    ensures Running(RaceConfig(), s, m, WriteSegment) == SegmentWritten(s, m)
  {
    hide SegmentWritten;
  }

  lemma RecordMerge(steps: seq<Step>, s: State, r: State, next: Manifest) returns (t: State)
    requires Reaches(steps, r) && Compacting(s, r, Recording(next)) && s.memory.value.reader.None? && TwoSegments(s)
    ensures Reaches(steps + [RecordManifest], t) && Compacting(s, t, Switching(next))
  {
    hide Reaches, Inv, PutArrives, PutResumes, Publishable;
    InvOf(steps, r);
    RecordingIsPublishable(RaceConfig(), r, r.memory.value);
    t := Do(RaceConfig(), r, RecordManifest).value;
    Then(steps, r, RecordManifest);
  }

  lemma SwitchMerge(steps: seq<Step>, s: State, r: State, next: Manifest) returns (t: State)
    requires Reaches(steps, r) && Compacting(s, r, Switching(next)) && s.memory.value.reader.None?
    ensures Reaches(steps + [SwitchCurrent], t) && Compacting(s, t, Installing(next))
  {
    hide Reaches, PutArrives, PutResumes;
    t := Do(RaceConfig(), r, SwitchCurrent).value;
    Then(steps, r, SwitchCurrent);
  }

  lemma FailMerge(steps: seq<Step>, s: State, r: State, next: Manifest) returns (t: State)
    requires Reaches(steps, r) && Compacting(s, r, Installing(next)) && s.memory.value.job.None?
    ensures Reaches(steps + [FailJob], t) && Behind(t) && CurrentManifest(t.disk) == next
    ensures t.memory == Some(s.memory.value.(nextSegment := t.memory.value.nextSegment))
  {
    hide Reaches, PutArrives, PutResumes, HistoryOk, DiskOk, ContentsOk, ReaderOk, AscendingBelow, Complete;
    InvOf(steps, r);
    FallsBehind(r.disk, r.memory.value);
    assert CurrentManifest(r.disk) == next;
    t := Do(RaceConfig(), r, FailJob).value;
    Then(steps, r, FailJob);
  }

  /** The merge is published, the caller is told that it failed, and the writer goes on. */
  lemma MergeRuns(steps: seq<Step>, s: State, ids: set<string>) returns (t: State)
    requires Reaches(steps, s) && TwoSegments(s) && At(s, ids, 0, 0, [], NotRefreshing)
    ensures Reaches(steps + MERGE, t) && Behind(t) && At(t, ids, 0, 0, [], NotRefreshing)
    ensures t.memory.value.worker == s.memory.value.worker && |CurrentManifest(t.disk).segments| == 1
    ensures t.memory.value.manifest == s.memory.value.manifest
  {
    hide Reaches, Behind;
    var p := steps + [LockCompaction(Caller)] + [PlanCompaction({0, 1})];
    var r, stage := PlanMerge(steps, s);
    var next := stage.next;
    r := WriteMerge(p, s, r, stage);
    p := p + [WriteSegment];
    r := RecordMerge(p, s, r, next);
    p := p + [RecordManifest];
    r := SwitchMerge(p, s, r, next);
    p := p + [SwitchCurrent];
    t := FailMerge(p, s, r, next);
    assert p + [FailJob] == steps + MERGE;
  }

  /** The run up to the failure. */
  lemma FailureRuns() returns (p: seq<Step>, s: State, ids: set<string>)
    ensures |p| + 6 == |LagSteps()| && p == LagSteps()[..|p|]
    ensures Reaches(p, s) && Behind(s) && At(s, ids, 0, 0, [], NotRefreshing) && s.memory.value.worker == Waiting
    ensures ids == {"a", "b", "c", "d"} && |CurrentManifest(s.disk).segments| == 1
    ensures |s.memory.value.manifest.segments| == 2
  {
    hide Reaches, At, Behind;
    p := [Open];
    s := OpenRuns();
    ids := {};
    s := PutRuns(p, s, "a", ids, 0, 0);
    p, ids := p + [Put(Doc("a"), Appended)], ids + {"a"};
    s := PutRuns(p, s, "b", ids, 1, 0);
    p, ids := p + [Put(Doc("b"), Appended)], ids + {"b"};
    s := TakeRuns(p, s, ids, 0, [], NotRefreshing);
    p := p + [TakeFrozen];
    s := FlushRuns(p, s, ids, 0, 0, [], NotRefreshing);
    p := p + FLUSH;
    s := PutRuns(p, s, "c", ids, 0, 0);
    p, ids := p + [Put(Doc("c"), Appended)], ids + {"c"};
    s := PutRuns(p, s, "d", ids, 1, 0);
    p, ids := p + [Put(Doc("d"), Appended)], ids + {"d"};
    s := TakeRuns(p, s, ids, 0, [], NotRefreshing);
    p := p + [TakeFrozen];
    s := FlushRuns(p, s, ids, 0, 0, [], NotRefreshing);
    p := p + FLUSH;
    s := MergeRuns(p, s, ids);
    p := p + MERGE;
    assert LagSteps() == p + [Put(Doc("e"), Appended)] + [Put(Doc("f"), Appended)] + [TakeFrozen] + [LockFlush]
      + [PlanFlush] + [WriteSegment];
  }

  /** The code as it stands: the merge of "a" to "d" is what CURRENT names, its caller was told that it
      failed, and the next flush is refused because its generation is not new. Nothing is lost. */
  lemma FailedMergeBlocksTheNextFlush()
    ensures Run(RaceConfig(), LagSteps()).Some?
    ensures var s := Run(RaceConfig(), LagSteps()).value;
      && s.memory.Some? && !s.memory.value.failed && Durable(s)
      && s.memory.value.job.Some? && s.memory.value.job.value.stage.Recording?
      && !Publishable(RaceConfig(), s.disk, s.memory.value.job.value.stage.next)
  {
    hide Reaches, At, Behind, Durable, Inv, Do, Publishable, Run;
    var p, s, ids := FailureRuns();
    var n := |p|;
    var failed := s;
    s := PutRuns(p, s, "e", ids, 0, 0);
    p, ids := p + [Put(Doc("e"), Appended)], ids + {"e"};
    s := PutRuns(p, s, "f", ids, 1, 0);
    p, ids := p + [Put(Doc("f"), Appended)], ids + {"f"};
    s := TakeRuns(p, s, ids, 0, [], NotRefreshing);
    p := p + [TakeFrozen];
    var taken := s;
    assert At(taken, ids, 0, 0, [], NotRefreshing);
    s := FlushArrives(p, taken, ids);
    p := p + [LockFlush] + [PlanFlush] + [WriteSegment];
    assert p == LagSteps();
    IsReached(LagSteps()[..n], failed);
    IsReached(LagSteps(), s);
    BehindForGood(RaceConfig(), LagSteps(), n);
    InvOf(LagSteps(), s);
    InvIsDurable(RaceConfig(), s);
    RefusedWhileBehind(s);
  }

  lemma IsReached(steps: seq<Step>, s: State)
    requires Reaches(steps, s)
    ensures Run(RaceConfig(), steps) == Some(s)
  {
    hide Run;
  }

  lemma RefusedWhileBehind(s: State)
    requires Inv(RaceConfig(), s) && Behind(s) && s.memory.value.job.Some? && s.memory.value.job.value.stage.Recording?
    ensures !Publishable(RaceConfig(), s.disk, s.memory.value.job.value.stage.next)
  {
    hide Inv, Publishable;
    RecordingIsPublishable(RaceConfig(), s, s.memory.value);
  }

  /** The worker comes as far as the checks of the store. */
  lemma FlushArrives(steps: seq<Step>, s: State, ids: set<string>) returns (t: State)
    requires Reaches(steps, s) && At(s, ids, 0, 0, [], NotRefreshing) && s.memory.value.worker.Flushing?
    ensures Reaches(steps + [LockFlush] + [PlanFlush] + [WriteSegment], t)
    ensures t.memory.Some? && !t.memory.value.failed
    ensures t.memory.value.job.Some? && t.memory.value.job.value.stage.Recording?
  {
    hide Reaches;
    var r := PlanRuns(steps, s);
    var id, output, next :| OnlyJob(s, r, Writing(id, output, next))
      && |next.segments| == |s.memory.value.manifest.segments| + 1;
    t := WriteRuns(steps + [LockFlush] + [PlanFlush], s, r, Writing(id, output, next));
  }

  /** Where the run failed, a second `merge_all` has no defined way on: the writer still has two
      segments to merge, CURRENT names one, and every choice has a position past the end. */
  lemma SecondMergeIsUndefined()
    ensures exists n: nat ::
      && n <= |LagSteps()| && Run(RaceConfig(), LagSteps()[..n]).Some?
      && var s := Run(RaceConfig(), LagSteps()[..n]).value;
      && s.memory.Some? && s.memory.value.job.None? && |s.memory.value.manifest.segments| > 1
      && forall selected: set<nat> :: |selected| == Min(RaceConfig().mergeWidth, |s.memory.value.manifest.segments|) ==>
           exists i :: i in selected && i >= |CurrentManifest(s.disk).segments|
  {
    hide Reaches, Behind, Run;
    var p, s, ids := FailureRuns();
    IsReached(p, s);
    var n := |p|;
    assert LagSteps()[..n] == p;
    forall selected: set<nat> | |selected| == Min(RaceConfig().mergeWidth, |s.memory.value.manifest.segments|)
      ensures exists i :: i in selected && i >= |CurrentManifest(s.disk).segments|
    {
      ChoicePassesTheEnd(s.disk, selected);
    }
  }
}

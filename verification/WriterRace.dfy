/** A run of the code that acknowledges a mutation and loses it: a put parked for room
    (src/storage/index_writer.cpp:49) goes on between the freeze and the reset of a refresh (:54). */
module WriterRace {
  import opened Basics
  import opened Schemas
  import opened WriterMachine
  import opened WriterSafety
  import opened WriterDurability

  /** Two buffered mutations, one frozen index, no automatic merging. */
  function RaceConfig(): Config {
    Config(2, 1, 0, 2, true, d => true, (wal, torn) => true, manifest => true)
  }

  function Doc(id: string): Document {
    Document(id, map[], map[], 0, false)
  }

  const FLUSH: seq<Step> := [LockFlush, PlanFlush, WriteSegment, RecordManifest, SwitchCurrent, InstallManifest,
                             ReportWorker]

  /** The buffer fills twice, a fifth put parks, a refresh starts; the worker takes the first frozen
      index and the refresh freezes the second; when the worker takes that one too, the parked put
      goes on. The worker goes idle and the refresh resets the log. */
  function RaceSteps(): seq<Step> {
    [Open] + [Put(Doc("a"), Appended)] + [Put(Doc("b"), Appended)] + [Put(Doc("c"), Appended)]
      + [Put(Doc("d"), Appended)]
    + [Put(Doc("e"), Appended)] + [StartRefresh] + [TakeFrozen] + [FreezeForRefresh]
    + FLUSH + [TakeFrozen] + [Resume(0, Appended)] + FLUSH + [ResetLog(Emptied)]
  }

  // ---- following the run ----

  /** The control state of a writer that has not failed. */
  ghost predicate At(s: State, ids: set<string>, buffered: nat, frozen: nat, parked: seq<Document>, refresh: Refresh) {
    && s.memory.Some?
    && var m := s.memory.value;
       && !m.failed && m.reader.None? && m.job.None? && m.versions.Keys == ids
       && m.buffered == buffered && |m.frozen| == frozen && m.parked == parked && m.refresh == refresh
  }

  /** `manifest_` and what CURRENT names are what they were. */
  ghost predicate SameManifests(s: State, t: State) {
    && s.memory.Some? && t.memory.Some? && t.memory.value.manifest == s.memory.value.manifest
    && CurrentManifest(t.disk) == CurrentManifest(s.disk)
  }

  /** The steps so far lead to `s`, without an unsafe reset. */
  ghost predicate Reaches(steps: seq<Step>, s: State) {
    Run(RaceConfig(), steps) == Some(s) && RunResetsSafely(RaceConfig(), steps)
  }

  lemma Then(steps: seq<Step>, s: State, step: Step)
    requires Reaches(steps, s) && Do(RaceConfig(), s, step).Some? && !step.ResetLog?
    ensures Reaches(steps + [step], Do(RaceConfig(), s, step).value)
    ensures Inv(RaceConfig(), s)
  {
    hide Do, Inv;
    var c, more := RaceConfig(), steps + [step];
    assert more[..|steps|] == steps;
    SafeRunKeeps(c, steps);
    forall k | 0 <= k < |more| && Run(c, more[..k]).Some? ensures SafeReset(Run(c, more[..k]).value, more[k]) {
      if k < |steps| { assert more[..k] == steps[..k]; }
    }
  }

  /** A put that finds the buffer not full. */
  lemma PutRuns(steps: seq<Step>, s: State, id: string, ids: set<string>, buffered: nat, frozen: nat) returns (t: State)
    requires Reaches(steps, s) && At(s, ids, buffered, frozen, [], NotRefreshing) && id !in ids && buffered < 2
    ensures Reaches(steps + [Put(Doc(id), Appended)], t) && SameManifests(s, t)
    ensures t.memory.Some? && t.memory.value.worker == s.memory.value.worker
    ensures if buffered == 1 && frozen == 0 then At(t, ids + {id}, 0, 1, [], NotRefreshing)
            else At(t, ids + {id}, buffered + 1, frozen, [], NotRefreshing)
  {
    hide Reaches, Do;
    PutDoes(s, id, ids, buffered, frozen);
    t := Do(RaceConfig(), s, Put(Doc(id), Appended)).value;
    Then(steps, s, Put(Doc(id), Appended));
  }

  lemma PutDoes(s: State, id: string, ids: set<string>, buffered: nat, frozen: nat)
    requires At(s, ids, buffered, frozen, [], NotRefreshing) && id !in ids && buffered < 2
    ensures var r := Do(RaceConfig(), s, Put(Doc(id), Appended));
      && r.Some? && r.value.memory.Some? && r.value.memory.value.worker == s.memory.value.worker
      && SameManifests(s, r.value)
      && if buffered == 1 && frozen == 0 then At(r.value, ids + {id}, 0, 1, [], NotRefreshing)
         else At(r.value, ids + {id}, buffered + 1, frozen, [], NotRefreshing)
  {
    hide PutResumes, Running;
    var m := s.memory.value;
    assert Running(RaceConfig(), s, m, Put(Doc(id), Appended)) == PutArrives(RaceConfig(), s, m, Doc(id), Appended) by {
      PutIs(s, m, Doc(id));
    }
    assert m.versions[id := 0].Keys == ids + {id};
  }

  lemma PutIs(s: State, m: Memory, d: Document)
    ensures Running(RaceConfig(), s, m, Put(d, Appended)) == PutArrives(RaceConfig(), s, m, d, Appended)
  {
    hide PutArrives;
  }

  /** The publication has come to a stage and changed nothing else of the control state. */
  ghost predicate OnlyJob(s: State, t: State, stage: Stage) {
    && s.memory.Some? && t.memory.Some? && t.acked == s.acked
    && var m, n := s.memory.value, t.memory.value;
       && n == m.(job := n.job, nextSegment := n.nextSegment)
       && n.job == Some(Job(Background, false, stage))
       && (stage.Writing? || stage.Recording? ==>
           t.disk.manifests == s.disk.manifests && t.disk.current == s.disk.current)
  }

  lemma PlanRuns(steps: seq<Step>, s: State) returns (t: State)
    requires Reaches(steps, s) && s.memory.Some?
    requires var m := s.memory.value; m.worker.Flushing? && m.job.None? && m.reader.None?
    ensures Reaches(steps + [LockFlush] + [PlanFlush], t)
    ensures exists id, output, next ::
      OnlyJob(s, t, Writing(id, output, next)) && |next.segments| == |s.memory.value.manifest.segments| + 1
  {
    hide Reaches, PutArrives, PutResumes;
    var locked := Do(RaceConfig(), s, LockFlush).value;
    Then(steps, s, LockFlush);
    t := Do(RaceConfig(), locked, PlanFlush).value;
    Then(steps + [LockFlush], locked, PlanFlush);
    var stage := t.memory.value.job.value.stage;
    assert OnlyJob(s, t, Writing(stage.id, stage.output, stage.next));
  }

  lemma WriteRuns(steps: seq<Step>, s: State, r: State, stage: Stage) returns (t: State)
    requires Reaches(steps, r) && stage.Writing? && OnlyJob(s, r, stage) && s.memory.value.reader.None?
    ensures Reaches(steps + [WriteSegment], t) && OnlyJob(s, t, Recording(stage.next))
  {
    hide Reaches, PutArrives, PutResumes;
    t := Do(RaceConfig(), r, WriteSegment).value;
    Then(steps, r, WriteSegment);
  }

  lemma RecordRuns(steps: seq<Step>, s: State, r: State, next: Manifest) returns (t: State)
    requires Reaches(steps, r) && OnlyJob(s, r, Recording(next)) && s.memory.value.reader.None?
    requires s.memory.value.manifest == CurrentManifest(s.disk)
    ensures Reaches(steps + [RecordManifest], t) && OnlyJob(s, t, Switching(next))
  {
    hide Reaches, Inv, PutArrives, PutResumes, Publishable;
    InvOf(steps, r);
    RecordingIsPublishable(RaceConfig(), r, r.memory.value);
    t := Do(RaceConfig(), r, RecordManifest).value;
    Then(steps, r, RecordManifest);
  }

  lemma SwitchRuns(steps: seq<Step>, s: State, r: State, next: Manifest) returns (t: State)
    requires Reaches(steps, r) && OnlyJob(s, r, Switching(next)) && s.memory.value.reader.None?
    ensures Reaches(steps + [SwitchCurrent], t) && OnlyJob(s, t, Installing(next))
  {
    hide Reaches, PutArrives, PutResumes;
    t := Do(RaceConfig(), r, SwitchCurrent).value;
    Then(steps, r, SwitchCurrent);
  }

  lemma InstallRuns(steps: seq<Step>, s: State, r: State, next: Manifest) returns (t: State)
    requires Reaches(steps, r) && OnlyJob(s, r, Installing(next)) && s.memory.value.reader.None?
    ensures Reaches(steps + [InstallManifest], t) && t.memory.Some? && t.acked == s.acked
    ensures var m, n := s.memory.value, t.memory.value;
      n == m.(job := None, nextSegment := n.nextSegment, manifest := next, worker := Finishing)
    ensures CurrentManifest(t.disk) == next
  {
    hide Reaches, PutArrives, PutResumes, HistoryOk, DiskOk, ContentsOk, ManifestOk, ReaderOk, Prepared;
    InvOf(steps, r);
    t := Do(RaceConfig(), r, InstallManifest).value;
    Then(steps, r, InstallManifest);
  }

  lemma ReportRuns(steps: seq<Step>, s: State) returns (t: State)
    requires Reaches(steps, s) && s.memory.Some? && s.memory.value.worker == Finishing && s.memory.value.reader.None?
    ensures Reaches(steps + [ReportWorker], t) && t.memory == Some(s.memory.value.(worker := Waiting))
    ensures t.acked == s.acked && t.disk == s.disk
  {
    hide Reaches, PutArrives, PutResumes;
    t := Do(RaceConfig(), s, ReportWorker).value;
    Then(steps, s, ReportWorker);
  }

  /** The worker publishes what it has taken and is idle again. */
  lemma FlushRuns(steps: seq<Step>, s: State, ids: set<string>, buffered: nat, frozen: nat, parked: seq<Document>,
                  refresh: Refresh)
    returns (t: State)
    requires Reaches(steps, s) && At(s, ids, buffered, frozen, parked, refresh) && s.memory.value.worker.Flushing?
    requires s.memory.value.manifest == CurrentManifest(s.disk)
    ensures Reaches(steps + FLUSH, t) && At(t, ids, buffered, frozen, parked, refresh)
    ensures t.memory.Some? && t.memory.value.worker == Waiting
    ensures t.memory.value.manifest == CurrentManifest(t.disk)
    ensures |t.memory.value.manifest.segments| == |s.memory.value.manifest.segments| + 1
    ensures t.memory.value.active == s.memory.value.active && t.acked == s.acked
  {
    hide Reaches;
    var p := steps + [LockFlush] + [PlanFlush];
    var r := PlanRuns(steps, s);
    var id, output, next :| OnlyJob(s, r, Writing(id, output, next))
      && |next.segments| == |s.memory.value.manifest.segments| + 1;
    r := WriteRuns(p, s, r, Writing(id, output, next));
    p := p + [WriteSegment];
    r := RecordRuns(p, s, r, next);
    p := p + [RecordManifest];
    r := SwitchRuns(p, s, r, next);
    p := p + [SwitchCurrent];
    r := InstallRuns(p, s, r, next);
    p := p + [InstallManifest];
    t := ReportRuns(p, r);
    assert p + [ReportWorker] == steps + FLUSH;
  }

  lemma InvOf(steps: seq<Step>, s: State)
    requires Reaches(steps, s)
    ensures Inv(RaceConfig(), s)
  {
    SafeRunKeeps(RaceConfig(), steps);
  }

  lemma OpenRuns() returns (t: State)
    ensures Reaches([Open], t) && At(t, {}, 0, 0, [], NotRefreshing) && t.memory.value.worker == Waiting
    ensures t.memory.value.manifest == CurrentManifest(t.disk) == Manifest(0, [])
  {
    var s := Init();
    assert Reaches([], s);
    assert Published(s.disk) == map[];
    t := Do(RaceConfig(), s, Open).value;
    Then([], s, Open);
    assert [] + [Open] == [Open];
  }

  /** The fifth put parks. */
  lemma ParkRuns(steps: seq<Step>, s: State, ids: set<string>) returns (t: State)
    requires Reaches(steps, s) && At(s, ids, 2, 1, [], NotRefreshing) && s.memory.value.worker == Waiting
    ensures Reaches(steps + [Put(Doc("e"), Appended)], t) && SameManifests(s, t)
    ensures At(t, ids, 2, 1, [Doc("e")], NotRefreshing) && t.memory.value.worker == Waiting
  {
    hide Reaches, Accept, Freeze;
    t := Do(RaceConfig(), s, Put(Doc("e"), Appended)).value;
    Then(steps, s, Put(Doc("e"), Appended));
  }

  lemma StartRuns(steps: seq<Step>, s: State, ids: set<string>, parked: seq<Document>) returns (t: State)
    requires Reaches(steps, s) && At(s, ids, 2, 1, parked, NotRefreshing)
    ensures Reaches(steps + [StartRefresh], t) && SameManifests(s, t)
    ensures At(t, ids, 2, 1, parked, WaitingToFreeze) && t.memory.value.worker == s.memory.value.worker
  {
    hide Reaches, PutArrives, PutResumes;
    t := Do(RaceConfig(), s, StartRefresh).value;
    Then(steps, s, StartRefresh);
  }

  /** The worker takes a frozen index. */
  lemma TakeRuns(steps: seq<Step>, s: State, ids: set<string>, buffered: nat, parked: seq<Document>, refresh: Refresh)
    returns (t: State)
    requires Reaches(steps, s) && At(s, ids, buffered, 1, parked, refresh) && s.memory.value.worker == Waiting
    ensures Reaches(steps + [TakeFrozen], t) && SameManifests(s, t)
    ensures At(t, ids, buffered, 0, parked, refresh) && t.memory.value.worker.Flushing?
  {
    hide Reaches, PutArrives, PutResumes;
    t := Do(RaceConfig(), s, TakeFrozen).value;
    Then(steps, s, TakeFrozen);
  }

  /** The refresh freezes the buffer. */
  lemma FreezeRuns(steps: seq<Step>, s: State, ids: set<string>, parked: seq<Document>) returns (t: State)
    requires Reaches(steps, s) && At(s, ids, 2, 0, parked, WaitingToFreeze)
    ensures Reaches(steps + [FreezeForRefresh], t) && SameManifests(s, t)
    ensures At(t, ids, 0, 1, parked, WaitingForIdle) && t.memory.value.worker == s.memory.value.worker
  {
    hide Reaches, PutArrives, PutResumes;
    t := Do(RaceConfig(), s, FreezeForRefresh).value;
    Then(steps, s, FreezeForRefresh);
  }

  /** The parked put finds room although the refresh waits for the worker, and is acknowledged. */
  lemma ResumeRuns(steps: seq<Step>, s: State, ids: set<string>) returns (t: State)
    requires Reaches(steps, s) && At(s, ids, 0, 0, [Doc("e")], WaitingForIdle) && "e" !in ids
    ensures Reaches(steps + [Resume(0, Appended)], t) && SameManifests(s, t)
    ensures At(t, ids + {"e"}, 1, 0, [], WaitingForIdle) && t.memory.value.worker == s.memory.value.worker
    ensures Doc("e") in t.acked && "e" in t.memory.value.active && t.memory.value.active["e"] == Doc("e")
  {
    hide Reaches, Do;
    t := ResumeDoes(s, ids);
    Then(steps, s, Resume(0, Appended));
  }

  lemma ResumeDoes(s: State, ids: set<string>) returns (t: State)
    requires At(s, ids, 0, 0, [Doc("e")], WaitingForIdle) && "e" !in ids
    ensures Do(RaceConfig(), s, Resume(0, Appended)) == Some(t) && SameManifests(s, t)
    ensures At(t, ids + {"e"}, 1, 0, [], WaitingForIdle) && t.memory.value.worker == s.memory.value.worker
    ensures Doc("e") in t.acked && "e" in t.memory.value.active && t.memory.value.active["e"] == Doc("e")
  {
    hide Running;
    var c, m := RaceConfig(), s.memory.value;
    ResumeIs(s, m);
    var woken := m.(parked := m.parked[..0] + m.parked[1..]);
    assert woken.parked == [];
    assert m.versions["e" := 0].Keys == ids + {"e"};
    t := Accept(c, s, woken, Doc("e"), Appended);
  }

  lemma ResumeIs(s: State, m: Memory)
    ensures Running(RaceConfig(), s, m, Resume(0, Appended)) == PutResumes(RaceConfig(), s, m, 0, Appended)
  {
    hide PutResumes;
  }

  /** The code as it stands: the put of "e" is acknowledged and a crash after the refresh loses it. */
  lemma RaceLosesAPut()
    ensures Run(RaceConfig(), RaceSteps()).Some?
    ensures var s := Run(RaceConfig(), RaceSteps()).value;
      Doc("e") in s.acked && "e" !in Recovered(s.disk) && !Durable(s)
  {
    hide Reaches, Do, Durable, Recovered, Inv, At;
    var p := [Open];
    var s := OpenRuns();
    var ids: set<string> := {};
    s := PutRuns(p, s, "a", ids, 0, 0);
    p, ids := p + [Put(Doc("a"), Appended)], ids + {"a"};
    s := PutRuns(p, s, "b", ids, 1, 0);
    p, ids := p + [Put(Doc("b"), Appended)], ids + {"b"};
    s := PutRuns(p, s, "c", ids, 0, 1);
    p, ids := p + [Put(Doc("c"), Appended)], ids + {"c"};
    s := PutRuns(p, s, "d", ids, 1, 1);
    p, ids := p + [Put(Doc("d"), Appended)], ids + {"d"};
    s := ParkRuns(p, s, ids);
    p := p + [Put(Doc("e"), Appended)];
    s := StartRuns(p, s, ids, [Doc("e")]);
    p := p + [StartRefresh];
    s := TakeRuns(p, s, ids, 2, [Doc("e")], WaitingToFreeze);
    p := p + [TakeFrozen];
    s := FreezeRuns(p, s, ids, [Doc("e")]);
    p := p + [FreezeForRefresh];
    s := FlushRuns(p, s, ids, 0, 1, [Doc("e")], WaitingForIdle);
    p := p + FLUSH;
    s := TakeRuns(p, s, ids, 0, [Doc("e")], WaitingForIdle);
    p := p + [TakeFrozen];
    s := ResumeRuns(p, s, ids);
    p, ids := p + [Resume(0, Appended)], ids + {"e"};
    s := FlushRuns(p, s, ids, 1, 0, [], WaitingForIdle);
    p := p + FLUSH;
    ResetRuns(p, s, ids);
  }

  lemma ResetRuns(steps: seq<Step>, s: State, ids: set<string>)
    requires Reaches(steps, s) && At(s, ids, 1, 0, [], WaitingForIdle) && s.memory.value.worker == Waiting
    requires Doc("e") in s.acked && "e" in s.memory.value.active && s.memory.value.active["e"] == Doc("e")
    ensures Run(RaceConfig(), steps + [ResetLog(Emptied)]).Some?
    ensures var t := Run(RaceConfig(), steps + [ResetLog(Emptied)]).value;
      Doc("e") in t.acked && "e" !in Recovered(t.disk) && !Durable(t)
  {
    hide Durable, Recovered, Inv, Running, RunResetsSafely;
    InvOf(steps, s);
    var all := steps + [ResetLog(Emptied)];
    assert all[..|steps|] == steps;
    var m := s.memory.value;
    ResetIs(s, m);
    ActiveIsLost(RaceConfig(), s, m, Emptied, "e");
    BufferedIsLost(RaceConfig(), s, m, Emptied);
  }

  lemma ResetIs(s: State, m: Memory)
    ensures Running(RaceConfig(), s, m, ResetLog(Emptied)) == RefreshResets(s, m, Emptied)
  {
    hide RefreshResets;
  }
}

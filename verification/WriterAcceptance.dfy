/** Which puts the writer logs (src/storage/index_writer.cpp:49), told by the history of the log alone. */
module WriterAcceptance {
  import opened Basics
  import opened Schemas
  import opened Generations
  import opened WriterMachine
  import opened WriterSafety
  import opened WriterSteps
  import opened WriterDurability
  import WriteAhead

  // ---- nothing comes from anywhere but the log ----

  ghost predicate VersionsFrom(versions: map<string, nat>, history: seq<Document>) {
    forall id :: id in versions ==> exists e: Document :: e in history && e.id == id && e.version == versions[id]
  }

  ghost predicate MemoryFrom(m: Memory, history: seq<Document>) {
    && (forall p: Contents :: p in m.frozen ==> From(p, history))
    && (m.worker.Flushing? ==> From(m.worker.snapshot, history))
    && (m.job.Some? && m.job.value.stage.Writing? ==> From(m.job.value.stage.output, history))
    && (!m.failed ==> From(m.active, history) && VersionsFrom(m.versions, history))
  }

  ghost predicate DiskFrom(disk: Disk, history: seq<Document>) {
    && (forall id :: id in disk.files ==> From(disk.files[id], history))
    && (forall d: Document :: d in disk.wal ==> d in history)
  }

  /** Every document in a file or in memory, and every version the writer remembers, was logged. */
  ghost predicate AllLogged(s: State) {
    DiskFrom(s.disk, s.history) && (s.memory.Some? ==> MemoryFrom(s.memory.value, s.history))
  }

  lemma VersionsFromMore(versions: map<string, nat>, history: seq<Document>, d: Document)
    requires VersionsFrom(versions, history)
    ensures VersionsFrom(versions, history + [d])
    ensures VersionsFrom(versions[d.id := d.version], history + [d])
  {
    var more := versions[d.id := d.version];
    forall id | id in more ensures exists e: Document :: e in history + [d] && e.id == id && e.version == more[id] {
      if id == d.id {
        assert d in history + [d];
      } else {
        var e: Document :| e in history && e.id == id && e.version == versions[id];
        assert e in history + [d];
      }
    }
    forall id | id in versions
      ensures exists e: Document :: e in history + [d] && e.id == id && e.version == versions[id]
    {
      var e: Document :| e in history && e.id == id && e.version == versions[id];
      assert e in history + [d];
    }
  }

  lemma MemoryFromMore(m: Memory, history: seq<Document>, d: Document)
    requires MemoryFrom(m, history)
    ensures MemoryFrom(m, history + [d])
  {
    if !m.failed { VersionsFromMore(m.versions, history, d); }
    hide VersionsFrom;
  }

  lemma DiskFromMore(disk: Disk, history: seq<Document>, d: Document)
    requires DiskFrom(disk, history)
    ensures DiskFrom(disk, history + [d]) && DiskFrom(disk.(wal := disk.wal + [d]), history + [d])
  {
  }

  lemma FreezeIsFrom(m: Memory, history: seq<Document>)
    requires MemoryFrom(m, history) && !m.failed
    ensures MemoryFrom(Freeze(m), history) && !Freeze(m).failed
  {
    hide From, VersionsFrom;
    FromNothing(history);
  }

  lemma AcceptIsFrom(c: Config, s: State, m: Memory, d: Document, append: Append)
    requires DiskFrom(s.disk, s.history) && MemoryFrom(m, s.history) && !m.failed
    ensures AllLogged(Accept(c, s, m, d, append))
  {
    hide From, VersionsFrom, Freeze;
    DiskFromMore(s.disk, s.history, d);
    MemoryFromMore(m, s.history, d);
    VersionsFromMore(m.versions, s.history, d);
    FromPut(m.active, s.history, d);
    var logged
      := m.(active := m.active[d.id := d], versions := m.versions[d.id := d.version], buffered := m.buffered + 1);
    assert MemoryFrom(logged, s.history + [d]);
    FreezeIsFrom(logged, s.history + [d]);
    assert MemoryFrom(logged.(tails := logged.tails + 1), s.history + [d]);
  }

  lemma FilesJoin(files: map<nat, Contents>, ids: seq<nat>, selected: set<nat>, history: seq<Document>)
    requires forall id :: id in files ==> From(files[id], history)
    ensures From(JoinAll(Chosen(PartsOf(files, ids), selected)), history)
  {
    hide JoinAll, Chosen;
    var parts := PartsOf(files, ids);
    var chosen := Chosen(parts, selected);
    ChosenMembers(parts, selected);
    forall p: Contents | p in chosen ensures From(p, history) {
      var i :| 0 <= i < |parts| && i in selected && parts[i] == p;
    }
    JoinIsFrom(chosen, history);
  }

  lemma JoinIsFrom(parts: seq<Contents>, history: seq<Document>)
    requires forall p: Contents :: p in parts ==> From(p, history)
    ensures From(JoinAll(parts), history)
  {
    hide JoinAll;
    forall id | id in JoinAll(parts) ensures JoinAll(parts)[id].id == id && JoinAll(parts)[id] in history {
      JoinAllIsNewest(parts, id);
      var i :| 0 <= i < |parts| && id in parts[i] && parts[i][id] == JoinAll(parts)[id];
      assert parts[i] in parts;
    }
  }

  /** Puts, rotations and freezes. */
  lemma PutsAreFrom(c: Config, s: State, m: Memory, step: Step)
    requires AllLogged(s) && s.memory == Some(m) && Running(c, s, m, step).Some?
    requires step.Put? || step.Resume? || step.Rotate? || step.FreezeForRefresh?
    ensures AllLogged(Running(c, s, m, step).value)
  {
    hide Accept, Freeze, From, VersionsFrom;
    if !m.failed { FreezeIsFrom(m, s.history); }
    match step
    case Put(d, append) =>
      if !m.failed {
        AcceptIsFrom(c, s, m, d, append);
        AcceptIsFrom(c, s, Freeze(m), d, append);
        assert MemoryFrom(m.(parked := m.parked + [d]), s.history);
      }
    case Resume(i, append) =>
      if i < |m.parked| && !m.failed {
        var woken := m.(parked := m.parked[..i] + m.parked[i + 1..]);
        assert MemoryFrom(woken, s.history);
        FreezeIsFrom(woken, s.history);
        AcceptIsFrom(c, s, Freeze(woken), m.parked[i], append);
      }
    case Rotate =>
      if m.tails > 0 && !m.failed {
        assert MemoryFrom(m.(tails := m.tails - 1), s.history);
        FreezeIsFrom(m.(tails := m.tails - 1), s.history);
      }
    case FreezeForRefresh =>
  }

  lemma WaitsAreFrom(c: Config, s: State, m: Memory, step: Step)
    requires AllLogged(s) && s.memory == Some(m) && Running(c, s, m, step).Some?
    requires || step.StartRefresh? || step.AbandonRefresh? || step.LockFlush? || step.LockCompaction?
             || step.ReportWorker? || step.StartReader? || step.AdvanceReader? || step.EndReader?
    ensures AllLogged(Running(c, s, m, step).value)
  {
    hide From, VersionsFrom, DiskFrom, CurrentLoads, PutArrives, PutResumes, TailResumes, RefreshFreezes, RefreshResets,
         WorkerTakes, FlushPlans, CompactionPlans, CompactionSkips, SegmentWritten, ManifestRecorded, CurrentSwitched,
         ManifestInstalled, SegmentReclaimed, ManifestReclaimed, CompactionEnds, JobFails;
  }

  lemma TakesAndResetsAreFrom(c: Config, s: State, m: Memory, step: Step)
    requires AllLogged(s) && s.memory == Some(m) && Running(c, s, m, step).Some?
    requires step.ResetLog? || step.TakeFrozen?
    ensures AllLogged(Running(c, s, m, step).value)
  {
    hide From, VersionsFrom;
    if step.TakeFrozen? && m.frozen != [] { assert m.frozen[0] in m.frozen; }
  }

  lemma JobsAreFrom(c: Config, s: State, m: Memory, step: Step)
    requires AllLogged(s) && s.memory == Some(m) && Running(c, s, m, step).Some?
    requires || step.PlanFlush? || step.PlanCompaction? || step.SkipCompaction? || step.WriteSegment?
             || step.RecordManifest? || step.SwitchCurrent? || step.InstallManifest? || step.ReclaimSegment?
             || step.ReclaimManifest? || step.EndCompaction? || step.FailJob?
    ensures AllLogged(Running(c, s, m, step).value)
  {
    hide From, VersionsFrom, PutArrives, PutResumes, TailResumes, RefreshFreezes, RefreshStarts, RefreshResets,
         RefreshFails, WorkerTakes, WorkerReports, ReaderStarts, ReaderReads, ReaderEnds, PartsOf, JoinAll, Chosen,
         Others, Publishable;
    if step.PlanCompaction? { FilesJoin(s.disk.files, CurrentManifest(s.disk).segments, step.selected, s.history); }
  }

  lemma RunningIsFrom(c: Config, s: State, m: Memory, step: Step)
    requires AllLogged(s) && s.memory == Some(m) && Running(c, s, m, step).Some?
    ensures AllLogged(Running(c, s, m, step).value)
  {
    hide AllLogged, PutArrives, PutResumes, TailResumes, RefreshFreezes, RefreshStarts, RefreshResets, RefreshFails,
         WorkerTakes, WorkerReports, ReaderStarts, ReaderReads, ReaderEnds, FlushPlans, CompactionPlans,
         CompactionSkips, SegmentWritten, ManifestRecorded, CurrentSwitched, ManifestInstalled, SegmentReclaimed,
         ManifestReclaimed, CompactionEnds, JobFails, FlushLocks, CompactionLocks;
    if step.Put? || step.Resume? || step.Rotate? || step.FreezeForRefresh? {
      PutsAreFrom(c, s, m, step);
    } else if step.ResetLog? || step.TakeFrozen? {
      TakesAndResetsAreFrom(c, s, m, step);
    } else if || step.StartRefresh? || step.AbandonRefresh? || step.LockFlush? || step.LockCompaction?
              || step.ReportWorker? || step.StartReader? || step.AdvanceReader? || step.EndReader? {
      WaitsAreFrom(c, s, m, step);
    } else {
      JobsAreFrom(c, s, m, step);
    }
  }

  lemma StepIsFrom(c: Config, s: State, step: Step)
    requires AllLogged(s) && Do(c, s, step).Some?
    ensures AllLogged(Do(c, s, step).value)
  {
    hide Running, From, VersionsFrom, Opened;
    if s.memory.Some? && Running(c, s, s.memory.value, step).Some? { RunningIsFrom(c, s, s.memory.value, step); }
    if step.Open? { OpenIsFrom(s.disk, s.history); }
  }

  lemma OpenIsFrom(disk: Disk, history: seq<Document>)
    requires DiskFrom(disk, history)
    ensures MemoryFrom(Opened(disk), history)
  {
    hide JoinAll, Replay, PartsOf;
    var published := Published(disk);
    var replayed := Replay(VersionsOf(published), disk.wal);
    FilesAreFrom(disk.files, CurrentManifest(disk).segments, history);
    JoinIsFrom(PartsOf(disk.files, CurrentManifest(disk).segments), history);
    ReplayIs(VersionsOf(published), disk.wal);
    forall id | id in replayed.versions
      ensures exists e: Document :: e in history && e.id == id && e.version == replayed.versions[id]
    {
      if id in replayed.active { assert replayed.active[id] in history; } else { assert published[id] in history; }
    }
  }

  lemma FilesAreFrom(files: map<nat, Contents>, ids: seq<nat>, history: seq<Document>)
    requires forall id :: id in files ==> From(files[id], history)
    ensures forall p: Contents :: p in PartsOf(files, ids) ==> From(p, history)
  {
    FromNothing(history);
  }

  /** In every run, guarded or not. */
  lemma {:induction false} RunsAreLogged(c: Config, steps: seq<Step>)
    requires Run(c, steps).Some?
    ensures AllLogged(Run(c, steps).value)
  {
    hide Do, AllLogged;
    if steps == [] {
      NothingYet();
    } else {
      RunsAreLogged(c, steps[..|steps| - 1]);
      StepIsFrom(c, Run(c, steps[..|steps| - 1]).value, steps[|steps| - 1]);
    }
  }

  lemma NothingYet()
    ensures AllLogged(Init())
  {
  }

  // ---- the outcome of a put ----

  /** The put went to the log, and was acknowledged unless the append failed. */
  predicate Logs(s: State, t: State, d: Document, append: Append) {
    && t.memory.Some?
    && match append
       case Appended =>
         && t.disk == s.disk.(wal := s.disk.wal + [d]) && t.history == s.history + [d] && t.acked == s.acked + [d]
         && !t.memory.value.failed
       case RecordedButFailed =>
         && t.disk == s.disk.(wal := s.disk.wal + [d]) && t.history == s.history + [d] && t.acked == s.acked
         && t.memory.value.failed
       case NotRecorded(reached) =>
         && t.disk == s.disk.(torn := Some(WriteAhead.Torn(d, reached))) && t.history == s.history
         && t.acked == s.acked && t.memory.value.failed
  }

  /** The put was turned away: nothing on disk, in the history or among the acknowledged changes. */
  predicate TurnsAway(s: State, t: State) {
    t.disk == s.disk && t.history == s.history && t.acked == s.acked && t.memory.Some? && !t.memory.value.failed
  }

  lemma StaleIff(versions: map<string, nat>, history: seq<Document>, d: Document)
    requires VersionsFrom(versions, history)
    ensures Fresh(history, d) ==> !(d.id in versions && d.version <= versions[d.id])
    ensures (forall e: Document :: e in history ==> e.id in versions && versions[e.id] >= e.version) ==>
      (Fresh(history, d) <==> !(d.id in versions && d.version <= versions[d.id]))
  {
  }

  /** What the lock holder does with a put: decided by the history. */
  lemma AcceptOutcome(c: Config, s: State, m: Memory, d: Document, append: Append)
    requires VersionsFrom(m.versions, s.history) && !m.failed
    ensures var t := Accept(c, s, m, d, append);
      && (c.accepts(d) && Fresh(s.history, d) ==> Logs(s, t, d, append))
      && (!c.accepts(d) ==> TurnsAway(s, t))
      && (!Fresh(s.history, d)
          && (forall e: Document :: e in s.history ==> e.id in m.versions && m.versions[e.id] >= e.version)
          ==> TurnsAway(s, t))
  {
    StaleIff(m.versions, s.history, d);
    hide Fresh, VersionsFrom;
  }

  /** The buffer has room, or a full one can be rotated. */
  predicate HasRoom(c: Config, m: Memory) {
    m.buffered < c.maxBuffered || |m.frozen| < c.maxFrozen
  }

  /** The writer is up, has not failed and waits for nothing. */
  predicate Serving(s: State) {
    s.memory.Some? && !s.memory.value.failed && s.memory.value.refresh == NotRefreshing && s.memory.value.reader.None?
  }

  /** In every run, guarded or not, a put that the index takes and whose version exceeds every version of
      its document ever logged is logged, and acknowledged unless the append fails. One that the index
      does not take is turned away, and without room any put waits and changes nothing but the queue. */
  lemma FreshPutIsLogged(c: Config, steps: seq<Step>, d: Document, append: Append)
    requires Run(c, steps).Some? && Serving(Run(c, steps).value)
    ensures var s := Run(c, steps).value;
      var t := Do(c, s, Put(d, append));
      && t.Some?
      && (HasRoom(c, s.memory.value) && c.accepts(d) && Fresh(s.history, d) ==> Logs(s, t.value, d, append))
      && (HasRoom(c, s.memory.value) && !c.accepts(d) ==> TurnsAway(s, t.value))
      && (!HasRoom(c, s.memory.value) ==>
            TurnsAway(s, t.value) && t.value.memory.value.parked == s.memory.value.parked + [d])
  {
    hide Run, Accept, Freeze, Fresh, VersionsFrom, Logs;
    RunsAreLogged(c, steps);
    var s := Run(c, steps).value;
    var m := s.memory.value;
    FreezeIsFrom(m, s.history);
    AcceptOutcome(c, s, m, d, append);
    AcceptOutcome(c, s, Freeze(m), d, append);
  }

  /** The same for a put that waited for room and finds it. */
  lemma FreshResumeIsLogged(c: Config, steps: seq<Step>, i: nat, append: Append)
    requires Run(c, steps).Some?
    requires var s := Run(c, steps).value;
      && s.memory.Some? && !s.memory.value.failed && s.memory.value.reader.None? && i < |s.memory.value.parked|
      && |s.memory.value.frozen| < c.maxFrozen
    ensures var s := Run(c, steps).value;
      var d := s.memory.value.parked[i];
      var t := Do(c, s, Resume(i, append));
      && t.Some?
      && (c.accepts(d) && Fresh(s.history, d) ==> Logs(s, t.value, d, append))
      && (!c.accepts(d) ==> TurnsAway(s, t.value))
  {
    hide Run, Accept, Freeze, Fresh, VersionsFrom, Logs, TurnsAway;
    RunsAreLogged(c, steps);
    var s := Run(c, steps).value;
    var m := s.memory.value;
    var woken := m.(parked := m.parked[..i] + m.parked[i + 1..]);
    assert MemoryFrom(woken, s.history);
    FreezeIsFrom(woken, s.history);
    AcceptOutcome(c, s, Freeze(woken), m.parked[i], append);
  }

  /** Where no reset has thrown away what was buffered, that is the only reason for turning a put away:
      it is logged if and only if the index takes it and its version is new to the log. */
  lemma PutIsLoggedIff(c: Config, steps: seq<Step>, d: Document, append: Append)
    requires Run(c, steps).Some? && RunResetsSafely(c, steps) && Serving(Run(c, steps).value)
    requires HasRoom(c, Run(c, steps).value.memory.value)
    ensures var s := Run(c, steps).value;
      var t := Do(c, s, Put(d, append));
      t.Some? && if c.accepts(d) && Fresh(s.history, d) then Logs(s, t.value, d, append) else TurnsAway(s, t.value)
  {
    hide Run, Accept, Freeze, Fresh, VersionsFrom, Logs, TurnsAway, RunResetsSafely, Inv;
    RunsAreLogged(c, steps);
    SafeRunKeeps(c, steps);
    var s := Run(c, steps).value;
    var m := s.memory.value;
    FreezeIsFrom(m, s.history);
    InvRemembers(c, s);
    AcceptOutcome(c, s, m, d, append);
    AcceptOutcome(c, s, Freeze(m), d, append);
  }

  lemma InvRemembers(c: Config, s: State)
    requires Inv(c, s) && s.memory.Some? && !s.memory.value.failed
    ensures var m := s.memory.value;
      && (forall e: Document :: e in s.history ==> e.id in m.versions && m.versions[e.id] >= e.version)
      && Freeze(m).versions == m.versions
  {
    hide HistoryOk, DiskOk, ManifestOk, JobOk, ReaderOk, From, Above, AllCovered;
  }

  // ---- the memory a writer takes ----

  /** No more frozen indexes than the options allow, and no larger buffer, except right after a replay. */
  lemma AcceptIsBounded(c: Config, s: State, m: Memory, d: Document, append: Append)
    requires ValidConfig(c) && |m.frozen| <= c.maxFrozen && m.buffered < c.maxBuffered
    ensures var t := Accept(c, s, m, d, append);
      t.memory.Some? && |t.memory.value.frozen| <= c.maxFrozen && t.memory.value.buffered <= c.maxBuffered
  {
  }

  predicate WithinMemory(c: Config, s: State) {
    s.memory.Some? ==> |s.memory.value.frozen| <= c.maxFrozen
  }

  lemma RunningIsBounded(c: Config, s: State, m: Memory, step: Step)
    requires ValidConfig(c) && s.memory == Some(m) && |m.frozen| <= c.maxFrozen && Running(c, s, m, step).Some?
    ensures var t := Running(c, s, m, step).value;
      && t.memory.Some? && |t.memory.value.frozen| <= c.maxFrozen
      && (t.memory.value.buffered <= m.buffered || t.memory.value.buffered <= c.maxBuffered)
  {
    hide Accept, PartsOf, JoinAll, Chosen, Others, Publishable, CurrentLoads;
    match step
    case Put(d, append) =>
      if m.buffered < c.maxBuffered { AcceptIsBounded(c, s, m, d, append); }
      else if |m.frozen| < c.maxFrozen { AcceptIsBounded(c, s, Freeze(m), d, append); }
    case Resume(i, append) =>
      if i < |m.parked| && |m.frozen| < c.maxFrozen {
        AcceptIsBounded(c, s, Freeze(m.(parked := m.parked[..i] + m.parked[i + 1..])), m.parked[i], append);
      }
    case _ =>
  }

  lemma StepIsBounded(c: Config, s: State, step: Step)
    requires ValidConfig(c) && WithinMemory(c, s) && Do(c, s, step).Some?
    ensures WithinMemory(c, Do(c, s, step).value)
    ensures var t := Do(c, s, step).value;
      s.memory.Some? && t.memory.Some? ==>
        || t.memory.value.buffered <= s.memory.value.buffered
        || t.memory.value.buffered <= c.maxBuffered
  {
    hide Running, Opened;
    if s.memory.Some? && Running(c, s, s.memory.value, step).Some? { RunningIsBounded(c, s, s.memory.value, step); }
    if step.Open? { NothingFrozen(s.disk); }
  }

  lemma NothingFrozen(disk: Disk)
    ensures Opened(disk).frozen == []
  {
    hide Replay, Published;
  }

  /** In every run the frozen indexes stay within the options, and the buffer only ever grows up to its
      option: what a writer holds in memory beyond its last replay is bounded. */
  lemma {:induction false} MemoryIsBounded(c: Config, steps: seq<Step>)
    requires ValidConfig(c) && Run(c, steps).Some?
    ensures WithinMemory(c, Run(c, steps).value)
    ensures forall n :: 0 < n <= |steps| && Run(c, steps[..n - 1]).Some? && Run(c, steps[..n]).Some? ==>
      var s, t := Run(c, steps[..n - 1]).value, Run(c, steps[..n]).value;
      s.memory.Some? && t.memory.Some? ==>
        || t.memory.value.buffered <= s.memory.value.buffered
        || t.memory.value.buffered <= c.maxBuffered
  {
    hide Do, WithinMemory;
    if steps == [] {
      assert WithinMemory(c, Init()) by { InitIsBounded(c); }
    } else {
      var last := |steps| - 1;
      MemoryIsBounded(c, steps[..last]);
      StepIsBounded(c, Run(c, steps[..last]).value, steps[last]);
      forall n | 0 < n <= |steps| && Run(c, steps[..n - 1]).Some? && Run(c, steps[..n]).Some?
        ensures var s, t := Run(c, steps[..n - 1]).value, Run(c, steps[..n]).value;
          s.memory.Some? && t.memory.Some? ==>
            || t.memory.value.buffered <= s.memory.value.buffered
            || t.memory.value.buffered <= c.maxBuffered
      {
        if n < |steps| {
          assert steps[..last][..n] == steps[..n] && steps[..last][..n - 1] == steps[..n - 1];
        } else {
          assert steps[..n] == steps;
        }
      }
    }
  }

  lemma InitIsBounded(c: Config)
    ensures WithinMemory(c, Init())
  {
  }
}

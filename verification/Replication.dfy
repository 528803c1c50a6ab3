/** Ordered primary replication (src/distributed/replication.cpp). */
module Replication {
  import opened Basics
  import opened Schemas
  import opened IndexModel
  import opened MemoryIndex

  datatype MutationRecord = MutationRecord(shard: nat, epoch: nat, operationId: string, sequence: nat,
                                           document: Document)

  datatype NodeHealth = Healthy | Suspect | Unhealthy | Draining

  datatype ReplicationError =
    | InvalidTopology | WrongShard | WrongEpoch | SequenceGap | StaleSequence | ConflictingOperation
    | MutationError | LogFull | InsufficientAcknowledgements | NoEligibleReplica

  datatype ApplyOutcome = Applied | Duplicate

  const MAXIMUM_ID: nat := U32_LIMIT - 1

  /** The corpus after a list of mutations. */
  function Folded(base: Slots, log: seq<MutationRecord>): Slots {
    if log == [] then base else Store(Folded(base, log[..|log| - 1]), log[|log| - 1].document)
  }

  lemma {:induction false} FoldedDistinct(base: Slots, log: seq<MutationRecord>)
    requires DistinctIds(base)
    ensures DistinctIds(Folded(base, log))
  {
    if log != [] {
      FoldedDistinct(base, log[..|log| - 1]);
      StoreKeepsDistinct(Folded(base, log[..|log| - 1]), log[|log| - 1].document);
    }
  }

  // ---- one replica ----

  /** The operations a list of records has made known. */
  function Known(log: seq<MutationRecord>): map<string, MutationRecord> {
    if log == [] then map[] else Known(log[..|log| - 1])[log[|log| - 1].operationId := log[|log| - 1]]
  }

  /** What `apply` answers, test after test. */
  function Judge(shard: nat, epoch: nat, applied: nat, operations: map<string, MutationRecord>,
                 refusal: Option<IndexError>, record: MutationRecord): Result<ApplyOutcome, ReplicationError>
  {
    if record.shard != shard then Err(WrongShard)
    else if record.epoch != epoch then Err(WrongEpoch)
    else if record.operationId == "" then Err(ConflictingOperation)
    else if record.operationId in operations then
      if operations[record.operationId] != record then Err(ConflictingOperation) else Ok(Duplicate)
    else if record.sequence <= applied then Err(StaleSequence)
    else if record.sequence != applied + 1 then Err(SequenceGap)
    else if refusal.Some? then Err(MutationError)
    else Ok(Applied)
  }

  /** What each answer means, told by the records applied so far: a repeat is known by being one of them, a
      new record must be the next in sequence, and each error has its own condition. */
  lemma JudgeIs(shard: nat, epoch: nat, applied: nat, log: seq<MutationRecord>, refusal: Option<IndexError>,
                record: MutationRecord)
    requires forall i, j :: 0 <= i < j < |log| ==> log[i].operationId != log[j].operationId
    ensures var r := Judge(shard, epoch, applied, Known(log), refusal, record);
      var ours := record.shard == shard && record.epoch == epoch;
      var reused := exists i :: 0 <= i < |log| && log[i].operationId == record.operationId && log[i] != record;
      var unknown := record.operationId != "" && forall i :: 0 <= i < |log| ==>
        log[i].operationId != record.operationId;
      && (r == Err(WrongShard) <==> record.shard != shard)
      && (r == Err(WrongEpoch) <==> record.shard == shard && record.epoch != epoch)
      && (r == Err(ConflictingOperation) <==> ours && (record.operationId == "" || reused))
      && (r == Ok(Duplicate) <==> ours && record.operationId != "" && record in log)
      && (r == Err(StaleSequence) <==> ours && unknown && record.sequence <= applied)
      && (r == Err(SequenceGap) <==> ours && unknown && record.sequence > applied + 1)
      && (r == Err(MutationError) <==> ours && unknown && record.sequence == applied + 1 && refusal.Some?)
      && (r == Ok(Applied) <==> ours && unknown && record.sequence == applied + 1 && refusal.None?)
  {
    KnownOperations(log, record.operationId);
    hide Known;
  }

  lemma LogGrows(base: Slots, log: seq<MutationRecord>, record: MutationRecord)
    ensures Known(log + [record]) == Known(log)[record.operationId := record]
    ensures Folded(base, log + [record]) == Store(Folded(base, log), record.document)
  {
    hide Store;
    assert (log + [record])[..|log|] == log;
  }

  class OrderedReplica {
    const node: string
    const shard: nat
    const epoch: nat
    const index: InMemoryIndex
    var appliedSequence: nat
    var health: NodeHealth
    var inflight: nat
    var operations: map<string, MutationRecord>

    /** Where the replica started, and every record it has applied since. */
    ghost const base: Slots
    ghost const start: nat
    ghost var log: seq<MutationRecord>

    ghost predicate Valid()
      reads this, index
    {
      && index.Valid() && index.maximumId == MAXIMUM_ID
      && appliedSequence == start + |log| && operations == Known(log)
      && index.slots == Folded(base, log)
    }

    constructor (node: string, shard: nat, epoch: nat, index: InMemoryIndex, sequence: nat)
      requires index.Valid() && index.maximumId == MAXIMUM_ID
      ensures Valid() && log == [] && base == index.slots && start == sequence && health == Healthy
      ensures this.node == node && this.shard == shard && this.epoch == epoch && this.index == index
    {
      this.node, this.shard, this.epoch, this.index := node, shard, epoch, index;
      appliedSequence, health, inflight, operations := sequence, Healthy, 0, map[];
      base, start, log := index.slots, sequence, [];
    }

    method SetHealth(health: NodeHealth)
      requires Valid()
      modifies this`health
      ensures Valid() && this.health == health
    {
      this.health := health;
    }

    ghost function Answer(record: MutationRecord): Result<ApplyOutcome, ReplicationError>
      reads this, index
      requires index.Valid()
    {
      Judge(shard, epoch, appliedSequence, operations,
            Refusal(index.schema, index.slots, index.maximumId, record.document), record)
    }

    /** Only the next record in sequence is applied; an exact repeat is recognised; anything else
        changes nothing. */
    method Apply(record: MutationRecord) returns (r: Result<ApplyOutcome, ReplicationError>)
      requires Valid()
      modifies this, index
      ensures Valid() && health == old(health) && inflight == old(inflight)
      ensures r == old(Answer(record))
      ensures r == Ok(Applied) ==> log == old(log) + [record]
      ensures r != Ok(Applied) ==>
        log == old(log) && index.slots == old(index.slots) && appliedSequence == old(appliedSequence)
    {
      hide InMemoryIndex.Valid, Refusal, Store, Known, Folded;
      LogGrows(base, log, record);
      if record.shard != shard { return Err(WrongShard); }
      if record.epoch != epoch { return Err(WrongEpoch); }
      if record.operationId == "" { return Err(ConflictingOperation); }
      if record.operationId in operations {
        if operations[record.operationId] != record { return Err(ConflictingOperation); }
        return Ok(Duplicate);
      }
      if record.sequence <= appliedSequence { return Err(StaleSequence); }
      if record.sequence != appliedSequence + 1 { return Err(SequenceGap); }
      var put := index.Put(record.document);
      if put.Err? { return Err(MutationError); }
      appliedSequence := record.sequence;
      operations := operations[record.operationId := record];
      log := log + [record];
      r := Ok(Applied);
    }
  }

  // ---- a shared log ----

  /** Numbered from 1 without gaps, one shard and epoch, operations named once, every mutation
      acceptable where it stands. */
  ghost predicate Ordered(shard: nat, epoch: nat, schema: Schema, log: seq<MutationRecord>) {
    && Usable(schema)
    && (forall i :: 0 <= i < |log| ==>
          && log[i].shard == shard && log[i].epoch == epoch && log[i].sequence == i + 1 && log[i].operationId != ""
          && Refusal(schema, Folded([], log[..i]), MAXIMUM_ID, log[i].document).None?)
    && (forall i, j :: 0 <= i < j < |log| ==> log[i].operationId != log[j].operationId)
  }

  lemma {:induction false} KnownOperations(log: seq<MutationRecord>, op: string)
    requires forall i, j :: 0 <= i < j < |log| ==> log[i].operationId != log[j].operationId
    ensures op in Known(log) <==> exists i :: 0 <= i < |log| && log[i].operationId == op
    ensures forall i :: 0 <= i < |log| && log[i].operationId == op ==> op in Known(log) && Known(log)[op] == log[i]
  {
    if log != [] {
      var n := |log| - 1;
      KnownOperations(log[..n], op);
      assert forall i :: 0 <= i < n ==> log[..n][i] == log[i];
    }
  }

  /** A replica that has applied the first `a` records of a log. */
  ghost predicate Follows(replica: OrderedReplica, shard: nat, epoch: nat, schema: Schema, log: seq<MutationRecord>)
    reads replica, replica.index
  {
    && replica.Valid() && replica.shard == shard && replica.epoch == epoch && replica.index.schema == schema
    && replica.base == [] && replica.start == 0
    && replica.appliedSequence <= |log| && replica.log == log[..replica.appliedSequence]
  }

  /** Replaying the log into a follower: known records are duplicates, the next one is applied. */
  lemma FollowerAnswers(replica: OrderedReplica, shard: nat, epoch: nat, schema: Schema, log: seq<MutationRecord>,
                        i: nat)
    requires Ordered(shard, epoch, schema, log) && Follows(replica, shard, epoch, schema, log) && i < |log|
    ensures i < replica.appliedSequence ==> replica.Answer(log[i]) == Ok(Duplicate)
    ensures i == replica.appliedSequence ==> replica.Answer(log[i]) == Ok(Applied)
  {
    hide InMemoryIndex.Valid, Refusal, Folded;
    var a := replica.appliedSequence;
    var mine := log[..a];
    forall k, l | 0 <= k < l < |mine| ensures mine[k].operationId != mine[l].operationId {
      assert mine[k] == log[k] && mine[l] == log[l];
    }
    KnownOperations(mine, log[i].operationId);
    if i < a {
      assert mine[i] == log[i];
    } else if i == a {
      assert forall k :: 0 <= k < |mine| ==> mine[k] == log[k];
      assert mine == log[..i];
    }
  }

  // ---- read routing ----

  datatype ReplicaStatus = ReplicaStatus(node: string, health: NodeHealth, applied: nat, lag: nat, inflight: nat)

  function HealthRank(h: NodeHealth): nat {
    match h case Healthy => 0 case Suspect => 1 case Unhealthy => 2 case Draining => 3
  }

  predicate Eligible(s: ReplicaStatus, maximumLag: nat) {
    !s.health.Unhealthy? && !s.health.Draining? && s.lag <= maximumLag
  }

  /** Healthy before suspect, then lower lag, less in flight, smaller node ID. */
  predicate Preferred(a: ReplicaStatus, b: ReplicaStatus) {
    HealthRank(a.health) < HealthRank(b.health) ||
    (a.health == b.health &&
     (a.lag < b.lag ||
      (a.lag == b.lag &&
       (a.inflight < b.inflight ||
        (a.inflight == b.inflight && Less(a.node, b.node))))))
  }

  lemma PreferredOrder(a: ReplicaStatus, b: ReplicaStatus, c: ReplicaStatus)
    ensures !Preferred(a, a)
    ensures Preferred(a, b) && !Preferred(c, b) ==> !Preferred(c, a)
  {
    LessIrreflexive(a.node);
    if Less(c.node, a.node) && Less(a.node, b.node) { LessTransitive(c.node, a.node, b.node); }
  }

  /** Nothing eligible is to be read from before `best`: it is healthy unless no eligible replica is, and
      no eligible replica of its health lags less, or as much with less in flight, or with the same of
      both and a smaller node ID. */
  ghost predicate BestOf(replicas: seq<ReplicaStatus>, maximumLag: nat, best: ReplicaStatus) {
    && best in replicas && (best.health.Healthy? || best.health.Suspect?) && best.lag <= maximumLag
    && forall j :: 0 <= j < |replicas| && Eligible(replicas[j], maximumLag) ==>
      && (replicas[j].health.Healthy? ==> best.health.Healthy?)
      && (replicas[j].health == best.health ==>
            && best.lag <= replicas[j].lag
            && (best.lag == replicas[j].lag ==>
                  && best.inflight <= replicas[j].inflight
                  && (best.inflight == replicas[j].inflight ==> !Less(replicas[j].node, best.node))))
  }

  lemma UnpreferredIsBest(replicas: seq<ReplicaStatus>, maximumLag: nat, i: nat)
    requires i < |replicas| && Eligible(replicas[i], maximumLag)
    requires forall j :: 0 <= j < |replicas| && Eligible(replicas[j], maximumLag) ==>
      !Preferred(replicas[j], replicas[i])
    ensures BestOf(replicas, maximumLag, replicas[i])
  {
    hide Less;
  }

  lemma BestIsHealthy(replicas: seq<ReplicaStatus>, maximumLag: nat, best: ReplicaStatus)
    requires BestOf(replicas, maximumLag, best)
    ensures best.health.Healthy? || best.health.Suspect?
    ensures forall j :: 0 <= j < |replicas| && Eligible(replicas[j], maximumLag) && replicas[j].health.Healthy? ==>
      best.health.Healthy?
  {
    hide Less;
  }

  /** `ReplicaRouter::select`. */
  method Select(replicas: seq<ReplicaStatus>, maximumLag: nat) returns (r: Result<string, ReplicationError>)
    ensures r.Ok? <==> exists i ::
      && 0 <= i < |replicas| && (replicas[i].health.Healthy? || replicas[i].health.Suspect?)
      && replicas[i].lag <= maximumLag
    ensures r.Err? ==> r.error == NoEligibleReplica
    ensures r.Ok? ==> exists i ::
      0 <= i < |replicas| && replicas[i].node == r.value && BestOf(replicas, maximumLag, replicas[i])
  {
    hide Preferred;
    var best: Option<nat> := None;
    for k := 0 to |replicas|
      invariant best.Some? ==> best.value < k && Eligible(replicas[best.value], maximumLag)
      invariant forall j :: 0 <= j < k && Eligible(replicas[j], maximumLag) ==>
        best.Some? && !Preferred(replicas[j], replicas[best.value])
    {
      PreferredOrder(replicas[k], replicas[k], replicas[k]);
      if Eligible(replicas[k], maximumLag) && (best.None? || Preferred(replicas[k], replicas[best.value])) {
        forall j | 0 <= j < k && Eligible(replicas[j], maximumLag) ensures !Preferred(replicas[j], replicas[k]) {
          PreferredOrder(replicas[k], replicas[best.value], replicas[j]);
        }
        best := Some(k);
      }
    }
    if best.None? { return Err(NoEligibleReplica); }
    UnpreferredIsBest(replicas, maximumLag, best.value);
    r := Ok(replicas[best.value].node);
  }

  // ---- the group ----

  datatype AcknowledgementMode = PrimaryOnly | AllReplicas
  datatype MutationReceipt = MutationReceipt(sequence: nat, acknowledgements: nat)

  predicate InService(h: NodeHealth) { h.Healthy? || h.Suspect? }

  /** The primary always acknowledges, a follower while it is in service. */
  function Acknowledging(healths: seq<NodeHealth>): nat {
    if healths == [] then 0
    else
      var n := |healths| - 1;
      Acknowledging(healths[..n]) + if n == 0 || InService(healths[n]) then 1 else 0
  }

  /** Acknowledgements come from the primary and from every follower in service. */
  lemma {:induction false} AcknowledgingIs(healths: seq<NodeHealth>)
    requires healths != []
    ensures Acknowledging(healths)
      == 1 + |set i | 0 < i < |healths| && (healths[i].Healthy? || healths[i].Suspect?)|
  {
    var n := |healths| - 1;
    var all := set i | 0 < i < |healths| && (healths[i].Healthy? || healths[i].Suspect?);
    if n == 0 {
      assert all == {};
      assert healths[..0] == [];
    } else {
      AcknowledgingIs(healths[..n]);
      var before := set i | 0 < i < |healths[..n]| && (healths[..n][i].Healthy? || healths[..n][i].Suspect?);
      assert all == before + if InService(healths[n]) then {n} else {};
    }
  }

  /** What the submission of the record at place `p` answers. */
  function Receipt(p: nat, mode: AcknowledgementMode, healths: seq<NodeHealth>)
    : Result<MutationReceipt, ReplicationError> {
    if mode.AllReplicas? && Acknowledging(healths) != |healths| then Err(InsufficientAcknowledgements)
    else Ok(MutationReceipt(p + 1, Acknowledging(healths)))
  }

  function Indexes(replicas: seq<OrderedReplica>): set<InMemoryIndex> {
    set i | 0 <= i < |replicas| :: replicas[i].index
  }

  ghost predicate Apart(replicas: seq<OrderedReplica>) {
    forall i, j :: 0 <= i < j < |replicas| ==>
      replicas[i] != replicas[j] && replicas[i].index != replicas[j].index && replicas[i].node != replicas[j].node
  }

  /** Where each operation stands in the log. */
  function Places(log: seq<MutationRecord>): map<string, nat> {
    if log == [] then map[] else Places(log[..|log| - 1])[log[|log| - 1].operationId := |log| - 1]
  }

  lemma {:induction false} PlacesAre(log: seq<MutationRecord>, op: string)
    requires forall i, j :: 0 <= i < j < |log| ==> log[i].operationId != log[j].operationId
    ensures op in Places(log) ==> Places(log)[op] < |log| && log[Places(log)[op]].operationId == op
    ensures op !in Places(log) ==> forall i :: 0 <= i < |log| ==> log[i].operationId != op
  {
    if log != [] { PlacesAre(log[..|log| - 1], op); }
  }

  lemma IndexesPlus(replicas: seq<OrderedReplica>, replica: OrderedReplica)
    ensures Indexes(replicas + [replica]) == Indexes(replicas) + {replica.index}
  {
    var more := replicas + [replica];
    assert more[|replicas|] == replica;
    forall x | x in Indexes(replicas) ensures x in Indexes(more) {
      var i :| 0 <= i < |replicas| && replicas[i].index == x;
      assert more[i].index == x;
    }
  }

  lemma FollowerIsValid(replica: OrderedReplica, shard: nat, epoch: nat, schema: Schema, log: seq<MutationRecord>)
    requires Follows(replica, shard, epoch, schema, log)
    ensures replica.Valid() && replica.index.Valid() && replica.appliedSequence == |replica.log|
  {
    hide InMemoryIndex.Valid;
  }

  lemma AppliedFollows(replica: OrderedReplica, shard: nat, epoch: nat, schema: Schema, log: seq<MutationRecord>,
                       a: nat, p: nat)
    requires replica.Valid() && replica.shard == shard && replica.epoch == epoch && replica.index.schema == schema
    requires replica.base == [] && replica.start == 0 && a <= |log| && p < |log|
    requires replica.log == log[..a] || (a == p && replica.log == log[..a] + [log[p]])
    ensures Follows(replica, shard, epoch, schema, log)
    ensures replica.appliedSequence == |replica.log|
  {
    hide InMemoryIndex.Valid;
    assert a == p ==> log[..a] + [log[p]] == log[..a + 1];
    assert replica.appliedSequence == |replica.log|;
  }

  lemma FollowsLonger(replica: OrderedReplica, shard: nat, epoch: nat, schema: Schema, log: seq<MutationRecord>,
                      record: MutationRecord)
    requires Follows(replica, shard, epoch, schema, log)
    ensures Follows(replica, shard, epoch, schema, log + [record])
  {
    hide OrderedReplica.Valid;
    assert (log + [record])[..replica.appliedSequence] == log[..replica.appliedSequence];
  }

  lemma ExtendsLog(shard: nat, epoch: nat, schema: Schema, log: seq<MutationRecord>, record: MutationRecord)
    requires Ordered(shard, epoch, schema, log)
    requires record.shard == shard && record.epoch == epoch && record.sequence == |log| + 1 && record.operationId != ""
    requires forall i :: 0 <= i < |log| ==> log[i].operationId != record.operationId
    requires Refusal(schema, Folded([], log), MAXIMUM_ID, record.document).None?
    ensures Ordered(shard, epoch, schema, log + [record])
      && Places(log + [record]) == Places(log)[record.operationId := |log|]
  {
    hide Refusal, Folded, Usable, Places;
    var more := log + [record];
    PlacesGrow(log, record);
    forall i | 0 <= i < |more|
      ensures more[i].shard == shard && more[i].epoch == epoch && more[i].sequence == i + 1 && more[i].operationId != ""
      ensures Refusal(schema, Folded([], more[..i]), MAXIMUM_ID, more[i].document).None?
    {
      if i < |log| { assert more[i] == log[i] && more[..i] == log[..i]; } else { assert more[..i] == log; }
    }
    forall i, j | 0 <= i < j < |more| ensures more[i].operationId != more[j].operationId {
      assert more[i] == log[i];
      if j < |log| { assert more[j] == log[j]; }
    }
  }

  lemma PlacesGrow(log: seq<MutationRecord>, record: MutationRecord)
    ensures Places(log + [record]) == Places(log)[record.operationId := |log|]
  {
    assert (log + [record])[..|log|] == log;
  }

  lemma Numbered(shard: nat, epoch: nat, schema: Schema, log: seq<MutationRecord>, p: nat)
    requires Ordered(shard, epoch, schema, log) && p < |log|
    ensures log[p].sequence == p + 1
  {
  }

  class ReplicationGroup {
    const shard: nat
    const epoch: nat
    const schema: Schema
    const limit: nat
    const replicas: seq<OrderedReplica>
    var log: seq<MutationRecord>
    var nextSequence: nat
    var operationIndices: map<string, nat>

    /** The log is gap-free, every replica has applied a prefix of it, and the primary and every
        replica in service have applied all of it. */
    ghost predicate Valid()
      reads this, replicas, Indexes(replicas)
    {
      && |replicas| > 0 && Apart(replicas)
      && Ordered(shard, epoch, schema, log) && nextSequence == |log| + 1 && operationIndices == Places(log)
      && (forall i :: 0 <= i < |replicas| ==> Follows(replicas[i], shard, epoch, schema, log))
      && (forall i :: 0 <= i < |replicas| && (i == 0 || InService(replicas[i].health)) ==>
          replicas[i].appliedSequence == |log|)
    }

    constructor (shard: nat, epoch: nat, schema: Schema, limit: nat, replicas: seq<OrderedReplica>)
      ensures this.shard == shard && this.epoch == epoch && this.schema == schema && this.limit == limit
      ensures this.replicas == replicas && log == [] && nextSequence == 1 && operationIndices == map[]
    {
      this.shard, this.epoch, this.schema, this.limit, this.replicas := shard, epoch, schema, limit, replicas;
      log, nextSequence, operationIndices := [], 1, map[];
    }

    static method Create(shard: nat, epoch: nat, nodes: seq<string>, limit: nat, schema: Schema)
      returns (r: Result<ReplicationGroup, ReplicationError>)
      requires Usable(schema)
      ensures r.Ok? <==>
        && shard != 0 && epoch != 0 && 0 < |nodes| <= 64 && limit != 0
        && forall i, j :: 0 <= i < j < |nodes| ==> nodes[i] != nodes[j]
      ensures r.Err? ==> r.error == InvalidTopology
      ensures r.Ok? ==> fresh(r.value) && r.value.Valid() && r.value.log == [] && |r.value.replicas| == |nodes|
      ensures r.Ok? ==> fresh(r.value.replicas) && fresh(Indexes(r.value.replicas))
    {
      var unique := AllDistinct(nodes);
      if shard == 0 || epoch == 0 || |nodes| == 0 || |nodes| > 64 || !unique || limit == 0 {
        return Err(InvalidTopology);
      }
      var replicas := BuildReplicas(shard, epoch, nodes, schema);
      var group := new ReplicationGroup(shard, epoch, schema, limit, replicas);
      r := Ok(group);
    }

    static method BuildReplicas(shard: nat, epoch: nat, nodes: seq<string>, schema: Schema)
      returns (replicas: seq<OrderedReplica>)
      requires Usable(schema) && forall i, j :: 0 <= i < j < |nodes| ==> nodes[i] != nodes[j]
      ensures |replicas| == |nodes| && fresh(replicas) && fresh(Indexes(replicas)) && Apart(replicas)
      ensures forall i :: 0 <= i < |replicas| ==>
        Follows(replicas[i], shard, epoch, schema, []) && replicas[i].appliedSequence == 0
    {
      hide InMemoryIndex.Valid, Usable;
      replicas := [];
      for i := 0 to |nodes|
        invariant |replicas| == i && fresh(replicas) && fresh(Indexes(replicas)) && Apart(replicas)
        invariant forall k :: 0 <= k < i ==>
          && Follows(replicas[k], shard, epoch, schema, []) && replicas[k].appliedSequence == 0
          && replicas[k].node == nodes[k]
      {
        var index := new InMemoryIndex(schema, MAXIMUM_ID);
        var replica := new OrderedReplica(nodes[i], shard, epoch, index, 0);
        IndexesPlus(replicas, replica);
        replicas := replicas + [replica];
      }
    }

    /** What holds while a record is being delivered: everyone follows the log, and those in service
        lack at most the record at place `p`. */
    ghost predicate Delivering(p: nat)
      reads this, replicas, Indexes(replicas)
    {
      && |replicas| > 0 && Apart(replicas) && p < |log|
      && Ordered(shard, epoch, schema, log) && nextSequence == |log| + 1 && operationIndices == Places(log)
      && (forall i :: 0 <= i < |replicas| ==> Follows(replicas[i], shard, epoch, schema, log))
      && (forall i :: 0 <= i < |replicas| && (i == 0 || InService(replicas[i].health)) ==> InStep(replicas[i], p))
      && replicas[0].appliedSequence == |log|
    }

    ghost predicate InStep(replica: OrderedReplica, p: nat)
      reads this, replica
    {
      replica.appliedSequence == |log| || (p == |log| - 1 && replica.appliedSequence == p)
    }

    /** One replica gets the record; it acknowledges and is then up to date. */
    method Deliver(k: nat, p: nat) returns (acknowledged: bool)
      requires Delivering(p) && k < |replicas|
      modifies replicas[k], replicas[k].index
      ensures Delivering(p) && replicas[k].health == old(replicas[k].health)
      ensures acknowledged <==> k == 0 || InService(replicas[k].health)
      ensures acknowledged ==> replicas[k].appliedSequence == |log|
      ensures forall i :: 0 <= i < |replicas| && i != k ==>
        replicas[i].health == old(replicas[i].health) && replicas[i].appliedSequence == old(replicas[i].appliedSequence)
    {
      hide InMemoryIndex.Valid, OrderedReplica.Valid, Ordered, Places, OrderedReplica.Answer;
      if k != 0 && (replicas[k].health.Unhealthy? || replicas[k].health.Draining?) { return false; }
      FollowerAnswers(replicas[k], shard, epoch, schema, log, p);
      FollowerIsValid(replicas[k], shard, epoch, schema, log);
      ghost var a := replicas[k].appliedSequence;
      var applied := replicas[k].Apply(log[p]);
      AppliedFollows(replicas[k], shard, epoch, schema, log, a, p);
      acknowledged := applied.Ok?;
    }

    lemma PrimaryIsComplete(i: nat)
      requires Valid() && i < |replicas| && (i == 0 || InService(replicas[i].health))
      ensures replicas[i].index.slots == Folded([], log) && replicas[0].index.slots == Folded([], log)
    {
      hide InMemoryIndex.Valid, Ordered;
      assert log[..|log|] == log;
    }

    /** The place a mutation takes or has in the log, or why it is turned away. */
    ghost function Ruling(operationId: string, document: Document): Result<nat, ReplicationError>
      reads this, replicas, Indexes(replicas)
      requires Valid()
    {
      PlacesAre(log, operationId);
      if operationId in operationIndices then
        var p := operationIndices[operationId];
        if log[p].document != document then Err(ConflictingOperation) else Ok(p)
      else if |log| >= limit then Err(LogFull)
      else
        match replicas[0].Answer(MutationRecord(shard, epoch, operationId, nextSequence, document))
        case Err(e) => Err(e)
        case Ok(_) => Ok(|log|)
    }

    ghost function Healths(): (r: seq<NodeHealth>)
      reads this, replicas
      ensures |r| == |replicas| && forall i :: 0 <= i < |r| ==> r[i] == replicas[i].health
    {
      seq(|replicas|, i requires 0 <= i < |replicas| reads this, replicas => replicas[i].health)
    }

    method Submit(operationId: string, document: Document, mode: AcknowledgementMode)
      returns (r: Result<MutationReceipt, ReplicationError>)
      requires Valid()
      modifies this, replicas, Indexes(replicas)
      ensures Valid()
      ensures forall i :: 0 <= i < |replicas| ==> replicas[i].health == old(replicas[i].health)
      ensures match old(Ruling(operationId, document))
        case Err(e) => r == Err(e) && log == old(log)
        case Ok(p) =>
          && log == (if p < |old(log)| then old(log)
                     else old(log) + [MutationRecord(shard, epoch, operationId, p + 1, document)])
          && r == Receipt(p, mode, old(Healths()))
      ensures r.Ok? && mode.AllReplicas? ==> AllEqual()
      ensures |log| > |old(log)| ==> |log| <= limit
    {
      hide Delivering, AllEqual, InMemoryIndex.Valid, Follows, Ordered, Judge, Receipt;
      var p: nat;
      ghost var healths := Healths();
      if operationId in operationIndices {
        p := operationIndices[operationId];
        KnownPlace(operationId);
        if log[p].document != document { return Err(ConflictingOperation); }
      } else {
        if |log| >= limit { return Err(LogFull); }
        p := |log|;
        var refused := Commit(operationId, document);
        if refused.Some? { return Err(refused.value); }
      }
      assert Healths() == healths;
      r := Broadcast(p, mode);
    }

    lemma KnownPlace(operationId: string)
      requires Valid() && operationId in operationIndices
      ensures operationIndices[operationId] < |log| && Delivering(operationIndices[operationId])
    {
      hide Follows, InMemoryIndex.Valid, Refusal, Folded;
      PlacesAre(log, operationId);
    }

    /** The primary applies a new record; only then does it enter the log. */
    method Commit(operationId: string, document: Document) returns (refused: Option<ReplicationError>)
      requires Valid() && operationId !in operationIndices
      modifies this, replicas[0], replicas[0].index
      ensures var record := MutationRecord(shard, epoch, operationId, old(nextSequence), document);
        match old(replicas[0].Answer(record))
        case Err(e) => refused == Some(e) && Valid() && log == old(log) && nextSequence == old(nextSequence)
        case Ok(_) => refused == None && log == old(log) + [record] && Delivering(|log| - 1)
      ensures replicas[0].health == old(replicas[0].health)
    {
      hide InMemoryIndex.Valid, OrderedReplica.Valid, Refusal, Usable, Ordered, Places, Folded, Known;
      var record := MutationRecord(shard, epoch, operationId, nextSequence, document);
      ghost var before := log;
      NewOperation(operationId);
      FollowerIsValid(replicas[0], shard, epoch, schema, log);
      AcceptedRecord(record);
      var primary := replicas[0].Apply(record);
      if primary.Err? { return Some(primary.error); }
      ExtendsLog(shard, epoch, schema, before, record);
      var next := log + [record];
      assert next[..|before|] == before && next[|before|] == record
        && replicas[0].log == next[..|before|] + [next[|before|]];
      AppliedFollows(replicas[0], shard, epoch, schema, next, |before|, |before|);
      forall i | 0 < i < |replicas| ensures Follows(replicas[i], shard, epoch, schema, next) {
        FollowsLonger(replicas[i], shard, epoch, schema, before, record);
      }
      operationIndices := operationIndices[operationId := |log|];
      log := next;
      nextSequence := nextSequence + 1;
      refused := None;
    }

    /** A new record the primary takes is one the log can take. */
    lemma AcceptedRecord(record: MutationRecord)
      requires Valid() && record.operationId !in operationIndices && record.sequence == nextSequence
      requires record.shard == shard && record.epoch == epoch
      ensures replicas[0].index.Valid() && replicas[0].log == log
      ensures match replicas[0].Answer(record)
        case Err(_) => true
        case Ok(outcome) =>
          outcome == Applied && record.operationId != ""
            && Refusal(schema, Folded([], log), MAXIMUM_ID, record.document).None?
    {
      hide InMemoryIndex.Valid, Refusal, Usable, Ordered, Places, Folded, Known;
      NewOperation(record.operationId);
      assert log[..|log|] == log;
    }

    /** An operation the group does not know is unknown to its primary. */
    lemma NewOperation(operationId: string)
      requires Valid() && operationId !in operationIndices
      ensures operationId !in replicas[0].operations
      ensures forall i :: 0 <= i < |log| ==> log[i].operationId != operationId
      ensures replicas[0].index.slots == Folded([], log) && replicas[0].index.schema == schema
      ensures replicas[0].appliedSequence == |log|
      ensures replicas[0].shard == shard && replicas[0].epoch == epoch && replicas[0].index.maximumId == MAXIMUM_ID
    {
      hide InMemoryIndex.Valid, Refusal, Usable, Folded;
      assert log[..|log|] == log;
      PlacesAre(log, operationId);
      KnownOperations(log, operationId);
    }

    /** Every replica that is in service gets the record. */
    method Broadcast(p: nat, mode: AcknowledgementMode) returns (r: Result<MutationReceipt, ReplicationError>)
      requires Delivering(p)
      modifies replicas, Indexes(replicas)
      ensures Valid() && r == Receipt(p, mode, old(Healths()))
      ensures forall i :: 0 <= i < |replicas| ==> replicas[i].health == old(replicas[i].health)
      ensures r.Ok? && mode.AllReplicas? ==> AllEqual()
    {
      hide Delivering, Valid, AllEqual;
      Begins(p);
      var acknowledgements := 0;
      ghost var healths := Healths();
      for k := 0 to |replicas|
        invariant Delivering(p) && acknowledgements == Acknowledging(healths[..k]) <= k
        invariant forall i :: 0 <= i < |replicas| ==> replicas[i].health == old(replicas[i].health)
        invariant forall i :: 0 <= i < k && (i == 0 || InService(replicas[i].health)) ==>
          replicas[i].appliedSequence == |log|
        invariant acknowledgements == k ==> forall i :: 0 <= i < k ==> replicas[i].appliedSequence == |log|
      {
        var acknowledged := Deliver(k, p);
        assert healths[..k + 1] == healths[..k] + [healths[k]];
        if acknowledged { acknowledgements := acknowledgements + 1; }
      }
      assert healths[..|replicas|] == healths;
      Delivered(p);
      if mode.AllReplicas? && acknowledgements != |replicas| { return Err(InsufficientAcknowledgements); }
      r := Ok(MutationReceipt(log[p].sequence, acknowledgements));
      if mode.AllReplicas? { EqualWhenComplete(); }
    }

    /** Every replica has applied the whole log and holds what the primary holds. */
    ghost predicate AllEqual()
      reads this, replicas, Indexes(replicas)
    {
      |replicas| > 0 &&
      forall i :: 0 <= i < |replicas| ==>
        replicas[i].appliedSequence == |log| && replicas[i].index.slots == replicas[0].index.slots
    }

    lemma Begins(p: nat)
      requires Delivering(p)
      ensures |replicas| > 0 && p < |log|
    {
    }

    lemma Delivered(p: nat)
      requires Delivering(p)
      requires forall i :: 0 <= i < |replicas| && (i == 0 || InService(replicas[i].health)) ==>
        replicas[i].appliedSequence == |log|
      ensures Valid() && p < |log| && log[p].sequence == p + 1
    {
      hide Follows, InMemoryIndex.Valid;
      Numbered(shard, epoch, schema, log, p);
    }

    lemma EqualWhenComplete()
      requires Valid() && forall i :: 0 <= i < |replicas| ==> replicas[i].appliedSequence == |log|
      ensures AllEqual()
    {
      hide InMemoryIndex.Valid, Ordered;
      assert log[..|log|] == log;
    }

    /** The log is replayed into one replica: it ends up complete, whatever prefix it had, and no
        record is turned away. */
    method CatchUp(k: nat) returns (r: Result<(), ReplicationError>)
      requires Valid() && k < |replicas|
      modifies replicas[k], replicas[k].index
      ensures r == Ok(()) && replicas[k].appliedSequence == |log| && replicas[k].health == old(replicas[k].health)
      ensures Follows(replicas[k], shard, epoch, schema, log)
    {
      hide InMemoryIndex.Valid, OrderedReplica.Valid, Ordered, Places, OrderedReplica.Answer;
      ghost var was := replicas[k].appliedSequence;
      for i := 0 to |log|
        invariant Follows(replicas[k], shard, epoch, schema, log) && replicas[k].health == old(replicas[k].health)
        invariant replicas[k].appliedSequence == if i <= was then was else i
      {
        FollowerAnswers(replicas[k], shard, epoch, schema, log, i);
        FollowerIsValid(replicas[k], shard, epoch, schema, log);
        ghost var a := replicas[k].appliedSequence;
        var applied := replicas[k].Apply(log[i]);
        AppliedFollows(replicas[k], shard, epoch, schema, log, a, i);
        match applied {
          case Err(e) => return Err(e);
          case Ok(_) =>
        }
      }
      r := Ok(());
    }

    /** One replica changes its health; it comes into service only complete. */
    method ChangeHealth(k: nat, health: NodeHealth) returns (r: Result<(), ReplicationError>)
      requires Valid() && k < |replicas|
      modifies replicas[k], replicas[k].index
      ensures Valid() && r == Ok(()) && replicas[k].health == health
    {
      hide InMemoryIndex.Valid, OrderedReplica.Valid, Ordered, Places;
      if health.Healthy? || health.Suspect? {
        var caught := CatchUp(k);
        match caught {
          case Err(e) => return Err(e);
          case Ok(_) =>
        }
      }
      FollowerIsValid(replicas[k], shard, epoch, schema, log);
      replicas[k].SetHealth(health);
      r := Ok(());
    }

    /** A node comes back into service only complete; catching up never fails. */
    method SetHealth(node: string, health: NodeHealth) returns (r: Result<(), ReplicationError>)
      requires Valid()
      modifies replicas, Indexes(replicas)
      ensures Valid()
      ensures r == if exists i :: 0 <= i < |replicas| && replicas[i].node == node then Ok(()) else Err(InvalidTopology)
      ensures forall i :: 0 <= i < |replicas| ==>
        replicas[i].health == if replicas[i].node == node then health else old(replicas[i].health)
    {
      hide InMemoryIndex.Valid, OrderedReplica.Valid, Ordered, Places, Follows;
      for k := 0 to |replicas|
        invariant forall i :: 0 <= i < k ==> replicas[i].node != node
        invariant Valid() && forall i :: 0 <= i < |replicas| ==> replicas[i].health == old(replicas[i].health)
      {
        if replicas[k].node == node {
          r := ChangeHealth(k, health);
          return;
        }
      }
      r := Err(InvalidTopology);
    }

    method Statuses() returns (r: seq<ReplicaStatus>)
      requires Valid()
      ensures |r| == |replicas|
      ensures forall i :: 0 <= i < |r| ==>
        r[i] == ReplicaStatus(replicas[i].node, replicas[i].health, replicas[i].appliedSequence,
                              |log| - replicas[i].appliedSequence, replicas[i].inflight)
    {
      hide InMemoryIndex.Valid, OrderedReplica.Valid, Ordered, Places;
      var primary := replicas[0].appliedSequence;
      r := [];
      for i := 0 to |replicas|
        invariant |r| == i
        invariant forall k :: 0 <= k < i ==>
          r[k] == ReplicaStatus(replicas[k].node, replicas[k].health, replicas[k].appliedSequence,
                                |log| - replicas[k].appliedSequence, replicas[k].inflight)
      {
        var replica := replicas[i];
        var lag := if primary > replica.appliedSequence then primary - replica.appliedSequence else 0;
        r := r + [ReplicaStatus(replica.node, replica.health, replica.appliedSequence, lag, replica.inflight)];
      }
    }

    /** Whatever lag is tolerated, the replica chosen for reads holds exactly what the primary holds. */
    method SelectReadReplica(maximumLag: nat) returns (r: Result<string, ReplicationError>)
      requires Valid()
      ensures r.Ok? ==>
        exists i ::
          && 0 <= i < |replicas| && replicas[i].node == r.value && replicas[i].index.slots == replicas[0].index.slots
          && (replicas[i].health.Suspect? ==> forall j :: 0 <= j < |replicas| ==> !replicas[j].health.Healthy?)
      ensures r.Err? ==> r.error == NoEligibleReplica && forall i :: 0 <= i < |replicas| ==>
        !InService(replicas[i].health)
    {
      hide InMemoryIndex.Valid, OrderedReplica.Valid, Ordered, Places, BestOf;
      var statuses := Statuses();
      assert forall i :: 0 <= i < |replicas| && InService(replicas[i].health) ==> Eligible(statuses[i], maximumLag);
      r := Select(statuses, maximumLag);
      if r.Ok? {
        ghost var i :| 0 <= i < |statuses| && statuses[i].node == r.value && BestOf(statuses, maximumLag, statuses[i]);
        BestIsHealthy(statuses, maximumLag, statuses[i]);
        PrimaryIsComplete(i);
      }
    }
  }

  method AllDistinct(nodes: seq<string>) returns (unique: bool)
    ensures unique <==> forall i, j :: 0 <= i < j < |nodes| ==> nodes[i] != nodes[j]
  {
    var seen: set<string> := {};
    for k := 0 to |nodes|
      invariant seen == set i | 0 <= i < k :: nodes[i]
      invariant forall i, j :: 0 <= i < j < k ==> nodes[i] != nodes[j]
    {
      if nodes[k] in seen { return false; }
      seen := seen + {nodes[k]};
    }
    unique := true;
  }
}

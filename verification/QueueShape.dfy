/** The shape of released batches, kept by every step; what activation and legacy recovery end in. */
module QueueShape {
  import opened Options
  import opened QueueTables
  import opened QueueSteps
  import opened QueueInvariants

  predicate Owns(t: Tables, pid: PipelineId, j: JobId) {
    j in t.children && t.children[j].pipelineId == pid
  }

  /** The relation rows of a pipeline are exactly ordinals 0..n-1 over the n distinct jobs of its manifest. */
  ghost predicate ManifestShape(t: Tables, pid: PipelineId)
    requires pid in t.pipelines
  {
    var ids := t.pipelines[pid].queueJobIds;
    && |ids| == t.pipelines[pid].expectedChildCount
    && (forall i :: 0 <= i < |ids| ==> Owns(t, pid, ids[i]) && t.children[ids[i]].ordinal == i)
    && (forall j :: Owns(t, pid, j) ==> j in ids)
  }

  ghost predicate PipelineShape(t: Tables, pid: PipelineId)
    requires pid in t.pipelines
  {
    var p := t.pipelines[pid];
    && (p.batchState.Released? ==> !p.status.PlannedPipeline? && ManifestShape(t, pid))
    && (p.batchState.Unstarted? || p.batchState.Legacy? ==> forall j :: !Owns(t, pid, j))
  }

  ghost predicate Shape(t: Tables) {
    && (forall j :: j in t.children ==> j in t.jobs && t.children[j].pipelineId in t.pipelines)
    && (forall pid :: pid in t.pipelines ==> PipelineShape(t, pid))
  }

  lemma SetOfCons(ids: seq<JobId>)
    requires ids != []
    ensures |set j | j in ids| == |set j | j in ids[1..]| + (if ids[0] in ids[1..] then 0 else 1)
  {
    var rest := set j | j in ids[1..];
    assert (set j | j in ids) == rest + {ids[0]};
  }

  lemma {:induction false} SetNoLarger(ids: seq<JobId>)
    ensures |set j | j in ids| <= |ids|
    decreases |ids|
  {
    if ids == [] {
      assert (set j | j in ids) == {};
    } else {
      SetNoLarger(ids[1..]);
      SetOfCons(ids);
    }
  }

  lemma {:induction false} FullSetHasNoRepeats(ids: seq<JobId>)
    requires |set j | j in ids| == |ids|
    ensures NoRepeats(ids)
    decreases |ids|
  {
    if ids != [] {
      SetNoLarger(ids[1..]);
      SetOfCons(ids);
      FullSetHasNoRepeats(ids[1..]);
    }
  }

  predicate NoRepeats(ids: seq<JobId>) {
    forall i, k :: 0 <= i < k < |ids| ==> ids[i] != ids[k]
  }

  lemma {:induction false} ManifestRelationIs(pid: PipelineId, ids: seq<JobId>)
    requires NoRepeats(ids)
    ensures forall i :: 0 <= i < |ids| ==> ids[i] in ManifestRelation(pid, ids) && ManifestRelation(pid, ids)[ids[i]] == ChildRow(pid, i)
    ensures forall j :: j in ManifestRelation(pid, ids) ==> j in ids && ManifestRelation(pid, ids)[j].ordinal < |ids|
    decreases |ids|
  {
    if ids != [] {
      var less := ids[..|ids| - 1];
      ManifestRelationIs(pid, less);
      assert forall i :: 0 <= i < |less| ==> less[i] == ids[i];
    }
  }

  /** The new relation rows of a batch: job i of the manifest has ordinal i, and nothing else is added. */
  ghost predicate AddsManifest(old_: map<JobId, ChildRow>, new_: map<JobId, ChildRow>, pid: PipelineId, ids: seq<JobId>) {
    && (forall i :: 0 <= i < |ids| ==> ids[i] in new_ && new_[ids[i]] == ChildRow(pid, i))
    && (forall j :: j in new_ ==> j in ids || (j in old_ && new_[j] == old_[j]))
    && (forall j :: j in old_ ==> j in new_ && new_[j] == old_[j])
  }

  lemma ManifestAdds(children: map<JobId, ChildRow>, pid: PipelineId, ids: seq<JobId>)
    requires NoRepeats(ids) && forall j :: j in ids ==> j !in children
    ensures AddsManifest(children, children + ManifestRelation(pid, ids), pid, ids)
  {
    ManifestRelationIs(pid, ids);
  }

  lemma BatchIdsAreNew(t: Tables, batch: seq<Prepared>)
    requires BatchFits(t, batch) && DistinctIds(batch)
    ensures NoRepeats(PreparedIds(batch)) && forall j :: j in PreparedIds(batch) ==> j !in t.children && j in BatchIds(batch)
  {
    forall j | j in PreparedIds(batch)
      ensures j !in t.children && j in BatchIds(batch)
    {
      var i :| 0 <= i < |batch| && PreparedIds(batch)[i] == j;
      assert !InsertConflicts(t, batch[i]);
    }
  }

  /** Adding the manifest of one pipeline that had no relation rows keeps the shape of all. */
  lemma AddedManifestKeepsShape(t: Tables, next: Tables, pid: PipelineId)
    requires Shape(t) && pid in t.pipelines && next.pipelines.Keys == t.pipelines.Keys
    requires forall j :: !Owns(t, pid, j)
    requires AddsManifest(t.children, next.children, pid, next.pipelines[pid].queueJobIds)
    requires next.pipelines[pid].expectedChildCount == |next.pipelines[pid].queueJobIds|
    requires next.pipelines[pid].batchState.Released? && !next.pipelines[pid].status.PlannedPipeline?
    requires forall other :: other in t.pipelines && other != pid ==> next.pipelines[other] == t.pipelines[other]
    requires forall j :: j in next.children ==> j in next.jobs
    ensures Shape(next) && ManifestShape(next, pid)
  {
    var ids := next.pipelines[pid].queueJobIds;
    forall j | Owns(next, pid, j)
      ensures j in ids
    {
      assert !Owns(t, pid, j);
    }
    forall other | other in next.pipelines
      ensures PipelineShape(next, other)
    {
      assert PipelineShape(t, other);
      if other != pid {
        assert forall j :: Owns(next, other, j) == Owns(t, other, j);
      }
    }
  }

  lemma ActivationKeepsShape(t: Tables, rec: PipelineRecord, batch: seq<Prepared>, lease: int)
    requires Shape(t) && rec.pipelineId in t.pipelines
    requires BatchFits(t, batch) && DistinctIds(batch)
    requires !t.pipelines[rec.pipelineId].batchState.Released? && !t.pipelines[rec.pipelineId].batchState.Incomplete?
    ensures Shape(Activation(t, rec, batch, lease))
    ensures ManifestShape(Activation(t, rec, batch, lease), rec.pipelineId)
  {
    BatchIdsAreNew(t, batch);
    ManifestAdds(t.children, rec.pipelineId, PreparedIds(batch));
    BatchJobsKeys(batch, lease, |batch|);
    assert PipelineShape(t, rec.pipelineId);
    AddedManifestKeepsShape(t, Activation(t, rec, batch, lease), rec.pipelineId);
  }

  lemma LegacyKeepsShape(t: Tables, pid: PipelineId, now: int)
    requires Shape(t)
    ensures Shape(ReconcileLegacy(t, pid, now))
    ensures LegacyVerdict(t, pid, now).ReleasedBatch? ==> ManifestShape(ReconcileLegacy(t, pid, now), pid)
  {
    var next := ReconcileLegacy(t, pid, now);
    if LegacyVerdict(t, pid, now).ReleasedBatch? {
      FullSetHasNoRepeats(t.pipelines[pid].queueJobIds);
      ManifestAdds(t.children, pid, t.pipelines[pid].queueJobIds);
      assert PipelineShape(t, pid);
      AddedManifestKeepsShape(t, next, pid);
    } else if LegacyVerdict(t, pid, now).FailedBatch? {
      SamePipelinesKeepShape(t, next, pid);
    }
  }

  /** A step that changes no relation row and only one pipeline, which it neither releases nor makes fresh. */
  lemma SamePipelinesKeepShape(t: Tables, next: Tables, pid: PipelineId)
    requires Shape(t) && pid in t.pipelines && next.pipelines.Keys == t.pipelines.Keys
    requires next.children == t.children && forall j :: j in next.children ==> j in next.jobs
    requires forall other :: other in t.pipelines && other != pid ==> next.pipelines[other] == t.pipelines[other]
    requires var p, q := t.pipelines[pid], next.pipelines[pid];
             || q.batchState.Incomplete?
             || (q.batchState.Legacy? && p.batchState.Unstarted?)
             || (&& q.batchState == p.batchState && q.expectedChildCount == p.expectedChildCount && q.queueJobIds == p.queueJobIds
                 && (q.status.PlannedPipeline? ==> p.status.PlannedPipeline? || !p.batchState.Released?))
    ensures Shape(next)
  {
    forall other | other in next.pipelines
      ensures PipelineShape(next, other)
    {
      assert PipelineShape(t, other);
      assert forall j :: Owns(next, other, j) == Owns(t, other, j);
    }
  }

  predicate WritesOnePipeline(a: Action) {
    a.WritePipeline? || a.TakePipeline? || a.RenewPipeline? || a.MarkLegacy?
  }

  lemma WrittenPipeline(t: Tables, a: Action)
    requires WritesOnePipeline(a)
    ensures Step(t, a).children == t.children && Step(t, a).jobs == t.jobs
    ensures Step(t, a) == t || (a.pid in t.pipelines && Step(t, a).pipelines.Keys == t.pipelines.Keys
            && forall other :: other in t.pipelines && other != a.pid ==> Step(t, a).pipelines[other] == t.pipelines[other])
  {
  }

  lemma WrittenPipelineKeepsShape(t: Tables, a: Action)
    requires Shape(t) && WritesOnePipeline(a)
    ensures Shape(Step(t, a))
  {
    WrittenPipeline(t, a);
    if Step(t, a) != t {
      SamePipelinesKeepShape(t, Step(t, a), a.pid);
    }
  }

  lemma NewOrPrunedPipelineKeepsShape(t: Tables, a: Action)
    requires Shape(t) && (a.InsertPipeline? || a.PrunePipeline?)
    ensures Shape(Step(t, a))
  {
    var next := Step(t, a);
    forall pid | pid in next.pipelines
      ensures PipelineShape(next, pid)
    {
      assert pid in t.pipelines ==> PipelineShape(t, pid);
      assert forall j :: Owns(next, pid, j) == Owns(t, pid, j);
    }
  }

  lemma ActivateBatchKeepsShape(t: Tables, a: Action)
    requires Shape(t) && a.ActivateBatch?
    ensures Shape(Step(t, a))
  {
    if ActivationVerdict(t, a.me, a.pipelineRec, a.batch, a.capacityLeft, a.now).Activated? {
      ActivationKeepsShape(t, a.pipelineRec, a.batch, a.now + a.leaseMs);
    }
  }

  /** Every step of every bridge keeps the shape of every pipeline. */
  lemma StepKeepsShape(t: Tables, a: Action)
    requires Shape(t)
    ensures Shape(Step(t, a))
  {
    match a
    case ActivateBatch(_, _, _, _, _, _) => ActivateBatchKeepsShape(t, a);
    case ReconcileBatch(pid, now) => LegacyKeepsShape(t, pid, now);
    case WritePipeline(_, _, _, _, _, _, _, _) => WrittenPipelineKeepsShape(t, a);
    case TakePipeline(_, _, _, _, _, _) => WrittenPipelineKeepsShape(t, a);
    case RenewPipeline(_, _, _, _) => WrittenPipelineKeepsShape(t, a);
    case MarkLegacy(_, _) => WrittenPipelineKeepsShape(t, a);
    case InsertPipeline(_, _) => NewOrPrunedPipelineKeepsShape(t, a);
    case PrunePipeline(_) => NewOrPrunedPipelineKeepsShape(t, a);
    case _ => JobStepKeepsShape(t, a);
  }

  predicate WritesJobsOnly(a: Action) {
    !(a.ActivateBatch? || a.ReconcileBatch? || a.InsertPipeline? || a.PrunePipeline? || WritesOnePipeline(a))
  }

  /** Statuses may only stop; everything else of a pipeline and of the relation is as before. */
  predicate RelationKept(t: Tables, next: Tables) {
    && next.children == t.children
    && next.pipelines.Keys == t.pipelines.Keys
    && (forall j :: j in t.jobs && j in t.children ==> j in next.jobs)
    && (forall pid :: pid in t.pipelines ==>
          var p, q := t.pipelines[pid], next.pipelines[pid];
          && q.batchState == p.batchState && q.expectedChildCount == p.expectedChildCount && q.queueJobIds == p.queueJobIds
          && (q.status == p.status || q.status.Stopped()))
  }

  lemma RelationKeptKeepsShape(t: Tables, next: Tables)
    requires Shape(t) && RelationKept(t, next)
    ensures Shape(next)
  {
    forall pid | pid in next.pipelines
      ensures PipelineShape(next, pid)
    {
      assert PipelineShape(t, pid);
      assert forall j :: Owns(next, pid, j) == Owns(t, pid, j);
    }
  }

  lemma JobStepKeepsShape(t: Tables, a: Action)
    requires Shape(t) && WritesJobsOnly(a)
    ensures Shape(Step(t, a))
  {
    if Ending(a) {
      EndingKeepsRelation(t, a);
    } else {
      PlainStepKeepsRelation(t, a);
    }
    RelationKeptKeepsShape(t, Step(t, a));
  }

  lemma FinishKeepsRelation(t: Tables, child: JobId, done: JobRow)
    requires child in t.jobs
    ensures RelationKept(t, Finish(t, child, done))
  {
  }

  lemma EndingKeepsRelation(t: Tables, a: Action)
    requires Ending(a)
    ensures RelationKept(t, Step(t, a))
  {
    var done := EndingStep(t, a);
    if EndedJob(a) in t.jobs {
      FinishKeepsRelation(t, EndedJob(a), done);
    }
  }

  lemma PlainStepKeepsRelation(t: Tables, a: Action)
    requires WritesJobsOnly(a) && !Ending(a)
    ensures RelationKept(t, Step(t, a))
    ensures Step(t, a).pipelines == t.pipelines
  {
    PlainStepKeepsPipelines(t, a);
    PlainStepKeepsChildren(t, a);
  }

  lemma PlainStepKeepsPipelines(t: Tables, a: Action)
    requires WritesJobsOnly(a) && !Ending(a)
    ensures Step(t, a).pipelines == t.pipelines
  {
  }

  lemma PlainStepKeepsChildren(t: Tables, a: Action)
    requires WritesJobsOnly(a) && !Ending(a)
    ensures Step(t, a).children == t.children
    ensures forall j :: j in t.jobs && j in t.children ==> j in Step(t, a).jobs
  {
  }

  /** Every run keeps the shape. */
  lemma {:induction false} RunKeepsShape(t: Tables, run: seq<Action>)
    requires Shape(t)
    ensures Shape(Run(t, run))
    decreases |run|
  {
    if run != [] {
      RunKeepsShape(t, run[..|run| - 1]);
      StepKeepsShape(Run(t, run[..|run| - 1]), run[|run| - 1]);
    }
  }

  // ---------------------------------------------------------------- activation is all or nothing

  /** The activated pipeline and its children, exactly: every row the activation may have touched, and that it touched no other. */
  ghost predicate FullyActivated(t: Tables, next: Tables, me: InstanceId, rec: PipelineRecord, batch: seq<Prepared>, lease: int)
    requires rec.pipelineId in t.pipelines && rec.pipelineId in next.pipelines
  {
    PipelineActivated(t, next, rec, batch, lease) && ChildrenActivated(t, next, me, rec.pipelineId, batch, lease) && OnlyBatchAdded(t, next, batch)
  }

  /** The pipeline runs, released, at the next revision, under the owner and generation it had, with the manifest of the batch. */
  ghost predicate PipelineActivated(t: Tables, next: Tables, rec: PipelineRecord, batch: seq<Prepared>, lease: int)
    requires rec.pipelineId in t.pipelines && rec.pipelineId in next.pipelines
  {
    var pid := rec.pipelineId;
    var ids := next.pipelines[pid].queueJobIds;
    && |ids| == |batch| && (forall i :: 0 <= i < |batch| ==> ids[i] == batch[i].jobId)
    && next.pipelines[pid] == PipelineRow(RunningPipeline, rec.revision + 1, t.pipelines[pid].owner, t.pipelines[pid].generation,
                                          Some(lease), |batch|, Released, ids)
    && next.pipelines == t.pipelines[pid := next.pipelines[pid]] && next.bridges == t.bridges
    && AddsManifest(t.children, next.children, pid, ids)
  }

  ghost predicate ChildrenActivated(t: Tables, next: Tables, me: InstanceId, pid: PipelineId, batch: seq<Prepared>, lease: int) {
    forall i :: 0 <= i < |batch| ==> ActivatedChild(t, next, me, pid, batch[i], i, lease)
  }

  ghost predicate OnlyBatchAdded(t: Tables, next: Tables, batch: seq<Prepared>) {
    && (forall j :: j in t.jobs ==> j in next.jobs && next.jobs[j] == t.jobs[j])
    && (forall j :: j in next.jobs && j !in t.jobs ==> exists i :: 0 <= i < |batch| && batch[i].jobId == j)
  }

  /** A released child: a new job row, waiting under its bridge at revision 1. */
  predicate ActivatedChild(t: Tables, next: Tables, me: InstanceId, pid: PipelineId, child: Prepared, ordinal: nat, lease: int) {
    && child.jobId !in t.jobs && child.jobId in next.jobs
    && next.jobs[child.jobId] == JobRow(Pending, 1, Some(me), Some(child.generation), Some(lease), false, true, child.idempotencyKey, child.parentJobId)
    && child.jobId in next.children && next.children[child.jobId] == ChildRow(pid, ordinal)
  }

  lemma ActivatedRows(t: Tables, rec: PipelineRecord, batch: seq<Prepared>, lease: int, i: nat)
    requires rec.pipelineId in t.pipelines && DistinctIds(batch) && i < |batch|
    ensures var next := Activation(t, rec, batch, lease);
            batch[i].jobId in next.jobs && next.jobs[batch[i].jobId] == ChildRowFor(batch[i], lease, true)
  {
    BatchJobsAt(batch, lease, |batch|, i);
  }

  lemma AllActivatedRows(t: Tables, rec: PipelineRecord, batch: seq<Prepared>, lease: int)
    requires rec.pipelineId in t.pipelines && DistinctIds(batch)
    ensures forall i :: 0 <= i < |batch| ==>
              && batch[i].jobId in Activation(t, rec, batch, lease).jobs
              && Activation(t, rec, batch, lease).jobs[batch[i].jobId] == ChildRowFor(batch[i], lease, true)
  {
    forall i | 0 <= i < |batch|
      ensures batch[i].jobId in Activation(t, rec, batch, lease).jobs
      ensures Activation(t, rec, batch, lease).jobs[batch[i].jobId] == ChildRowFor(batch[i], lease, true)
    {
      ActivatedRows(t, rec, batch, lease, i);
    }
  }

  lemma ActivatedChildren(t: Tables, me: InstanceId, rec: PipelineRecord, batch: seq<Prepared>, lease: int)
    requires rec.pipelineId in t.pipelines && BatchWellFormed(batch) && BatchFits(t, batch)
    requires forall i :: 0 <= i < |batch| ==> batch[i].owner == me
    ensures ChildrenActivated(t, Activation(t, rec, batch, lease), me, rec.pipelineId, batch, lease)
  {
    var next, ids := Activation(t, rec, batch, lease), PreparedIds(batch);
    BatchIdsAreNew(t, batch);
    ManifestAdds(t.children, rec.pipelineId, ids);
    forall i | 0 <= i < |batch|
      ensures ActivatedChild(t, next, me, rec.pipelineId, batch[i], i, lease)
    {
      ActivatedRows(t, rec, batch, lease, i);
      assert !InsertConflicts(t, batch[i]) && ids[i] == batch[i].jobId;
    }
  }

  lemma BatchAddsManifest(t: Tables, pid: PipelineId, batch: seq<Prepared>)
    requires DistinctIds(batch) && BatchFits(t, batch)
    ensures AddsManifest(t.children, t.children + ManifestRelation(pid, PreparedIds(batch)), pid, PreparedIds(batch))
  {
    BatchIdsAreNew(t, batch);
    ManifestAdds(t.children, pid, PreparedIds(batch));
  }

  lemma ActivatedPipeline(t: Tables, rec: PipelineRecord, batch: seq<Prepared>, lease: int)
    requires rec.pipelineId in t.pipelines && DistinctIds(batch) && BatchFits(t, batch)
    ensures PipelineActivated(t, Activation(t, rec, batch, lease), rec, batch, lease)
  {
    BatchAddsManifest(t, rec.pipelineId, batch);
  }

  lemma ActivatedOnly(t: Tables, rec: PipelineRecord, batch: seq<Prepared>, lease: int)
    requires rec.pipelineId in t.pipelines && BatchFits(t, batch)
    ensures OnlyBatchAdded(t, Activation(t, rec, batch, lease), batch)
  {
    FittingBatchIsNew(t, batch);
    BatchJobsKeys(batch, lease, |batch|);
  }

  lemma ActivationIsFull(t: Tables, me: InstanceId, rec: PipelineRecord, batch: seq<Prepared>, lease: int)
    requires rec.pipelineId in t.pipelines && BatchWellFormed(batch) && BatchFits(t, batch)
    requires forall i :: 0 <= i < |batch| ==> batch[i].owner == me
    ensures FullyActivated(t, Activation(t, rec, batch, lease), me, rec, batch, lease)
  {
    ActivatedPipeline(t, rec, batch, lease);
    ActivatedChildren(t, me, rec, batch, lease);
    ActivatedOnly(t, rec, batch, lease);
  }

  /**
   When an activation passes every guard, early or late: a batch of the bridge's own, new to every unique index,
   for a pipeline planned at exactly the cached revision, owner and generation, whose lease and whose owner's run.
   */
  lemma ActivatesIff(t: Tables, me: InstanceId, rec: PipelineRecord, batch: seq<Prepared>, capacityLeft: bool, now: int)
    ensures ActivationVerdict(t, me, rec, batch, capacityLeft, now) == Activated <==>
              && capacityLeft && batch != []
              && (forall i :: 0 <= i < |batch| ==>
                    batch[i].hasRequest && batch[i].owner == me && batch[i].jobId !in t.jobs && batch[i].jobId !in t.children)
              && (forall i, k :: 0 <= i < k < |batch| ==>
                    batch[i].jobId != batch[k].jobId && (batch[i].idempotencyKey == "" || batch[i].idempotencyKey != batch[k].idempotencyKey))
              && (forall i, j :: 0 <= i < |batch| && j in t.jobs && batch[i].idempotencyKey != "" ==>
                    t.jobs[j].idempotencyKey != batch[i].idempotencyKey)
              && rec.pipelineId in t.pipelines
              && var p := t.pipelines[rec.pipelineId];
              && p.status == PlannedPipeline && p.revision == rec.revision && p.owner == me && p.generation == rec.generation
              && (forall j :: j in t.children ==> t.children[j].pipelineId != rec.pipelineId)
              && p.expectedChildCount == 0 && (p.batchState == Unstarted || p.batchState == Legacy)
              && p.lease.Some? && now < p.lease.value && me in t.bridges && now < t.bridges[me]
  {
    FitsIff(t, batch);
  }

  lemma FitsIff(t: Tables, batch: seq<Prepared>)
    ensures BatchFits(t, batch) <==>
              && (forall i :: 0 <= i < |batch| ==> batch[i].jobId !in t.jobs && batch[i].jobId !in t.children)
              && (forall i, j :: 0 <= i < |batch| && j in t.jobs && batch[i].idempotencyKey != "" ==>
                    t.jobs[j].idempotencyKey != batch[i].idempotencyKey)
              && (forall i, k :: 0 <= i < k < |batch| ==> batch[i].idempotencyKey == "" || batch[i].idempotencyKey != batch[k].idempotencyKey)
  {
    if forall i :: 0 <= i < |batch| ==> !InsertConflicts(t, batch[i]) {
      forall i | 0 <= i < |batch|
        ensures batch[i].jobId !in t.jobs && batch[i].jobId !in t.children
        ensures forall j :: j in t.jobs && batch[i].idempotencyKey != "" ==> t.jobs[j].idempotencyKey != batch[i].idempotencyKey
      {
        assert !InsertConflicts(t, batch[i]);
      }
    }
  }

  /** An activation that passes every guard leaves the whole batch in place (any other leaves the tables as they were). */
  lemma ActivationAllOrNothing(t: Tables, me: InstanceId, rec: PipelineRecord, batch: seq<Prepared>, capacityLeft: bool, now: int, lease: int)
    requires ActivationVerdict(t, me, rec, batch, capacityLeft, now).Activated?
    ensures rec.pipelineId in t.pipelines && FullyActivated(t, Activation(t, rec, batch, lease), me, rec, batch, lease)
  {
    ActivationIsFull(t, me, rec, batch, lease);
  }

  // ---------------------------------------------------------------- legacy batches

  /** Where one reconciliation leaves a legacy batch whose owner is gone. */
  lemma LegacyEnds(t: Tables, pid: PipelineId, now: int)
    requires Shape(t) && pid in t.pipelines && t.pipelines[pid].batchState.Legacy? && t.pipelines[pid].status.Open()
    requires !LegacyVerdict(t, pid, now).OwnerLive?
    ensures var next := ReconcileLegacy(t, pid, now);
            var p := next.pipelines[pid];
            match LegacyVerdict(t, pid, now)
            case ReleasedBatch =>
              && p.batchState.Released? && p.status.RunningPipeline? && ManifestShape(next, pid)
              && (forall j :: Owns(next, pid, j) ==> j in next.jobs && next.jobs[j].status.Pending? && next.jobs[j].hasRequest)
              && (forall j :: j in ObservedJobs(t, pid) ==> Owns(next, pid, j))
            case FailedBatch =>
              && p.batchState.Incomplete? && p.status.FailedPipeline?
              && (forall j :: j in ObservedJobs(t, pid) ==> !next.jobs[j].status.PreExecution())
            case RelationConflict => next == t
            case _ => false
  {
    LegacyKeepsShape(t, pid, now);
    if LegacyVerdict(t, pid, now).ReleasedBatch? {
      ReleasedLegacyChildren(t, pid, now);
    }
  }

  lemma CompleteManifest(t: Tables, pid: PipelineId)
    requires pid in t.pipelines && ManifestComplete(t, pid)
    ensures forall j :: j in ObservedJobs(t, pid) <==> j in t.pipelines[pid].queueJobIds
  {
    var listed := set j | j in t.pipelines[pid].queueJobIds;
    EqualSizeSubset(listed, ObservedJobs(t, pid));
    assert forall j :: j in listed <==> j in t.pipelines[pid].queueJobIds;
  }

  lemma ReleasedLegacyJobs(t: Tables, pid: PipelineId, now: int)
    requires LegacyVerdict(t, pid, now).ReleasedBatch?
    ensures var next := ReconcileLegacy(t, pid, now);
            && next.pipelines[pid].queueJobIds == t.pipelines[pid].queueJobIds
            && (forall j :: j in ObservedJobs(t, pid) ==> j in next.jobs && next.jobs[j].status.Pending? && next.jobs[j].hasRequest)
  {
    assert ManifestComplete(t, pid);
  }

  lemma ReleasedLegacyChildren(t: Tables, pid: PipelineId, now: int)
    requires Shape(t) && LegacyVerdict(t, pid, now).ReleasedBatch?
    ensures var next := ReconcileLegacy(t, pid, now);
            && (forall j :: Owns(next, pid, j) ==> j in next.jobs && next.jobs[j].status.Pending? && next.jobs[j].hasRequest)
            && (forall j :: j in ObservedJobs(t, pid) ==> Owns(next, pid, j))
  {
    CompleteManifest(t, pid);
    LegacyKeepsShape(t, pid, now);
    ReleasedLegacyJobs(t, pid, now);
    var next := ReconcileLegacy(t, pid, now);
    var ids := next.pipelines[pid].queueJobIds;
    assert ManifestShape(next, pid);
    forall j | j in ids
      ensures Owns(next, pid, j)
    {
      var i :| 0 <= i < |ids| && ids[i] == j;
    }
  }

  lemma EqualSizeSubset(a: set<JobId>, b: set<JobId>)
    requires a <= b && |a| == |b|
    ensures a == b
  {
    var rest := b - a;
    assert b == a + rest;
    assert |b| == |a| + |rest|;
  }

  /** A legacy batch is stuck, whoever reconciles it and whenever, exactly when it is complete but some listed job already has a parent. */
  lemma LegacyStuckIff(t: Tables, pid: PipelineId, now: int)
    requires Shape(t) && pid in t.pipelines && t.pipelines[pid].batchState.Legacy? && t.pipelines[pid].status.Open()
    requires !LegacyVerdict(t, pid, now).OwnerLive?
    ensures ReconcileLegacy(t, pid, now) == t <==>
            ManifestComplete(t, pid) && exists j :: j in t.pipelines[pid].queueJobIds && j in t.children
  {
    LegacyEnds(t, pid, now);
    assert PipelineShape(t, pid);
    assert forall j :: j in t.children && t.children[j].pipelineId == pid ==> Owns(t, pid, j);
  }

  /** Nothing is left for a reconciliation to do. */
  predicate Settled(t: Tables, pid: PipelineId, now: int) {
    LegacyVerdict(t, pid, now).NotLegacy? || LegacyVerdict(t, pid, now).OwnerLive?
  }

  lemma ReconcileSettles(t: Tables, pid: PipelineId, other: PipelineId, now: int)
    requires !LegacyVerdict(t, pid, now).RelationConflict?
    ensures Settled(ReconcileLegacy(t, pid, now), pid, now)
    ensures Settled(t, other, now) ==> Settled(ReconcileLegacy(t, pid, now), other, now)
  {
    var next := ReconcileLegacy(t, pid, now);
    assert next.bridges == t.bridges;
    if other != pid {
      assert other in t.pipelines ==> other in next.pipelines && next.pipelines[other] == t.pipelines[other];
    }
  }

  /** A pass that does not throw settles every candidate; one that throws stops at a complete batch with a taken relation row. */
  lemma {:induction false} PassSettles(t: Tables, candidates: seq<PipelineId>, done: set<PipelineId>, now: int)
    requires forall pid :: pid in done ==> Settled(t, pid, now)
    ensures var (next, thrown) := ReconcileAll(t, candidates, now);
            && (!thrown ==> forall pid :: pid in done || pid in candidates ==> Settled(next, pid, now))
            && (thrown ==> exists pid :: pid in candidates && LegacyVerdict(next, pid, now).RelationConflict?)
    decreases |candidates|
  {
    if candidates != [] && !LegacyVerdict(t, candidates[0], now).RelationConflict? {
      var next := ReconcileLegacy(t, candidates[0], now);
      forall pid | pid in done + {candidates[0]}
        ensures Settled(next, pid, now)
      {
        ReconcileSettles(t, candidates[0], pid, now);
      }
      PassSettles(next, candidates[1..], done + {candidates[0]}, now);
      assert forall pid :: pid in candidates ==> pid == candidates[0] || pid in candidates[1..];
    }
  }
}

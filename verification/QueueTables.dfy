/**
 The durable queue of server.js: the rows of `opencode_jobs`, `opencode_pipelines`,
 `opencode_pipeline_children` and `bridge_instances`, and every transaction that changes them,
 each as one atomic function on the tables.  A bridge is identified by its instance id; the
 records a bridge caches are parameters, so an arbitrarily stale cache is always allowed.
 */
module QueueTables {
  import opened Options

  type JobId = string
  type PipelineId = string
  type InstanceId = string
  type Generation = string

  datatype JobStatus =
    | Held | Pending | Planned | Blocked
    | Running | Validating | Reviewing | Testing
    | Completed | Failed | Cancelled | Interrupted | NotResumable
  {
    predicate PreExecution() { Held? || Pending? || Planned? || Blocked? }
    predicate Claimable() { Pending? || Planned? || Blocked? }
    predicate Active() { Running? || Validating? || Reviewing? || Testing? }
    predicate Terminal() { !PreExecution() && !Active() }
    predicate CountsAsFailure() { Failed? || Interrupted? || NotResumable? }
  }

  /** `Later` stands for every status of a pipeline after its children (integration, cleanup, completed). */
  datatype PipelineStatus = PlannedPipeline | RunningPipeline | FailedPipeline | CancelledPipeline | Later(name: string) {
    predicate Open() { PlannedPipeline? || RunningPipeline? }
    predicate Stopped() { FailedPipeline? || CancelledPipeline? }
  }

  datatype BatchState = Unstarted | Legacy | Released | Incomplete

  /** `lease` is None when the column is NULL, empty or not a date. */
  datatype JobRow = JobRow(
    status: JobStatus,
    revision: nat,
    owner: Option<InstanceId>,
    generation: Option<Generation>,
    lease: Option<int>,
    cancelRequested: bool,
    hasRequest: bool,
    idempotencyKey: string,
    parentJobId: PipelineId)

  datatype PipelineRow = PipelineRow(
    status: PipelineStatus,
    revision: nat,
    owner: InstanceId,
    generation: Generation,
    lease: Option<int>,
    expectedChildCount: nat,
    batchState: BatchState,
    queueJobIds: seq<JobId>)

  datatype ChildRow = ChildRow(pipelineId: PipelineId, ordinal: nat)

  datatype Tables = Tables(
    jobs: map<JobId, JobRow>,
    pipelines: map<PipelineId, PipelineRow>,
    children: map<JobId, ChildRow>,
    bridges: map<InstanceId, int>)
  {
    /** A row of `bridge_instances` whose lease has not run out. */
    predicate LiveBridge(instance: Option<InstanceId>, now: int) {
      instance.Some? && instance.value in bridges && bridges[instance.value] > now
    }

    /** The relation rows of a pipeline whose job row exists (the SQL join). */
    function ChildrenOf(pid: PipelineId): set<JobId> {
      set j | j in children && children[j].pipelineId == pid && j in jobs
    }

    predicate HasParent(j: JobId) {
      j in children && children[j].pipelineId in pipelines
    }

    function Parent(j: JobId): PipelineRow
      requires HasParent(j)
    {
      pipelines[children[j].pipelineId]
    }
  }

  /** What a bridge keeps in memory about a job. */
  datatype Record = Record(
    jobId: JobId,
    status: JobStatus,
    owner: InstanceId,
    generation: Generation,
    revision: nat,
    lease: Option<int>,
    cancelRequested: bool)

  predicate LeaseRuns(lease: Option<int>, now: int) {
    lease.Some? && lease.value > now
  }

  function WithJob(t: Tables, j: JobId, row: JobRow): Tables {
    t.(jobs := t.jobs[j := row])
  }

  // ---------------------------------------------------------------- pipeline fail-stop

  /** The status a terminal child gives its parent: failure wins over cancellation. */
  function ParentVerdict(t: Tables, pid: PipelineId): Option<PipelineStatus> {
    if exists j :: j in t.ChildrenOf(pid) && t.jobs[j].status.CountsAsFailure() then Some(FailedPipeline)
    else if exists j :: j in t.ChildrenOf(pid) && t.jobs[j].status.Cancelled? then Some(CancelledPipeline)
    else None
  }

  function StopSibling(row: JobRow): JobRow {
    if row.status.PreExecution() then
      row.(status := Cancelled, cancelRequested := true, lease := None, revision := row.revision + 1)
    else if row.status.Active() then
      row.(cancelRequested := true, revision := row.revision + 1)
    else row
  }

  predicate IsChildBut(children: map<JobId, ChildRow>, pid: PipelineId, child: JobId, j: JobId) {
    j in children && children[j].pipelineId == pid && j != child
  }

  /** propagatePipelineTerminalInTransaction */
  function Propagate(t: Tables, child: JobId): Tables {
    if !t.HasParent(child) || !t.Parent(child).status.Open() then t
    else
      var pid := t.children[child].pipelineId;
      match ParentVerdict(t, pid)
      case None => t
      case Some(verdict) =>
        t.(jobs := map j | j in t.jobs :: if IsChildBut(t.children, pid, child, j) then StopSibling(t.jobs[j]) else t.jobs[j],
           pipelines := t.pipelines[pid := t.pipelines[pid].(status := verdict, revision := t.pipelines[pid].revision + 1)])
  }

  /** A row reaches a terminal status, and its parent hears of it in the same transaction. */
  function Finish(t: Tables, child: JobId, row: JobRow): Tables {
    Propagate(WithJob(t, child, row), child)
  }

  // ---------------------------------------------------------------- claim, takeover, recovery failure

  datatype ClaimOutcome =
    | Claimed
    | CancelledByParent
    | ClaimLost
    | Refused(status: Option<JobStatus>)

  datatype ClaimResult = ClaimResult(tables: Tables, record: Record, outcome: ClaimOutcome)

  /** The parent was released and has left the running status. */
  predicate ParentClosed(t: Tables, j: JobId) {
    t.HasParent(j) && t.Parent(j).batchState.Released? && !t.Parent(j).status.RunningPipeline?
  }

  predicate ParentAllowsClaim(t: Tables, j: JobId) {
    t.HasParent(j) ==> t.Parent(j).status.RunningPipeline? && t.Parent(j).batchState.Released?
  }

  /** The record still describes the row, owns it, and its lease runs. */
  predicate RecordMatches(t: Tables, me: InstanceId, rec: Record, now: int)
    requires rec.jobId in t.jobs
  {
    var row := t.jobs[rec.jobId];
    && row.status.Claimable()
    && ParentAllowsClaim(t, rec.jobId)
    && row.owner == Some(me)
    && row.generation.GetOr("") == rec.generation
    && row.revision == rec.revision
    && LeaseRuns(row.lease, now)
    && !row.cancelRequested
  }

  function RunningRecord(me: InstanceId, leaseMs: int, rec: Record, now: int, drawn: Generation): Record {
    rec.(status := Running,
         owner := me,
         generation := if rec.generation == "" then drawn else rec.generation,
         lease := Some(now + leaseMs),
         revision := rec.revision + 1)
  }

  /** claimQueueRecord; `drawn` is the generation drawn for a record without one. */
  function Claim(t: Tables, me: InstanceId, leaseMs: int, rec: Record, now: int, drawn: Generation): ClaimResult {
    if rec.jobId !in t.jobs then ClaimResult(t, rec, Refused(None))
    else
      var row := t.jobs[rec.jobId];
      if ParentClosed(t, rec.jobId) && row.status.Claimable() then
        // The compare of a NULL owner or generation with '' is never true.
        if row.owner.Some? && row.generation.Some? then
          ClaimResult(
            WithJob(t, rec.jobId, row.(status := Cancelled, cancelRequested := true, lease := None, revision := row.revision + 1)),
            rec.(status := Cancelled, cancelRequested := true, lease := None, revision := row.revision + 1),
            CancelledByParent)
        else ClaimResult(t, rec, ClaimLost)
      else if !RecordMatches(t, me, rec, now) then
        ClaimResult(t,
                    if row.status.Cancelled? || row.cancelRequested then rec.(status := Cancelled, cancelRequested := true) else rec,
                    Refused(Some(row.status)))
      else if row.generation == Some(rec.generation) && t.LiveBridge(Some(me), now) then
        ClaimResult(
          WithJob(t, rec.jobId, row.(status := Running, lease := Some(now + leaseMs), revision := row.revision + 1)),
          RunningRecord(me, leaseMs, rec, now, drawn),
          Claimed)
      else ClaimResult(t, rec, ClaimLost)
  }

  /** No live owner holds the row: its lease has run out and so has its owner's. */
  predicate Abandoned(t: Tables, row: JobRow, now: int) {
    !LeaseRuns(row.lease, now) && !t.LiveBridge(row.owner, now)
  }

  predicate TakeoverAllowed(t: Tables, j: JobId, expectedRevision: nat, now: int) {
    && j in t.jobs
    && t.jobs[j].revision == expectedRevision
    && t.jobs[j].status.PreExecution()
    && Abandoned(t, t.jobs[j], now)
  }

  function TakenRow(row: JobRow, me: InstanceId, leaseMs: int, now: int, drawn: Generation): JobRow {
    row.(status := if row.status.Held? then Held else Pending,
         owner := Some(me), generation := Some(drawn), lease := Some(now + leaseMs), revision := row.revision + 1)
  }

  function RecordOf(j: JobId, row: JobRow): Record {
    Record(j, row.status, row.owner.GetOr(""), row.generation.GetOr(""), row.revision, row.lease, row.cancelRequested)
  }

  /** claimPersistedQueueRecordForStartup */
  function Takeover(t: Tables, me: InstanceId, leaseMs: int, j: JobId, expectedRevision: nat, now: int, drawn: Generation)
    : (r: (Tables, Option<Record>))
  {
    if TakeoverAllowed(t, j, expectedRevision, now) then
      var row := TakenRow(t.jobs[j], me, leaseMs, now, drawn);
      (WithJob(t, j, row), Some(RecordOf(j, row)))
    else (t, None)
  }

  /** The columns of a row a recovery pass read before it decided that the row is lost. */
  datatype Observed = Observed(jobId: JobId, revision: nat, owner: InstanceId, generation: Generation)

  predicate RecoveryFailAllowed(t: Tables, seen: Observed, now: int) {
    && seen.jobId in t.jobs
    && var row := t.jobs[seen.jobId];
    && row.revision == seen.revision
    && row.status.PreExecution()
    && row.owner.GetOr("") == seen.owner
    && row.generation.GetOr("") == seen.generation
    && Abandoned(t, row, now)
  }

  /** failPersistedQueueStartupRecovery */
  function RecoveryFail(t: Tables, seen: Observed, now: int): (Tables, bool) {
    if RecoveryFailAllowed(t, seen, now) then
      var row := t.jobs[seen.jobId];
      (Finish(t, seen.jobId, row.(status := Failed, lease := None, revision := row.revision + 1)), true)
    else (t, false)
  }

  // ---------------------------------------------------------------- batch activation

  datatype Prepared = Prepared(jobId: JobId, owner: InstanceId, generation: Generation, idempotencyKey: string, hasRequest: bool, parentJobId: PipelineId)

  /** The cached pipeline record an activation starts from. */
  datatype PipelineRecord = PipelineRecord(pipelineId: PipelineId, generation: Generation, revision: nat)

  datatype ActivationOutcome = Activated | BatchInvalid | CapacityExceeded | ConcurrentUpdate | IdempotencyConflict | PersistenceFailed

  predicate DistinctIds(batch: seq<Prepared>) {
    forall i, k :: 0 <= i < k < |batch| ==> batch[i].jobId != batch[k].jobId
  }

  predicate BatchWellFormed(batch: seq<Prepared>) {
    && batch != []
    && (forall i :: 0 <= i < |batch| ==> batch[i].hasRequest)
    && DistinctIds(batch)
  }

  predicate PipelineClaimMatches(t: Tables, me: InstanceId, rec: PipelineRecord) {
    && rec.pipelineId in t.pipelines
    && var p := t.pipelines[rec.pipelineId];
    && p.status.PlannedPipeline?
    && p.revision == rec.revision
    && p.owner == me
    && p.generation == rec.generation
    && (forall j :: j in t.children ==> t.children[j].pipelineId != rec.pipelineId)
    && p.expectedChildCount == 0
    && (p.batchState.Unstarted? || p.batchState.Legacy?)
  }

  /** Inserting `child` violates the primary key, the idempotency index or the relation's unique job. */
  predicate InsertConflicts(t: Tables, child: Prepared) {
    || child.jobId in t.jobs
    || child.jobId in t.children
    || (child.idempotencyKey != "" && exists j :: j in t.jobs && t.jobs[j].idempotencyKey == child.idempotencyKey)
  }

  /** The whole batch fits the unique indexes: against the table and against itself. */
  predicate BatchFits(t: Tables, batch: seq<Prepared>) {
    && (forall i :: 0 <= i < |batch| ==> !InsertConflicts(t, batch[i]))
    && (forall i, k :: 0 <= i < k < |batch| && batch[i].idempotencyKey != "" ==> batch[i].idempotencyKey != batch[k].idempotencyKey)
  }

  function ChildRowFor(child: Prepared, lease: int, released: bool): JobRow {
    JobRow(if released then Pending else Held, if released then 1 else 0,
           Some(child.owner), Some(child.generation), Some(lease), false, child.hasRequest, child.idempotencyKey, child.parentJobId)
  }

  function BatchIds(batch: seq<Prepared>): set<JobId> {
    set i | 0 <= i < |batch| :: batch[i].jobId
  }

  /** The batch's job rows, inserted in order, when the first `released` children have been released. */
  function BatchJobs(batch: seq<Prepared>, lease: int, released: nat): map<JobId, JobRow> {
    if batch == [] then map[]
    else
      var k := |batch| - 1;
      BatchJobs(batch[..k], lease, released)[batch[k].jobId := ChildRowFor(batch[k], lease, k < released)]
  }

  /** The relation rows of a manifest, inserted in order. */
  function ManifestRelation(pid: PipelineId, ids: seq<JobId>): map<JobId, ChildRow> {
    if ids == [] then map[]
    else ManifestRelation(pid, ids[..|ids| - 1])[ids[|ids| - 1] := ChildRow(pid, |ids| - 1)]
  }

  function PreparedIds(batch: seq<Prepared>): (ids: seq<JobId>)
    ensures |ids| == |batch|
  {
    seq(|batch|, i requires 0 <= i < |batch| => batch[i].jobId)
  }

  /** The first reason for which an activation is refused, in the order the code meets them. */
  function ActivationVerdict(t: Tables, me: InstanceId, rec: PipelineRecord, batch: seq<Prepared>, capacityLeft: bool, now: int): ActivationOutcome {
    if !BatchWellFormed(batch) then BatchInvalid
    else if !capacityLeft then CapacityExceeded
    else if !PipelineClaimMatches(t, me, rec) then ConcurrentUpdate
    else if !BatchFits(t, batch) then IdempotencyConflict
    else if exists i :: 0 <= i < |batch| && batch[i].owner != me then PersistenceFailed
    else if !LeaseRuns(t.pipelines[rec.pipelineId].lease, now) || !t.LiveBridge(Some(me), now) then PersistenceFailed
    else Activated
  }

  /** The tables with the whole batch in place. */
  function Activation(t: Tables, rec: PipelineRecord, batch: seq<Prepared>, lease: int): Tables
    requires rec.pipelineId in t.pipelines
  {
    t.(jobs := t.jobs + BatchJobs(batch, lease, |batch|),
       children := t.children + ManifestRelation(rec.pipelineId, PreparedIds(batch)),
       pipelines := t.pipelines[rec.pipelineId :=
         t.pipelines[rec.pipelineId].(status := RunningPipeline, revision := rec.revision + 1, lease := Some(lease),
                                      expectedChildCount := |batch|, batchState := Released, queueJobIds := PreparedIds(batch))])
  }

  /** activatePipelineBatch: everything or nothing. */
  function Activate(t: Tables, me: InstanceId, leaseMs: int, rec: PipelineRecord, batch: seq<Prepared>, capacityLeft: bool, now: int): Tables {
    if ActivationVerdict(t, me, rec, batch, capacityLeft, now) != Activated then t
    else Activation(t, rec, batch, now + leaseMs)
  }

  // ---------------------------------------------------------------- legacy batches

  datatype LegacyOutcome = NotLegacy | OwnerLive | ReleasedBatch | FailedBatch | RelationConflict

  function ExpectedCount(p: PipelineRow): nat {
    if p.expectedChildCount != 0 then p.expectedChildCount else |p.queueJobIds|
  }

  /** Jobs named by the manifest or naming the pipeline as their parent. */
  function ObservedJobs(t: Tables, pid: PipelineId): set<JobId>
    requires pid in t.pipelines
  {
    set j | j in t.jobs && (j in t.pipelines[pid].queueJobIds || t.jobs[j].parentJobId == pid)
  }

  predicate ManifestComplete(t: Tables, pid: PipelineId)
    requires pid in t.pipelines
  {
    var p := t.pipelines[pid];
    var ids := p.queueJobIds;
    var seen := ObservedJobs(t, pid);
    && ExpectedCount(p) > 0
    && |ids| == ExpectedCount(p)
    && |set j | j in ids| == ExpectedCount(p)
    && |seen| == ExpectedCount(p)
    && (forall j :: j in ids ==> j in seen)
    && (forall j :: j in seen ==> (t.jobs[j].status.Held? || t.jobs[j].status.Pending?) && t.jobs[j].hasRequest)
  }

  function ReleaseHeld(row: JobRow): JobRow {
    if row.status.Held? then row.(status := Pending, revision := row.revision + 1) else row
  }

  function CancelUnstarted(row: JobRow): JobRow {
    if row.status.PreExecution() then row.(status := Cancelled, lease := None, revision := row.revision + 1) else row
  }

  function LegacyVerdict(t: Tables, pid: PipelineId, now: int): LegacyOutcome {
    if pid !in t.pipelines || !t.pipelines[pid].batchState.Legacy? || !t.pipelines[pid].status.Open() then NotLegacy
    else if LeaseRuns(t.pipelines[pid].lease, now) || (t.pipelines[pid].owner != "" && t.LiveBridge(Some(t.pipelines[pid].owner), now)) then OwnerLive
    else if !ManifestComplete(t, pid) then FailedBatch
    // The relation row of some listed job, or one of these ordinals, is already taken: the insert throws.
    else if (exists j :: j in t.pipelines[pid].queueJobIds && j in t.children)
         || (exists j :: j in t.children && t.children[j].pipelineId == pid && t.children[j].ordinal < |t.pipelines[pid].queueJobIds|) then RelationConflict
    else ReleasedBatch
  }

  /** One transaction of reconcileLegacyPipelineBatches; a thrown insert rolls back. */
  function ReconcileLegacy(t: Tables, pid: PipelineId, now: int): Tables {
    match LegacyVerdict(t, pid, now)
    case ReleasedBatch =>
      var p := t.pipelines[pid];
      t.(jobs := map j | j in t.jobs :: if j in ObservedJobs(t, pid) then ReleaseHeld(t.jobs[j]) else t.jobs[j],
         children := t.children + ManifestRelation(pid, p.queueJobIds),
         pipelines := t.pipelines[pid := p.(status := RunningPipeline, revision := p.revision + 1,
                                            expectedChildCount := ExpectedCount(p), batchState := Released)])
    case FailedBatch =>
      var p := t.pipelines[pid];
      t.(jobs := map j | j in t.jobs :: if j in ObservedJobs(t, pid) then CancelUnstarted(t.jobs[j]) else t.jobs[j],
         pipelines := t.pipelines[pid := p.(status := FailedPipeline, revision := p.revision + 1,
                                            expectedChildCount := ExpectedCount(p), batchState := Incomplete)])
    case _ => t
  }

  /** reconcileLegacyPipelineBatches: one transaction per candidate, in order; a thrown insert ends the pass. */
  function ReconcileAll(t: Tables, candidates: seq<PipelineId>, now: int): (Tables, bool)
    decreases |candidates|
  {
    if candidates == [] then (t, false)
    else if LegacyVerdict(t, candidates[0], now).RelationConflict? then (t, true)
    else ReconcileAll(ReconcileLegacy(t, candidates[0], now), candidates[1..], now)
  }
}

/**
 Runs of the queue: one action per transaction of any bridge.  The first five actions are the
 transactions of server.js itself; the others are the remaining writers of the same tables
 (lib/queue, lib/pipelines), reduced to the guard of their SQL statement and the columns kept here.
 OwnerMove, PipelineMove and Keyed are not in the SQL: they are what the callers keep to.
 An action whose guard fails changes nothing, so every sequence of actions is a run, and every
 interleaving of any number of bridges, clocks and crashes is some sequence.
 */
module QueueSteps {
  import opened Options
  import opened QueueTables

  datatype Action =
    | ClaimJob(me: InstanceId, leaseMs: int, rec: Record, now: int, drawn: Generation)
    | TakeJob(me: InstanceId, leaseMs: int, job: JobId, expectedRevision: nat, now: int, drawn: Generation)
    | FailRecovery(seen: Observed, now: int)
    | ActivateBatch(me: InstanceId, leaseMs: int, pipelineRec: PipelineRecord, batch: seq<Prepared>, capacityLeft: bool, now: int)
    | ReconcileBatch(pid: PipelineId, now: int)
    // Writers of a row by its owner.
    | PersistRow(me: InstanceId, gen: Generation, job: JobId, next: JobStatus, lease: Option<int>, cancel: bool, now: int)
    | CommitTerminal(me: InstanceId, gen: Generation, job: JobId, revision: nat, terminal: JobStatus, now: int)
    | RenewLease(me: InstanceId, gen: Generation, job: JobId, until: int, now: int)
    | ReacquireLease(me: InstanceId, gen: Generation, job: JobId, revision: nat, until: int)
    // Writers that are not the owner.
    | CancelJob(job: JobId)
    | ReconcileStale(who: InstanceId, job: JobId, now: int)
    | InsertJob(job: JobId, row: JobRow)
    | PatchTerminal(job: JobId)
    | PruneJob(job: JobId)
    // Writers of pipelines and of bridge leases.
    | InsertPipeline(pid: PipelineId, prow: PipelineRow)
    | WritePipeline(pid: PipelineId, me: InstanceId, gen: Generation, revision: nat, pnext: PipelineStatus, incomplete: bool, lease: Option<int>, now: int)
    | TakePipeline(pid: PipelineId, me: InstanceId, revision: nat, drawn: Generation, until: int, now: int)
    | RenewPipeline(pid: PipelineId, me: InstanceId, gen: Generation, until: int)
    | MarkLegacy(pid: PipelineId, expected: nat)
    | PrunePipeline(pid: PipelineId)
    | Beat(me: InstanceId, until: int)
    | Crash(me: InstanceId)

  predicate OwnedBy(row: JobRow, me: InstanceId, gen: Generation) {
    gen != "" && row.owner == Some(me) && row.generation == Some(gen)
  }

  /** An owner moves a row within the pre-execution statuses, within the active ones, or back to blocked. */
  predicate OwnerMove(from: JobStatus, to: JobStatus) {
    || (from.PreExecution() && to.PreExecution())
    || (from.Active() && (to.Active() || to.Blocked?))
  }

  /** persistQueueRecord, non-terminal branch */
  function StepPersistRow(t: Tables, a: Action): Tables
    requires a.PersistRow?
  {
    if && a.job in t.jobs
       && var row := t.jobs[a.job];
       && OwnedBy(row, a.me, a.gen) && OwnerMove(row.status, a.next)
       && LeaseRuns(row.lease, a.now) && !row.cancelRequested && t.LiveBridge(Some(a.me), a.now)
    then
      var row := t.jobs[a.job];
      WithJob(t, a.job, row.(status := a.next, lease := a.lease, cancelRequested := a.cancel, revision := row.revision + 1))
    else t
  }

  /** persistTerminalQueueRecord: its pre-execution, ordinary and cancellation branches */
  function StepCommitTerminal(t: Tables, a: Action): Tables
    requires a.CommitTerminal?
  {
    if a.job !in t.jobs || !OwnedBy(t.jobs[a.job], a.me, a.gen) then t
    else
      var row := t.jobs[a.job];
      var done := row.(lease := None, revision := row.revision + 1);
      if row.status.PreExecution() && (a.terminal.Failed? || a.terminal.Cancelled?) && row.revision == a.revision then
        Finish(t, a.job, done.(status := if row.cancelRequested then Cancelled else a.terminal))
      else if row.status.Active() && (a.terminal.Completed? || a.terminal.Failed? || a.terminal.Cancelled?)
              && row.revision == a.revision && !row.cancelRequested && t.LiveBridge(Some(a.me), a.now) then
        Finish(t, a.job, done.(status := a.terminal))
      else if row.status.Active() && row.cancelRequested then
        Finish(t, a.job, done.(status := Cancelled))
      else t
  }

  /** renewPersistedQueueRecordLease */
  function StepRenewLease(t: Tables, a: Action): Tables
    requires a.RenewLease?
  {
    if && a.job in t.jobs
       && var row := t.jobs[a.job];
       && row.owner == Some(a.me) && row.generation == Some(a.gen) && !row.status.Terminal()
       && LeaseRuns(row.lease, a.now) && !row.cancelRequested && t.LiveBridge(Some(a.me), a.now)
    then
      var row := t.jobs[a.job];
      WithJob(t, a.job, row.(lease := Some(a.until), revision := row.revision + 1))
    else t
  }

  /** reacquirePersistedQueueRecordLease */
  function StepReacquireLease(t: Tables, a: Action): Tables
    requires a.ReacquireLease?
  {
    if && a.job in t.jobs
       && var row := t.jobs[a.job];
       && OwnedBy(row, a.me, a.gen) && row.revision == a.revision && !row.status.Terminal() && !row.cancelRequested
    then
      var row := t.jobs[a.job];
      WithJob(t, a.job, row.(lease := Some(a.until), revision := row.revision + 1))
    else t
  }

  /** The durable cancellation of lib/queue/store.js */
  function StepCancelJob(t: Tables, j: JobId): Tables {
    if j !in t.jobs then t
    else
      var row := t.jobs[j];
      if row.status.PreExecution() then
        Finish(t, j, row.(status := Cancelled, cancelRequested := true, lease := None, revision := row.revision + 1))
      else if row.status.Active() then
        WithJob(t, j, row.(cancelRequested := true, revision := row.revision + 1))
      else t
  }

  /** One row of reconcileStaleQueueRecords */
  function StepReconcileStale(t: Tables, a: Action): Tables
    requires a.ReconcileStale?
  {
    if && a.job in t.jobs
       && var row := t.jobs[a.job];
       && !row.status.Terminal()
       && !(row.status.PreExecution() && row.hasRequest)
       && !LeaseRuns(row.lease, a.now)
       && (row.owner == Some(a.who) || !t.LiveBridge(row.owner, a.now))
    then
      var row := t.jobs[a.job];
      var status := if row.cancelRequested then Cancelled else if row.status.Active() then Interrupted else NotResumable;
      Finish(t, a.job, row.(status := status, lease := None, revision := row.revision + 1))
    else t
  }

  /** Owner and generation are drawn together and cleared together, so an owned row has a generation. */
  predicate Keyed(row: JobRow) {
    row.owner.GetOr("") != "" ==> row.generation.GetOr("") != ""
  }

  /** persistQueueRecord, insert branch */
  function StepInsertJob(t: Tables, j: JobId, row: JobRow): Tables {
    if j in t.jobs || j in t.children || row.status.Active() || !Keyed(row)
       || (row.idempotencyKey != "" && exists k :: k in t.jobs && t.jobs[k].idempotencyKey == row.idempotencyKey) then t
    else WithJob(t, j, row)
  }

  function StepPatchTerminal(t: Tables, j: JobId): Tables {
    if j in t.jobs && t.jobs[j].status.Terminal() then WithJob(t, j, t.jobs[j].(revision := t.jobs[j].revision + 1)) else t
  }

  /** Retention keeps every job that still has a relation row. */
  function StepPruneJob(t: Tables, j: JobId): Tables {
    if j in t.jobs && t.jobs[j].status.Terminal() && j !in t.children then t.(jobs := t.jobs - {j}) else t
  }

  function StepInsertPipeline(t: Tables, pid: PipelineId, row: PipelineRow): Tables {
    if pid in t.pipelines || !row.batchState.Unstarted? || (exists j :: j in t.children && t.children[j].pipelineId == pid) then t
    else t.(pipelines := t.pipelines[pid := row])
  }

  /** A closed pipeline keeps its status, and no writer plans a released one again. */
  predicate PipelineMove(row: PipelineRow, next: PipelineStatus) {
    && (row.status.Stopped() ==> next == row.status)
    && (row.batchState.Released? ==> !next.PlannedPipeline?)
  }

  /** updatePipelineRecord, with the batch state the refresh of a damaged manifest writes */
  function StepWritePipeline(t: Tables, a: Action): Tables
    requires a.WritePipeline?
  {
    if && a.pid in t.pipelines
       && var row := t.pipelines[a.pid];
       && a.gen != "" && row.owner == a.me && row.generation == a.gen && row.revision == a.revision
       && t.LiveBridge(Some(a.me), a.now) && PipelineMove(row, a.pnext)
    then
      var row := t.pipelines[a.pid];
      t.(pipelines := t.pipelines[a.pid := row.(status := a.pnext, lease := a.lease, revision := row.revision + 1,
                                                batchState := if a.incomplete then Incomplete else row.batchState)])
    else t
  }

  /** claimPersistedPipeline */
  function StepTakePipeline(t: Tables, a: Action): Tables
    requires a.TakePipeline?
  {
    if && a.pid in t.pipelines
       && var row := t.pipelines[a.pid];
       && row.revision == a.revision && !LeaseRuns(row.lease, a.now) && !t.LiveBridge(Some(row.owner), a.now)
    then
      var row := t.pipelines[a.pid];
      t.(pipelines := t.pipelines[a.pid := row.(owner := a.me, generation := a.drawn, lease := Some(a.until), revision := row.revision + 1)])
    else t
  }

  function StepRenewPipeline(t: Tables, a: Action): Tables
    requires a.RenewPipeline?
  {
    if a.pid in t.pipelines && t.pipelines[a.pid].owner == a.me && t.pipelines[a.pid].generation == a.gen
    then t.(pipelines := t.pipelines[a.pid := t.pipelines[a.pid].(lease := Some(a.until))])
    else t
  }

  /** The schema upgrade recognises a batch started by an older bridge. */
  function StepMarkLegacy(t: Tables, pid: PipelineId, expected: nat): Tables {
    if pid in t.pipelines && t.pipelines[pid].batchState.Unstarted?
    then t.(pipelines := t.pipelines[pid := t.pipelines[pid].(batchState := Legacy, expectedChildCount := expected)])
    else t
  }

  /** Retention: the relation rows go with their pipeline (ON DELETE CASCADE). */
  function StepPrunePipeline(t: Tables, pid: PipelineId): Tables {
    if pid in t.pipelines && !t.pipelines[pid].status.Open()
    then t.(pipelines := t.pipelines - {pid},
            children := map j | j in t.children && t.children[j].pipelineId != pid :: t.children[j])
    else t
  }

  function Step(t: Tables, a: Action): Tables {
    match a
    case ClaimJob(me, leaseMs, rec, now, drawn) => Claim(t, me, leaseMs, rec, now, drawn).tables
    case TakeJob(me, leaseMs, j, expected, now, drawn) => Takeover(t, me, leaseMs, j, expected, now, drawn).0
    case FailRecovery(seen, now) => RecoveryFail(t, seen, now).0
    case ActivateBatch(me, leaseMs, rec, batch, capacityLeft, now) => Activate(t, me, leaseMs, rec, batch, capacityLeft, now)
    case ReconcileBatch(pid, now) => ReconcileLegacy(t, pid, now)
    case PersistRow(_, _, _, _, _, _, _) => StepPersistRow(t, a)
    case CommitTerminal(_, _, _, _, _, _) => StepCommitTerminal(t, a)
    case RenewLease(_, _, _, _, _) => StepRenewLease(t, a)
    case ReacquireLease(_, _, _, _, _) => StepReacquireLease(t, a)
    case CancelJob(j) => StepCancelJob(t, j)
    case ReconcileStale(_, _, _) => StepReconcileStale(t, a)
    case InsertJob(j, row) => StepInsertJob(t, j, row)
    case PatchTerminal(j) => StepPatchTerminal(t, j)
    case PruneJob(j) => StepPruneJob(t, j)
    case InsertPipeline(pid, row) => StepInsertPipeline(t, pid, row)
    case WritePipeline(_, _, _, _, _, _, _, _) => StepWritePipeline(t, a)
    case TakePipeline(_, _, _, _, _, _) => StepTakePipeline(t, a)
    case RenewPipeline(_, _, _, _) => StepRenewPipeline(t, a)
    case MarkLegacy(pid, expected) => StepMarkLegacy(t, pid, expected)
    case PrunePipeline(pid) => StepPrunePipeline(t, pid)
    case Beat(me, lease) => t.(bridges := t.bridges[me := lease])
    case Crash(_) => t
  }

  /** The tables after a run. */
  function Run(t: Tables, run: seq<Action>): Tables {
    if run == [] then t else Step(Run(t, run[..|run| - 1]), run[|run| - 1])
  }
}

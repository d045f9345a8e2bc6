/**
 What the guards of the queue's transactions demand and what they write, column by column: the conditions here
 are spelled out on the rows, and the results are whole rows.
 */
module QueueMeaning {
  import opened Options
  import opened QueueTables
  import opened QueueSteps
  import opened QueueInvariants
  import opened QueueShape
  import opened QueueRuns
  import opened QueueLegacy

  /** Only these columns may differ from those of `row`. */
  function Columns(row: JobRow, status: JobStatus, owner: Option<InstanceId>, generation: Option<Generation>, lease: Option<int>, cancel: bool): JobRow {
    JobRow(status, row.revision + 1, owner, generation, lease, cancel, row.hasRequest, row.idempotencyKey, row.parentJobId)
  }

  // ---------------------------------------------------------------- running leases

  /** The row's own lease runs, or some bridge that it names as its owner has a running lease. */
  ghost predicate Covered(t: Tables, row: JobRow, now: int) {
    || (row.lease.Some? && now < row.lease.value)
    || (exists o :: o in t.bridges && row.owner == Some(o) && now < t.bridges[o])
  }

  /** A covered row is never taken over, and no recovery pass fails it. */
  lemma CoveredRowKept(t: Tables, a: Action, j: JobId)
    requires (a.TakeJob? || (a.FailRecovery? && a.seen.jobId == j)) && j in t.jobs && Covered(t, t.jobs[j], a.now)
    ensures j in Step(t, a).jobs && Step(t, a).jobs[j] == t.jobs[j]
  {
    if a.TakeJob? {
      TakeoverMatchesRow(t, a.me, a.leaseMs, a.job, a.expectedRevision, a.now, a.drawn);
    } else {
      RecoveryFailsIff(t, a.seen, a.now);
    }
  }

  /** What else a recovery failure changes: exactly the unfinished siblings, however alive their owners are, of a lost job whose parent was open. */
  lemma SiblingChangesIff(t: Tables, seen: Observed, now: int, j: JobId)
    requires j in t.jobs && j != seen.jobId
    ensures j in RecoveryFail(t, seen, now).0.jobs
    ensures RecoveryFail(t, seen, now).0.jobs[j] != t.jobs[j] <==>
              && RecoveryFail(t, seen, now).1
              && seen.jobId in t.children && j in t.children && t.children[j].pipelineId == t.children[seen.jobId].pipelineId
              && var pid := t.children[j].pipelineId;
              && pid in t.pipelines && (t.pipelines[pid].status == PlannedPipeline || t.pipelines[pid].status == RunningPipeline)
              && (t.jobs[j].status in {Held, Pending, Planned, Blocked, Running, Validating, Reviewing, Testing})
  {
    if RecoveryFail(t, seen, now).1 { RecoveryFails(t, seen, now); }
  }

  /** A live owner's waiting job does stop when a lost sibling is failed. */
  lemma LiveSiblingStops()
    ensures exists t: Tables, seen: Observed, j: JobId ::
              && j in t.jobs && Covered(t, t.jobs[j], 50) && j in RecoveryFail(t, seen, 50).0.jobs
              && RecoveryFail(t, seen, 50).0.jobs[j].status == Cancelled && t.jobs[j].status == Pending
  {
    var lost := JobRow(Pending, 4, Some("B"), Some("g"), Some(10), false, true, "", "P");
    var live := JobRow(Pending, 1, Some("A"), Some("h"), Some(100), false, true, "", "P");
    var p := PipelineRow(RunningPipeline, 2, "A", "p", Some(100), 2, Released, ["J", "K"]);
    var t := Tables(map["J" := lost, "K" := live], map["P" := p], map["J" := ChildRow("P", 0), "K" := ChildRow("P", 1)], map["A" := 100]);
    var seen := Observed("J", 4, "B", "g");
    RecoveryFailsIff(t, seen, 50);
    RecoveryFails(t, seen, 50);
    var next := RecoveryFail(t, seen, 50).0;
    assert next.jobs["K"] == Stopped(live);
    assert Covered(t, t.jobs["K"], 50);
  }

  // ---------------------------------------------------------------- recovery failure

  /** A recovery failure goes through exactly for the waiting row it saw, unchanged in all it compared, and covered by no running lease. */
  lemma RecoveryFailsIff(t: Tables, seen: Observed, now: int)
    ensures RecoveryFail(t, seen, now).1 <==>
              && seen.jobId in t.jobs
              && var row := t.jobs[seen.jobId];
              && row.revision == seen.revision
              && (row.status == Held || row.status == Pending || row.status == Planned || row.status == Blocked)
              && (match row.owner case Some(o) => o == seen.owner case None => seen.owner == "")
              && (match row.generation case Some(g) => g == seen.generation case None => seen.generation == "")
              && (row.lease == None || row.lease.value <= now)
              && (forall o :: o in t.bridges && row.owner == Some(o) ==> t.bridges[o] <= now)
    ensures !RecoveryFail(t, seen, now).1 ==> RecoveryFail(t, seen, now).0 == t
  {
  }

  /** A stopped sibling: cancelled if it had not started, told to stop if it had, untouched if it had ended. */
  function Stopped(row: JobRow): JobRow {
    match row.status
    case Held | Pending | Planned | Blocked => Columns(row, Cancelled, row.owner, row.generation, None, true)
    case Running | Validating | Reviewing | Testing => Columns(row, row.status, row.owner, row.generation, row.lease, true)
    case Completed | Failed | Cancelled | Interrupted | NotResumable => row
  }

  /** The tables in which `child` has ended and its open parent, if any, has closed with all its children. */
  ghost predicate ClosedOver(t: Tables, next: Tables, child: JobId, pid: PipelineId, verdict: PipelineStatus)
    requires pid in t.pipelines
  {
    && next.children == t.children && next.bridges == t.bridges
    && next.jobs.Keys == t.jobs.Keys
    && (forall j :: j in t.jobs && j != child ==>
          next.jobs[j] == if j in t.children && t.children[j].pipelineId == pid then Stopped(t.jobs[j]) else t.jobs[j])
    && next.pipelines == t.pipelines[pid := t.pipelines[pid].(status := verdict, revision := t.pipelines[pid].revision + 1)]
  }

  predicate OpenParent(t: Tables, child: JobId) {
    && child in t.children && t.children[child].pipelineId in t.pipelines
    && var status := t.pipelines[t.children[child].pipelineId].status;
    && (status == PlannedPipeline || status == RunningPipeline)
  }

  /** The lost job ends failed, and its open parent fails with it in the same transaction, every sibling stopped. */
  lemma RecoveryFails(t: Tables, seen: Observed, now: int)
    requires RecoveryFail(t, seen, now).1
    ensures seen.jobId in t.jobs
    ensures var next := RecoveryFail(t, seen, now).0;
            var row := t.jobs[seen.jobId];
            && seen.jobId in next.jobs
            && next.jobs[seen.jobId] == Columns(row, Failed, row.owner, row.generation, None, row.cancelRequested)
            && (OpenParent(t, seen.jobId) ==> ClosedOver(t, next, seen.jobId, t.children[seen.jobId].pipelineId, FailedPipeline))
            && (!OpenParent(t, seen.jobId) ==> next == t.(jobs := t.jobs[seen.jobId := next.jobs[seen.jobId]]))
  {
    var row := t.jobs[seen.jobId];
    var done := row.(status := Failed, lease := None, revision := row.revision + 1);
    if OpenParent(t, seen.jobId) { EndOfChild(t, seen.jobId, done); } else { EndOfOrphan(t, seen.jobId, done); }
  }

  /** The other children of the pipeline. */
  function Siblings(t: Tables, child: JobId, pid: PipelineId): set<JobId> {
    set j | j in t.jobs && j != child && j in t.children && t.children[j].pipelineId == pid
  }

  predicate SomeFailed(jobs: map<JobId, JobRow>, among: set<JobId>) {
    exists j :: j in among && j in jobs && jobs[j].status in {Failed, Interrupted, NotResumable}
  }

  predicate SomeCancelled(jobs: map<JobId, JobRow>, among: set<JobId>) { exists j :: j in among && j in jobs && jobs[j].status == Cancelled }

  lemma VerdictOfChildren(t: Tables, pid: PipelineId)
    ensures ParentVerdict(t, pid) ==
              if SomeFailed(t.jobs, t.ChildrenOf(pid)) then Some(FailedPipeline)
              else if SomeCancelled(t.jobs, t.ChildrenOf(pid)) then Some(CancelledPipeline) else None
  {
  }

  lemma EndedChildCounts(t: Tables, child: JobId, done: JobRow, pid: PipelineId)
    requires child in t.jobs && child in t.children && t.children[child].pipelineId == pid
    ensures var mid := WithJob(t, child, done);
            && (SomeFailed(mid.jobs, mid.ChildrenOf(pid)) <==>
                done.status in {Failed, Interrupted, NotResumable} || SomeFailed(t.jobs, Siblings(t, child, pid)))
            && (SomeCancelled(mid.jobs, mid.ChildrenOf(pid)) <==> done.status == Cancelled || SomeCancelled(t.jobs, Siblings(t, child, pid)))
  {
    var mid := WithJob(t, child, done);
    assert mid.ChildrenOf(pid) == Siblings(t, child, pid) + {child};
    assert forall j :: j in Siblings(t, child, pid) ==> mid.jobs[j] == t.jobs[j];
  }

  lemma ClosingWrites(t: Tables, child: JobId, done: JobRow, verdict: PipelineStatus)
    requires child in t.jobs && OpenParent(t, child) && ParentVerdict(WithJob(t, child, done), t.children[child].pipelineId) == Some(verdict)
    ensures child in Finish(t, child, done).jobs && Finish(t, child, done).jobs[child] == done
    ensures ClosedOver(t, Finish(t, child, done), child, t.children[child].pipelineId, verdict)
  {
  }

  /**
   Whichever transaction ends a child: its open parent fails with it if some child now counts as failed, is cancelled
   if none does but some child is, with every sibling stopped; and otherwise only the child's row is written.
   */
  lemma EndOfChild(t: Tables, child: JobId, done: JobRow)
    requires child in t.jobs && OpenParent(t, child)
    ensures var next, pid := Finish(t, child, done), t.children[child].pipelineId;
            && child in next.jobs && next.jobs[child] == done
            && (if done.status in {Failed, Interrupted, NotResumable} || SomeFailed(t.jobs, Siblings(t, child, pid))
                then ClosedOver(t, next, child, pid, FailedPipeline)
                else if done.status == Cancelled || SomeCancelled(t.jobs, Siblings(t, child, pid))
                then ClosedOver(t, next, child, pid, CancelledPipeline)
                else next == t.(jobs := t.jobs[child := done]))
  {
    var pid, mid := t.children[child].pipelineId, WithJob(t, child, done);
    VerdictOfChildren(mid, pid);
    EndedChildCounts(t, child, done, pid);
    match ParentVerdict(mid, pid)
    case None =>
    case Some(verdict) => ClosingWrites(t, child, done, verdict);
  }

  lemma EndOfOrphan(t: Tables, child: JobId, done: JobRow)
    requires !OpenParent(t, child)
    ensures Finish(t, child, done) == t.(jobs := t.jobs[child := done])
  {
  }

  /** How the other ends of a job leave its row: what its owner commits, what a cancellation asks, what a stale lease means. */
  function OtherEnd(row: JobRow, a: Action): JobRow
    requires a.CancelJob? || a.ReconcileStale? || a.CommitTerminal?
  {
    var waits := row.status in {Held, Pending, Planned, Blocked};
    match a
    case CancelJob(_) => if waits then Columns(row, Cancelled, row.owner, row.generation, None, true)
                         else Columns(row, row.status, row.owner, row.generation, row.lease, true)
    case ReconcileStale(_, _, _) =>
      Columns(row, if row.cancelRequested then Cancelled else if waits then NotResumable else Interrupted,
              row.owner, row.generation, None, row.cancelRequested)
    case _ => Columns(row, if row.cancelRequested then Cancelled else a.terminal, row.owner, row.generation, None, row.cancelRequested)
  }

  lemma FinishedRow(t: Tables, child: JobId, done: JobRow)
    ensures child in Finish(t, child, done).jobs && Finish(t, child, done).jobs[child] == done
  {
  }

  lemma CancelledRow(t: Tables, a: Action)
    requires a.CancelJob? && a.job in t.jobs
    ensures Step(t, a) != t ==> a.job in Step(t, a).jobs && Step(t, a).jobs[a.job] == OtherEnd(t.jobs[a.job], a)
  {
    FinishedRow(t, a.job, OtherEnd(t.jobs[a.job], a));
  }

  lemma StaleRow(t: Tables, a: Action)
    requires a.ReconcileStale? && a.job in t.jobs
    ensures Step(t, a) != t ==> a.job in Step(t, a).jobs && Step(t, a).jobs[a.job] == OtherEnd(t.jobs[a.job], a)
  {
    FinishedRow(t, a.job, OtherEnd(t.jobs[a.job], a));
  }

  lemma CommittedRow(t: Tables, a: Action)
    requires a.CommitTerminal? && a.job in t.jobs
    ensures Step(t, a) != t ==> a.job in Step(t, a).jobs && Step(t, a).jobs[a.job] == OtherEnd(t.jobs[a.job], a)
  {
    FinishedRow(t, a.job, OtherEnd(t.jobs[a.job], a));
  }

  // ---------------------------------------------------------------- refused activations

  /** Planned at exactly the cached revision under the caller, with nothing of a batch yet. */
  predicate PlannedAsClaimed(t: Tables, me: InstanceId, rec: PipelineRecord) {
    && rec.pipelineId in t.pipelines
    && var p := t.pipelines[rec.pipelineId];
    && p.status == PlannedPipeline && p.revision == rec.revision && p.owner == me && p.generation == rec.generation
    && p.expectedChildCount == 0 && (p.batchState == Unstarted || p.batchState == Legacy)
    && (forall j :: j in t.children ==> t.children[j].pipelineId != rec.pipelineId)
  }

  predicate NewToIndexes(t: Tables, batch: seq<Prepared>) {
    && (forall i :: 0 <= i < |batch| ==> batch[i].jobId !in t.jobs && batch[i].jobId !in t.children)
    && (forall i, j :: 0 <= i < |batch| && j in t.jobs && batch[i].idempotencyKey != "" ==> t.jobs[j].idempotencyKey != batch[i].idempotencyKey)
    && (forall i, k :: 0 <= i < k < |batch| ==> batch[i].idempotencyKey == "" || batch[i].idempotencyKey != batch[k].idempotencyKey)
  }

  /** The reason a refused activation gives is a true one: the guard it names failed. */
  lemma RefusalIsTrue(t: Tables, me: InstanceId, rec: PipelineRecord, batch: seq<Prepared>, capacityLeft: bool, now: int)
    ensures match ActivationVerdict(t, me, rec, batch, capacityLeft, now)
            case Activated => true
            case BatchInvalid => batch == [] || (exists i :: 0 <= i < |batch| && !batch[i].hasRequest)
                                 || (exists i, k :: 0 <= i < k < |batch| && batch[i].jobId == batch[k].jobId)
            case CapacityExceeded => !capacityLeft
            case ConcurrentUpdate => !PlannedAsClaimed(t, me, rec)
            case IdempotencyConflict => !NewToIndexes(t, batch)
            case PersistenceFailed =>
              || (exists i :: 0 <= i < |batch| && batch[i].owner != me)
              || (rec.pipelineId in t.pipelines && (t.pipelines[rec.pipelineId].lease == None || t.pipelines[rec.pipelineId].lease.value <= now))
              || me !in t.bridges || t.bridges[me] <= now
  {
    FitsIff(t, batch);
  }

  // ---------------------------------------------------------------- a pipeline under takeover

  /** Who holds a pipeline. */
  function HolderOf(p: PipelineRow): (InstanceId, Generation) { (p.owner, p.generation) }

  lemma FinishEvolvesPipeline(t: Tables, child: JobId, done: JobRow, pid: PipelineId)
    requires pid in t.pipelines
    ensures pid in Finish(t, child, done).pipelines
    ensures Finish(t, child, done).pipelines[pid].revision >= t.pipelines[pid].revision
    ensures HolderOf(Finish(t, child, done).pipelines[pid]) == HolderOf(t.pipelines[pid])
  {
  }

  lemma EndingEvolvesPipeline(t: Tables, a: Action, pid: PipelineId)
    requires Ending(a) && pid in t.pipelines
    ensures pid in Step(t, a).pipelines
    ensures Step(t, a).pipelines[pid].revision >= t.pipelines[pid].revision
    ensures HolderOf(Step(t, a).pipelines[pid]) == HolderOf(t.pipelines[pid])
  {
    var done := EndingStep(t, a);
    FinishEvolvesPipeline(t, EndedJob(a), done, pid);
  }

  lemma WrittenEvolvesPipeline(t: Tables, a: Action, pid: PipelineId)
    requires !WritesJobsOnly(a) && pid in t.pipelines && pid in Step(t, a).pipelines
    ensures Step(t, a).pipelines[pid].revision >= t.pipelines[pid].revision
    ensures !a.TakePipeline? ==> HolderOf(Step(t, a).pipelines[pid]) == HolderOf(t.pipelines[pid])
  {
  }

  /** No action lowers the revision of a pipeline, and only a takeover changes who holds it. */
  lemma PipelineEvolves(t: Tables, a: Action, pid: PipelineId)
    requires pid in t.pipelines && pid in Step(t, a).pipelines
    ensures Step(t, a).pipelines[pid].revision >= t.pipelines[pid].revision
    ensures !a.TakePipeline? ==> HolderOf(Step(t, a).pipelines[pid]) == HolderOf(t.pipelines[pid])
  {
    if Ending(a) {
      EndingEvolvesPipeline(t, a, pid);
    } else if WritesJobsOnly(a) {
      PlainStepKeepsRelation(t, a);
    } else {
      WrittenEvolvesPipeline(t, a, pid);
    }
  }

  /** A pipeline is taken over exactly at the expected revision, when neither its own lease nor its owner's runs. */
  lemma PipelineTakenIff(t: Tables, a: Action)
    requires a.TakePipeline?
    ensures Step(t, a) != t <==>
              && a.pid in t.pipelines
              && var p := t.pipelines[a.pid];
              && p.revision == a.revision && (p.lease == None || p.lease.value <= a.now) && (p.owner in t.bridges ==> t.bridges[p.owner] <= a.now)
    ensures Step(t, a) != t ==>
              && a.pid in t.pipelines
              && var p := t.pipelines[a.pid];
              Step(t, a) == t.(pipelines := t.pipelines[a.pid :=
                PipelineRow(p.status, p.revision + 1, a.me, a.drawn, Some(a.until), p.expectedChildCount, p.batchState, p.queueJobIds)])
  {
    var next := Step(t, a);
    assert next == t || next.pipelines[a.pid].revision == t.pipelines[a.pid].revision + 1;
  }

  predicate HasPipeline(t: Tables, run: seq<Action>, i: nat, pid: PipelineId)
    requires i <= |run|
  {
    pid in At(t, run, i).pipelines
  }

  function PipelineAt(t: Tables, run: seq<Action>, i: nat, pid: PipelineId): PipelineRow
    requires i <= |run| && HasPipeline(t, run, i, pid)
  {
    At(t, run, i).pipelines[pid]
  }

  lemma PipelineAtEvolves(t: Tables, run: seq<Action>, i: nat, pid: PipelineId)
    requires i < |run| && HasPipeline(t, run, i, pid) && HasPipeline(t, run, i + 1, pid)
    ensures PipelineAt(t, run, i + 1, pid).revision >= PipelineAt(t, run, i, pid).revision
    ensures PipelineAt(t, run, i + 1, pid).generation == PipelineAt(t, run, i, pid).generation
            || (DrawsForPipeline(run[i], pid, PipelineAt(t, run, i + 1, pid).generation))
  {
    AtStep(t, run, i);
    PipelineEvolves(At(t, run, i), run[i], pid);
  }

  predicate DrawsForPipeline(a: Action, pid: PipelineId, gen: Generation) {
    a.TakePipeline? && a.pid == pid && a.drawn == gen
  }

  /** While its row is there a pipeline's revision never falls, over any run. */
  lemma {:induction false} PipelineRevisionNeverFalls(t: Tables, run: seq<Action>, i: nat, k: nat, pid: PipelineId)
    requires i <= k <= |run| && forall m :: i <= m <= k ==> HasPipeline(t, run, m, pid)
    ensures PipelineAt(t, run, k, pid).revision >= PipelineAt(t, run, i, pid).revision
    decreases k - i
  {
    if i < k {
      PipelineRevisionNeverFalls(t, run, i, k - 1, pid);
      assert HasPipeline(t, run, k - 1, pid) && HasPipeline(t, run, k, pid);
      PipelineAtEvolves(t, run, k - 1, pid);
    }
  }

  /** A generation a pipeline is not held under comes only by being drawn for it. */
  lemma {:induction false} PipelineNeverHeldAgain(t: Tables, run: seq<Action>, i: nat, k: nat, pid: PipelineId, gen: Generation)
    requires i <= k <= |run| && forall m :: i <= m <= k ==> HasPipeline(t, run, m, pid)
    requires PipelineAt(t, run, i, pid).generation != gen && forall m :: i <= m < k ==> !DrawsForPipeline(run[m], pid, gen)
    ensures PipelineAt(t, run, k, pid).generation != gen
    decreases k - i
  {
    if i < k {
      PipelineNeverHeldAgain(t, run, i, k - 1, pid, gen);
      assert HasPipeline(t, run, k - 1, pid) && HasPipeline(t, run, k, pid);
      PipelineAtEvolves(t, run, k - 1, pid);
    }
  }

  /**
   Fencing of pipelines: once a takeover of its pipeline went through, no activation by a record of the replaced
   generation, or of the revision it had or an older one, changes anything, at any later moment of any run.
   */
  lemma PipelineTakeoverFences(t: Tables, run: seq<Action>, i: nat, k: nat, pid: PipelineId)
    requires i < k < |run| && forall m :: i <= m <= k ==> HasPipeline(t, run, m, pid)
    requires run[i].TakePipeline? && run[i].pid == pid && At(t, run, i + 1) != At(t, run, i)
    requires run[k].ActivateBatch? && run[k].pipelineRec.pipelineId == pid
    requires var gone, rec := PipelineAt(t, run, i, pid), run[k].pipelineRec;
             || rec.revision <= gone.revision
             || (rec.generation == gone.generation && forall m :: i <= m < k ==> !DrawsForPipeline(run[m], pid, rec.generation))
    ensures At(t, run, k + 1) == At(t, run, k)
  {
    AtStep(t, run, i);
    AtStep(t, run, k);
    PipelineTakenIff(At(t, run, i), run[i]);
    assert HasPipeline(t, run, i + 1, pid);
    PipelineRevisionNeverFalls(t, run, i + 1, k, pid);
    var a := run[k];
    ActivatesIff(At(t, run, k), a.me, a.pipelineRec, a.batch, a.capacityLeft, a.now);
    if a.pipelineRec.revision > PipelineAt(t, run, i, pid).revision {
      PipelineNeverHeldAgain(t, run, i + 1, k, pid, a.pipelineRec.generation);
    }
  }

  // ---------------------------------------------------------------- legacy batches

  /** A legacy batch that nobody who is alive holds. */
  predicate Orphaned(t: Tables, pid: PipelineId, now: int) {
    && pid in t.pipelines
    && var p := t.pipelines[pid];
    && p.batchState == Legacy && (p.status == PlannedPipeline || p.status == RunningPipeline)
    && (p.lease == None || p.lease.value <= now)
    && (p.owner == "" || p.owner !in t.bridges || t.bridges[p.owner] <= now)
  }

  /** Its manifest is as long as expected, names jobs once, names all that name the pipeline, and all of them can still be released. */
  predicate Releasable(t: Tables, pid: PipelineId)
    requires pid in t.pipelines
  {
    var p := t.pipelines[pid];
    && p.queueJobIds != [] && (p.expectedChildCount == 0 || p.expectedChildCount == |p.queueJobIds|)
    && (forall i, k :: 0 <= i < k < |p.queueJobIds| ==> p.queueJobIds[i] != p.queueJobIds[k])
    && (forall j :: j in p.queueJobIds ==> j in t.jobs && (t.jobs[j].status == Held || t.jobs[j].status == Pending) && t.jobs[j].hasRequest)
    && (forall j :: j in t.jobs && t.jobs[j].parentJobId == pid ==> j in p.queueJobIds)
  }

  predicate ListsTaken(t: Tables, pid: PipelineId)
    requires pid in t.pipelines
  {
    exists j :: j in t.pipelines[pid].queueJobIds && j in t.children
  }

  lemma ReleasableIff(t: Tables, pid: PipelineId)
    requires pid in t.pipelines
    ensures ManifestComplete(t, pid) <==> Releasable(t, pid)
  {
    ManifestCompleteIff(t, pid);
  }

  lemma VerdictMeans(t: Tables, pid: PipelineId, now: int)
    requires Shape(t)
    ensures LegacyVerdict(t, pid, now).FailedBatch? <==> Orphaned(t, pid, now) && !Releasable(t, pid)
    ensures LegacyVerdict(t, pid, now).ReleasedBatch? <==> Orphaned(t, pid, now) && Releasable(t, pid) && !ListsTaken(t, pid)
  {
    if pid in t.pipelines {
      ReleasableIff(t, pid);
      assert PipelineShape(t, pid);
      assert forall j :: j in t.children && t.children[j].pipelineId == pid ==> Owns(t, pid, j);
    }
  }

  /** A reconciliation changes something exactly for an orphaned batch, unless it could be released but for a job that already has a parent. */
  lemma ReconciliationIff(t: Tables, pid: PipelineId, now: int)
    requires Shape(t)
    ensures ReconcileLegacy(t, pid, now) != t <==> Orphaned(t, pid, now) && !(Releasable(t, pid) && ListsTaken(t, pid))
  {
    VerdictMeans(t, pid, now);
    var next := ReconcileLegacy(t, pid, now);
    if LegacyVerdict(t, pid, now).FailedBatch? || LegacyVerdict(t, pid, now).ReleasedBatch? {
      assert next.pipelines[pid].revision == t.pipelines[pid].revision + 1;
    }
  }

  lemma ReleasedJobRows(t: Tables, pid: PipelineId, now: int)
    requires LegacyVerdict(t, pid, now).ReleasedBatch? && (forall j :: j in ObservedJobs(t, pid) <==> j in t.pipelines[pid].queueJobIds)
    ensures var next, ids := ReconcileLegacy(t, pid, now), t.pipelines[pid].queueJobIds;
            && next.jobs.Keys == t.jobs.Keys
            && (forall j :: j in t.jobs ==>
                  next.jobs[j] == if j in ids && t.jobs[j].status == Held
                                  then Columns(t.jobs[j], Pending, t.jobs[j].owner, t.jobs[j].generation, t.jobs[j].lease, t.jobs[j].cancelRequested)
                                  else t.jobs[j])
  {
  }

  /** A legacy pipeline once released: it runs, its manifest is what is expected, and its holder is who it was. */
  function ReleasedRow(p: PipelineRow): PipelineRow {
    PipelineRow(RunningPipeline, p.revision + 1, p.owner, p.generation, p.lease, |p.queueJobIds|, Released, p.queueJobIds)
  }

  lemma ReleasedPipelineRow(t: Tables, pid: PipelineId, now: int, p: PipelineRow)
    requires LegacyVerdict(t, pid, now).ReleasedBatch? && p == t.pipelines[pid] && ExpectedCount(p) == |p.queueJobIds|
    ensures var next := ReconcileLegacy(t, pid, now);
            next.bridges == t.bridges && next.children == t.children + ManifestRelation(pid, p.queueJobIds) && next.pipelines == t.pipelines[pid := ReleasedRow(p)]
  {
    assert ReleasedRow(p) == p.(status := RunningPipeline, revision := p.revision + 1, expectedChildCount := ExpectedCount(p), batchState := Released);
  }

  lemma ReleasedWhen(t: Tables, pid: PipelineId, now: int)
    requires Shape(t) && Orphaned(t, pid, now) && Releasable(t, pid) && !ListsTaken(t, pid)
    ensures LegacyVerdict(t, pid, now).ReleasedBatch? && ExpectedCount(t.pipelines[pid]) == |t.pipelines[pid].queueJobIds|
    ensures forall j :: j in ObservedJobs(t, pid) <==> j in t.pipelines[pid].queueJobIds
  {
    VerdictMeans(t, pid, now);
    ReleasableIff(t, pid);
    CompleteManifest(t, pid);
  }

  lemma ReleasedRelation(t: Tables, pid: PipelineId)
    requires pid in t.pipelines && Releasable(t, pid) && !ListsTaken(t, pid)
    ensures var ids := t.pipelines[pid].queueJobIds; AddsManifest(t.children, t.children + ManifestRelation(pid, ids), pid, ids)
  {
    ManifestAdds(t.children, pid, t.pipelines[pid].queueJobIds);
  }

  /** It then releases the batch: held jobs become pending, the relation rows of the manifest appear, the pipeline runs. */
  lemma ReconciliationReleases(t: Tables, pid: PipelineId, now: int)
    requires Shape(t) && Orphaned(t, pid, now) && Releasable(t, pid) && !ListsTaken(t, pid)
    ensures var next, p := ReconcileLegacy(t, pid, now), t.pipelines[pid];
            && AddsManifest(t.children, next.children, pid, p.queueJobIds)
            && next.bridges == t.bridges && next.jobs.Keys == t.jobs.Keys
            && next.pipelines == t.pipelines[pid := ReleasedRow(p)]
            && (forall j :: j in t.jobs ==>
                  next.jobs[j] == if j in p.queueJobIds && t.jobs[j].status == Held
                                  then Columns(t.jobs[j], Pending, t.jobs[j].owner, t.jobs[j].generation, t.jobs[j].lease, t.jobs[j].cancelRequested)
                                  else t.jobs[j])
  {
    ReleasedWhen(t, pid, now);
    ReleasedJobRows(t, pid, now);
    ReleasedPipelineRow(t, pid, now, t.pipelines[pid]);
    ReleasedRelation(t, pid);
  }

  /** Or it gives the batch up: every listed or naming job that waits is cancelled, and the pipeline fails. */
  lemma ReconciliationGivesUp(t: Tables, pid: PipelineId, now: int)
    requires Shape(t) && Orphaned(t, pid, now) && !Releasable(t, pid)
    ensures var next, p := ReconcileLegacy(t, pid, now), t.pipelines[pid];
            && next.children == t.children && next.bridges == t.bridges && next.jobs.Keys == t.jobs.Keys
            && next.pipelines == t.pipelines[pid :=
                 PipelineRow(FailedPipeline, p.revision + 1, p.owner, p.generation, p.lease,
                             if p.expectedChildCount == 0 then |p.queueJobIds| else p.expectedChildCount, Incomplete, p.queueJobIds)]
            && (forall j :: j in t.jobs ==>
                  next.jobs[j] == if (j in p.queueJobIds || t.jobs[j].parentJobId == pid) && t.jobs[j].status in {Held, Pending, Planned, Blocked}
                                  then Columns(t.jobs[j], Cancelled, t.jobs[j].owner, t.jobs[j].generation, None, t.jobs[j].cancelRequested)
                                  else t.jobs[j])
  {
    VerdictMeans(t, pid, now);
  }
}

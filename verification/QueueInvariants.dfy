/** What every step of the queue keeps. */
module QueueInvariants {
  import opened Options
  import opened QueueTables
  import opened QueueSteps

  // ---------------------------------------------------------------- one row under one step

  /** A row that changes raises its revision by one, stays terminal, and never loses a cancellation. */
  predicate RowEvolves(row: JobRow, next: JobRow) {
    next == row
    || (&& next.revision == row.revision + 1
        && (row.status.Terminal() ==> next.status == row.status)
        && (row.cancelRequested ==> next.cancelRequested)
        && (row.cancelRequested && row.status.Active() ==> !next.status.PreExecution())
        && (next.status.Active() ==> row.status.Active() || row.status.Claimable()))
  }

  /** A step that ends a job, or requests that it end. */
  predicate Ending(a: Action) {
    a.FailRecovery? || a.CommitTerminal? || a.ReconcileStale? || a.CancelJob?
  }

  function EndedJob(a: Action): JobId
    requires Ending(a)
  {
    if a.FailRecovery? then a.seen.jobId else a.job
  }

  /** A row after an ending step on it. */
  predicate EndedRow(row: JobRow, done: JobRow) {
    && done.revision == row.revision + 1
    && done.status.Terminal()
    && !row.status.Terminal()
    && (row.cancelRequested ==> done.cancelRequested)
    && done.owner == row.owner && done.generation == row.generation && done.hasRequest == row.hasRequest
  }

  /** The tables after an ending step: untouched, one job ended and propagated, or one cancellation requested. */
  ghost predicate EndsJob(t: Tables, next: Tables, j: JobId, done: JobRow) {
    || next == t
    || (j in t.jobs && EndedRow(t.jobs[j], done) && next == Finish(t, j, done))
    || (j in t.jobs && t.jobs[j].status.Active()
        && done == t.jobs[j].(cancelRequested := true, revision := t.jobs[j].revision + 1) && next == WithJob(t, j, done))
  }

  lemma FailRecoveryEnds(t: Tables, seen: Observed, now: int) returns (done: JobRow)
    requires seen.jobId in t.jobs
    ensures EndsJob(t, RecoveryFail(t, seen, now).0, seen.jobId, done)
  {
    var row := t.jobs[seen.jobId];
    done := row.(status := Failed, lease := None, revision := row.revision + 1);
  }

  lemma CommitTerminalEnds(t: Tables, a: Action) returns (done: JobRow)
    requires a.CommitTerminal? && a.job in t.jobs
    ensures EndsJob(t, StepCommitTerminal(t, a), a.job, done)
  {
    var row := t.jobs[a.job];
    done := row.(lease := None, revision := row.revision + 1, status := if row.cancelRequested then Cancelled else a.terminal);
  }

  lemma ReconcileStaleEnds(t: Tables, a: Action) returns (done: JobRow)
    requires a.ReconcileStale? && a.job in t.jobs
    ensures EndsJob(t, StepReconcileStale(t, a), a.job, done)
  {
    var row := t.jobs[a.job];
    var status := if row.cancelRequested then Cancelled else if row.status.Active() then Interrupted else NotResumable;
    done := row.(lease := None, revision := row.revision + 1, status := status);
  }

  lemma CancelJobEnds(t: Tables, j: JobId) returns (done: JobRow)
    requires j in t.jobs
    ensures EndsJob(t, StepCancelJob(t, j), j, done)
  {
    var row := t.jobs[j];
    done := row.(cancelRequested := true, revision := row.revision + 1);
    if row.status.PreExecution() {
      done := done.(status := Cancelled, lease := None);
    }
  }

  lemma EndingStep(t: Tables, a: Action) returns (done: JobRow)
    requires Ending(a)
    ensures EndsJob(t, Step(t, a), EndedJob(a), done)
  {
    done := JobRow(Held, 0, None, None, None, false, false, "", "");
    if EndedJob(a) in t.jobs {
      match a
      case FailRecovery(seen, now) => done := FailRecoveryEnds(t, seen, now);
      case CommitTerminal(_, _, _, _, _, _) => done := CommitTerminalEnds(t, a);
      case ReconcileStale(_, _, _) => done := ReconcileStaleEnds(t, a);
      case CancelJob(j) => done := CancelJobEnds(t, j);
    }
  }

  lemma FinishEvolves(t: Tables, done: JobRow, child: JobId, j: JobId)
    requires child in t.jobs && j in t.jobs
    requires EndedRow(t.jobs[child], done)
    ensures var after := Finish(t, child, done);
            && after.jobs.Keys == t.jobs.Keys
            && after.jobs[child] == done
            && RowEvolves(t.jobs[j], after.jobs[j])
            && (after.jobs[j].status.Active() ==> t.jobs[j].status.Active())
            && (after.jobs[j].status.PreExecution() ==> t.jobs[j].status.PreExecution())
            && after.jobs[j].generation == t.jobs[j].generation && after.jobs[j].owner == t.jobs[j].owner
            && after.jobs[j].hasRequest == t.jobs[j].hasRequest
  {
  }

  lemma EndingKeepsKeys(t: Tables, a: Action)
    requires Ending(a)
    ensures Step(t, a).jobs.Keys == t.jobs.Keys
  {
    var done := EndingStep(t, a);
  }

  lemma EndingEvolves(t: Tables, a: Action, j: JobId)
    requires Ending(a) && j in t.jobs
    ensures Step(t, a).jobs.Keys == t.jobs.Keys
    ensures RowEvolves(t.jobs[j], Step(t, a).jobs[j])
    ensures Step(t, a).jobs[j].status.Active() ==> t.jobs[j].status.Active()
    ensures Step(t, a).jobs[j].status.PreExecution() ==> t.jobs[j].status.PreExecution()
    ensures Step(t, a).jobs[j].generation == t.jobs[j].generation && Step(t, a).jobs[j].owner == t.jobs[j].owner
    ensures Step(t, a).jobs[j].hasRequest == t.jobs[j].hasRequest
  {
    var done := EndingStep(t, a);
    if EndedJob(a) in t.jobs && EndedRow(t.jobs[EndedJob(a)], done) && Step(t, a) == Finish(t, EndedJob(a), done) {
      FinishEvolves(t, done, EndedJob(a), j);
    }
  }

  lemma FittingBatchIsNew(t: Tables, batch: seq<Prepared>)
    requires BatchFits(t, batch)
    ensures BatchIds(batch) !! t.jobs.Keys && BatchIds(batch) !! t.children.Keys
  {
    forall j | j in BatchIds(batch)
      ensures j !in t.jobs && j !in t.children
    {
      var i :| 0 <= i < |batch| && batch[i].jobId == j;
      assert !InsertConflicts(t, batch[i]);
    }
  }

  lemma {:induction false} BatchJobsAt(batch: seq<Prepared>, lease: int, released: nat, i: nat)
    requires DistinctIds(batch) && i < |batch|
    ensures batch[i].jobId in BatchJobs(batch, lease, released)
    ensures BatchJobs(batch, lease, released)[batch[i].jobId] == ChildRowFor(batch[i], lease, i < released)
    decreases |batch|
  {
    var k := |batch| - 1;
    if i < k {
      BatchJobsAt(batch[..k], lease, released, i);
    }
  }

  lemma {:induction false} BatchJobsKeys(batch: seq<Prepared>, lease: int, released: nat)
    ensures BatchJobs(batch, lease, released).Keys == BatchIds(batch)
    decreases |batch|
  {
    if batch != [] {
      var k := |batch| - 1;
      var less := batch[..k];
      BatchJobsKeys(less, lease, released);
      assert BatchIds(batch) == BatchIds(less) + {batch[k].jobId} by {
        forall j | j in BatchIds(batch)
          ensures j in BatchIds(less) + {batch[k].jobId}
        {
          var i :| 0 <= i < |batch| && batch[i].jobId == j;
          assert i < k ==> less[i].jobId == j;
        }
        forall j | j in BatchIds(less)
          ensures j in BatchIds(batch)
        {
          var i :| 0 <= i < k && less[i].jobId == j;
          assert batch[i].jobId == j;
        }
      }
    }
  }

  lemma ActivationKeepsRow(t: Tables, me: InstanceId, leaseMs: int, rec: PipelineRecord, batch: seq<Prepared>, capacityLeft: bool, now: int, j: JobId)
    requires j in t.jobs
    ensures var next := Activate(t, me, leaseMs, rec, batch, capacityLeft, now);
            j in next.jobs && next.jobs[j] == t.jobs[j]
  {
    if BatchFits(t, batch) {
      FittingBatchIsNew(t, batch);
      BatchJobsKeys(batch, now + leaseMs, |batch|);
    }
  }

  lemma ReleasedRowEvolves(row: JobRow)
    ensures RowEvolves(row, ReleaseHeld(row)) && RowEvolves(row, CancelUnstarted(row))
  {
  }

  lemma LegacyRow(t: Tables, pid: PipelineId, now: int, j: JobId)
    requires j in t.jobs
    ensures j in ReconcileLegacy(t, pid, now).jobs
    ensures var row, next := t.jobs[j], ReconcileLegacy(t, pid, now).jobs[j];
            next == row || next == ReleaseHeld(row) || next == CancelUnstarted(row)
  {
  }

  lemma LegacyEvolves(t: Tables, pid: PipelineId, now: int, j: JobId)
    requires j in t.jobs
    ensures var next := ReconcileLegacy(t, pid, now);
            && j in next.jobs && RowEvolves(t.jobs[j], next.jobs[j])
            && (next.jobs[j].status.Active() ==> t.jobs[j].status.Active())
            && (next.jobs[j].status.PreExecution() ==> t.jobs[j].status.PreExecution())
            && next.jobs[j].generation == t.jobs[j].generation && next.jobs[j].owner == t.jobs[j].owner
            && next.jobs[j].hasRequest == t.jobs[j].hasRequest
  {
    LegacyRow(t, pid, now, j);
    ReleasedRowEvolves(t.jobs[j]);
  }

  lemma BatchEvolves(t: Tables, a: Action, j: JobId)
    requires a.ActivateBatch? || a.ReconcileBatch?
    requires j in t.jobs
    ensures j in Step(t, a).jobs && RowEvolves(t.jobs[j], Step(t, a).jobs[j])
    ensures Step(t, a).jobs[j].status.Active() ==> t.jobs[j].status.Active()
    ensures Step(t, a).jobs[j].status.PreExecution() ==> t.jobs[j].status.PreExecution()
    ensures Step(t, a).jobs[j].generation == t.jobs[j].generation && Step(t, a).jobs[j].owner == t.jobs[j].owner
    ensures Step(t, a).jobs[j].hasRequest == t.jobs[j].hasRequest
  {
    match a
    case ActivateBatch(me, leaseMs, rec, batch, capacityLeft, now) => ActivationKeepsRow(t, me, leaseMs, rec, batch, capacityLeft, now, j);
    case ReconcileBatch(pid, now) => LegacyEvolves(t, pid, now, j);
  }

  /** Revisions count changes, terminal rows stay terminal, cancellations stay, only claimable rows start. */
  lemma StepEvolvesRow(t: Tables, a: Action, j: JobId)
    requires j in t.jobs && j in Step(t, a).jobs
    ensures RowEvolves(t.jobs[j], Step(t, a).jobs[j])
  {
    if Ending(a) {
      EndingEvolves(t, a, j);
    } else if a.ActivateBatch? || a.ReconcileBatch? {
      BatchEvolves(t, a, j);
    }
  }

  // ---------------------------------------------------------------- fail-stop

  /** A job of a closed pipeline can only run out: it has ended, or it has been told to. */
  predicate RunsOut(row: JobRow) {
    row.status.Terminal() || (row.status.Active() && row.cancelRequested)
  }

  ghost predicate FailStopped(t: Tables, pid: PipelineId) {
    && pid in t.pipelines
    && t.pipelines[pid].status.Stopped()
    && (forall j :: j in t.ChildrenOf(pid) ==> RunsOut(t.jobs[j]))
  }

  /** What the closing transaction leaves of a pipeline: everything ended or told to end, each by one revision. */
  ghost predicate StoppedBy(t: Tables, child: JobId, pid: PipelineId, after: Tables)
    requires pid in t.pipelines
  {
    && FailStopped(after, pid)
    && child in t.children && t.children[child].pipelineId == pid
    && after.pipelines[pid].revision == t.pipelines[pid].revision + 1
    && (forall j :: j in t.ChildrenOf(pid) && j != child && !t.jobs[j].status.Terminal()
          ==> j in after.jobs && after.jobs[j].cancelRequested && after.jobs[j].revision == t.jobs[j].revision + 1)
  }

  lemma FinishStops(t: Tables, child: JobId, done: JobRow, pid: PipelineId)
    requires child in t.jobs && EndedRow(t.jobs[child], done)
    requires pid in t.pipelines && t.pipelines[pid].status.Open()
    requires Finish(t, child, done).pipelines[pid].status != t.pipelines[pid].status
    ensures StoppedBy(t, child, pid, Finish(t, child, done))
  {
    var after := Finish(t, child, done);
    assert after.children == t.children && after.jobs.Keys == t.jobs.Keys;
    forall j | j in t.ChildrenOf(pid)
      ensures RunsOut(after.jobs[j])
    {
    }
    assert after.ChildrenOf(pid) == t.ChildrenOf(pid);
  }

  /** A step that ends a child and closes its open parent stops every sibling in the same transaction. */
  lemma ClosingStepStops(t: Tables, a: Action, pid: PipelineId)
    requires Ending(a)
    requires pid in t.pipelines && t.pipelines[pid].status.Open()
    requires pid in Step(t, a).pipelines && Step(t, a).pipelines[pid].status != t.pipelines[pid].status
    ensures StoppedBy(t, EndedJob(a), pid, Step(t, a))
  {
    var done := EndingStep(t, a);
    FinishStops(t, EndedJob(a), done, pid);
  }

  /** The parent is closed exactly when a child now counts as failed or cancelled; failure wins. */
  lemma ClosingIsExact(t: Tables, child: JobId, done: JobRow)
    requires child in t.jobs && EndedRow(t.jobs[child], done)
    requires t.HasParent(child) && t.Parent(child).status.Open()
    ensures var after := Finish(t, child, done);
            var siblings := t.ChildrenOf(t.children[child].pipelineId) - {child};
            var failed := done.status.CountsAsFailure() || exists j :: j in siblings && t.jobs[j].status.CountsAsFailure();
            var cancelled := done.status.Cancelled? || exists j :: j in siblings && t.jobs[j].status.Cancelled?;
            after.Parent(child).status ==
              if failed then FailedPipeline else if cancelled then CancelledPipeline else t.Parent(child).status
  {
    var pid := t.children[child].pipelineId;
    var mid := WithJob(t, child, done);
    assert mid.ChildrenOf(pid) == t.ChildrenOf(pid);
    assert child in t.ChildrenOf(pid);
    forall j | j in t.ChildrenOf(pid) && j != child
      ensures mid.jobs[j] == t.jobs[j] && j in t.ChildrenOf(pid) - {child}
    {
    }
  }

  lemma StoppedPipelineKept(t: Tables, a: Action, pid: PipelineId)
    requires pid in t.pipelines && t.pipelines[pid].status.Stopped() && pid in Step(t, a).pipelines
    ensures Step(t, a).pipelines[pid].status == t.pipelines[pid].status
    ensures forall j :: j in Step(t, a).children && Step(t, a).children[j].pipelineId == pid
              ==> j in t.children && t.children[j].pipelineId == pid
  {
    if Ending(a) {
      var done := EndingStep(t, a);
      if EndedJob(a) in t.jobs {
        FinishLeavesStopped(t, EndedJob(a), done, pid);
      }
    } else if a.ActivateBatch? {
      ActivationLeavesStopped(t, a.me, a.leaseMs, a.pipelineRec, a.batch, a.capacityLeft, a.now, pid);
    } else if a.ReconcileBatch? {
      LegacyLeavesStopped(t, a.pid, a.now, pid);
    } else {
      PlainStepLeavesStopped(t, a, pid);
    }
  }

  lemma PlainStepLeavesStopped(t: Tables, a: Action, pid: PipelineId)
    requires !Ending(a) && !a.ActivateBatch? && !a.ReconcileBatch?
    requires pid in t.pipelines && t.pipelines[pid].status.Stopped() && pid in Step(t, a).pipelines
    ensures Step(t, a).pipelines[pid].status == t.pipelines[pid].status
    ensures forall j :: j in Step(t, a).children ==> j in t.children && Step(t, a).children[j] == t.children[j]
  {
  }

  lemma FinishLeavesStopped(t: Tables, child: JobId, done: JobRow, pid: PipelineId)
    requires pid in t.pipelines && t.pipelines[pid].status.Stopped()
    ensures Finish(t, child, done).children == t.children
    ensures pid in Finish(t, child, done).pipelines && Finish(t, child, done).pipelines[pid] == t.pipelines[pid]
  {
  }

  lemma ActivationLeavesStopped(t: Tables, me: InstanceId, leaseMs: int, rec: PipelineRecord, batch: seq<Prepared>, capacityLeft: bool, now: int,
                                pid: PipelineId)
    requires pid in t.pipelines && t.pipelines[pid].status.Stopped()
    ensures var next := Activate(t, me, leaseMs, rec, batch, capacityLeft, now);
            && pid in next.pipelines && next.pipelines[pid] == t.pipelines[pid]
            && (forall j :: j in next.children && next.children[j].pipelineId == pid ==> j in t.children && t.children[j].pipelineId == pid)
  {
    if ActivationVerdict(t, me, rec, batch, capacityLeft, now).Activated? {
      ManifestRelationTargets(rec.pipelineId, PreparedIds(batch));
    }
  }

  lemma {:induction false} ManifestRelationTargets(pid: PipelineId, ids: seq<JobId>)
    ensures forall j :: j in ManifestRelation(pid, ids) ==> ManifestRelation(pid, ids)[j].pipelineId == pid
    decreases |ids|
  {
    if ids != [] {
      ManifestRelationTargets(pid, ids[..|ids| - 1]);
    }
  }

  lemma LegacyLeavesStopped(t: Tables, legacy: PipelineId, now: int, pid: PipelineId)
    requires pid in t.pipelines && t.pipelines[pid].status.Stopped()
    ensures var next := ReconcileLegacy(t, legacy, now);
            && pid in next.pipelines && next.pipelines[pid] == t.pipelines[pid]
            && (forall j :: j in next.children && next.children[j].pipelineId == pid ==> j in t.children && t.children[j].pipelineId == pid)
  {
    if legacy in t.pipelines {
      ManifestRelationTargets(legacy, t.pipelines[legacy].queueJobIds);
    }
  }

  /** Once stopped, a pipeline stays stopped under every action of every bridge until it is pruned. */
  lemma FailStopKept(t: Tables, a: Action, pid: PipelineId)
    requires FailStopped(t, pid) && pid in Step(t, a).pipelines
    requires forall j :: j in t.children ==> j in t.jobs
    ensures FailStopped(Step(t, a), pid)
  {
    var next := Step(t, a);
    StoppedPipelineKept(t, a, pid);
    forall j | j in next.ChildrenOf(pid)
      ensures RunsOut(next.jobs[j])
    {
      assert j in t.ChildrenOf(pid);
      StepEvolvesRow(t, a, j);
    }
  }
}

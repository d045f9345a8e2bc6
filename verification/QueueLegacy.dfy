/**
 Legacy batches over whole runs: a batch whose listed job already has a relation row cannot be reconciled,
 and stays so exactly as long as its jobs, its manifest and that row are left alone.
 */
module QueueLegacy {
  import opened Options
  import opened QueueTables
  import opened QueueSteps
  import opened QueueInvariants
  import opened QueueShape
  import opened QueueRuns

  predicate LegacyOpen(t: Tables, pid: PipelineId) {
    pid in t.pipelines && t.pipelines[pid].batchState.Legacy? && t.pipelines[pid].status.Open()
  }

  predicate ListedTaken(t: Tables, pid: PipelineId)
    requires pid in t.pipelines
  {
    exists j :: j in t.pipelines[pid].queueJobIds && j in t.children
  }

  /** Complete, but some listed job already has a relation row: every insert of its manifest throws. */
  predicate Wedged(t: Tables, pid: PipelineId) {
    LegacyOpen(t, pid) && ManifestComplete(t, pid) && ListedTaken(t, pid)
  }

  /** What a wedged batch waits for has not happened: it is open, its listed jobs wait, no other job names it, and a row is taken. */
  predicate Untouched(t: Tables, pid: PipelineId) {
    && LegacyOpen(t, pid)
    && (forall j :: j in t.pipelines[pid].queueJobIds ==> j in t.jobs && (t.jobs[j].status.Held? || t.jobs[j].status.Pending?))
    && (forall j :: j in t.jobs && t.jobs[j].parentJobId == pid ==> j in t.pipelines[pid].queueJobIds)
    && ListedTaken(t, pid)
  }

  /** The parts of a legacy batch that no writer changes while its row is there. */
  datatype Fixed = Fixed(queueJobIds: seq<JobId>, expected: nat)

  function FixedOf(t: Tables, pid: PipelineId): Fixed
    requires pid in t.pipelines
  {
    Fixed(t.pipelines[pid].queueJobIds, t.pipelines[pid].expectedChildCount)
  }

  lemma JobStepKeepsFixed(t: Tables, a: Action, pid: PipelineId)
    requires pid in t.pipelines && WritesJobsOnly(a)
    ensures pid in Step(t, a).pipelines && FixedOf(Step(t, a), pid) == FixedOf(t, pid)
  {
    if Ending(a) { EndingKeepsRelation(t, a); } else { PlainStepKeepsRelation(t, a); }
  }

  lemma StepKeepsFixed(t: Tables, a: Action, pid: PipelineId)
    requires LegacyOpen(t, pid) && LegacyOpen(Step(t, a), pid)
    ensures FixedOf(Step(t, a), pid) == FixedOf(t, pid)
  {
    if WritesJobsOnly(a) { JobStepKeepsFixed(t, a, pid); }
  }

  lemma StepKeepsRequest(t: Tables, a: Action, j: JobId)
    requires j in t.jobs && j in Step(t, a).jobs
    ensures Step(t, a).jobs[j].hasRequest == t.jobs[j].hasRequest
  {
    if Ending(a) {
      EndingEvolves(t, a, j);
    } else if a.ActivateBatch? || a.ReconcileBatch? {
      BatchEvolves(t, a, j);
    }
  }

  lemma ManifestCompleteIff(t: Tables, pid: PipelineId)
    requires pid in t.pipelines
    ensures ManifestComplete(t, pid) <==>
              && var p := t.pipelines[pid];
              && ExpectedCount(p) == |p.queueJobIds| > 0 && NoRepeats(p.queueJobIds)
              && (forall j :: j in p.queueJobIds ==> j in t.jobs && (t.jobs[j].status.Held? || t.jobs[j].status.Pending?) && t.jobs[j].hasRequest)
              && (forall j :: j in t.jobs && t.jobs[j].parentJobId == pid ==> j in p.queueJobIds)
  {
    var ids := t.pipelines[pid].queueJobIds;
    if ManifestComplete(t, pid) {
      CompleteManifest(t, pid);
      FullSetHasNoRepeats(ids);
    }
    if NoRepeats(ids) { NoRepeatsIsFullSet(ids); }
    if (forall j :: j in ids ==> j in t.jobs) && (forall j :: j in t.jobs && t.jobs[j].parentJobId == pid ==> j in ids) {
      assert ObservedJobs(t, pid) == set j | j in ids;
    }
  }

  lemma {:induction false} NoRepeatsIsFullSet(ids: seq<JobId>)
    requires NoRepeats(ids)
    ensures |set j | j in ids| == |ids|
    decreases |ids|
  {
    if ids == [] {
      assert (set j | j in ids) == {};
    } else {
      NoRepeatsIsFullSet(ids[1..]);
      SetOfCons(ids);
    }
  }

  // ---------------------------------------------------------------- over runs

  ghost predicate UntouchedFrom(t: Tables, run: seq<Action>, i: nat, k: nat, pid: PipelineId)
    requires i <= k <= |run|
  {
    forall m :: i <= m <= k ==> Untouched(At(t, run, m), pid)
  }

  lemma {:induction false} FixedStays(t: Tables, run: seq<Action>, i: nat, k: nat, pid: PipelineId)
    requires i <= k <= |run| && forall m :: i <= m <= k ==> LegacyOpen(At(t, run, m), pid)
    ensures LegacyOpen(At(t, run, i), pid) && LegacyOpen(At(t, run, k), pid)
    ensures FixedOf(At(t, run, k), pid) == FixedOf(At(t, run, i), pid)
    decreases k
  {
    assert LegacyOpen(At(t, run, k), pid) && LegacyOpen(At(t, run, i), pid);
    if i < k {
      FixedStays(t, run, i, k - 1, pid);
      FixedAtStep(t, run, k - 1, pid);
    }
  }

  lemma FixedAtStep(t: Tables, run: seq<Action>, m: nat, pid: PipelineId)
    requires m < |run| && LegacyOpen(At(t, run, m), pid) && LegacyOpen(At(t, run, m + 1), pid)
    ensures FixedOf(At(t, run, m + 1), pid) == FixedOf(At(t, run, m), pid)
  {
    AtStep(t, run, m);
    StepKeepsFixed(At(t, run, m), run[m], pid);
  }

  lemma {:induction false} RequestStays(t: Tables, run: seq<Action>, i: nat, k: nat, j: JobId)
    requires i <= k <= |run| && forall m :: i <= m <= k ==> HasRow(t, run, m, j)
    ensures HasRow(t, run, i, j) && HasRow(t, run, k, j)
    ensures RowAt(t, run, k, j).hasRequest == RowAt(t, run, i, j).hasRequest
    decreases k
  {
    assert HasRow(t, run, k, j) && HasRow(t, run, i, j);
    if i < k {
      RequestStays(t, run, i, k - 1, j);
      RequestAtStep(t, run, k - 1, j);
    }
  }

  lemma RequestAtStep(t: Tables, run: seq<Action>, m: nat, j: JobId)
    requires m < |run| && HasRow(t, run, m, j) && HasRow(t, run, m + 1, j)
    ensures RowAt(t, run, m + 1, j).hasRequest == RowAt(t, run, m, j).hasRequest
  {
    AtStep(t, run, m);
    StepKeepsRequest(At(t, run, m), run[m], j);
  }

  lemma UntouchedIsOpen(t: Tables, run: seq<Action>, i: nat, k: nat, pid: PipelineId)
    requires i <= k <= |run| && UntouchedFrom(t, run, i, k, pid)
    ensures forall m :: i <= m <= k ==> LegacyOpen(At(t, run, m), pid)
  {
    forall m | i <= m <= k ensures LegacyOpen(At(t, run, m), pid) { assert Untouched(At(t, run, m), pid); }
  }

  lemma ListedStays(t: Tables, run: seq<Action>, i: nat, k: nat, pid: PipelineId, j: JobId)
    requires i <= k <= |run| && UntouchedFrom(t, run, i, k, pid)
    requires LegacyOpen(At(t, run, i), pid) && j in At(t, run, i).pipelines[pid].queueJobIds
    ensures HasRow(t, run, i, j) && HasRow(t, run, k, j) && RowAt(t, run, k, j).hasRequest == RowAt(t, run, i, j).hasRequest
  {
    UntouchedIsOpen(t, run, i, k, pid);
    forall m | i <= m <= k ensures HasRow(t, run, m, j) {
      assert Untouched(At(t, run, m), pid);
      FixedStays(t, run, i, m, pid);
    }
    RequestStays(t, run, i, k, j);
  }

  /** A wedged batch stays wedged while it is untouched. */
  lemma UntouchedStaysWedged(t: Tables, run: seq<Action>, i: nat, k: nat, pid: PipelineId)
    requires i <= k <= |run| && UntouchedFrom(t, run, i, k, pid) && Wedged(At(t, run, i), pid)
    ensures Wedged(At(t, run, k), pid)
  {
    var before, after := At(t, run, i), At(t, run, k);
    UntouchedIsOpen(t, run, i, k, pid);
    assert Untouched(after, pid);
    FixedStays(t, run, i, k, pid);
    ManifestCompleteIff(before, pid);
    ManifestCompleteIff(after, pid);
    forall j | j in before.pipelines[pid].queueJobIds
      ensures j in after.jobs && after.jobs[j].hasRequest
    {
      ListedStays(t, run, i, k, pid, j);
    }
  }

  /** Whoever reconciles a wedged batch, and whenever, changes nothing. */
  lemma WedgedIsStuck(t: Tables, pid: PipelineId, now: int)
    requires Shape(t) && Wedged(t, pid)
    ensures ReconcileLegacy(t, pid, now) == t
  {
    if !LegacyVerdict(t, pid, now).OwnerLive? { LegacyStuckIff(t, pid, now); }
  }

  /**
   A legacy batch once wedged and untouched since: for as long as that lasts every reconciliation, by anyone
   and at any time, changes nothing; at the first moment it does not, if the batch is still legacy and open, a
   reconciliation that finds its owner gone releases it or gives it up.
   */
  lemma StuckExactlyWhile(t: Tables, run: seq<Action>, i: nat, k: nat, pid: PipelineId, now: int)
    requires Shape(t) && i <= k <= |run| && Wedged(At(t, run, i), pid)
    requires forall m :: i <= m < k ==> Untouched(At(t, run, m), pid)
    ensures Untouched(At(t, run, k), pid) ==> ReconcileLegacy(At(t, run, k), pid, now) == At(t, run, k)
    ensures LegacyOpen(At(t, run, k), pid) && !Untouched(At(t, run, k), pid) && !LegacyVerdict(At(t, run, k), pid, now).OwnerLive? ==>
              Decided(ReconcileLegacy(At(t, run, k), pid, now), pid)
  {
    var u := At(t, run, k);
    RunKeepsShape(t, run[..k]);
    if Untouched(u, pid) {
      UntouchedStaysWedged(t, run, i, k, pid);
      WedgedIsStuck(u, pid, now);
    } else if LegacyOpen(u, pid) && !LegacyVerdict(u, pid, now).OwnerLive? {
      UntouchedWhenStuck(u, pid);
      LegacyStuckIff(u, pid, now);
      LegacyEnds(u, pid, now);
    }
  }

  lemma UntouchedWhenStuck(t: Tables, pid: PipelineId)
    requires LegacyOpen(t, pid) && !Untouched(t, pid)
    ensures !(ManifestComplete(t, pid) && exists j :: j in t.pipelines[pid].queueJobIds && j in t.children)
  {
    ManifestCompleteIff(t, pid);
  }

  /** What wedges a batch is an input: Q, whose bridge is gone, lists job J, which belongs to the running pipeline P. */
  function WedgedTables(): Tables {
    var j := JobRow(Pending, 1, Some("B"), Some("g"), Some(50), false, true, "", "P");
    var p := PipelineRow(RunningPipeline, 1, "B", "p", Some(50), 1, Released, ["J"]);
    var q := PipelineRow(PlannedPipeline, 1, "A", "q", Some(10), 1, Legacy, ["J"]);
    Tables(map["J" := j], map["P" := p, "Q" := q], map["J" := ChildRow("P", 0)], map["B" := 50])
  }

  lemma LegacyBatchIsStuck()
    ensures Shape(WedgedTables()) && Wedged(WedgedTables(), "Q")
    ensures LegacyVerdict(WedgedTables(), "Q", 20).RelationConflict? && ReconcileLegacy(WedgedTables(), "Q", 20) == WedgedTables()
  {
    var t := WedgedTables();
    assert PipelineShape(t, "P") by { assert Owns(t, "P", "J"); }
    assert PipelineShape(t, "Q");
    ManifestCompleteIff(t, "Q");
    assert "J" in t.pipelines["Q"].queueJobIds && "J" in t.children;
    WedgedIsStuck(t, "Q", 20);
  }

  /** And it need not be for good: once B starts its job, Q is given up. */
  lemma ClaimFreesBatch()
    ensures var start := ClaimJob("B", 100, Record("J", Pending, "B", "g", 1, Some(50), false), 20, "");
            LegacyVerdict(Step(WedgedTables(), start), "Q", 20).FailedBatch?
  {
    var start := ClaimJob("B", 100, Record("J", Pending, "B", "g", 1, Some(50), false), 20, "");
    var t := Step(WedgedTables(), start);
    assert t.jobs["J"].status.Running?;
    ManifestCompleteIff(t, "Q");
    assert "J" in t.pipelines["Q"].queueJobIds;
  }
}

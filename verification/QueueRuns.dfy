/** Guarantees over whole runs: single start, fencing, revisions as change counters, fail-stop. */
module QueueRuns {
  import opened Options
  import opened QueueTables
  import opened QueueSteps
  import opened QueueInvariants
  import opened QueueShape

  /** The tables before action number `i` of a run. */
  function At(t: Tables, run: seq<Action>, i: nat): Tables
    requires i <= |run|
  {
    Run(t, run[..i])
  }

  lemma AtStep(t: Tables, run: seq<Action>, i: nat)
    requires i < |run|
    ensures At(t, run, i + 1) == Step(At(t, run, i), run[i])
  {
    assert run[..i + 1][..i] == run[..i];
  }

  predicate HasRow(t: Tables, run: seq<Action>, i: nat, j: JobId)
    requires i <= |run|
  {
    j in At(t, run, i).jobs
  }

  function RowAt(t: Tables, run: seq<Action>, i: nat, j: JobId): JobRow
    requires i <= |run| && HasRow(t, run, i, j)
  {
    At(t, run, i).jobs[j]
  }

  predicate Waiting(t: Tables, j: JobId) {
    j in t.jobs && t.jobs[j].status.PreExecution()
  }

  // ---------------------------------------------------------------- claims

  predicate ClaimsJob(t: Tables, a: Action, j: JobId) {
    a.ClaimJob? && a.rec.jobId == j && Claim(t, a.me, a.leaseMs, a.rec, a.now, a.drawn).outcome.Claimed?
  }

  /** When a claim succeeds, and what it then leaves in the row and in the cached record. */
  lemma ClaimSucceedsIff(t: Tables, me: InstanceId, leaseMs: int, rec: Record, now: int, drawn: Generation)
    requires rec.jobId in t.jobs
    ensures var r := Claim(t, me, leaseMs, rec, now, drawn);
            var row := t.jobs[rec.jobId];
            && (r.outcome == Claimed <==>
                && (row.status == Pending || row.status == Planned || row.status == Blocked) && !row.cancelRequested
                && row.owner == Some(me) && row.generation == Some(rec.generation) && row.revision == rec.revision
                && row.lease.Some? && now < row.lease.value && me in t.bridges && now < t.bridges[me]
                && (rec.jobId in t.children && t.children[rec.jobId].pipelineId in t.pipelines ==>
                      var parent := t.pipelines[t.children[rec.jobId].pipelineId];
                      parent.status == RunningPipeline && parent.batchState == Released))
            && (r.outcome == Claimed ==>
                && r.tables == t.(jobs := t.jobs[rec.jobId := JobRow(Running, row.revision + 1, Some(me), row.generation, Some(now + leaseMs), false,
                                                                     row.hasRequest, row.idempotencyKey, row.parentJobId)])
                && r.record == Record(rec.jobId, Running, me, if rec.generation == "" then drawn else rec.generation,
                                      row.revision + 1, Some(now + leaseMs), rec.cancelRequested))
  {
  }

  /**
   A claim changes a row it may not start exactly when the row waits under some owner and its parent was released
   and no longer runs: any bridge, any generation.  It then cancels the row and says so; any other refusal writes
   nothing, and reports a cancellation that it finds.
   */
  lemma RefusedClaimWritesIff(t: Tables, me: InstanceId, leaseMs: int, rec: Record, now: int, drawn: Generation)
    requires rec.jobId in t.jobs
    ensures var r := Claim(t, me, leaseMs, rec, now, drawn);
            var row := t.jobs[rec.jobId];
            && (r.outcome == CancelledByParent <==>
                && (row.status == Pending || row.status == Planned || row.status == Blocked)
                && row.owner.Some? && row.generation.Some?
                && rec.jobId in t.children && t.children[rec.jobId].pipelineId in t.pipelines
                && var parent := t.pipelines[t.children[rec.jobId].pipelineId];
                && parent.batchState == Released && parent.status != RunningPipeline)
            && (r.outcome == CancelledByParent ==>
                && r.tables == t.(jobs := t.jobs[rec.jobId := JobRow(Cancelled, row.revision + 1, row.owner, row.generation, None, true,
                                                                     row.hasRequest, row.idempotencyKey, row.parentJobId)])
                && r.record == Record(rec.jobId, Cancelled, rec.owner, rec.generation, row.revision + 1, None, true))
            && (r.outcome != Claimed && r.tables != t <==> r.outcome == CancelledByParent)
            && (r.outcome == ClaimLost ==> r.record == rec)
            && (r.outcome.Refused? ==>
                && r.outcome.status == Some(row.status)
                && r.record == if row.status == Cancelled || row.cancelRequested then rec.(status := Cancelled, cancelRequested := true) else rec)
  {
    var next := Claim(t, me, leaseMs, rec, now, drawn).tables;
    assert next == t || next.jobs[rec.jobId].revision == t.jobs[rec.jobId].revision + 1;
  }

  /**
   A takeover goes through exactly over a waiting row at the expected revision that no running lease covers, neither
   its own nor its owner's; it then writes that one row and returns its columns.  Otherwise it writes nothing.
   */
  lemma TakeoverMatchesRow(t: Tables, me: InstanceId, leaseMs: int, j: JobId, expected: nat, now: int, drawn: Generation)
    ensures var (next, rec) := Takeover(t, me, leaseMs, j, expected, now, drawn);
            && (rec.Some? <==>
                && j in t.jobs
                && var row := t.jobs[j];
                && row.revision == expected
                && (row.status == Held || row.status == Pending || row.status == Planned || row.status == Blocked)
                && (row.lease == None || row.lease.value <= now)
                && (forall o :: o in t.bridges && row.owner == Some(o) ==> t.bridges[o] <= now))
            && (match rec
                case None => next == t
                case Some(r) =>
                  var row := t.jobs[j];
                  var status := if row.status == Held then Held else Pending;
                  && next == t.(jobs := t.jobs[j := JobRow(status, expected + 1, Some(me), Some(drawn), Some(now + leaseMs), row.cancelRequested,
                                                           row.hasRequest, row.idempotencyKey, row.parentJobId)])
                  && r == Record(j, status, me, drawn, expected + 1, Some(now + leaseMs), row.cancelRequested))
  {
  }

  /** Only a successful claim makes a job start. */
  lemma OnlyClaimsStart(t: Tables, a: Action, j: JobId)
    requires j in Step(t, a).jobs && Step(t, a).jobs[j].status.Active()
    ensures j in t.jobs
    ensures t.jobs[j].status.Active() || ClaimsJob(t, a, j)
  {
    if j in t.jobs {
      if Ending(a) {
        EndingEvolves(t, a, j);
      } else if a.ActivateBatch? || a.ReconcileBatch? {
        BatchEvolves(t, a, j);
      }
    } else {
      NewRowsAreIdle(t, a, j);
    }
  }

  lemma NewRowsAreIdle(t: Tables, a: Action, j: JobId)
    requires j !in t.jobs && j in Step(t, a).jobs
    ensures !Step(t, a).jobs[j].status.Active()
  {
    if Ending(a) {
      EndingKeepsKeys(t, a);
    } else if a.ActivateBatch? {
      NewRowsOfBatch(t, a, j);
    }
  }

  lemma NewRowsOfBatch(t: Tables, a: Action, j: JobId)
    requires a.ActivateBatch? && j !in t.jobs && j in Step(t, a).jobs
    ensures Step(t, a).jobs[j].status.Pending?
    ensures exists i :: 0 <= i < |a.batch| && a.batch[i].jobId == j && Step(t, a).jobs[j].generation == Some(a.batch[i].generation)
  {
    var lease := a.now + a.leaseMs;
    BatchJobsKeys(a.batch, lease, |a.batch|);
    var i :| 0 <= i < |a.batch| && a.batch[i].jobId == j;
    BatchJobsAt(a.batch, lease, |a.batch|, i);
  }

  lemma ClaimStartsWaitingJob(t: Tables, a: Action, j: JobId)
    requires ClaimsJob(t, a, j)
    ensures Waiting(t, j) && !Waiting(Step(t, a), j)
  {
  }

  /** How a started job can wait again: its owner puts it back, or it was pruned and is inserted anew. */
  lemma OnlyOwnerPutsBack(t: Tables, a: Action, j: JobId)
    requires !Waiting(t, j) && Waiting(Step(t, a), j)
    ensures if j in t.jobs then
              a.PersistRow? && a.job == j && t.jobs[j].status.Active() && OwnedBy(t.jobs[j], a.me, a.gen)
              && !t.jobs[j].cancelRequested && Step(t, a).jobs[j].status.Blocked?
            else a.InsertJob? || a.ActivateBatch?
  {
    if j in t.jobs {
      if Ending(a) {
        EndingEvolves(t, a, j);
      } else if a.ActivateBatch? || a.ReconcileBatch? {
        BatchEvolves(t, a, j);
      }
    } else if Ending(a) {
      EndingKeepsKeys(t, a);
    }
  }

  predicate ReturnsToWaiting(t: Tables, run: seq<Action>, m: nat, j: JobId)
    requires m < |run|
  {
    !Waiting(At(t, run, m), j) && Waiting(At(t, run, m + 1), j)
  }

  lemma {:induction false} FindReturn(t: Tables, run: seq<Action>, i: nat, k: nat, j: JobId) returns (m: nat)
    requires i <= k <= |run|
    requires !Waiting(At(t, run, i), j) && Waiting(At(t, run, k), j)
    ensures i <= m < k && ReturnsToWaiting(t, run, m, j)
    decreases k - i
  {
    if Waiting(At(t, run, i + 1), j) {
      m := i;
    } else {
      m := FindReturn(t, run, i + 1, k, j);
    }
  }

  /** Single start: between two successful claims of a job, over any interleaving, the job returned to waiting. */
  lemma SingleStart(t: Tables, run: seq<Action>, i: nat, k: nat, j: JobId) returns (m: nat)
    requires i < k < |run|
    requires ClaimsJob(At(t, run, i), run[i], j) && ClaimsJob(At(t, run, k), run[k], j)
    ensures i < m < k && ReturnsToWaiting(t, run, m, j)
    ensures HasRow(t, run, m, j) ==> run[m].PersistRow? && run[m].job == j && OwnedBy(RowAt(t, run, m, j), run[m].me, run[m].gen)
  {
    AtStep(t, run, i);
    ClaimStartsWaitingJob(At(t, run, i), run[i], j);
    ClaimStartsWaitingJob(At(t, run, k), run[k], j);
    m := FindReturn(t, run, i + 1, k, j);
    AtStep(t, run, m);
    OnlyOwnerPutsBack(At(t, run, m), run[m], j);
  }

  // ---------------------------------------------------------------- revisions

  /** The row before and after each action in [i, k). */
  function RowsFrom(t: Tables, run: seq<Action>, i: nat, k: nat, j: JobId): (rows: seq<JobRow>)
    requires i <= k <= |run|
    requires forall m :: i <= m <= k ==> HasRow(t, run, m, j)
    ensures |rows| == k - i + 1
  {
    seq(k - i + 1, n requires 0 <= n <= k - i && HasRow(t, run, i + n, j) => RowAt(t, run, i + n, j))
  }

  /** How often the next row differs. */
  function Changes(rows: seq<JobRow>): nat {
    var n := |rows|;
    if n < 2 then 0 else Changes(rows[..n - 1]) + if rows[n - 1] == rows[n - 2] then 0 else 1
  }

  lemma {:induction false} ChangesRaiseRevision(rows: seq<JobRow>)
    requires rows != [] && forall n :: 0 < n < |rows| ==> RowEvolves(rows[n - 1], rows[n])
    ensures rows[|rows| - 1].revision == rows[0].revision + Changes(rows)
    ensures Changes(rows) == 0 ==> rows[|rows| - 1] == rows[0]
  {
    if |rows| > 1 {
      ChangesRaiseRevision(rows[..|rows| - 1]);
      assert RowEvolves(rows[|rows| - 2], rows[|rows| - 1]);
    }
  }

  lemma RowAtEvolves(t: Tables, run: seq<Action>, k: nat, j: JobId)
    requires k < |run| && HasRow(t, run, k, j) && HasRow(t, run, k + 1, j)
    ensures RowEvolves(RowAt(t, run, k, j), RowAt(t, run, k + 1, j))
  {
    AtStep(t, run, k);
    StepEvolvesRow(At(t, run, k), run[k], j);
  }

  /** While a row exists its revision counts its changes, so an unchanged revision proves an unchanged row. */
  lemma RevisionCountsChanges(t: Tables, run: seq<Action>, i: nat, k: nat, j: JobId)
    requires i <= k <= |run|
    requires forall m :: i <= m <= k ==> HasRow(t, run, m, j)
    ensures RowAt(t, run, k, j).revision == RowAt(t, run, i, j).revision + Changes(RowsFrom(t, run, i, k, j))
    ensures RowAt(t, run, k, j).revision == RowAt(t, run, i, j).revision ==> RowAt(t, run, k, j) == RowAt(t, run, i, j)
  {
    var rows := RowsFrom(t, run, i, k, j);
    forall n | 0 < n < |rows| ensures RowEvolves(rows[n - 1], rows[n]) {
      assert HasRow(t, run, i + n - 1, j) && HasRow(t, run, i + n, j);
      RowAtEvolves(t, run, i + n - 1, j);
    }
    ChangesRaiseRevision(rows);
  }

  // ---------------------------------------------------------------- fencing

  /** An action on job `j` in the belief that it is held under generation `gen`: by its owner, or by a recovery pass that read so. */
  predicate ActsAsOwner(a: Action, j: JobId, gen: Generation) {
    || (a.ClaimJob? && a.rec.jobId == j && a.rec.generation == gen)
    || ((a.PersistRow? || a.CommitTerminal? || a.RenewLease? || a.ReacquireLease?) && a.job == j && a.gen == gen)
    || (a.FailRecovery? && a.seen.jobId == j && a.seen.generation == gen)
  }

  /** Writes a generation into the row of `j`. */
  predicate DrawsGeneration(a: Action, j: JobId, gen: Generation) {
    || (a.TakeJob? && a.job == j && a.drawn == gen)
    || (a.InsertJob? && a.job == j && a.row.generation.GetOr("") == gen)
    || (a.ActivateBatch? && exists i :: 0 <= i < |a.batch| && a.batch[i].jobId == j && a.batch[i].generation == gen)
  }

  predicate HeldUnder(t: Tables, j: JobId, gen: Generation) {
    j in t.jobs && t.jobs[j].generation.GetOr("") == gen
  }

  lemma GenerationOnlyDrawn(t: Tables, a: Action, j: JobId, gen: Generation)
    requires !HeldUnder(t, j, gen) && HeldUnder(Step(t, a), j, gen)
    ensures DrawsGeneration(a, j, gen)
  {
    if j in t.jobs {
      if !a.TakeJob? {
        OnlyTakeoversRedraw(t, a, j);
      }
    } else if Ending(a) {
      EndingKeepsKeys(t, a);
    } else if a.ActivateBatch? {
      NewRowsOfBatch(t, a, j);
    }
  }

  lemma OnlyTakeoversRedraw(t: Tables, a: Action, j: JobId)
    requires j in t.jobs && j in Step(t, a).jobs && !a.TakeJob?
    ensures Step(t, a).jobs[j].generation == t.jobs[j].generation && Step(t, a).jobs[j].owner == t.jobs[j].owner
  {
    if Ending(a) {
      EndingEvolves(t, a, j);
    } else if a.ActivateBatch? || a.ReconcileBatch? {
      BatchEvolves(t, a, j);
    }
  }

  lemma {:induction false} NeverHeldAgain(t: Tables, run: seq<Action>, i: nat, k: nat, j: JobId, gen: Generation)
    requires i <= k <= |run| && !HeldUnder(At(t, run, i), j, gen)
    requires forall m :: i <= m < k ==> !DrawsGeneration(run[m], j, gen)
    ensures !HeldUnder(At(t, run, k), j, gen)
    decreases k - i
  {
    if i < k {
      NeverHeldAgain(t, run, i, k - 1, j, gen);
      AtStep(t, run, k - 1);
      if HeldUnder(At(t, run, k), j, gen) {
        GenerationOnlyDrawn(At(t, run, k - 1), run[k - 1], j, gen);
      }
    }
  }

  predicate TakesJob(t: Tables, a: Action, j: JobId) {
    a.TakeJob? && a.job == j && Takeover(t, a.me, a.leaseMs, j, a.expectedRevision, a.now, a.drawn).1.Some?
  }

  /**
   Fencing: once a takeover replaced generation `gen`, and no later draw repeats it, nothing done under `gen`
   changes the row any more, except that a stale claim may still cancel a waiting job of a closed parent.
   */
  lemma TakeoverFences(t: Tables, run: seq<Action>, i: nat, k: nat, j: JobId, gen: Generation)
    requires i < k < |run|
    requires TakesJob(At(t, run, i), run[i], j) && run[i].drawn != gen
    requires forall m :: i < m < k ==> !DrawsGeneration(run[m], j, gen)
    requires ActsAsOwner(run[k], j, gen)
    requires HasRow(t, run, k, j)
    ensures HasRow(t, run, k + 1, j)
    ensures RowAt(t, run, k + 1, j) == RowAt(t, run, k, j)
            || (run[k].ClaimJob? && ParentClosed(At(t, run, k), j) && RowAt(t, run, k, j).status.Claimable()
                && RowAt(t, run, k + 1, j).status.Cancelled?)
  {
    AtStep(t, run, i);
    NeverHeldAgain(t, run, i + 1, k, j, gen);
    AtStep(t, run, k);
  }

  /** The exception is real: a bridge with a superseded generation cancels a job it no longer owns. */
  lemma StaleClaimStillCancels()
    ensures exists t: Tables, rec: Record, me: InstanceId ::
              && rec.jobId in t.jobs && t.jobs[rec.jobId].generation != Some(rec.generation) && t.jobs[rec.jobId].owner != Some(me)
              && Claim(t, me, 1000, rec, 0, "").tables.jobs[rec.jobId] != t.jobs[rec.jobId]
  {
    var row := JobRow(Pending, 4, Some("B"), Some("g2"), Some(50), false, true, "", "P");
    var prow := PipelineRow(Later("awaiting_integration"), 2, "B", "p", None, 1, Released, ["J"]);
    var t := Tables(map["J" := row], map["P" := prow], map["J" := ChildRow("P", 0)], map["B" := 50]);
    var rec := Record("J", Pending, "A", "g1", 3, Some(10), false);
    assert Claim(t, "A", 1000, rec, 0, "").tables.jobs["J"].status.Cancelled?;
  }

  // ---------------------------------------------------------------- owned rows have a generation

  predicate AllKeyed(t: Tables) { forall j :: j in t.jobs ==> Keyed(t.jobs[j]) }

  /** Generations that are drawn are not empty: twelve random bytes in hexadecimal. */
  predicate DrawsSome(a: Action) {
    && (a.TakeJob? ==> a.drawn != "")
    && (a.ActivateBatch? ==> forall i :: 0 <= i < |a.batch| ==> a.batch[i].generation != "")
  }

  lemma NewRowIsKeyed(t: Tables, a: Action, j: JobId)
    requires DrawsSome(a) && j !in t.jobs && j in Step(t, a).jobs
    ensures Keyed(Step(t, a).jobs[j])
  {
    if Ending(a) {
      EndingKeepsKeys(t, a);
    } else if a.ActivateBatch? {
      NewRowsOfBatch(t, a, j);
    }
  }

  lemma StepKeepsKeyed(t: Tables, a: Action)
    requires AllKeyed(t) && DrawsSome(a)
    ensures AllKeyed(Step(t, a))
  {
    forall j | j in Step(t, a).jobs
      ensures Keyed(Step(t, a).jobs[j])
    {
      if j !in t.jobs {
        NewRowIsKeyed(t, a, j);
      } else if !a.TakeJob? {
        OnlyTakeoversRedraw(t, a, j);
      }
    }
  }

  /** In every run each row with an owner has a generation. */
  lemma {:induction false} RunKeepsKeyed(t: Tables, run: seq<Action>)
    requires AllKeyed(t) && forall m :: 0 <= m < |run| ==> DrawsSome(run[m])
    ensures AllKeyed(Run(t, run))
    decreases |run|
  {
    if run != [] {
      RunKeepsKeyed(t, run[..|run| - 1]);
      StepKeepsKeyed(Run(t, run[..|run| - 1]), run[|run| - 1]);
    }
  }

  /** So after every successful claim of every run the cached record is the row, save a cancellation only the record knows of. */
  lemma ClaimedRecordIsRow(t: Tables, run: seq<Action>, k: nat, j: JobId)
    requires AllKeyed(t) && forall m :: 0 <= m < |run| ==> DrawsSome(run[m])
    requires k < |run| && ClaimsJob(At(t, run, k), run[k], j) && run[k].me != ""
    ensures HasRow(t, run, k + 1, j)
    ensures var a := run[k];
            Claim(At(t, run, k), a.me, a.leaseMs, a.rec, a.now, a.drawn).record
            == RecordOf(j, RowAt(t, run, k + 1, j)).(cancelRequested := a.rec.cancelRequested)
  {
    RunKeepsKeyed(t, run[..k]);
    AtStep(t, run, k);
    var a, now := run[k], At(t, run, k);
    ClaimSucceedsIff(now, a.me, a.leaseMs, a.rec, a.now, a.drawn);
    assert Keyed(now.jobs[j]);
  }

  // ---------------------------------------------------------------- fail-stop over runs

  /** Action `i` recorded a child's end (or its cancellation) and thereby closed the open parent `pid`. */
  predicate ClosesAt(t: Tables, run: seq<Action>, i: nat, pid: PipelineId)
    requires i < |run|
  {
    && Ending(run[i])
    && pid in At(t, run, i).pipelines && At(t, run, i).pipelines[pid].status.Open()
    && pid in At(t, run, i + 1).pipelines && At(t, run, i + 1).pipelines[pid].status != At(t, run, i).pipelines[pid].status
  }

  lemma StopsAt(t: Tables, run: seq<Action>, i: nat, pid: PipelineId)
    requires i < |run| && ClosesAt(t, run, i, pid)
    ensures FailStopped(At(t, run, i + 1), pid)
  {
    AtStep(t, run, i);
    ClosingStepStops(At(t, run, i), run[i], pid);
  }

  lemma StaysStoppedAt(t: Tables, run: seq<Action>, k: nat, pid: PipelineId)
    requires Shape(t) && k < |run| && FailStopped(At(t, run, k), pid) && pid in At(t, run, k + 1).pipelines
    ensures FailStopped(At(t, run, k + 1), pid)
  {
    AtStep(t, run, k);
    RunKeepsShape(t, run[..k]);
    FailStopKept(At(t, run, k), run[k], pid);
  }

  /** From then on, until it is pruned, every child has ended or has been told to end, whatever any bridge does. */
  lemma {:induction false} ClosedPipelineStaysStopped(t: Tables, run: seq<Action>, i: nat, k: nat, pid: PipelineId)
    requires Shape(t) && i < k <= |run| && ClosesAt(t, run, i, pid)
    requires forall m :: i < m <= k ==> pid in At(t, run, m).pipelines
    ensures FailStopped(At(t, run, k), pid)
    decreases k
  {
    if k == i + 1 {
      StopsAt(t, run, i, pid);
    } else {
      ClosedPipelineStaysStopped(t, run, i, k - 1, pid);
      StaysStoppedAt(t, run, k - 1, pid);
    }
  }

  /** So no later action of any bridge starts one of its children. */
  lemma ClosedPipelineNeverRunsAgain(t: Tables, run: seq<Action>, i: nat, k: nat, pid: PipelineId, j: JobId)
    requires Shape(t) && i < k < |run| && ClosesAt(t, run, i, pid)
    requires forall m :: i < m <= k ==> pid in At(t, run, m).pipelines
    requires j in At(t, run, k).ChildrenOf(pid)
    ensures !ClaimsJob(At(t, run, k), run[k], j)
    ensures HasRow(t, run, k + 1, j) && RowAt(t, run, k + 1, j).status.Active() ==> RowAt(t, run, k, j).status.Active()
  {
    ClosedPipelineStaysStopped(t, run, i, k, pid);
    AtStep(t, run, k);
    var now := At(t, run, k);
    if ClaimsJob(now, run[k], j) {
      ClaimStartsWaitingJob(now, run[k], j);
    }
    if j in At(t, run, k + 1).jobs && At(t, run, k + 1).jobs[j].status.Active() {
      OnlyClaimsStart(now, run[k], j);
    }
  }

  // ---------------------------------------------------------------- one decision per batch

  /** The action releases the batch of `pid`, or gives it up as incomplete. */
  predicate DecidesBatch(t: Tables, a: Action, pid: PipelineId) {
    || (a.ActivateBatch? && a.pipelineRec.pipelineId == pid
        && ActivationVerdict(t, a.me, a.pipelineRec, a.batch, a.capacityLeft, a.now).Activated?)
    || (a.ReconcileBatch? && a.pid == pid && (LegacyVerdict(t, pid, a.now).ReleasedBatch? || LegacyVerdict(t, pid, a.now).FailedBatch?))
  }

  predicate Decided(t: Tables, pid: PipelineId) {
    pid in t.pipelines && (t.pipelines[pid].batchState.Released? || t.pipelines[pid].batchState.Incomplete?)
  }

  lemma DecisionDecides(t: Tables, a: Action, pid: PipelineId)
    requires DecidesBatch(t, a, pid)
    ensures !Decided(t, pid) && Decided(Step(t, a), pid)
  {
  }

  lemma JobStepKeepsDecided(t: Tables, a: Action, pid: PipelineId)
    requires Decided(t, pid) && WritesJobsOnly(a)
    ensures Decided(Step(t, a), pid)
  {
    if Ending(a) { EndingKeepsRelation(t, a); } else { PlainStepKeepsRelation(t, a); }
  }

  lemma DecidedKept(t: Tables, a: Action, pid: PipelineId)
    requires Decided(t, pid) && pid in Step(t, a).pipelines
    ensures Decided(Step(t, a), pid)
  {
    if WritesJobsOnly(a) { JobStepKeepsDecided(t, a, pid); }
  }

  lemma {:induction false} FindPrune(t: Tables, run: seq<Action>, i: nat, k: nat, pid: PipelineId) returns (m: nat)
    requires i <= k <= |run| && Decided(At(t, run, i), pid) && !Decided(At(t, run, k), pid)
    ensures i < m <= k && pid !in At(t, run, m).pipelines
    decreases k - i
  {
    AtStep(t, run, i);
    if pid in At(t, run, i + 1).pipelines {
      DecidedKept(At(t, run, i), run[i], pid);
      m := FindPrune(t, run, i + 1, k, pid);
    } else {
      m := i + 1;
    }
  }

  /** However bridges race to activate or reconcile it, a batch is released or given up once: a second decision needs a new pipeline row. */
  lemma BatchDecidedOnce(t: Tables, run: seq<Action>, i: nat, k: nat, pid: PipelineId) returns (m: nat)
    requires i < k < |run|
    requires DecidesBatch(At(t, run, i), run[i], pid) && DecidesBatch(At(t, run, k), run[k], pid)
    ensures i < m <= k && pid !in At(t, run, m).pipelines
  {
    AtStep(t, run, i);
    DecisionDecides(At(t, run, i), run[i], pid);
    DecisionDecides(At(t, run, k), run[k], pid);
    m := FindPrune(t, run, i + 1, k, pid);
  }
}

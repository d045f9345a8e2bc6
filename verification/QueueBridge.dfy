/**
 The queue code of one bridge process: objects whose fields the code updates in place, and the
 transactions of server.js statement by statement.  Every method is tied to the function of
 QueueTables that the run theorems are about.
 */
module QueueBridge {
  import opened Options
  import opened QueueTables
  import opened QueueInvariants
  import opened QueueShape

  /** The SQLite database: its tables, and the image a rollback restores. */
  class Database {
    var jobs: map<JobId, JobRow>
    var pipelines: map<PipelineId, PipelineRow>
    var children: map<JobId, ChildRow>
    var bridges: map<InstanceId, int>
    var image: Tables

    constructor ()
      ensures State() == image == Tables(map[], map[], map[], map[])
    {
      jobs, pipelines, children, bridges := map[], map[], map[], map[];
      image := Tables(map[], map[], map[], map[]);
    }

    function State(): Tables
      reads this
    {
      Tables(jobs, pipelines, children, bridges)
    }

    method Begin()
      modifies this`image
      ensures image == State()
    {
      image := State();
    }

    method Rollback()
      modifies this`jobs, this`pipelines, this`children, this`bridges
      ensures State() == image
    {
      jobs, pipelines, children, bridges := image.jobs, image.pipelines, image.children, image.bridges;
    }
  }

  /** A job as a bridge caches it. */
  class QueueRecord {
    const jobId: JobId
    const idempotencyKey: string
    const hasRequest: bool
    const parentJobId: PipelineId
    var status: JobStatus
    var owner: InstanceId
    var generation: Generation
    var revision: nat
    var lease: Option<int>
    var cancelRequested: bool

    constructor (rec: Record, idempotencyKey: string, hasRequest: bool, parentJobId: PipelineId)
      ensures View() == rec
      ensures this.idempotencyKey == idempotencyKey && this.hasRequest == hasRequest && this.parentJobId == parentJobId
    {
      this.jobId, this.idempotencyKey, this.hasRequest, this.parentJobId := rec.jobId, idempotencyKey, hasRequest, parentJobId;
      status, owner, generation := rec.status, rec.owner, rec.generation;
      revision, lease, cancelRequested := rec.revision, rec.lease, rec.cancelRequested;
    }

    function View(): Record
      reads this
    {
      Record(jobId, status, owner, generation, revision, lease, cancelRequested)
    }

    function AsPrepared(): Prepared
      reads this
    {
      Prepared(jobId, owner, generation, idempotencyKey, hasRequest, parentJobId)
    }
  }

  function Batch(records: seq<QueueRecord>): seq<Prepared>
    reads records
  {
    seq(|records|, i requires 0 <= i < |records| reads records => records[i].AsPrepared())
  }

  /** A cached pipeline run. */
  class PipelineRun {
    const pipelineId: PipelineId
    const generation: Generation
    var revision: nat
    var status: PipelineStatus
    var lease: Option<int>
    var queueJobIds: seq<JobId>

    constructor (rec: PipelineRecord)
      ensures View() == rec && status.PlannedPipeline? && queueJobIds == []
    {
      pipelineId, generation, revision := rec.pipelineId, rec.generation, rec.revision;
      status, lease, queueJobIds := PlannedPipeline, None, [];
    }

    function View(): PipelineRecord
      reads this
    {
      PipelineRecord(pipelineId, generation, revision)
    }
  }

  /** One step of a batch release. */
  lemma {:induction false} ReleaseNext(batch: seq<Prepared>, k: nat, lease: int)
    requires DistinctIds(batch) && k < |batch|
    ensures BatchJobs(batch, lease, k + 1) == BatchJobs(batch, lease, k)[batch[k].jobId := ChildRowFor(batch[k], lease, true)]
    decreases |batch|
  {
    var last := |batch| - 1;
    if k < last {
      ReleaseNext(batch[..last], k, lease);
    } else {
      FullyReleased(batch[..last], lease, k);
    }
  }

  lemma {:induction false} FullyReleased(batch: seq<Prepared>, lease: int, released: nat)
    requires released >= |batch|
    ensures BatchJobs(batch, lease, released) == BatchJobs(batch, lease, released + 1)
    decreases |batch|
  {
    if batch != [] {
      FullyReleased(batch[..|batch| - 1], lease, released);
    }
  }

  lemma ReleaseOne(jobs: map<JobId, JobRow>, batch: seq<Prepared>, k: nat, lease: int)
    requires DistinctIds(batch) && k < |batch|
    ensures var now, j := jobs + BatchJobs(batch, lease, k), batch[k].jobId;
            && j in now && now[j] == ChildRowFor(batch[k], lease, false)
            && jobs + BatchJobs(batch, lease, k + 1) == now[j := ChildRowFor(batch[k], lease, true)]
  {
    BatchJobsAt(batch, lease, k, k);
    ReleaseNext(batch, k, lease);
  }

  /** The tables after the first `k` children of a batch have been inserted as held. */
  function Inserted(t: Tables, pid: PipelineId, batch: seq<Prepared>, k: nat, lease: int): Tables
    requires k <= |batch|
  {
    t.(jobs := t.jobs + BatchJobs(batch[..k], lease, 0), children := t.children + ManifestRelation(pid, PreparedIds(batch[..k])))
  }

  lemma InsertNext(t: Tables, pid: PipelineId, batch: seq<Prepared>, k: nat, lease: int)
    requires k < |batch|
    ensures var now := Inserted(t, pid, batch, k, lease);
            Inserted(t, pid, batch, k + 1, lease)
            == now.(jobs := now.jobs[batch[k].jobId := ChildRowFor(batch[k], lease, false)],
                    children := now.children[batch[k].jobId := ChildRow(pid, k)])
  {
    assert batch[..k + 1][..k] == batch[..k];
    assert PreparedIds(batch[..k + 1])[..k] == PreparedIds(batch[..k]);
  }

  lemma {:induction false} RelationKeys(pid: PipelineId, ids: seq<JobId>)
    ensures forall j :: j in ManifestRelation(pid, ids) <==> j in ids
    decreases |ids|
  {
    if ids != [] {
      RelationKeys(pid, ids[..|ids| - 1]);
    }
  }

  lemma InsertedRows(t: Tables, pid: PipelineId, batch: seq<Prepared>, k: nat, lease: int)
    requires DistinctIds(batch) && k <= |batch|
    ensures var now := Inserted(t, pid, batch, k, lease);
            && (forall i :: 0 <= i < k ==> batch[i].jobId in now.jobs && now.jobs[batch[i].jobId].idempotencyKey == batch[i].idempotencyKey)
            && (forall j :: j in now.jobs && j !in t.jobs ==> exists i :: 0 <= i < k && batch[i].jobId == j)
            && (forall j :: j in now.children && j !in t.children ==> exists i :: 0 <= i < k && batch[i].jobId == j)
  {
    var less := batch[..k];
    assert DistinctIds(less);
    forall i | 0 <= i < k
      ensures less[i] == batch[i]
      ensures batch[i].jobId in BatchJobs(less, lease, 0) && BatchJobs(less, lease, 0)[batch[i].jobId].idempotencyKey == batch[i].idempotencyKey
    {
      BatchJobsAt(less, lease, 0, i);
    }
    BatchJobsKeys(less, lease, 0);
    RelationKeys(pid, PreparedIds(less));
  }

  predicate SharesKey(a: Prepared, b: Prepared) {
    a.idempotencyKey != "" && a.idempotencyKey == b.idempotencyKey
  }

  predicate KeyTaken(jobs: map<JobId, JobRow>, key: string) { exists j :: j in jobs && jobs[j].idempotencyKey == key }

  lemma KeyTakenNext(t: Tables, pid: PipelineId, batch: seq<Prepared>, k: nat, lease: int)
    requires DistinctIds(batch) && k < |batch| && BatchFits(t, batch[..k]) && batch[k].idempotencyKey != ""
    ensures var key := batch[k].idempotencyKey;
            KeyTaken(Inserted(t, pid, batch, k, lease).jobs, key) <==> KeyTaken(t.jobs, key) || exists i :: 0 <= i < k && SharesKey(batch[i], batch[k])
  {
    InsertedRows(t, pid, batch, k, lease);
    OldRowsStay(t, pid, batch, k, lease);
    var now, key := Inserted(t, pid, batch, k, lease), batch[k].idempotencyKey;
    if i :| 0 <= i < k && SharesKey(batch[i], batch[k]) {
      assert now.jobs[batch[i].jobId].idempotencyKey == key;
    }
    if j :| j in now.jobs && now.jobs[j].idempotencyKey == key && j !in t.jobs {
      var i :| 0 <= i < k && batch[i].jobId == j;
      assert SharesKey(batch[i], batch[k]);
    }
  }

  /** The next insert conflicts with the rows present exactly when it conflicts with the old rows or repeats a key of the batch. */
  lemma ConflictNext(t: Tables, pid: PipelineId, batch: seq<Prepared>, k: nat, lease: int)
    requires DistinctIds(batch) && k < |batch| && BatchFits(t, batch[..k])
    ensures InsertConflicts(Inserted(t, pid, batch, k, lease), batch[k])
            <==> InsertConflicts(t, batch[k]) || exists i :: 0 <= i < k && SharesKey(batch[i], batch[k])
  {
    IdNext(t, pid, batch, k, lease);
    if batch[k].idempotencyKey != "" { KeyTakenNext(t, pid, batch, k, lease); }
  }

  lemma IdNext(t: Tables, pid: PipelineId, batch: seq<Prepared>, k: nat, lease: int)
    requires DistinctIds(batch) && k < |batch| && BatchFits(t, batch[..k])
    ensures var now, j := Inserted(t, pid, batch, k, lease), batch[k].jobId;
            (j in now.jobs <==> j in t.jobs) && (j in now.children <==> j in t.children)
  {
    InsertedRows(t, pid, batch, k, lease);
    OldRowsStay(t, pid, batch, k, lease);
  }

  lemma OldRowsStay(t: Tables, pid: PipelineId, batch: seq<Prepared>, k: nat, lease: int)
    requires k <= |batch| && BatchFits(t, batch[..k])
    ensures var now := Inserted(t, pid, batch, k, lease);
            && (forall j :: j in t.jobs ==> j in now.jobs && now.jobs[j] == t.jobs[j])
            && (forall j :: j in t.children ==> j in now.children)
  {
    FittingBatchIsNew(t, batch[..k]);
    BatchJobsKeys(batch[..k], lease, 0);
  }

  /** Growing the fitting prefix by one. */
  lemma FitsNext(t: Tables, batch: seq<Prepared>, k: nat)
    requires k < |batch| && BatchFits(t, batch[..k])
    ensures BatchFits(t, batch[..k + 1]) <==> !InsertConflicts(t, batch[k]) && forall i :: 0 <= i < k ==> !SharesKey(batch[i], batch[k])
    ensures !BatchFits(t, batch[..k + 1]) ==> !BatchFits(t, batch)
  {
    var more := batch[..k + 1];
    assert forall i :: 0 <= i <= k ==> more[i] == batch[i];
    assert forall i :: 0 <= i < k ==> batch[..k][i] == batch[i];
    if !InsertConflicts(t, batch[k]) && forall i :: 0 <= i < k ==> !SharesKey(batch[i], batch[k]) {
      forall i | 0 <= i <= k
        ensures !InsertConflicts(t, more[i])
      {
        assert i < k ==> !InsertConflicts(t, batch[..k][i]);
      }
      forall i, m | 0 <= i < m <= k && more[i].idempotencyKey != ""
        ensures more[i].idempotencyKey != more[m].idempotencyKey
      {
        if m < k {
          assert batch[..k][i].idempotencyKey != batch[..k][m].idempotencyKey;
        } else {
          assert !SharesKey(batch[i], batch[k]);
        }
      }
    }
  }

  /** The first bulk update of the siblings of a failed child. */
  function UnstartedCancelled(jobs: map<JobId, JobRow>, children: map<JobId, ChildRow>, pid: PipelineId, child: JobId): map<JobId, JobRow> {
    map j | j in jobs ::
      if IsChildBut(children, pid, child, j) && jobs[j].status.PreExecution()
      then jobs[j].(status := Cancelled, cancelRequested := true, lease := None, revision := jobs[j].revision + 1) else jobs[j]
  }

  /** The second. */
  function ActiveToldToStop(jobs: map<JobId, JobRow>, children: map<JobId, ChildRow>, pid: PipelineId, child: JobId): map<JobId, JobRow> {
    map j | j in jobs ::
      if IsChildBut(children, pid, child, j) && jobs[j].status.Active()
      then jobs[j].(cancelRequested := true, revision := jobs[j].revision + 1) else jobs[j]
  }

  /** Together they stop every sibling once: what the first cancels the second leaves alone. */
  lemma SiblingsStopped(jobs: map<JobId, JobRow>, children: map<JobId, ChildRow>, pid: PipelineId, child: JobId)
    ensures ActiveToldToStop(UnstartedCancelled(jobs, children, pid, child), children, pid, child)
         == map j | j in jobs :: if IsChildBut(children, pid, child, j) then StopSibling(jobs[j]) else jobs[j]
  {
  }

  class Bridge {
    const instance: InstanceId
    const leaseMs: int
    var queueJobs: map<JobId, QueueRecord>
    var pipelineRuns: map<PipelineId, PipelineRun>

    constructor (instance: InstanceId, leaseMs: int)
      ensures this.instance == instance && this.leaseMs == leaseMs && queueJobs == map[] && pipelineRuns == map[]
    {
      this.instance, this.leaseMs := instance, leaseMs;
      queueJobs, pipelineRuns := map[], map[];
    }

    /** propagatePipelineTerminalInTransaction: two bulk updates of the siblings, then the parent. */
    method PropagatePipelineTerminal(db: Database, child: JobId)
      modifies db`jobs, db`pipelines
      ensures db.State() == Propagate(old(db.State()), child)
    {
      ghost var t := db.State();
      if child !in db.children || db.children[child].pipelineId !in db.pipelines {
        return;
      }
      var pid := db.children[child].pipelineId;
      if !db.pipelines[pid].status.Open() {
        return;
      }
      var verdict := ParentVerdict(db.State(), pid);
      if verdict == None {
        return;
      }
      db.jobs := UnstartedCancelled(db.jobs, db.children, pid, child);
      db.jobs := ActiveToldToStop(db.jobs, db.children, pid, child);
      SiblingsStopped(t.jobs, t.children, pid, child);
      var parent := db.pipelines[pid];
      db.pipelines := db.pipelines[pid := parent.(status := verdict.value, revision := parent.revision + 1)];
    }

    /** claimQueueRecord */
    method ClaimQueueRecord(db: Database, record: QueueRecord, now: int, drawn: Generation) returns (outcome: ClaimOutcome)
      modifies db, record
      ensures var r := Claim(old(db.State()), instance, leaseMs, old(record.View()), now, drawn);
              db.State() == r.tables && record.View() == r.record && outcome == r.outcome
    {
      db.Begin();
      var j := record.jobId;
      if j !in db.jobs {
        db.Rollback();
        return Refused(None);
      }
      var row := db.jobs[j];
      var t := db.State();
      if t.HasParent(j) && t.Parent(j).batchState.Released? && !t.Parent(j).status.RunningPipeline? && row.status.Claimable() {
        if row.owner.Some? && row.generation.Some? {
          db.jobs := db.jobs[j := row.(status := Cancelled, cancelRequested := true, lease := None, revision := row.revision + 1)];
          record.status, record.cancelRequested, record.lease := Cancelled, true, None;
          record.revision := row.revision + 1;
          return CancelledByParent;
        }
        db.Rollback();
        return ClaimLost;
      }
      var parentAllows := !t.HasParent(j) || (t.Parent(j).status.RunningPipeline? && t.Parent(j).batchState.Released?);
      if !(row.status.Claimable() && parentAllows && row.owner == Some(instance)
           && row.generation.GetOr("") == record.generation && row.revision == record.revision
           && LeaseRuns(row.lease, now) && !row.cancelRequested) {
        db.Rollback();
        if row.status.Cancelled? || row.cancelRequested {
          record.status, record.cancelRequested := Cancelled, true;
        }
        return Refused(Some(row.status));
      }
      if row.generation != Some(record.generation) || !t.LiveBridge(Some(instance), now) {
        db.Rollback();
        return ClaimLost;
      }
      db.jobs := db.jobs[j := row.(status := Running, lease := Some(now + leaseMs), revision := row.revision + 1)];
      record.status, record.owner, record.lease := Running, instance, Some(now + leaseMs);
      if record.generation == "" {
        record.generation := drawn;
      }
      record.revision := record.revision + 1;
      return Claimed;
    }

    /** claimPersistedQueueRecordForStartup, and the caching of what it returns */
    method ClaimPersistedForStartup(db: Database, j: JobId, expectedRevision: nat, now: int, drawn: Generation)
      returns (resumed: QueueRecord?)
      modifies db, this`queueJobs
      ensures var r := Takeover(old(db.State()), instance, leaseMs, j, expectedRevision, now, drawn);
              && db.State() == r.0
              && (resumed == null <==> r.1 == None)
              && (resumed != null ==> fresh(resumed) && resumed.View() == r.1.value && queueJobs == old(queueJobs)[j := resumed])
              && (resumed == null ==> queueJobs == old(queueJobs))
    {
      db.Begin();
      resumed := null;
      if j !in db.jobs || db.jobs[j].revision != expectedRevision || !db.jobs[j].status.PreExecution() {
        return;
      }
      var row := db.jobs[j];
      if LeaseRuns(row.lease, now) || db.State().LiveBridge(row.owner, now) {
        return;
      }
      var status := if row.status.Held? then Held else Pending;
      db.jobs := db.jobs[j := row.(status := status, owner := Some(instance), generation := Some(drawn),
                                   lease := Some(now + leaseMs), revision := row.revision + 1)];
      resumed := new QueueRecord(Record(j, status, instance, drawn, row.revision, Some(now + leaseMs), row.cancelRequested),
                                 row.idempotencyKey, row.hasRequest, row.parentJobId);
      resumed.revision := resumed.revision + 1;
      queueJobs := queueJobs[j := resumed];
    }

    /** failPersistedQueueStartupRecovery */
    method FailPersistedRecovery(db: Database, seen: Observed, now: int) returns (failed: bool)
      modifies db
      ensures (db.State(), failed) == RecoveryFail(old(db.State()), seen, now)
    {
      db.Begin();
      failed := false;
      if seen.jobId !in db.jobs {
        return;
      }
      var row := db.jobs[seen.jobId];
      if row.revision == seen.revision && row.status.PreExecution()
         && row.owner.GetOr("") == seen.owner && row.generation.GetOr("") == seen.generation
         && !LeaseRuns(row.lease, now) && !db.State().LiveBridge(row.owner, now) {
        db.jobs := db.jobs[seen.jobId := row.(status := Failed, lease := None, revision := row.revision + 1)];
        PropagatePipelineTerminal(db, seen.jobId);
        failed := true;
      }
    }

    /** Every record of the batch is cached and agrees with its row (whose cancellation column starts empty). */
    ghost predicate BatchCached(db: Database, records: seq<QueueRecord>)
      reads this, db, records
    {
      forall i :: 0 <= i < |records| ==>
        && records[i].jobId in queueJobs && queueJobs[records[i].jobId] == records[i]
        && records[i].jobId in db.jobs
        && records[i].View() == RecordOf(records[i].jobId, db.jobs[records[i].jobId]).(cancelRequested := records[i].cancelRequested)
    }

    /**
     activatePipelineBatch: the leases of the prepared children are stamped before the transaction's guards run;
     any failure of the transaction rolls the tables back.
     */
    method ActivatePipelineBatch(db: Database, record: PipelineRun, prepared: seq<QueueRecord>, capacityLeft: bool, now: int)
      returns (outcome: ActivationOutcome)
      modifies db, record, prepared, this
      ensures outcome == ActivationVerdict(old(db.State()), instance, old(record.View()), old(Batch(prepared)), capacityLeft, now)
      ensures db.State() == if outcome.Activated? then Activation(old(db.State()), old(record.View()), old(Batch(prepared)), now + leaseMs)
                            else old(db.State())
      // What a failure leaves: no table row and no cache entry changes, but past the first guard the children keep the stamped lease.
      ensures !outcome.Activated? ==>
                && queueJobs == old(queueJobs) && pipelineRuns == old(pipelineRuns)
                && record.View() == old(record.View()) && record.status == old(record.status)
                && record.lease == old(record.lease) && record.queueJobIds == old(record.queueJobIds)
                && (forall c :: c in prepared ==>
                      c.View() == if outcome.BatchInvalid? then old(c.View()) else old(c.View()).(lease := Some(now + leaseMs)))
      // What a success leaves: every child is cached, and its record agrees with its row.
      ensures outcome.Activated? ==>
                && BatchCached(db, prepared)
                && (forall j :: j in queueJobs && j !in BatchIds(old(Batch(prepared))) ==> j in old(queueJobs) && queueJobs[j] == old(queueJobs)[j])
                && record.pipelineId in db.pipelines && record.revision == db.pipelines[record.pipelineId].revision
                && record.queueJobIds == db.pipelines[record.pipelineId].queueJobIds
                && record.status == db.pipelines[record.pipelineId].status && record.lease == db.pipelines[record.pipelineId].lease
                && pipelineRuns == old(pipelineRuns)[record.pipelineId := record]
    {
      ghost var t := db.State();
      ghost var rec := record.View();
      var batch := Batch(prepared);
      if !BatchWellFormed(batch) {
        return BatchInvalid;
      }
      StampLeases(prepared, now + leaseMs);
      outcome := ActivationTransaction(db, record.View(), batch, capacityLeft, now);
      if outcome.Activated? {
        assert batch == Batch(prepared) && forall i :: 0 <= i < |prepared| ==> prepared[i].lease == Some(now + leaseMs);
        AllActivatedRows(t, rec, batch, now + leaseMs);
        AdoptActivation(db, record, prepared, batch, now + leaseMs);
      }
    }

    /** The cached records take the committed state. */
    method AdoptActivation(db: Database, record: PipelineRun, prepared: seq<QueueRecord>, batch: seq<Prepared>, lease: int)
      requires batch == Batch(prepared) && DistinctIds(batch)
      requires forall i :: 0 <= i < |prepared| ==> prepared[i].lease == Some(lease)
      requires forall i :: 0 <= i < |batch| ==> batch[i].jobId in db.jobs && db.jobs[batch[i].jobId] == ChildRowFor(batch[i], lease, true)
      modifies record, prepared, this
      ensures BatchCached(db, prepared)
      ensures forall j :: j in queueJobs && j !in BatchIds(batch) ==> j in old(queueJobs) && queueJobs[j] == old(queueJobs)[j]
      ensures record.revision == old(record.revision) + 1 && record.status.RunningPipeline? && record.lease == Some(lease)
      ensures record.queueJobIds == PreparedIds(batch)
      ensures pipelineRuns == old(pipelineRuns)[record.pipelineId := record]
    {
      forall i | 0 <= i < |prepared|
        ensures batch[i] == prepared[i].AsPrepared()
      {
      }
      CacheBatch(prepared);
      record.status, record.lease, record.queueJobIds := RunningPipeline, Some(lease), PreparedIds(batch);
      record.revision := record.revision + 1;
      pipelineRuns := pipelineRuns[record.pipelineId := record];
    }

    /** The transaction: held rows inserted one by one, released one by one, the pipeline switched last. */
    method ActivationTransaction(db: Database, rec: PipelineRecord, batch: seq<Prepared>, capacityLeft: bool, now: int)
      returns (outcome: ActivationOutcome)
      requires BatchWellFormed(batch)
      modifies db
      ensures outcome == ActivationVerdict(old(db.State()), instance, rec, batch, capacityLeft, now)
      ensures db.State() == if outcome.Activated? then Activation(old(db.State()), rec, batch, now + leaseMs) else old(db.State())
    {
      ghost var t := db.State();
      db.Begin();
      if !capacityLeft {
        db.Rollback();
        return CapacityExceeded;
      }
      if !PipelineClaimMatches(db.State(), instance, rec) {
        db.Rollback();
        return ConcurrentUpdate;
      }
      var lease := now + leaseMs;
      var fits := InsertHeld(db, rec.pipelineId, batch, lease);
      if !fits {
        db.Rollback();
        return IdempotencyConflict;
      }
      assert batch[..|batch|] == batch;
      var released := ReleaseBatch(db, t, batch, lease);
      if !released {
        db.Rollback();
        return PersistenceFailed;
      }
      var pipeline := db.pipelines[rec.pipelineId];
      if !LeaseRuns(pipeline.lease, now) || !db.State().LiveBridge(Some(instance), now) {
        db.Rollback();
        return PersistenceFailed;
      }
      db.pipelines := db.pipelines[rec.pipelineId :=
        pipeline.(status := RunningPipeline, revision := rec.revision + 1, lease := Some(lease),
                  expectedChildCount := |batch|, batchState := Released, queueJobIds := PreparedIds(batch))];
      return Activated;
    }

    /** Before any guard of the transaction is read. */
    method StampLeases(prepared: seq<QueueRecord>, lease: int)
      modifies prepared
      ensures forall c :: c in prepared ==> c.View() == old(c.View()).(lease := Some(lease))
      ensures forall i :: 0 <= i < |prepared| ==> prepared[i].lease == Some(lease)
      ensures Batch(prepared) == old(Batch(prepared))
    {
      for k := 0 to |prepared|
        invariant forall i :: 0 <= i < k ==> prepared[i].View() == old(prepared[i].View()).(lease := Some(lease))
        invariant forall c :: c in prepared ==> c.View() == old(c.View()) || c.View() == old(c.View()).(lease := Some(lease))
      {
        prepared[k].lease := Some(lease);
      }
    }

    method InsertHeld(db: Database, pid: PipelineId, batch: seq<Prepared>, lease: int) returns (fits: bool)
      requires DistinctIds(batch)
      modifies db`jobs, db`children
      ensures fits == BatchFits(old(db.State()), batch)
      ensures fits ==> db.State() == Inserted(old(db.State()), pid, batch, |batch|, lease)
    {
      ghost var t := db.State();
      var k := 0;
      while k < |batch|
        invariant 0 <= k <= |batch|
        invariant db.State() == Inserted(t, pid, batch, k, lease)
        invariant BatchFits(t, batch[..k])
      {
        ConflictNext(t, pid, batch, k, lease);
        FitsNext(t, batch, k);
        InsertNext(t, pid, batch, k, lease);
        if InsertConflicts(db.State(), batch[k]) {
          return false;
        }
        db.jobs := db.jobs[batch[k].jobId := ChildRowFor(batch[k], lease, false)];
        db.children := db.children[batch[k].jobId := ChildRow(pid, k)];
        k := k + 1;
      }
      assert batch[..k] == batch;
      return true;
    }

    method ReleaseBatch(db: Database, ghost t: Tables, batch: seq<Prepared>, lease: int) returns (released: bool)
      requires DistinctIds(batch) && db.jobs == t.jobs + BatchJobs(batch, lease, 0)
      modifies db`jobs
      ensures released == (forall i :: 0 <= i < |batch| ==> batch[i].owner == instance)
      ensures released ==> db.jobs == t.jobs + BatchJobs(batch, lease, |batch|)
    {
      var k := 0;
      while k < |batch|
        invariant 0 <= k <= |batch|
        invariant db.jobs == t.jobs + BatchJobs(batch, lease, k)
        invariant forall i :: 0 <= i < k ==> batch[i].owner == instance
      {
        ReleaseOne(t.jobs, batch, k, lease);
        var row := db.jobs[batch[k].jobId];
        if !(row.status.Held? && row.revision == 0 && row.owner == Some(instance) && row.generation == Some(batch[k].generation)) {
          return false;
        }
        db.jobs := db.jobs[batch[k].jobId := row.(status := Pending, revision := row.revision + 1)];
        k := k + 1;
      }
      return true;
    }

    method CacheBatch(prepared: seq<QueueRecord>)
      requires DistinctIds(Batch(prepared))
      modifies prepared, this`queueJobs
      ensures forall i :: 0 <= i < |prepared| ==>
                && prepared[i].View() == old(prepared[i].View()).(status := Pending, revision := 1)
                && prepared[i].jobId in queueJobs && queueJobs[prepared[i].jobId] == prepared[i]
      ensures forall j :: j in queueJobs && j !in BatchIds(old(Batch(prepared))) ==> j in old(queueJobs) && queueJobs[j] == old(queueJobs)[j]
    {
      ghost var batch := Batch(prepared);
      assert forall i :: 0 <= i < |prepared| ==> batch[i].jobId == prepared[i].jobId;
      for k := 0 to |prepared|
        invariant forall i :: 0 <= i < k ==>
                    && prepared[i].View() == old(prepared[i].View()).(status := Pending, revision := 1)
                    && prepared[i].jobId in queueJobs && queueJobs[prepared[i].jobId] == prepared[i]
        invariant forall i :: k <= i < |prepared| ==> prepared[i].View() == old(prepared[i].View())
        invariant forall j :: j in queueJobs && j !in BatchIds(batch) ==> j in old(queueJobs) && queueJobs[j] == old(queueJobs)[j]
      {
        assert batch[k].jobId in BatchIds(batch);
        prepared[k].status := Pending;
        prepared[k].revision := 1;
        queueJobs := queueJobs[prepared[k].jobId := prepared[k]];
      }
    }

    /** reconcileLegacyPipelineBatches over the rows its first query returned. */
    method ReconcileLegacyPipelineBatches(db: Database, candidates: seq<PipelineId>, now: int) returns (thrown: bool)
      modifies db
      ensures (db.State(), thrown) == ReconcileAll(old(db.State()), candidates, now)
    {
      var k := 0;
      while k < |candidates|
        invariant 0 <= k <= |candidates|
        invariant ReconcileAll(old(db.State()), candidates, now) == ReconcileAll(db.State(), candidates[k..], now)
      {
        var verdict := ReconcileOne(db, candidates[k], now);
        if verdict.RelationConflict? {
          return true;
        }
        assert candidates[k..][1..] == candidates[k + 1..];
        k := k + 1;
      }
      return false;
    }

    method ReconcileOne(db: Database, pid: PipelineId, now: int) returns (verdict: LegacyOutcome)
      modifies db
      ensures verdict == LegacyVerdict(old(db.State()), pid, now)
      ensures db.State() == ReconcileLegacy(old(db.State()), pid, now)
    {
      ghost var t := db.State();
      db.Begin();
      if pid !in db.pipelines || !db.pipelines[pid].batchState.Legacy? || !db.pipelines[pid].status.Open() {
        return NotLegacy;
      }
      var row := db.pipelines[pid];
      if LeaseRuns(row.lease, now) || (row.owner != "" && db.State().LiveBridge(Some(row.owner), now)) {
        return OwnerLive;
      }
      var observed := ObservedJobs(db.State(), pid);
      if ManifestComplete(db.State(), pid) {
        var inserted := InsertManifest(db, pid, row.queueJobIds);
        NothingTaken(t, pid);
        if !inserted {
          db.Rollback();
          return RelationConflict;
        }
        UpdateObserved(db, observed, true);
        db.pipelines := db.pipelines[pid := row.(status := RunningPipeline, revision := row.revision + 1,
                                                 expectedChildCount := ExpectedCount(row), batchState := Released)];
        return ReleasedBatch;
      }
      UpdateObserved(db, observed, false);
      db.pipelines := db.pipelines[pid := row.(status := FailedPipeline, revision := row.revision + 1,
                                               expectedChildCount := ExpectedCount(row), batchState := Incomplete)];
      return FailedBatch;
    }

    /** Relation rows in manifest order; the first taken job or ordinal throws. */
    method InsertManifest(db: Database, pid: PipelineId, ids: seq<JobId>) returns (inserted: bool)
      requires |set j | j in ids| == |ids|
      modifies db`children
      ensures inserted <==> forall i :: 0 <= i < |ids| ==> !Taken(old(db.children), ids[i], ChildRow(pid, i))
      ensures inserted ==> db.children == old(db.children) + ManifestRelation(pid, ids)
    {
      FullSetHasNoRepeats(ids);
      ghost var before := db.children;
      var k := 0;
      while k < |ids|
        invariant 0 <= k <= |ids|
        invariant db.children == before + ManifestRelation(pid, ids[..k])
        invariant forall i :: 0 <= i < k ==> !Taken(before, ids[i], ChildRow(pid, i))
      {
        TakenBefore(before, pid, ids, k);
        if Taken(db.children, ids[k], ChildRow(pid, k)) {
          return false;
        }
        db.children := db.children[ids[k] := ChildRow(pid, k)];
        assert ids[..k + 1][..k] == ids[..k];
        k := k + 1;
      }
      assert ids[..k] == ids;
      return true;
    }

    /** One update per observed row, as the code loops over them. */
    method UpdateObserved(db: Database, observed: set<JobId>, release: bool)
      requires observed <= db.jobs.Keys
      modifies db`jobs
      ensures db.jobs == map j | j in old(db.jobs) ::
                if j !in observed then old(db.jobs)[j]
                else if release then ReleaseHeld(old(db.jobs)[j]) else CancelUnstarted(old(db.jobs)[j])
    {
      ghost var before := db.jobs;
      var todo := observed;
      while todo != {}
        invariant todo <= observed
        invariant db.jobs.Keys == before.Keys
        invariant forall j :: j in before ==>
                    db.jobs[j] == (if j !in observed - todo then before[j]
                                   else if release then ReleaseHeld(before[j]) else CancelUnstarted(before[j]))
        decreases |todo|
      {
        var j :| j in todo;
        var row := db.jobs[j];
        if release {
          if row.status.Held? {
            db.jobs := db.jobs[j := row.(status := Pending, revision := row.revision + 1)];
          }
        } else if row.status.PreExecution() {
          db.jobs := db.jobs[j := row.(status := Cancelled, lease := None, revision := row.revision + 1)];
        }
        todo := todo - {j};
      }
    }
  }

  predicate Taken(rows: map<JobId, ChildRow>, j: JobId, row: ChildRow) {
    j in rows || exists other :: other in rows && rows[other] == row
  }

  /** Whether insert number `k` is blocked depends on the rows from before the first insert only. */
  lemma TakenBefore(before: map<JobId, ChildRow>, pid: PipelineId, ids: seq<JobId>, k: nat)
    requires NoRepeats(ids) && k < |ids|
    requires forall j :: j in ids[..k] ==> j !in before
    ensures Taken(before + ManifestRelation(pid, ids[..k]), ids[k], ChildRow(pid, k)) <==> Taken(before, ids[k], ChildRow(pid, k))
  {
    var now := before + ManifestRelation(pid, ids[..k]);
    ManifestRelationIs(pid, ids[..k]);
    assert ids[k] !in ids[..k];
    assert forall j :: j in before ==> now[j] == before[j];
  }

  lemma NothingTaken(t: Tables, pid: PipelineId)
    requires pid in t.pipelines
    ensures var ids := t.pipelines[pid].queueJobIds;
            (forall i :: 0 <= i < |ids| ==> !Taken(t.children, ids[i], ChildRow(pid, i)))
            <==> !(exists j :: j in ids && j in t.children)
                 && !(exists j :: j in t.children && t.children[j].pipelineId == pid && t.children[j].ordinal < |ids|)
  {
    var ids := t.pipelines[pid].queueJobIds;
    if j :| j in ids && j in t.children {
      var i :| 0 <= i < |ids| && ids[i] == j;
      assert Taken(t.children, ids[i], ChildRow(pid, i));
    }
    if j :| j in t.children && t.children[j].pipelineId == pid && t.children[j].ordinal < |ids| {
      var i := t.children[j].ordinal;
      assert t.children[j] == ChildRow(pid, i);
      assert Taken(t.children, ids[i], ChildRow(pid, i));
    }
  }
}

/**
 The direct-run audit of bin/direct-run-audit.js: a table of runs that several bridges share, bounded in
 rows, closing the records of dead bridges and evicting old finished ones.  Run ids stand for themselves
 in collation order; every write is one transaction.
 */
module AuditTable {
  import opened Options

  const DAY_MS := 86_400_000
  const LEGACY_ABANDON_AFTER_MS := DAY_MS

  type RunId = nat

  datatype Status = Started | Abandoned | Ended(outcome: string)

  /** An owner process of 0 means none was recorded. */
  datatype Run = Run(status: Status, startedAt: nat, finishedAt: Option<nat>, owner: string, pid: nat)

  type Table = map<RunId, Run>

  /** One bridge at one moment: what it is, what it sees, and its limits. */
  datatype Bridge = Bridge(instance: string, pid: nat, alive: nat -> bool, now: nat, maxRows: nat, retentionMs: nat)

  predicate Unfinished(r: Run) { r.finishedAt.None? }

  ghost predicate WellFormed(t: Table) {
    forall id :: id in t ==> (t[id].status.Started? <==> Unfinished(t[id]))
  }

  function UnfinishedIds(t: Table): set<RunId> { set id | id in t && Unfinished(t[id]) }

  function FinishedIds(t: Table): set<RunId> { set id | id in t && !Unfinished(t[id]) }

  // ---------------------------------------------------------------- closing orphans

  /** A started record of another bridge instance whose process is gone, or too old to have recorded one. */
  predicate Orphan(b: Bridge, r: Run) {
    && r.status.Started?
    && !(b.instance != "" && r.owner == b.instance)
    && (if r.pid > 0 then !b.alive(r.pid) else r.startedAt + LEGACY_ABANDON_AFTER_MS < b.now)
  }

  function Close(b: Bridge, r: Run): Run {
    if Orphan(b, r) then r.(status := Abandoned, finishedAt := Some(b.now)) else r
  }

  function Closed(t: Table, b: Bridge): Table { map id | id in t :: Close(b, t[id]) }

  // ---------------------------------------------------------------- retention and eviction

  predicate Expired(b: Bridge, r: Run) { r.finishedAt.Some? && r.finishedAt.value + b.retentionMs < b.now }

  function Retained(t: Table, b: Bridge): Table { map id | id in t && !Expired(b, t[id]) :: t[id] }

  /** Eviction order: finish time, then run id. */
  predicate NotAfter(t: Table, a: RunId, b: RunId)
    requires a in t && b in t && !Unfinished(t[a]) && !Unfinished(t[b])
  {
    t[a].finishedAt.value < t[b].finishedAt.value || (t[a].finishedAt.value == t[b].finishedAt.value && a <= b)
  }

  predicate Oldest(t: Table, id: RunId) {
    id in t && !Unfinished(t[id]) && forall other :: other in t && !Unfinished(t[other]) ==> NotAfter(t, id, other)
  }

  lemma {:induction false} OldestAmong(t: Table, among: set<RunId>) returns (id: RunId)
    requires among != {} && forall k :: k in among ==> k in t && !Unfinished(t[k])
    ensures id in among && forall k :: k in among ==> NotAfter(t, id, k)
    decreases |among|
  {
    var k :| k in among;
    var rest := among - {k};
    if rest == {} {
      id := k;
      assert among == rest + {k};
    } else {
      var best := OldestAmong(t, rest);
      id := if NotAfter(t, best, k) then best else k;
      forall other | other in among ensures NotAfter(t, id, other) {
        if other != k { assert other in rest; }
      }
    }
  }

  lemma OldestExists(t: Table)
    requires FinishedIds(t) != {}
    ensures exists id :: Oldest(t, id)
  {
    var id := OldestAmong(t, FinishedIds(t));
    forall other | other in t && !Unfinished(t[other]) ensures NotAfter(t, id, other) { assert other in FinishedIds(t); }
    assert Oldest(t, id);
  }

  lemma OldestIsUnique(t: Table, a: RunId, b: RunId)
    requires Oldest(t, a) && Oldest(t, b)
    ensures a == b
  {
  }

  /** The n oldest finished records gone, or all finished ones when there are no more. */
  ghost function Evicted(t: Table, n: nat): Table
    decreases n
  {
    if n == 0 || FinishedIds(t) == {} then t
    else
      OldestExists(t);
      var id :| Oldest(t, id);
      Evicted(t - {id}, n - 1)
  }

  ghost function Pruned(t: Table, b: Bridge, reserve: nat): Table {
    var kept := Retained(Closed(t, b), b);
    Evicted(kept, if |kept| + reserve > b.maxRows then |kept| + reserve - b.maxRows else 0)
  }

  // ---------------------------------------------------------------- the two writes

  datatype Result = Written | Refused

  /** The start record: refused, with the whole transaction undone, when the table is full of unfinished records or the id is taken. */
  ghost function Start(t: Table, b: Bridge, id: RunId): (Table, Result) {
    var p := Pruned(t, b, 1);
    if |p| >= b.maxRows || id in p then (t, Refused) else (p[id := Run(Started, b.now, None, b.instance, b.pid)], Written)
  }

  /** The finish record: refused when the run's record is gone. */
  ghost function Finish(t: Table, b: Bridge, id: RunId, outcome: string): (Table, Result) {
    var p := Pruned(t, b, 0);
    if id !in p then (t, Refused) else (p[id := p[id].(status := Ended(outcome), finishedAt := Some(b.now))], Written)
  }

  // ---------------------------------------------------------------- what eviction does

  /** What is kept is kept as it was, and no unfinished record goes. */
  ghost predicate KeepsUnfinished(t: Table, kept: Table) {
    && (forall id :: id in kept ==> id in t && kept[id] == t[id])
    && (forall id :: id in t && Unfinished(t[id]) ==> id in kept)
  }

  /** Everything gone is at least as old as every finished record that stays. */
  ghost predicate OldestFirst(t: Table, kept: Table) {
    forall gone, stays :: gone in t && gone !in kept && stays in kept && stays in t && !Unfinished(t[stays]) ==>
      !Unfinished(t[gone]) && NotAfter(t, gone, stays)
  }

  lemma RemoveOne(t: Table, id: RunId)
    requires id in t && !Unfinished(t[id])
    ensures |t - {id}| == |t| - 1 && FinishedIds(t - {id}) == FinishedIds(t) - {id} && |FinishedIds(t - {id})| == |FinishedIds(t)| - 1
  {
    assert (t - {id}).Keys == t.Keys - {id};
  }

  lemma EvictedUnfolds(t: Table, n: nat) returns (id: RunId)
    requires n > 0 && FinishedIds(t) != {}
    ensures Oldest(t, id) && Evicted(t, n) == Evicted(t - {id}, n - 1)
  {
    OldestExists(t);
    id :| Oldest(t, id) && Evicted(t, n) == Evicted(t - {id}, n - 1);
  }

  lemma {:induction false} EvictedKeeps(t: Table, n: nat)
    ensures KeepsUnfinished(t, Evicted(t, n))
    decreases n
  {
    if n > 0 && FinishedIds(t) != {} {
      var id := EvictedUnfolds(t, n);
      EvictedKeeps(t - {id}, n - 1);
    }
  }

  lemma {:induction false} EvictedCounts(t: Table, n: nat)
    ensures |t| == |Evicted(t, n)| + (if n <= |FinishedIds(t)| then n else |FinishedIds(t)|)
    decreases n
  {
    if n > 0 && FinishedIds(t) != {} {
      var id := EvictedUnfolds(t, n);
      RemoveOne(t, id);
      EvictedCounts(t - {id}, n - 1);
    }
  }

  lemma {:induction false} EvictedIsOldest(t: Table, n: nat)
    ensures OldestFirst(t, Evicted(t, n))
    decreases n
  {
    if n > 0 && FinishedIds(t) != {} {
      var id := EvictedUnfolds(t, n);
      EvictedIsOldest(t - {id}, n - 1);
      EvictedKeeps(t - {id}, n - 1);
    }
  }

  /** The two kinds of records make up the table. */
  lemma Counts(t: Table)
    ensures |t| == |UnfinishedIds(t)| + |FinishedIds(t)|
  {
    assert UnfinishedIds(t) !! FinishedIds(t) && t.Keys == UnfinishedIds(t) + FinishedIds(t);
  }

  // ---------------------------------------------------------------- the bound

  /** Unfinished records after orphan closing: what pruning can never remove. */
  function Open(t: Table, b: Bridge): set<RunId> { UnfinishedIds(Closed(t, b)) }

  lemma PrunedKeeps(t: Table, b: Bridge, reserve: nat)
    ensures var p := Pruned(t, b, reserve); UnfinishedIds(p) == Open(t, b) && forall id :: id in p ==> id in t && p[id] == Close(b, t[id])
  {
    var kept := Retained(Closed(t, b), b);
    var n := if |kept| + reserve > b.maxRows then |kept| + reserve - b.maxRows else 0;
    EvictedKeeps(kept, n);
    var p := Evicted(kept, n);
    forall id | id in Open(t, b) ensures id in UnfinishedIds(p) {
      assert id in kept;
    }
    forall id | id in UnfinishedIds(p) ensures id in Open(t, b) {
      assert id in kept;
    }
  }

  lemma PrunedFits(t: Table, b: Bridge, reserve: nat)
    requires reserve <= b.maxRows
    ensures |Pruned(t, b, reserve)| + reserve <= b.maxRows <==> |Open(t, b)| + reserve <= b.maxRows
    ensures |Pruned(t, b, reserve)| <= |t|
  {
    var c := Closed(t, b);
    var kept := Retained(c, b);
    var n := if |kept| + reserve > b.maxRows then |kept| + reserve - b.maxRows else 0;
    EvictedCounts(kept, n);
    EvictedKeeps(kept, n);
    Counts(kept);
    PrunedKeeps(t, b, reserve);
    assert UnfinishedIds(kept) == Open(t, b);
    Counts(Pruned(t, b, reserve));
    SmallerMap(kept, c);
    SmallerMap(c, t);
  }

  lemma SmallerMap(a: Table, b: Table)
    requires a.Keys <= b.Keys
    ensures |a| <= |b|
  {
    SubsetSize(a.Keys, b.Keys);
  }

  lemma {:induction false} SubsetSize(a: set<RunId>, b: set<RunId>)
    requires a <= b
    ensures |a| <= |b|
  {
    if a != {} {
      var k :| k in a;
      SubsetSize(a - {k}, b - {k});
    }
  }

  /** A start succeeds exactly when fewer than maxRows unfinished records remain after orphan closing, and no kept record has its id. */
  lemma StartSucceedsIff(t: Table, b: Bridge, id: RunId)
    requires b.maxRows >= 1
    ensures Start(t, b, id).1.Written? <==> |Open(t, b)| < b.maxRows && id !in Pruned(t, b, 1)
  {
    PrunedFits(t, b, 1);
  }

  /** So with a fresh id only the unfinished records matter; but an id in use by an unfinished record is refused however empty the table is. */
  lemma StartWithId(t: Table, b: Bridge, id: RunId)
    requires b.maxRows >= 1
    ensures id !in t ==> (Start(t, b, id).1.Written? <==> |Open(t, b)| < b.maxRows)
    ensures id in Open(t, b) ==> Start(t, b, id) == (t, Refused)
  {
    StartSucceedsIff(t, b, id);
    PrunedKeeps(t, b, 1);
  }

  lemma InsertOne(t: Table, id: RunId, r: Run)
    ensures |t[id := r]| == if id in t then |t| else |t| + 1
  {
    assert t[id := r].Keys == t.Keys + {id};
  }

  // ---------------------------------------------------------------- any number of bridges

  datatype Write = StartRun(id: RunId) | FinishRun(id: RunId, outcome: string)

  datatype Turn = Turn(bridge: Bridge, write: Write)

  ghost function Apply(t: Table, turn: Turn): (Table, Result) {
    match turn.write
    case StartRun(id) => Start(t, turn.bridge, id)
    case FinishRun(id, outcome) => Finish(t, turn.bridge, id, outcome)
  }

  ghost function After(t: Table, turns: seq<Turn>): Table {
    if turns == [] then t else Apply(After(t, turns[..|turns| - 1]), turns[|turns| - 1]).0
  }

  lemma ApplyKeepsBound(t: Table, turn: Turn)
    requires turn.bridge.maxRows >= 1 && |t| <= turn.bridge.maxRows
    ensures |Apply(t, turn).0| <= turn.bridge.maxRows
  {
    var b := turn.bridge;
    match turn.write
    case StartRun(id) =>
      var p := Pruned(t, b, 1);
      PrunedFits(t, b, 1);
      InsertOne(p, id, Run(Started, b.now, None, b.instance, b.pid));
    case FinishRun(id, outcome) =>
      var p := Pruned(t, b, 0);
      PrunedFits(t, b, 0);
      if id in p { InsertOne(p, id, p[id].(status := Ended(outcome), finishedAt := Some(b.now))); }
  }

  /** However bridges that share one bound interleave, the table never exceeds it. */
  lemma {:induction false} BoundHolds(t: Table, turns: seq<Turn>, maxRows: nat)
    requires maxRows >= 1 && |t| <= maxRows && forall k :: 0 <= k < |turns| ==> turns[k].bridge.maxRows == maxRows
    ensures |After(t, turns)| <= maxRows
  {
    if turns != [] {
      BoundHolds(t, turns[..|turns| - 1], maxRows);
      ApplyKeepsBound(After(t, turns[..|turns| - 1]), turns[|turns| - 1]);
    }
  }

  /** This turn's bridge sees the record's owner alive, and the turn does not end the run. */
  predicate Spares(turn: Turn, id: RunId, r: Run) {
    !Orphan(turn.bridge, r) && !(turn.write.FinishRun? && turn.write.id == id)
  }

  lemma SparedStays(t: Table, turn: Turn, id: RunId)
    requires id in t && t[id].status.Started? && Unfinished(t[id]) && Spares(turn, id, t[id])
    ensures id in Apply(t, turn).0 && Apply(t, turn).0[id] == t[id]
  {
    PrunedKeeps(t, turn.bridge, if turn.write.StartRun? then 1 else 0);
    assert id in Open(t, turn.bridge);
  }

  /**
   An unfinished record whose owner every acting bridge sees alive is never closed, evicted or replaced,
   whatever the bridges do; so the owner's finish finds it and writes its outcome.
   */
  lemma {:induction false} LiveRecordStays(t: Table, turns: seq<Turn>, id: RunId)
    requires id in t && t[id].status.Started? && Unfinished(t[id]) && forall k :: 0 <= k < |turns| ==> Spares(turns[k], id, t[id])
    ensures id in After(t, turns) && After(t, turns)[id] == t[id]
  {
    if turns != [] {
      LiveRecordStays(t, turns[..|turns| - 1], id);
      SparedStays(After(t, turns[..|turns| - 1]), turns[|turns| - 1], id);
    }
  }

  lemma LiveRunFinishes(t: Table, turns: seq<Turn>, id: RunId, owner: Bridge, outcome: string)
    requires id in t && t[id].status.Started? && Unfinished(t[id]) && forall k :: 0 <= k < |turns| ==> Spares(turns[k], id, t[id])
    requires owner.instance != "" && t[id].owner == owner.instance
    ensures var (u, result) := Finish(After(t, turns), owner, id, outcome);
            result.Written? && id in u && u[id] == t[id].(status := Ended(outcome), finishedAt := Some(owner.now))
  {
    LiveRecordStays(t, turns, id);
    PrunedKeeps(After(t, turns), owner, 0);
    assert id in Open(After(t, turns), owner);
  }

  /** A record closed as abandoned yields to its owner's finish, exactly when it has not been removed since. */
  lemma FinishSucceedsIff(t: Table, b: Bridge, id: RunId, outcome: string)
    ensures Finish(t, b, id, outcome).1.Written? <==> id in Pruned(t, b, 0)
    ensures id in t && |t| <= b.maxRows && !Expired(b, Close(b, t[id])) ==> Finish(t, b, id, outcome).1.Written?
  {
    var c := Closed(t, b);
    SmallerMap(Retained(c, b), c);
    SmallerMap(c, t);
  }

  /** The owner is another bridge's, and is gone as far as this bridge can tell: by its process, or by age without one. */
  predicate SeenGone(b: Bridge, r: Run) {
    && (b.instance == "" || r.owner != b.instance)
    && ((r.pid > 0 && !b.alive(r.pid)) || (r.pid == 0 && r.startedAt + LEGACY_ABANDON_AFTER_MS < b.now))
  }

  /**
   The turns that change a running record are exactly those that are written and finish it, or whose bridge
   sees another's owner gone; a refused turn changes nothing, so it closes nobody's record either.  (A bridge sees
   its own process alive.)
   */
  lemma RunningChangesIff(t: Table, turn: Turn, id: RunId)
    requires id in t && t[id].status.Started? && Unfinished(t[id])
    requires turn.bridge.pid > 0 ==> turn.bridge.alive(turn.bridge.pid)
    ensures var (u, result) := Apply(t, turn);
            (id !in u || u[id] != t[id]) <==>
              result.Written? && ((turn.write.FinishRun? && turn.write.id == id) || SeenGone(turn.bridge, t[id]))
  {
    var reserve := if turn.write.StartRun? then 1 else 0;
    PrunedKeeps(t, turn.bridge, reserve);
    var p := Pruned(t, turn.bridge, reserve);
    if SeenGone(turn.bridge, t[id]) {
      assert id in p ==> p[id].status.Abandoned?;
    } else {
      assert id in Open(t, turn.bridge);
      assert id in UnfinishedIds(p) && p[id] == t[id];
    }
  }

  /** Over any turns: a running record that is no longer there as it was has been finished, or some bridge saw its owner gone. */
  lemma {:induction false} ChangedByFinishOrJudged(t: Table, turns: seq<Turn>, id: RunId) returns (k: nat)
    requires id in t && t[id].status.Started? && Unfinished(t[id])
    requires forall i :: 0 <= i < |turns| ==> turns[i].bridge.pid > 0 ==> turns[i].bridge.alive(turns[i].bridge.pid)
    requires id !in After(t, turns) || After(t, turns)[id] != t[id]
    ensures k < |turns| && id in After(t, turns[..k]) && After(t, turns[..k])[id] == t[id]
    ensures Apply(After(t, turns[..k]), turns[k]).1.Written?
    ensures (turns[k].write.FinishRun? && turns[k].write.id == id) || SeenGone(turns[k].bridge, t[id])
  {
    var n := |turns| - 1;
    var before := After(t, turns[..n]);
    if id in before && before[id] == t[id] {
      k := n;
      RunningChangesIff(before, turns[n], id);
    } else {
      k := ChangedByFinishOrJudged(t, turns[..n], id);
      assert turns[..n][..k] == turns[..k];
    }
  }

  lemma TurnsKeepForm(t: Table, turn: Turn)
    requires WellFormed(t)
    ensures WellFormed(Apply(t, turn).0)
  {
    PrunedKeeps(t, turn.bridge, if turn.write.StartRun? then 1 else 0);
  }

  // ---------------------------------------------------------------- a prune and a write, row by row

  /** The record as this bridge leaves it: closed now if it runs for another whose process is gone, or that left none and is a day old. */
  function AsJudged(b: Bridge, r: Run): Run {
    if r.status == Started && (b.instance == "" || r.owner != b.instance)
       && (if r.pid > 0 then !b.alive(r.pid) else r.startedAt + 86_400_000 < b.now)
    then Run(Abandoned, r.startedAt, Some(b.now), r.owner, r.pid)
    else r
  }

  /** Not finished before the retention time. */
  function Recent(t: Table, b: Bridge): set<RunId> {
    set id | id in t && match AsJudged(b, t[id]).finishedAt case Some(f) => b.now <= f + b.retentionMs case None => true
  }

  function StillRunning(t: Table, b: Bridge): set<RunId> { set id | id in t && AsJudged(b, t[id]).finishedAt == None }

  predicate FinishedNoLater(a: Run, i: RunId, b: Run, k: RunId)
    requires a.finishedAt.Some? && b.finishedAt.Some?
  {
    a.finishedAt.value < b.finishedAt.value || (a.finishedAt.value == b.finishedAt.value && i <= k)
  }

  lemma RetainedIs(t: Table, b: Bridge)
    ensures var kept := Retained(Closed(t, b), b);
            kept.Keys == Recent(t, b) && UnfinishedIds(kept) == StillRunning(t, b) && forall id :: id in kept ==> kept[id] == AsJudged(b, t[id])
  {
    var kept := Retained(Closed(t, b), b);
    assert forall id :: id in t ==> Close(b, t[id]) == AsJudged(b, t[id]);
    assert UnfinishedIds(kept) == StillRunning(t, b);
  }

  /**
   A prune leaves recent records only, as this bridge judges them: all that still run, and of the others the newest,
   as many as there is room for.
   */
  lemma PrunedMeans(t: Table, b: Bridge, reserve: nat)
    requires reserve <= b.maxRows
    ensures var p := Pruned(t, b, reserve);
            && StillRunning(t, b) <= p.Keys <= Recent(t, b)
            && (forall id :: id in p ==> p[id] == AsJudged(b, t[id]))
            && (forall gone, stays :: gone in Recent(t, b) && gone !in p && stays in p && p[stays].finishedAt.Some? ==>
                  AsJudged(b, t[gone]).finishedAt.Some? && FinishedNoLater(AsJudged(b, t[gone]), gone, p[stays], stays))
    ensures var (all, running, room) := (|Recent(t, b)|, |StillRunning(t, b)|, b.maxRows - reserve);
            |Pruned(t, b, reserve)| == if all <= room then all else if running <= room then room else running
  {
    var kept := Retained(Closed(t, b), b);
    var n := if |kept| + reserve > b.maxRows then |kept| + reserve - b.maxRows else 0;
    RetainedIs(t, b);
    EvictedKeeps(kept, n);
    EvictedIsOldest(kept, n);
    EvictedCounts(kept, n);
    Counts(kept);
    assert |kept| == |kept.Keys|;
    forall gone, stays | gone in Recent(t, b) && gone !in Pruned(t, b, reserve) && stays in Pruned(t, b, reserve) && kept[stays].finishedAt.Some?
      ensures AsJudged(b, t[gone]).finishedAt.Some? && FinishedNoLater(AsJudged(b, t[gone]), gone, kept[stays], stays)
    {
      assert gone in kept && kept[gone] == AsJudged(b, t[gone]);
      assert NotAfter(kept, gone, stays);
    }
  }

  /** A write then adds or ends exactly its own record; a refused one leaves the table as it was before the prune. */
  lemma WriteMeans(t: Table, turn: Turn)
    ensures var (u, result) := Apply(t, turn);
            var b := turn.bridge;
            match turn.write
            case StartRun(id) =>
              if result == Refused then u == t
              else u == Pruned(t, b, 1)[id := Run(Started, b.now, None, b.instance, b.pid)] && id !in Pruned(t, b, 1)
            case FinishRun(id, outcome) =>
              if result == Refused then u == t && id !in Pruned(t, b, 0)
              else id in Pruned(t, b, 0) && id in t
                   && u == Pruned(t, b, 0)[id := Run(Ended(outcome), t[id].startedAt, Some(b.now), t[id].owner, t[id].pid)]
  {
    PrunedKeeps(t, turn.bridge, 0);
  }
}

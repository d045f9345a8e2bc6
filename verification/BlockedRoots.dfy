/**
 Which repositories a recovery pass leaves blocked (`reconcileQueueStateAtStartup` in server.js): each
 database remembers the roots its last scan found operations for, a pass forgets and rescans databases,
 drops blocked roots that no database remembers, and recovers the candidates it found.
 */
module BlockedRoots {
  import opened Options

  type DbPath = string
  type Root = string

  /** An unresolved integration operation. */
  datatype OpRow = OpRow(root: Option<Root>, quarantined: bool, ownerLive: bool, serialActive: bool)

  /** What a pass gets out of a database that exists. */
  datatype Scan =
    | Skipped                    // another worker's, a live worker's, or unchanged since the last scan
    | FailedEarly                // an error before the operations were read
    | NoJobs                     // no job table, so no operations are read either
    | Scanned(rows: seq<OpRow>)  // the operations were read, whatever happened afterwards

  datatype Visit = Visit(db: DbPath, scan: Scan)

  datatype Outcome = Recovered | LockConflict | StillQuarantined | Threw

  datatype Candidate = Candidate(needsRecovery: bool, quarantinedOnly: bool)

  /** One pass: the databases that exist, the visits to those of them it considers, the roots tried recently, and how recoveries end. */
  datatype Pass = Pass(present: set<DbPath>, visits: seq<Visit>, recent: set<Root>, outcome: Root -> Outcome)

  datatype State = State(rootsByDb: map<DbPath, set<Root>>, blocked: set<Root>)

  predicate VisitedOnce(visits: seq<Visit>) { forall i, j :: 0 <= i < j < |visits| ==> visits[i].db != visits[j].db }

  /** Only what exists is visited, and once; what exists unvisited was not considered, as when the projects directory cannot be read. */
  predicate WellFormed(p: Pass) {
    && (forall i :: 0 <= i < |p.visits| ==> p.visits[i].db in p.present)
    && VisitedOnce(p.visits)
  }

  predicate Visited(p: Pass, db: DbPath) { exists i :: 0 <= i < |p.visits| && p.visits[i].db == db }

  // ---------------------------------------------------------------- scans

  predicate Live(row: OpRow) { !row.quarantined && row.ownerLive && row.serialActive }

  function RootsOf(rows: seq<OpRow>): set<Root> {
    set i | 0 <= i < |rows| && rows[i].root.Some? :: rows[i].root.value
  }

  lemma RootsMean(rows: seq<OpRow>, r: Root)
    ensures r in RootsOf(rows) <==> exists row :: row in rows && row.root == Some(r)
  {
    if row :| row in rows && row.root == Some(r) {
      var i :| 0 <= i < |rows| && rows[i] == row;
      assert rows[i].root.value == r;
    }
  }

  function Remember(roots: map<DbPath, set<Root>>, v: Visit): map<DbPath, set<Root>> {
    match v.scan
    case Scanned(rows) => roots[v.db := RootsOf(rows)]
    case NoJobs => roots[v.db := {}]
    case _ => roots
  }

  function RememberAll(roots: map<DbPath, set<Root>>, visits: seq<Visit>): map<DbPath, set<Root>> {
    if visits == [] then roots else Remember(RememberAll(roots, visits[..|visits| - 1]), visits[|visits| - 1])
  }

  function RowsRead(v: Visit): seq<OpRow> { if v.scan.Scanned? then v.scan.rows else [] }

  /** Every operation row the visits read, in order. */
  function AllRows(visits: seq<Visit>): seq<OpRow> {
    if visits == [] then [] else AllRows(visits[..|visits| - 1]) + RowsRead(visits[|visits| - 1])
  }

  function AddRow(found: map<Root, Candidate>, row: OpRow): map<Root, Candidate> {
    if row.root.None? then found
    else
      var known := if row.root.value in found then found[row.root.value] else Candidate(false, true);
      found[row.root.value := Candidate(known.needsRecovery || !Live(row), known.quarantinedOnly && row.quarantined)]
  }

  function Candidates(rows: seq<OpRow>): map<Root, Candidate> {
    if rows == [] then map[] else AddRow(Candidates(rows[..|rows| - 1]), rows[|rows| - 1])
  }

  /** Which candidates there are and what each needs, read off the rows alone. */
  lemma {:induction false} CandidateMeans(rows: seq<OpRow>, r: Root)
    ensures r in Candidates(rows) <==> exists row :: row in rows && row.root == Some(r)
    ensures r in Candidates(rows) ==>
              (Candidates(rows)[r].needsRecovery <==>
               exists row :: row in rows && row.root == Some(r) && (row.quarantined || !row.ownerLive || !row.serialActive))
    ensures r in Candidates(rows) ==>
              (Candidates(rows)[r].quarantinedOnly <==> forall row :: row in rows && row.root == Some(r) ==> row.quarantined)
  {
    if rows != [] {
      var rest, last := rows[..|rows| - 1], rows[|rows| - 1];
      CandidateMeans(rest, r);
      assert rows == rest + [last];
      assert forall row :: row in rows <==> row in rest || row == last;
    }
  }

  // ---------------------------------------------------------------- the pass

  function Found(p: Pass): map<Root, Candidate> { Candidates(AllRows(p.visits)) }

  /** Only databases that are considered and exist keep their memory. */
  function Kept(s: State, p: Pass): map<DbPath, set<Root>> {
    map db | db in s.rootsByDb && Visited(p, db) :: s.rootsByDb[db]
  }

  function Remembered(s: State, p: Pass): map<DbPath, set<Root>> { RememberAll(Kept(s, p), p.visits) }

  function At(roots: map<DbPath, set<Root>>, db: DbPath): set<Root> { if db in roots then roots[db] else {} }

  ghost predicate Lists(roots: map<DbPath, set<Root>>, r: Root) { exists db :: r in At(roots, db) }

  predicate Throttled(p: Pass, r: Root)
    requires r in Found(p)
  {
    Found(p)[r].quarantinedOnly && r in p.recent
  }

  /** The pass ran this root's serial recovery and it returned ok. */
  predicate Freed(p: Pass, r: Root) {
    r in Found(p) && Found(p)[r].needsRecovery && !Throttled(p, r) && p.outcome(r).Recovered?
  }

  /** The pass blocks this root: recovery is needed and was throttled, refused or threw. */
  predicate BlockedNow(p: Pass, r: Root) {
    r in Found(p) && Found(p)[r].needsRecovery && (Throttled(p, r) || p.outcome(r).StillQuarantined? || p.outcome(r).Threw?)
  }

  ghost function After(s: State, p: Pass): State {
    State(Remembered(s, p),
          (set r | r in s.blocked && Lists(Remembered(s, p), r) && !Freed(p, r)) + (set r | r in Found(p) && BlockedNow(p, r)))
  }

  ghost function Run(s: State, passes: seq<Pass>): State {
    if passes == [] then s else After(Run(s, passes[..|passes| - 1]), passes[|passes| - 1])
  }

  lemma RunOneMore(s: State, passes: seq<Pass>, p: Pass)
    ensures Run(s, passes + [p]) == After(Run(s, passes), p)
  {
    var all := passes + [p];
    assert all[..|all| - 1] == passes && all[|all| - 1] == p;
  }

  // ---------------------------------------------------------------- what is remembered

  function ScanOf(visits: seq<Visit>, db: DbPath): Option<Scan> {
    if visits == [] then None
    else
      var last := visits[|visits| - 1];
      if last.db == db then Some(last.scan) else ScanOf(visits[..|visits| - 1], db)
  }

  function MemoryAfter(scan: Scan, before: set<Root>): set<Root> {
    match scan
    case Scanned(rows) => RootsOf(rows)
    case NoJobs => {}
    case _ => before
  }

  lemma {:induction false} ScanOfMeans(visits: seq<Visit>, db: DbPath)
    ensures ScanOf(visits, db).Some? <==> exists i :: 0 <= i < |visits| && visits[i].db == db
  {
    if visits != [] {
      ScanOfMeans(visits[..|visits| - 1], db);
    }
  }

  lemma {:induction false} RememberAllAt(roots: map<DbPath, set<Root>>, visits: seq<Visit>, db: DbPath)
    requires VisitedOnce(visits)
    ensures var scan := ScanOf(visits, db);
            At(RememberAll(roots, visits), db) == if scan.Some? then MemoryAfter(scan.value, At(roots, db)) else At(roots, db)
  {
    if visits != [] {
      var rest, last := visits[..|visits| - 1], visits[|visits| - 1];
      RememberAllAt(roots, rest, db);
      if last.db == db {
        ScanOfMeans(rest, db);
        assert ScanOf(rest, db).None?;
      }
    }
  }

  /** A pass remembers nothing of a database it does not visit. */
  lemma RememberedAt(s: State, p: Pass, db: DbPath)
    requires WellFormed(p)
    ensures var scan := ScanOf(p.visits, db);
            At(Remembered(s, p), db) == if scan.Some? then MemoryAfter(scan.value, At(s.rootsByDb, db)) else {}
  {
    ScanOfMeans(p.visits, db);
    RememberAllAt(Kept(s, p), p.visits, db);
  }

  // ---------------------------------------------------------------- what should be remembered

  /** The roots an existing database listed at its last completed operation scan. */
  function LastListed(passes: seq<Pass>, db: DbPath): set<Root> {
    if passes == [] then {}
    else
      var p := passes[|passes| - 1];
      var scan := ScanOf(p.visits, db);
      if db !in p.present then {}
      else if scan.Some? && scan.value.Scanned? then RootsOf(scan.value.rows)
      else LastListed(passes[..|passes| - 1], db)
  }

  /** It exists, but the pass did not consider it or found no job table in it. */
  predicate Overlooked(p: Pass, db: DbPath) {
    db in p.present && (ScanOf(p.visits, db).None? || ScanOf(p.visits, db) == Some(NoJobs))
  }

  /** No pass has overlooked the database since its last completed scan. */
  predicate Intact(passes: seq<Pass>, db: DbPath) {
    if passes == [] then true
    else
      var p := passes[|passes| - 1];
      var scan := ScanOf(p.visits, db);
      || db !in p.present
      || (scan.Some? && scan.value.Scanned?)
      || (!Overlooked(p, db) && Intact(passes[..|passes| - 1], db))
  }

  predicate AllWellFormed(passes: seq<Pass>) { forall i :: 0 <= i < |passes| ==> WellFormed(passes[i]) }

  lemma UnvisitedWhenAbsent(p: Pass, db: DbPath)
    requires WellFormed(p) && db !in p.present
    ensures ScanOf(p.visits, db).None?
  {
    ScanOfMeans(p.visits, db);
  }

  /** After any run the memory of a database is its last completed scan's list, unless it was overlooked since: then it is empty. */
  lemma {:induction false} RunRemembers(blocked: set<Root>, passes: seq<Pass>, db: DbPath)
    requires AllWellFormed(passes)
    ensures At(Run(State(map[], blocked), passes).rootsByDb, db) == if Intact(passes, db) then LastListed(passes, db) else {}
  {
    if passes != [] {
      var rest, p := passes[..|passes| - 1], passes[|passes| - 1];
      RunRemembers(blocked, rest, db);
      RememberedAt(Run(State(map[], blocked), rest), p, db);
      if db !in p.present { UnvisitedWhenAbsent(p, db); }
    }
  }

  // ---------------------------------------------------------------- what leaves, what enters

  lemma {:induction false} RowHasVisit(visits: seq<Visit>, row: OpRow) returns (i: nat)
    requires row in AllRows(visits)
    ensures i < |visits| && row in RowsRead(visits[i])
  {
    var rest, last := visits[..|visits| - 1], visits[|visits| - 1];
    if row in RowsRead(last) { i := |visits| - 1; } else { i := RowHasVisit(rest, row); }
  }

  lemma {:induction false} ScanOfVisit(visits: seq<Visit>, i: nat)
    requires VisitedOnce(visits) && i < |visits|
    ensures ScanOf(visits, visits[i].db) == Some(visits[i].scan)
  {
    if i < |visits| - 1 { ScanOfVisit(visits[..|visits| - 1], i); }
  }

  /** A candidate is remembered: the database it was read from lists it. */
  lemma FoundIsListed(s: State, p: Pass, r: Root)
    requires WellFormed(p) && r in Found(p)
    ensures Lists(Remembered(s, p), r)
  {
    CandidateMeans(AllRows(p.visits), r);
    var row :| row in AllRows(p.visits) && row.root == Some(r);
    var i := RowHasVisit(p.visits, row);
    ScanOfVisit(p.visits, i);
    RememberedAt(s, p, p.visits[i].db);
    var k :| 0 <= k < |RowsRead(p.visits[i])| && RowsRead(p.visits[i])[k] == row;
    assert r in RootsOf(p.visits[i].scan.rows);
    assert r in At(Remembered(s, p), p.visits[i].db);
  }

  /** A blocked root leaves exactly when its recovery returned ok or no database remembers it any more. */
  lemma LeavesIffUnlisted(s: State, p: Pass, r: Root)
    requires WellFormed(p) && r in s.blocked
    ensures r !in After(s, p).blocked <==> Freed(p, r) || !Lists(Remembered(s, p), r)
  {
    if BlockedNow(p, r) { FoundIsListed(s, p, r); }
  }

  /** Some database still lists the root: its last completed scan did, and it was not overlooked since. */
  ghost predicate StillListed(passes: seq<Pass>, r: Root) { exists db :: r in LastListed(passes, db) && Intact(passes, db) }

  lemma ListsIffStillListed(blocked: set<Root>, passes: seq<Pass>, r: Root)
    requires AllWellFormed(passes)
    ensures Lists(Run(State(map[], blocked), passes).rootsByDb, r) <==> StillListed(passes, r)
  {
    var roots := Run(State(map[], blocked), passes).rootsByDb;
    if Lists(roots, r) {
      var db :| r in At(roots, db);
      RunRemembers(blocked, passes, db);
    }
    if StillListed(passes, r) {
      var db :| r in LastListed(passes, db) && Intact(passes, db);
      RunRemembers(blocked, passes, db);
    }
  }

  /** The pass ran a recovery of this root and it returned ok: an operation needs one, and it was not put off because all are quarantined and it was tried recently. */
  lemma FreedMeans(p: Pass, r: Root)
    ensures Freed(p, r) <==>
              && (exists row :: row in AllRows(p.visits) && row.root == Some(r) && (row.quarantined || !row.ownerLive || !row.serialActive))
              && (r !in p.recent || exists row :: row in AllRows(p.visits) && row.root == Some(r) && !row.quarantined)
              && p.outcome(r) == Recovered
  {
    CandidateMeans(AllRows(p.visits), r);
  }

  /**
   After any run: a blocked root leaves in the next pass exactly when its serial recovery ran and returned ok in that
   pass, or every database whose last completed scan lists it has been overlooked since that scan.
   */
  lemma LeavesIff(blocked: set<Root>, passes: seq<Pass>, p: Pass, r: Root)
    requires AllWellFormed(passes + [p]) && r in Run(State(map[], blocked), passes).blocked
    ensures r !in Run(State(map[], blocked), passes + [p]).blocked <==>
              || !StillListed(passes + [p], r)
              || (&& (exists row :: row in AllRows(p.visits) && row.root == Some(r) && (row.quarantined || !row.ownerLive || !row.serialActive))
                  && (r !in p.recent || exists row :: row in AllRows(p.visits) && row.root == Some(r) && !row.quarantined)
                  && p.outcome(r) == Recovered)
  {
    var start, all := State(map[], blocked), passes + [p];
    assert WellFormed(all[|passes|]);
    RunOneMore(start, passes, p);
    LeavesIffUnlisted(Run(start, passes), p, r);
    ListsIffStillListed(blocked, all, r);
    FreedMeans(p, r);
  }

  /** With nothing overlooked the promise holds: only an ok recovery or the last list letting go of it unblocks a root. */
  lemma BlockedSurvivesBadScans(blocked: set<Root>, passes: seq<Pass>, p: Pass, r: Root, db: DbPath)
    requires AllWellFormed(passes + [p]) && r in Run(State(map[], blocked), passes).blocked
    requires forall i :: 0 <= i <= |passes| ==> !Overlooked((passes + [p])[i], db)
    requires r in LastListed(passes + [p], db) && !Freed(p, r)
    ensures r in Run(State(map[], blocked), passes + [p]).blocked
  {
    LeavesIff(blocked, passes, p, r);
    FreedMeans(p, r);
    IntactIfNeverOverlooked(passes + [p], db);
  }

  lemma {:induction false} IntactIfNeverOverlooked(passes: seq<Pass>, db: DbPath)
    requires forall i :: 0 <= i < |passes| ==> !Overlooked(passes[i], db)
    ensures Intact(passes, db)
  {
    if passes != [] { IntactIfNeverOverlooked(passes[..|passes| - 1], db); }
  }

  /** A root that was free becomes blocked exactly when some read operation of it needs recovery and that was throttled, refused or threw. */
  lemma EntersIff(s: State, p: Pass, r: Root)
    requires WellFormed(p) && r !in s.blocked
    ensures r in After(s, p).blocked <==>
            && (exists row :: row in AllRows(p.visits) && row.root == Some(r) && (row.quarantined || !row.ownerLive || !row.serialActive))
            && ( || p.outcome(r).StillQuarantined? || p.outcome(r).Threw?
                 || (r in p.recent && forall row :: row in AllRows(p.visits) && row.root == Some(r) ==> row.quarantined))
  {
    CandidateMeans(AllRows(p.visits), r);
  }

  /** A skipped or failed scan and a serial-lock conflict change nothing for a root they concern. */
  lemma BadScanKeepsRoot(s: State, p: Pass, r: Root, db: DbPath)
    requires WellFormed(p) && r in s.blocked && r in At(s.rootsByDb, db)
    requires ScanOf(p.visits, db) == Some(Skipped) || ScanOf(p.visits, db) == Some(FailedEarly)
    requires p.outcome(r) != Recovered
    ensures r in After(s, p).blocked && r in At(After(s, p).rootsByDb, db)
  {
    RememberedAt(s, p, db);
    LeavesIffUnlisted(s, p, r);
  }

  // ---------------------------------------------------------------- the two ways around the promise

  function QuarantinedOp(r: Root): OpRow { OpRow(Some(r), true, false, false) }

  function Refusing(present: set<DbPath>, visits: seq<Visit>): Pass { Pass(present, visits, {}, (r: Root) => StillQuarantined) }

  /** The project database is scanned and its repository blocked. */
  function Blocking(project: DbPath, r: Root): Pass { Refusing({project}, [Visit(project, Scanned([QuarantinedOp(r)]))]) }

  lemma BlockingIsRead(project: DbPath, r: Root)
    ensures var p := Blocking(project, r);
            WellFormed(p) && QuarantinedOp(r) in AllRows(p.visits) && LastListed([p], project) == {r}
  {
    var p := Blocking(project, r);
    assert p.visits[..0] == [] && AllRows([]) == [];
    assert AllRows(p.visits) == [QuarantinedOp(r)];
    assert RootsOf([QuarantinedOp(r)]) == {r} by { assert [QuarantinedOp(r)][0].root == Some(r); }
  }

  lemma BlockingBlocks(project: DbPath, r: Root)
    ensures r in Run(State(map[], {}), [Blocking(project, r)]).blocked
  {
    var p, start := Blocking(project, r), State(map[], {});
    BlockingIsRead(project, r);
    assert p.outcome(r).StillQuarantined?;
    EntersIff(start, p, r);
    RunOneMore(start, [], p);
    assert [] + [p] == [p];
  }

  /** The next pass reads and recovers nothing and the project database's last scan lists the repository, yet it is unblocked. */
  ghost predicate UnblockedUnheard(project: DbPath, r: Root, next: Pass) {
    && WellFormed(next) && AllRows(next.visits) == []
    && r in LastListed([Blocking(project, r)] + [next], project)
    && r in Run(State(map[], {}), [Blocking(project, r)]).blocked
    && r !in Run(State(map[], {}), [Blocking(project, r)] + [next]).blocked
  }

  lemma OverlookedIsNotListed(project: DbPath, r: Root, next: Pass)
    requires Overlooked(next, project)
    requires forall i :: 0 <= i < |next.visits| ==> !next.visits[i].scan.Scanned?
    ensures r in LastListed([Blocking(project, r)] + [next], project)
    ensures !StillListed([Blocking(project, r)] + [next], r)
  {
    var passes := [Blocking(project, r)];
    var all := passes + [next];
    assert all[..1] == passes && all[1] == next && passes[..0] == [];
    BlockingIsRead(project, r);
    forall db
      ensures r in LastListed(all, db) ==> !Intact(all, db)
    {
      NothingScanned(next.visits, db);
      if db != project { ListsNothingElse(project, r, db); }
    }
    NothingScanned(next.visits, project);
  }

  lemma ListsNothingElse(project: DbPath, r: Root, db: DbPath)
    requires db != project
    ensures LastListed([Blocking(project, r)], db) == {}
  {
  }

  lemma {:induction false} NothingScanned(visits: seq<Visit>, db: DbPath)
    requires forall i :: 0 <= i < |visits| ==> !visits[i].scan.Scanned?
    ensures ScanOf(visits, db).Some? ==> !ScanOf(visits, db).value.Scanned?
  {
    if visits != [] { NothingScanned(visits[..|visits| - 1], db); }
  }

  lemma OverlookedUnblocks(project: DbPath, r: Root, next: Pass)
    requires WellFormed(next) && Overlooked(next, project) && AllRows(next.visits) == []
    requires forall i :: 0 <= i < |next.visits| ==> !next.visits[i].scan.Scanned?
    ensures UnblockedUnheard(project, r, next)
  {
    BlockingIsRead(project, r);
    BlockingBlocks(project, r);
    OverlookedIsNotListed(project, r, next);
    UnlistedLeaves(Blocking(project, r), next, r);
  }

  lemma UnlistedLeaves(first: Pass, next: Pass, r: Root)
    requires WellFormed(first) && WellFormed(next) && AllRows(next.visits) == []
    requires r in Run(State(map[], {}), [first]).blocked && !StillListed([first] + [next], r)
    ensures r !in Run(State(map[], {}), [first] + [next]).blocked
  {
    assert AllWellFormed([first] + [next]);
    assert Found(next) == map[];
    LeavesIff({}, [first], next, r);
  }

  /** An unreadable projects directory: the existing project database is not considered and its memory is dropped. */
  lemma UnreadableDirectoryUnblocks(main: DbPath, project: DbPath, r: Root)
    requires main != project
    ensures UnblockedUnheard(project, r, Refusing({main, project}, [Visit(main, Skipped)]))
  {
    var p := Refusing({main, project}, [Visit(main, Skipped)]);
    assert p.visits[..0] == [] && AllRows([]) == [];
    assert ScanOf([], project) == None;
    OverlookedUnblocks(project, r, p);
  }

  /** A database without the job table: it counts as scanned with no operations. */
  lemma MissingJobTableUnblocks(project: DbPath, r: Root)
    ensures UnblockedUnheard(project, r, Refusing({project}, [Visit(project, NoJobs)]))
  {
    var p := Refusing({project}, [Visit(project, NoJobs)]);
    assert p.visits[..0] == [] && AllRows([]) == [];
    OverlookedUnblocks(project, r, p);
  }

  // ---------------------------------------------------------------- the pass as it is run

  lemma OneRowMore(before: seq<OpRow>, rows: seq<OpRow>, i: nat)
    requires i < |rows|
    ensures RootsOf(rows[..i + 1]) == RootsOf(rows[..i]) + (if rows[i].root.Some? then {rows[i].root.value} else {})
    ensures Candidates(before + rows[..i + 1]) == AddRow(Candidates(before + rows[..i]), rows[i])
  {
    var head, longer := rows[..i], rows[..i + 1];
    assert longer == head + [rows[i]];
    assert longer[i] == rows[i] && forall k :: 0 <= k < i ==> longer[k] == head[k];
    var all := before + longer;
    assert all[..|all| - 1] == before + head && all[|all| - 1] == rows[i];
  }

  class Recovery {
    var rootsByDb: map<DbPath, set<Root>>
    var blocked: set<Root>

    ghost function Value(): State
      reads this
    {
      State(rootsByDb, blocked)
    }

    constructor ()
      ensures Value() == State(map[], {})
    {
      rootsByDb, blocked := map[], {};
    }

    /** Databases that are not considered or do not exist lose their memory. */
    method Forget(p: Pass)
      modifies this`rootsByDb
      ensures rootsByDb == Kept(old(Value()), p)
    {
      var known := rootsByDb.Keys;
      while known != {}
        invariant known <= old(rootsByDb.Keys)
        invariant forall db :: db in rootsByDb <==> db in old(rootsByDb) && (db in known || Visited(p, db))
        invariant forall db :: db in rootsByDb ==> rootsByDb[db] == old(rootsByDb)[db]
        decreases |known|
      {
        var db :| db in known;
        if !Visited(p, db) { rootsByDb := rootsByDb - {db}; }
        known := known - {db};
      }
    }

    method ScanRows(rows: seq<OpRow>, ghost before: seq<OpRow>, found: map<Root, Candidate>)
      returns (roots: set<Root>, candidates: map<Root, Candidate>)
      requires found == Candidates(before)
      ensures roots == RootsOf(rows) && candidates == Candidates(before + rows)
    {
      roots, candidates := {}, found;
      assert before + rows[..0] == before;
      for i := 0 to |rows|
        invariant roots == RootsOf(rows[..i])
        invariant candidates == Candidates(before + rows[..i])
      {
        var row := rows[i];
        OneRowMore(before, rows, i);
        if row.root.Some? {
          roots := roots + {row.root.value};
          var known := if row.root.value in candidates then candidates[row.root.value] else Candidate(false, true);
          if !Live(row) { known := known.(needsRecovery := true); }
          if !row.quarantined { known := known.(quarantinedOnly := false); }
          candidates := candidates[row.root.value := known];
        }
      }
      assert rows[..|rows|] == rows;
    }

    method VisitAll(p: Pass) returns (candidates: map<Root, Candidate>)
      modifies this`rootsByDb
      ensures rootsByDb == RememberAll(old(rootsByDb), p.visits) && candidates == Found(p)
    {
      candidates := map[];
      for i := 0 to |p.visits|
        invariant rootsByDb == RememberAll(old(rootsByDb), p.visits[..i])
        invariant candidates == Candidates(AllRows(p.visits[..i]))
      {
        assert p.visits[..i + 1][..i] == p.visits[..i];
        assert AllRows(p.visits[..i + 1]) == AllRows(p.visits[..i]) + RowsRead(p.visits[i]);
        assert !p.visits[i].scan.Scanned? ==> AllRows(p.visits[..i + 1]) == AllRows(p.visits[..i]);
        match p.visits[i].scan {
          case Skipped =>
          case FailedEarly =>
          case NoJobs => rootsByDb := rootsByDb[p.visits[i].db := {}];
          case Scanned(rows) =>
            var roots, more := ScanRows(rows, AllRows(p.visits[..i]), candidates);
            candidates := more;
            rootsByDb := rootsByDb[p.visits[i].db := roots];
        }
      }
      assert p.visits[..|p.visits|] == p.visits;
    }

    /** Blocked roots no database remembers are dropped. */
    method DropUnlisted()
      modifies this`blocked
      ensures forall r :: r in blocked <==> r in old(blocked) && Lists(rootsByDb, r)
    {
      var known: set<Root>, left := {}, rootsByDb.Keys;
      while left != {}
        invariant left <= rootsByDb.Keys
        invariant forall r :: r in known <==> exists db :: db in rootsByDb && db !in left && r in At(rootsByDb, db)
        decreases |left|
      {
        var db :| db in left;
        known := known + rootsByDb[db];
        left := left - {db};
      }
      var roots := blocked;
      while roots != {}
        invariant roots <= old(blocked)
        invariant forall r :: r in blocked <==> r in old(blocked) && (r in roots || r in known)
        decreases |roots|
      {
        var r :| r in roots;
        if r !in known { blocked := blocked - {r}; }
        roots := roots - {r};
      }
    }

    method RecoverAll(p: Pass, candidates: map<Root, Candidate>)
      requires candidates == Found(p)
      modifies this`blocked
      ensures forall r :: r in blocked <==> (r in old(blocked) && !Freed(p, r)) || BlockedNow(p, r)
    {
      var left := candidates.Keys;
      while left != {}
        invariant left <= candidates.Keys
        invariant forall r :: r in left ==> (r in blocked <==> r in old(blocked))
        invariant forall r :: r !in left ==> (r in blocked <==> (r in old(blocked) && !Freed(p, r)) || BlockedNow(p, r))
        decreases |left|
      {
        var r :| r in left;
        var candidate := candidates[r];
        if candidate.needsRecovery {
          if candidate.quarantinedOnly && r in p.recent {
            blocked := blocked + {r};
          } else {
            match p.outcome(r) {
              case LockConflict =>
              case StillQuarantined => blocked := blocked + {r};
              case Threw => blocked := blocked + {r};
              case Recovered => blocked := blocked - {r};
            }
          }
        }
        left := left - {r};
      }
    }

    method ReconcileBlockedRoots(p: Pass)
      requires WellFormed(p)
      modifies this
      ensures Value() == After(old(Value()), p)
    {
      Forget(p);
      var candidates := VisitAll(p);
      DropUnlisted();
      RecoverAll(p, candidates);
    }
  }
}

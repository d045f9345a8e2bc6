/**
 `applySetupChanges` as it runs: loops over the plan that push to `applied` and `unresolved` and change
 the disk step by step, proved to follow the transaction of SetupModel.
 */
module SetupTransaction {
  import opened Options
  import opened SetupModel

  class DiskObject {
    const world: World
    var clock: nat
    var files: map<Path, Content>
    var backups: map<Path, Content>
    var journal: bool
    ghost var ours: seq<Change>

    ghost function State(): Disk
      reads this
    {
      Disk(clock, files, backups, journal, ours)
    }

    constructor (w: World, clock: nat, files: map<Path, Content>, journal: bool)
      ensures world == w && State() == Disk(clock, files, map[], journal, [])
    {
      this.world, this.clock, this.files, this.backups, this.journal, this.ours := w, clock, files, map[], journal, [];
    }

    /** One await: others may write, and the operation may fail. */
    method Wait() returns (ok: bool)
      modifies this
      ensures State() == Tick(world, old(State())) && ok == !Fails(world, old(State()))
    {
      ok := !world.fails(clock);
      files := Edited(files, world.edits(clock));
      clock := clock + 1;
    }

    method WaitTimes(n: nat) returns (ok: bool)
      modifies this
      ensures (State(), ok) == Awaits(world, old(State()), n)
    {
      ok := true;
      var left: nat := n;
      while ok && left > 0
        invariant left <= n
        invariant Awaits(world, old(State()), n) == if ok then Awaits(world, State(), left) else (State(), false)
      {
        ok := Wait();
        left := left - 1;
      }
    }

    /** link, rename and rm on a target */
    method Store(p: Path, c: Option<Content>)
      requires clock > 0
      modifies this`files, this`ours
      ensures State() == Write(old(State()), clock - 1, p, c)
    {
      ours := ours + [Change(clock - 1, p, Get(files, p), c, journal)];
      files := Put(files, p, c);
    }

    method PublishFile(f: FileChange) returns (written: Written)
      modifies this
      ensures (State(), written) == PublishNew(world, old(State()), f)
    {
      var staged := WaitTimes(1);
      var linked := Wait();
      if !staged || !linked || f.file in files {
        var _ := Wait();
        return NotWritten;
      }
      Store(f.file, Some(f.content));
      var cleaned := Wait();
      written := if cleaned then Wrote else WroteThenFailed;
    }

    method ReplaceFile(p: Path, c: Content, expected: Content) returns (done: bool)
      modifies this
      ensures (State(), done) == Replace(world, old(State()), p, c, expected)
    {
      done := Wait();
      if !done || Get(files, p) != Some(expected) { return false; }
      Store(p, Some(c));
    }

    method RemoveFile(p: Path) returns (done: bool)
      modifies this
      ensures (State(), done) == Remove(world, old(State()), p)
    {
      done := Wait();
      if !done || p !in files { return false; }
      Store(p, None);
    }

    method SaveBackup(p: Path, c: Content) returns (saved: bool)
      modifies this
      ensures (State(), saved) == WriteBackup(world, old(State()), p, c)
    {
      saved := Wait();
      if !saved || p in backups { return false; }
      backups := backups[p := c];
    }

    method ApplyFile(f: FileChange) returns (written: Written)
      modifies this
      ensures (State(), written) == ApplyOne(world, old(State()), f)
    {
      var checked := WaitTimes(2);
      if !checked { return NotWritten; }
      var read := Wait();
      if !read || Get(files, f.file) != f.before { return NotWritten; }
      var made := WaitTimes(1);
      if !made { return NotWritten; }
      if f.before.None? {
        written := PublishFile(f);
      } else {
        var saved := SaveBackup(f.file, f.before.value);
        if !saved { return NotWritten; }
        var done := ReplaceFile(f.file, f.content, f.before.value);
        written := if done then Wrote else NotWritten;
      }
    }

    method ApplyPlan(plan: seq<FileChange>) returns (applied: seq<FileChange>, failed: bool)
      modifies this
      ensures Progress(State(), applied, failed) == ApplyUpTo(world, old(State()), plan, |plan|)
    {
      applied, failed := [], false;
      for i := 0 to |plan|
        invariant Progress(State(), applied, failed) == ApplyUpTo(world, old(State()), plan, i)
      {
        if !failed {
          var written := ApplyFile(plan[i]);
          if !written.NotWritten? { applied := applied + [plan[i]]; }
          failed := !written.Wrote?;
        }
      }
    }

    method UndoFile(f: FileChange) returns (done: bool)
      modifies this
      ensures (State(), done) == UndoOne(world, old(State()), f)
    {
      done := WaitTimes(1);
      if !done { return; }
      done := Wait();
      if !done || Get(files, f.file) != Some(f.content) { return false; }
      if f.before.Some? { done := ReplaceFile(f.file, f.before.value, f.content); } else { done := RemoveFile(f.file); }
    }

    method UndoApplied(applied: seq<FileChange>) returns (unresolved: seq<Path>)
      modifies this
      ensures Undo(State(), unresolved) == UndoAll(world, Undo(old(State()), []), applied)
    {
      unresolved := [];
      var left := applied;
      while left != []
        invariant UndoAll(world, Undo(State(), unresolved), left) == UndoAll(world, Undo(old(State()), []), applied)
        decreases |left|
      {
        var f := left[|left| - 1];
        left := left[..|left| - 1];
        var done := UndoFile(f);
        if !done { unresolved := unresolved + [f.file]; }
      }
    }

    method DropJournal() returns (gone: bool)
      modifies this
      ensures (State(), gone) == RemoveJournal(world, old(State()))
    {
      gone := Wait();
      journal := journal && !gone;
    }

    method RollBackApplied(applied: seq<FileChange>) returns (o: Outcome)
      modifies this
      ensures (State(), o) == RollBack(world, old(State()), applied)
    {
      var unresolved := UndoApplied(applied);
      if unresolved != [] { return RolledBack(unresolved); }
      var gone := DropJournal();
      o := if gone then RolledBack([]) else JournalStuck;
    }

    method CheckPlan(plan: seq<FileChange>) returns (fine: bool)
      modifies this
      ensures (State(), fine) == CheckUpTo(world, old(State()), plan, |plan|)
    {
      fine := true;
      for i := 0 to |plan|
        invariant (State(), fine) == CheckUpTo(world, old(State()), plan, i)
      {
        if fine {
          fine := WaitTimes(1);
          if fine {
            fine := Wait();
            fine := fine && Get(files, plan[i].file) == plan[i].before;
          }
        }
      }
    }

    method BeginSetup(plan: seq<FileChange>, stamp: string) returns (prepared: Option<seq<FileChange>>)
      modifies this
      ensures (State(), prepared) == Begin(world, old(State()), plan, stamp)
    {
      var looked := WaitTimes(2);
      if !looked || journal { return None; }
      var fine := CheckPlan(plan);
      if !fine { return None; }
      var made := WaitTimes(1);
      prepared := PreparePlan(plan, stamp);
      if !made || prepared.None? { return None; }
      var ok := Wait();
      if !ok || journal { return None; }
      journal := true;
    }

    method ApplySetupChanges(plan: seq<FileChange>, stamp: string) returns (o: Outcome)
      modifies this
      ensures (State(), o) == Transaction(world, old(State()), plan, stamp)
    {
      var prepared := BeginSetup(plan, stamp);
      if prepared.None? { return Refused; }
      o := CommitPlan(prepared.value);
    }

    method CommitPlan(plan: seq<FileChange>) returns (o: Outcome)
      modifies this
      ensures (State(), o) == Commit(world, old(State()), plan)
    {
      var applied, failed := ApplyPlan(plan);
      if !failed {
        var verified := WaitTimes(1);
        if verified {
          var gone := DropJournal();
          if gone { return Applied; }
        }
      }
      o := RollBackApplied(applied);
    }
  }

  /** The manifest's content, changed in place before it is written. */
  method PreparePlan(plan: seq<FileChange>, stamp: string) returns (prepared: Option<seq<FileChange>>)
    ensures prepared == Prepared(plan, stamp)
  {
    if |plan| > MAX_FILES { return None; }
    var m := 0;
    while m < |plan| && !plan[m].isManifest
      invariant m <= |plan| && FirstManifest(plan, 0) == FirstManifest(plan, m)
    {
      m := m + 1;
    }
    if m == |plan| { return Some(plan); }
    if plan[m].content.Text? { return None; }
    var backups := plan[m].content.backups;
    for i := 0 to |plan|
      invariant backups == WithBackups(plan[m].content.backups, plan, stamp, i)
    {
      if plan[i].before.Some? { backups := backups[plan[i].file := BackupName(plan[i].file, stamp)]; }
    }
    if |backups| > MAX_FILES { return None; }
    prepared := Some(plan[m := plan[m].(content := plan[m].content.(backups := backups))]);
  }
}

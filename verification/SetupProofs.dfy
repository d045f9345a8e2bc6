/**
 All or nothing, and never over someone else's content: what the setup transaction guarantees beside
 concurrent writers and failing operations.
 */
module SetupProofs {
  import opened Options
  import opened SetupModel

  /** Nobody else edits this path in these instants. */
  ghost predicate Untouched(w: World, p: Path, from: nat, to: nat) {
    forall t: nat :: from <= t < to ==> p !in w.edits(t)
  }

  /** What a path holds after these files were applied, if only this transaction writes it. */
  function Value(start: map<Path, Content>, applied: seq<FileChange>, p: Path): Option<Content> {
    if applied == [] then Get(start, p)
    else if applied[|applied| - 1].file == p then Some(applied[|applied| - 1].content)
    else Value(start, applied[..|applied| - 1], p)
  }

  // ---------------------------------------------------------------- one operation

  /** Time passes, nothing of this transaction's is lost, and a path nobody edits stays as it was. */
  ghost predicate Calm(w: World, d: Disk, e: Disk) {
    && d.clock <= e.clock && e.ours == d.ours && e.journal == d.journal
    && (forall p :: p in d.backups ==> p in e.backups && e.backups[p] == d.backups[p])
    && (forall p :: Untouched(w, p, d.clock, e.clock) ==> Get(e.files, p) == Get(d.files, p))
  }

  lemma TickCalm(w: World, d: Disk)
    ensures Calm(w, d, Tick(w, d))
  {
    forall p | Untouched(w, p, d.clock, d.clock + 1) ensures Get(Tick(w, d).files, p) == Get(d.files, p) {
      assert p !in w.edits(d.clock);
    }
  }

  lemma CalmTrans(w: World, a: Disk, b: Disk, c: Disk)
    requires Calm(w, a, b) && Calm(w, b, c)
    ensures Calm(w, a, c)
  {
    forall p | Untouched(w, p, a.clock, c.clock) ensures Get(c.files, p) == Get(a.files, p) {
      assert Untouched(w, p, a.clock, b.clock) && Untouched(w, p, b.clock, c.clock);
    }
  }

  lemma {:induction false} AwaitsCalm(w: World, d: Disk, n: nat)
    ensures Calm(w, d, Awaits(w, d, n).0)
    decreases n
  {
    TickCalm(w, d);
    if n > 0 && !Fails(w, d) {
      AwaitsCalm(w, Tick(w, d), n - 1);
      CalmTrans(w, d, Tick(w, d), Awaits(w, Tick(w, d), n - 1).0);
    }
  }

  /** One own change, from what was there to its new value; a path nobody edits changes only by it. */
  ghost predicate Changed(w: World, d: Disk, e: Disk, p: Path, before: Option<Content>, after: Option<Content>) {
    && d.clock < e.clock && e.journal == d.journal
    && |e.ours| == |d.ours| + 1 && e.ours[..|d.ours|] == d.ours
    && (var c := e.ours[|d.ours|]; d.clock <= c.at < e.clock && c.file == p && c.before == before && c.after == after && c.journaled == d.journal)
    && (forall q :: q in d.backups ==> q in e.backups && e.backups[q] == d.backups[q])
    && (forall q :: Untouched(w, q, d.clock, e.clock) ==> Get(e.files, q) == if q == p then after else Get(d.files, q))
    && (Untouched(w, p, d.clock, e.clock) ==> Get(d.files, p) == before)
  }

  lemma CalmThenChanged(w: World, a: Disk, b: Disk, c: Disk, p: Path, before: Option<Content>, after: Option<Content>)
    requires Calm(w, a, b) && Changed(w, b, c, p, before, after)
    ensures Changed(w, a, c, p, before, after)
  {
    forall q | Untouched(w, q, a.clock, c.clock) ensures Get(c.files, q) == if q == p then after else Get(a.files, q) {
      assert Untouched(w, q, a.clock, b.clock) && Untouched(w, q, b.clock, c.clock);
    }
    if Untouched(w, p, a.clock, c.clock) {
      assert Untouched(w, p, a.clock, b.clock) && Untouched(w, p, b.clock, c.clock);
    }
  }

  lemma ChangedThenCalm(w: World, a: Disk, b: Disk, c: Disk, p: Path, before: Option<Content>, after: Option<Content>)
    requires Changed(w, a, b, p, before, after) && Calm(w, b, c)
    ensures Changed(w, a, c, p, before, after)
  {
    forall q | Untouched(w, q, a.clock, c.clock) ensures Get(c.files, q) == if q == p then after else Get(a.files, q) {
      assert Untouched(w, q, a.clock, b.clock) && Untouched(w, q, b.clock, c.clock);
    }
    if Untouched(w, p, a.clock, c.clock) {
      assert Untouched(w, p, a.clock, b.clock);
    }
  }

  lemma WriteChanges(w: World, d: Disk, p: Path, c: Option<Content>)
    ensures Changed(w, d, Write(Tick(w, d), d.clock, p, c), p, Get(Tick(w, d).files, p), c)
  {
    TickCalm(w, d);
    var t := Tick(w, d);
    forall q ensures Get(Put(t.files, p, c), q) == if q == p then c else Get(t.files, q) {
    }
  }

  // ---------------------------------------------------------------- applying one file

  /** A file is written over exactly what the plan saw, or not at all. */
  lemma ApplyOneIsSwap(w: World, d: Disk, f: FileChange)
    ensures var (e, written) := ApplyOne(w, d, f);
            if written.NotWritten? then Calm(w, d, e)
            else Changed(w, d, e, f.file, f.before, Some(f.content)) && (f.before.Some? ==> f.file in e.backups && e.backups[f.file] == f.before.value)
  {
    var (checked, ok) := Awaits(w, d, 2);
    AwaitsCalm(w, d, 2);
    if ok {
      var read := Tick(w, checked);
      TickCalm(w, checked);
      CalmTrans(w, d, checked, read);
      if !Fails(w, checked) && Get(read.files, f.file) == f.before {
        var (ready, made) := Awaits(w, read, 1);
        AwaitsCalm(w, read, 1);
        CalmTrans(w, d, read, ready);
        if made {
          if f.before.None? { PublishIsSwap(w, d, ready, f); } else { ReplaceIsSwap(w, d, ready, f); }
        }
      }
    }
  }

  lemma PublishIsSwap(w: World, d: Disk, ready: Disk, f: FileChange)
    requires Calm(w, d, ready) && f.before.None?
    ensures var (e, written) := PublishNew(w, ready, f);
            if written.NotWritten? then Calm(w, d, e) else Changed(w, d, e, f.file, None, Some(f.content))
  {
    var (staged, ok) := Awaits(w, ready, 1);
    AwaitsCalm(w, ready, 1);
    CalmTrans(w, d, ready, staged);
    var linked := Tick(w, staged);
    TickCalm(w, staged);
    CalmTrans(w, d, staged, linked);
    TickCalm(w, linked);
    CalmTrans(w, d, linked, Tick(w, linked));
    if ok && !Fails(w, staged) && f.file !in linked.files {
      var published := Write(linked, staged.clock, f.file, Some(f.content));
      WriteChanges(w, staged, f.file, Some(f.content));
      CalmThenChanged(w, d, staged, published, f.file, None, Some(f.content));
      TickCalm(w, published);
      ChangedThenCalm(w, d, published, Tick(w, published), f.file, None, Some(f.content));
    }
  }

  lemma ReplaceIsSwap(w: World, d: Disk, ready: Disk, f: FileChange)
    requires Calm(w, d, ready) && f.before.Some?
    ensures var (backed, saved) := WriteBackup(w, ready, f.file, f.before.value);
            var (e, done) := Replace(w, backed, f.file, f.content, f.before.value);
            if !saved then Calm(w, d, backed)
            else if !done then Calm(w, d, e)
            else Changed(w, d, e, f.file, f.before, Some(f.content)) && f.file in e.backups && e.backups[f.file] == f.before.value
  {
    var (backed, saved) := WriteBackup(w, ready, f.file, f.before.value);
    TickCalm(w, ready);
    assert Calm(w, ready, backed);
    CalmTrans(w, d, ready, backed);
    if saved {
      TickCalm(w, backed);
      CalmTrans(w, d, backed, Tick(w, backed));
      var (e, done) := Replace(w, backed, f.file, f.content, f.before.value);
      if done {
        WriteChanges(w, backed, f.file, Some(f.content));
        CalmThenChanged(w, d, backed, e, f.file, f.before, Some(f.content));
      }
    }
  }

  // ---------------------------------------------------------------- applying the plan

  predicate AppliedChange(c: Change, f: FileChange) {
    c.file == f.file && c.before == f.before && c.after == Some(f.content) && c.journaled
  }

  /** What the apply loop has done so far: a prefix of the plan, one recorded change each, every overwritten text backed up. */
  ghost predicate Recorded(d: Disk, plan: seq<FileChange>, p: Progress) {
    && d.clock <= p.disk.clock && p.disk.journal && |p.applied| <= |plan| && p.applied == plan[..|p.applied|]
    && |p.disk.ours| == |d.ours| + |p.applied| && p.disk.ours[..|d.ours|] == d.ours
    && (forall k :: 0 <= k < |p.applied| ==> AppliedChange(p.disk.ours[|d.ours| + k], p.applied[k]))
  }

  ghost predicate BackedUp(p: Progress) {
    forall k :: 0 <= k < |p.applied| && p.applied[k].before.Some? ==>
      p.applied[k].file in p.disk.backups && p.disk.backups[p.applied[k].file] == p.applied[k].before.value
  }

  /** Path by path, for those nobody else edits: what it holds, and that each write replaced what the one before left. */
  ghost predicate Holds(w: World, d: Disk, p: Progress) {
    && d.clock <= p.disk.clock
    && (forall q :: Untouched(w, q, d.clock, p.disk.clock) ==> Get(p.disk.files, q) == Value(d.files, p.applied, q))
    && (forall q :: Untouched(w, q, d.clock, p.disk.clock) ==> Chained(d.files, p.applied, q))
  }

  predicate Chained(start: map<Path, Content>, applied: seq<FileChange>, q: Path) {
    applied == [] ||
    (var last := |applied| - 1;
     Chained(start, applied[..last], q) && (applied[last].file == q ==> applied[last].before == Value(start, applied[..last], q)))
  }

  lemma LogGrows(start: seq<Change>, log: seq<Change>, longer: seq<Change>, applied: seq<FileChange>, f: FileChange)
    requires |log| == |start| + |applied| && log[..|start|] == start
    requires forall k :: 0 <= k < |applied| ==> AppliedChange(log[|start| + k], applied[k])
    requires |longer| == |log| + 1 && longer[..|log|] == log && AppliedChange(longer[|log|], f)
    ensures longer[..|start|] == start
    ensures forall k :: 0 <= k < |applied| + 1 ==> AppliedChange(longer[|start| + k], (applied + [f])[k])
  {
    assert longer[..|start|] == longer[..|log|][..|start|];
    forall k | 0 <= k < |applied| + 1 ensures AppliedChange(longer[|start| + k], (applied + [f])[k]) {
      if k < |applied| { assert longer[|start| + k] == longer[..|log|][|start| + k]; }
    }
  }

  lemma RecordGrows(d: Disk, plan: seq<FileChange>, p: Progress, e: Disk, failed: bool)
    requires Recorded(d, plan, p) && |p.applied| < |plan| && p.disk.clock <= e.clock && e.journal
    requires |e.ours| == |p.disk.ours| + 1 && e.ours[..|p.disk.ours|] == p.disk.ours
    requires AppliedChange(e.ours[|p.disk.ours|], plan[|p.applied|])
    ensures Recorded(d, plan, Progress(e, p.applied + [plan[|p.applied|]], failed))
  {
    assert p.applied + [plan[|p.applied|]] == plan[..|p.applied| + 1];
    LogGrows(d.ours, p.disk.ours, e.ours, p.applied, plan[|p.applied|]);
  }

  lemma RecordStep(w: World, d: Disk, plan: seq<FileChange>, p: Progress)
    requires Recorded(d, plan, p) && !p.failed && |p.applied| < |plan|
    ensures Recorded(d, plan, ApplyNext(w, p, plan[|p.applied|]))
  {
    var (e, written) := ApplyOne(w, p.disk, plan[|p.applied|]);
    ApplyOneIsSwap(w, p.disk, plan[|p.applied|]);
    if !written.NotWritten? { RecordGrows(d, plan, p, e, !written.Wrote?); }
  }

  lemma BackupStep(w: World, p: Progress, f: FileChange)
    requires BackedUp(p) && !p.failed
    ensures BackedUp(ApplyNext(w, p, f))
  {
    ApplyOneIsSwap(w, p.disk, f);
  }

  lemma HoldsStep(w: World, d: Disk, p: Progress, f: FileChange)
    requires Holds(w, d, p) && !p.failed
    ensures Holds(w, d, ApplyNext(w, p, f))
  {
    var (e, written) := ApplyOne(w, p.disk, f);
    ApplyOneIsSwap(w, p.disk, f);
    var r := ApplyNext(w, p, f);
    forall q | Untouched(w, q, d.clock, e.clock) ensures Get(e.files, q) == Value(d.files, r.applied, q) && Chained(d.files, r.applied, q) {
      assert Untouched(w, q, d.clock, p.disk.clock) && Untouched(w, q, p.disk.clock, e.clock);
      if !written.NotWritten? { assert r.applied[..|p.applied|] == p.applied; }
    }
  }

  lemma ApplyStep(w: World, d: Disk, plan: seq<FileChange>, p: Progress) returns (r: Progress)
    requires Recorded(d, plan, p) && BackedUp(p) && Holds(w, d, p) && !p.failed && |p.applied| < |plan|
    ensures r == ApplyNext(w, p, plan[|p.applied|])
    ensures Recorded(d, plan, r) && BackedUp(r) && Holds(w, d, r)
    ensures !r.failed ==> |r.applied| == |p.applied| + 1
  {
    r := ApplyNext(w, p, plan[|p.applied|]);
    RecordStep(w, d, plan, p);
    BackupStep(w, p, plan[|p.applied|]);
    HoldsStep(w, d, p, plan[|p.applied|]);
    NextCounts(w, p, plan[|p.applied|]);
  }

  lemma {:induction false} ApplyLoop(w: World, d: Disk, plan: seq<FileChange>, i: nat) returns (p: Progress)
    requires i <= |plan| && d.journal
    ensures p == ApplyUpTo(w, d, plan, i)
    ensures Recorded(d, plan, p) && BackedUp(p) && Holds(w, d, p)
    ensures !p.failed ==> |p.applied| == i
  {
    if i == 0 {
      p := Progress(d, [], false);
    } else {
      p := ApplyLoop(w, d, plan, i - 1);
      if !p.failed { p := ApplyStep(w, d, plan, p); }
    }
  }

  lemma NextCounts(w: World, p: Progress, f: FileChange)
    requires !p.failed
    ensures !ApplyNext(w, p, f).failed ==> |ApplyNext(w, p, f).applied| == |p.applied| + 1
  {
  }

  // ---------------------------------------------------------------- rolling back

  /**
   An undo puts back what the plan saw, over exactly what this transaction wrote; but the removal of a
   new file takes whatever is there at its instant, which is someone else's if they edited it since the check.
   */
  ghost predicate UndoChange(w: World, c: Change, f: FileChange) {
    && c.file == f.file && c.after == f.before && c.journaled
    && (f.before.Some? ==> c.before == Some(f.content))
    && (f.before.None? ==> c.before.Some? && c.before == if f.file in w.edits(c.at) then w.edits(c.at)[f.file] else Some(f.content))
  }

  ghost predicate Healthy(w: World, from: nat) {
    forall t: nat :: from <= t ==> !w.fails(t)
  }

  lemma RestoreIsSwap(w: World, start: Disk, d: Disk, f: FileChange) returns (before: Option<Content>)
    requires Calm(w, start, d) && d.journal && Get(d.files, f.file) == Some(f.content)
    ensures var (e, done) := Restore(w, d, f);
            if done
            then Changed(w, start, e, f.file, before, f.before) && UndoChange(w, e.ours[|start.ours|], f)
            else Calm(w, start, e)
    ensures var (e, done) := Restore(w, d, f);
            !done && Healthy(w, d.clock) ==> !Untouched(w, f.file, start.clock, e.clock)
  {
    var (e, done) := Restore(w, d, f);
    TickCalm(w, d);
    CalmTrans(w, start, d, Tick(w, d));
    before := Get(Tick(w, d).files, f.file);
    if done {
      WriteChanges(w, d, f.file, f.before);
      CalmThenChanged(w, start, d, e, f.file, before, f.before);
    } else if Untouched(w, f.file, start.clock, e.clock) {
      assert Untouched(w, f.file, d.clock, e.clock);
    }
  }

  lemma UndoOneIsSwap(w: World, d: Disk, f: FileChange) returns (before: Option<Content>)
    requires d.journal
    ensures var (e, done) := UndoOne(w, d, f);
            if done then Changed(w, d, e, f.file, before, f.before) && UndoChange(w, e.ours[|d.ours|], f) else Calm(w, d, e)
    ensures var (e, done) := UndoOne(w, d, f);
            !done && Healthy(w, d.clock) && Untouched(w, f.file, d.clock, e.clock) ==> Get(d.files, f.file) != Some(f.content)
  {
    var (checked, ok) := Awaits(w, d, 1);
    AwaitsCalm(w, d, 1);
    before := None;
    if ok {
      var read := Tick(w, checked);
      TickCalm(w, checked);
      CalmTrans(w, d, checked, read);
      if !Fails(w, checked) && Get(read.files, f.file) == Some(f.content) {
        before := RestoreIsSwap(w, d, read, f);
      }
    }
  }

  /** The rollback's own changes, from its start r on. */
  ghost predicate UndoneLog(w: World, r: Disk, applied: seq<FileChange>, u: Undo) {
    && r.clock <= u.disk.clock && u.disk.journal
    && |r.ours| <= |u.disk.ours| && u.disk.ours[..|r.ours|] == r.ours
    && (forall i :: |r.ours| <= i < |u.disk.ours| ==> Undoes(w, u.disk.ours[i], applied))
    && (forall q :: q in r.backups ==> q in u.disk.backups && u.disk.backups[q] == r.backups[q])
    && (forall q :: q in u.unresolved ==> OneOf(applied, q))
  }

  ghost predicate Undoes(w: World, c: Change, applied: seq<FileChange>) {
    exists i :: 0 <= i < |applied| && UndoChange(w, c, applied[i])
  }

  predicate OneOf(applied: seq<FileChange>, q: Path) {
    exists i :: 0 <= i < |applied| && applied[i].file == q
  }

  /**
   Path by path, for those nobody else edits since the transaction began at d: back to what the files
   before the newest k left, unless unresolved; and only an edit or a failure leaves one unresolved.
   */
  ghost predicate UndoneFiles(w: World, d: Disk, r: Disk, left: seq<FileChange>, u: Undo) {
    && d.clock <= r.clock <= u.disk.clock
    && (forall q :: q !in u.unresolved && Untouched(w, q, d.clock, u.disk.clock) ==> Get(u.disk.files, q) == Value(d.files, left, q))
    && (Healthy(w, r.clock) ==> forall q :: q in u.unresolved ==> !Untouched(w, q, d.clock, u.disk.clock))
  }

  lemma UndoLogStep(w: World, r: Disk, applied: seq<FileChange>, i: nat, u: Undo, v: Undo)
    requires i < |applied| && UndoneLog(w, r, applied, u) && v == UndoNext(w, u, applied[i])
    ensures UndoneLog(w, r, applied, v)
  {
    var before := UndoOneIsSwap(w, u.disk, applied[i]);
    assert OneOf(applied, applied[i].file);
    if UndoOne(w, u.disk, applied[i]).1 {
      forall j | |r.ours| <= j < |v.disk.ours| ensures Undoes(w, v.disk.ours[j], applied) {
        if j < |u.disk.ours| { assert v.disk.ours[j] == v.disk.ours[..|u.disk.ours|][j]; }
      }
      assert v.disk.ours[..|r.ours|] == v.disk.ours[..|u.disk.ours|][..|r.ours|];
    }
  }

  lemma UndoFilesStep(w: World, d: Disk, r: Disk, left: seq<FileChange>, u: Undo, v: Undo)
    requires left != [] && u.disk.journal && UndoneFiles(w, d, r, left, u) && v == UndoNext(w, u, left[|left| - 1])
    requires forall q :: Untouched(w, q, d.clock, r.clock) ==> Chained(d.files, left, q)
    ensures UndoneFiles(w, d, r, left[..|left| - 1], v)
  {
    var before := UndoOneIsSwap(w, u.disk, left[|left| - 1]);
    forall q | Untouched(w, q, d.clock, v.disk.clock)
      ensures q !in v.unresolved ==> Get(v.disk.files, q) == Value(d.files, left[..|left| - 1], q)
      ensures Healthy(w, r.clock) ==> q !in v.unresolved
    {
      assert Untouched(w, q, d.clock, r.clock) && Untouched(w, q, d.clock, u.disk.clock) && Untouched(w, q, u.disk.clock, v.disk.clock);
      if Healthy(w, r.clock) { assert Healthy(w, u.disk.clock); }
    }
  }

  lemma UndoStep(w: World, d: Disk, r: Disk, applied: seq<FileChange>, n: nat, u: Undo) returns (v: Undo)
    requires 0 < n <= |applied| && Holds(w, d, Progress(r, applied, true))
    requires UndoneLog(w, r, applied, u) && UndoneFiles(w, d, r, applied[..n], u)
    ensures v == UndoNext(w, u, applied[n - 1])
    ensures UndoneLog(w, r, applied, v) && UndoneFiles(w, d, r, applied[..n - 1], v)
  {
    v := UndoNext(w, u, applied[n - 1]);
    assert applied[..n][..n - 1] == applied[..n - 1];
    ChainedLeft(w, d, r, applied, n);
    UndoLogStep(w, r, applied, n - 1, u, v);
    UndoFilesStep(w, d, r, applied[..n], u, v);
  }

  lemma ChainedLeft(w: World, d: Disk, r: Disk, applied: seq<FileChange>, n: nat)
    requires n <= |applied| && Holds(w, d, Progress(r, applied, true))
    ensures forall q :: Untouched(w, q, d.clock, r.clock) ==> Chained(d.files, applied[..n], q)
  {
    forall q | Untouched(w, q, d.clock, r.clock) ensures Chained(d.files, applied[..n], q) { ChainedPrefix(d.files, applied, n, q); }
  }

  lemma {:induction false} UndoLoop(w: World, d: Disk, r: Disk, applied: seq<FileChange>, n: nat, u: Undo) returns (v: Undo)
    requires n <= |applied| && Holds(w, d, Progress(r, applied, true))
    requires UndoneLog(w, r, applied, u) && UndoneFiles(w, d, r, applied[..n], u)
    ensures v == UndoAll(w, u, applied[..n])
    ensures UndoneLog(w, r, applied, v) && UndoneFiles(w, d, r, [], v)
  {
    if n == 0 {
      v := u;
    } else {
      var next := UndoStep(w, d, r, applied, n, u);
      v := UndoLoop(w, d, r, applied, n - 1, next);
      assert applied[..n][..n - 1] == applied[..n - 1];
    }
  }

  lemma {:induction false} ChainedPrefix(start: map<Path, Content>, applied: seq<FileChange>, n: nat, q: Path)
    requires n <= |applied| && Chained(start, applied, q)
    ensures Chained(start, applied[..n], q)
  {
    if n == |applied| {
      assert applied[..n] == applied;
    } else {
      ChainedPrefix(start, applied[..|applied| - 1], n, q);
      assert applied[..|applied| - 1][..n] == applied[..n];
    }
  }

  // ---------------------------------------------------------------- the whole transaction

  lemma {:induction false} CheckCalm(w: World, d: Disk, plan: seq<FileChange>, i: nat)
    requires i <= |plan|
    ensures Calm(w, d, CheckUpTo(w, d, plan, i).0)
  {
    if i > 0 {
      CheckCalm(w, d, plan, i - 1);
      var (before, fine) := CheckUpTo(w, d, plan, i - 1);
      if fine {
        var (checked, ok) := Awaits(w, before, 1);
        AwaitsCalm(w, before, 1);
        CalmTrans(w, d, before, checked);
        TickCalm(w, checked);
        CalmTrans(w, d, checked, Tick(w, checked));
      }
    }
  }

  /** Nothing but the journal changes before the apply loop. */
  lemma BeginCalm(w: World, d: Disk, plan: seq<FileChange>, stamp: string)
    ensures var (begun, prepared) := Begin(w, d, plan, stamp);
            if prepared.None? then Calm(w, d, begun) else Calm(w, d, begun.(journal := false)) && !d.journal && begun.journal
  {
    var (looked, ok) := Awaits(w, d, 2);
    AwaitsCalm(w, d, 2);
    if ok && !looked.journal {
      var (checked, fine) := CheckUpTo(w, looked, plan, |plan|);
      CheckCalm(w, looked, plan, |plan|);
      CalmTrans(w, d, looked, checked);
      if fine {
        var (made, dir) := Awaits(w, checked, 1);
        AwaitsCalm(w, checked, 1);
        CalmTrans(w, d, checked, made);
        TickCalm(w, made);
        CalmTrans(w, d, made, Tick(w, made));
      }
    }
  }

  /** Every own change was made under the journal and was a swap, or a removal as UndoChange says. */
  ghost predicate OwnChange(w: World, c: Change, plan: seq<FileChange>) {
    exists i :: 0 <= i < |plan| && (AppliedChange(c, plan[i]) || UndoChange(w, c, plan[i]))
  }

  ghost predicate OwnChanges(w: World, d: Disk, e: Disk, plan: seq<FileChange>) {
    && |d.ours| <= |e.ours| && e.ours[..|d.ours|] == d.ours
    && (forall k :: |d.ours| <= k < |e.ours| ==> OwnChange(w, e.ours[k], plan))
  }

  lemma AppliedOwn(w: World, d: Disk, plan: seq<FileChange>, p: Progress)
    requires Recorded(d, plan, p)
    ensures OwnChanges(w, d, p.disk, plan)
  {
    forall k | |d.ours| <= k < |p.disk.ours| ensures OwnChange(w, p.disk.ours[k], plan) {
      assert AppliedChange(p.disk.ours[|d.ours| + (k - |d.ours|)], p.applied[k - |d.ours|]);
      assert p.applied[k - |d.ours|] == plan[k - |d.ours|];
    }
  }

  lemma UndoneOwn(w: World, d: Disk, r: Disk, plan: seq<FileChange>, n: nat, u: Undo)
    requires n <= |plan| && OwnChanges(w, d, r, plan) && UndoneLog(w, r, plan[..n], u)
    ensures OwnChanges(w, d, u.disk, plan)
  {
    assert u.disk.ours[..|d.ours|] == u.disk.ours[..|r.ours|][..|d.ours|];
    forall k | |d.ours| <= k < |u.disk.ours| ensures OwnChange(w, u.disk.ours[k], plan) {
      if k < |r.ours| { assert u.disk.ours[k] == u.disk.ours[..|r.ours|][k]; }
      else {
        assert Undoes(w, u.disk.ours[k], plan[..n]);
        var i :| 0 <= i < n && UndoChange(w, u.disk.ours[k], plan[..n][i]);
        assert plan[..n][i] == plan[i];
      }
    }
  }

  predicate Rolled(o: Outcome) { o.RolledBack? || o.JournalStuck? }

  function Unresolved(o: Outcome): seq<Path> { if o.RolledBack? then o.unresolved else [] }

  /** What a rollback that ends in (e, o) leaves, d being the state at the journal. */
  ghost predicate RestoredSince(w: World, d: Disk, e: Disk, o: Outcome, plan: seq<FileChange>) {
    && Rolled(o) && d.clock <= e.clock
    && (e.journal <==> o.JournalStuck? || Unresolved(o) != [])
    && (forall q :: q !in Unresolved(o) && Untouched(w, q, d.clock, e.clock) ==> Get(e.files, q) == Get(d.files, q))
    && (forall q :: q in Unresolved(o) ==> OneOf(plan, q))
    && OwnChanges(w, d, e, plan)
  }

  lemma RollBackRestores(w: World, d: Disk, r: Disk, plan: seq<FileChange>, n: nat)
    requires n <= |plan| && r.journal && Holds(w, d, Progress(r, plan[..n], true)) && OwnChanges(w, d, r, plan)
    ensures RestoredSince(w, d, RollBack(w, r, plan[..n]).0, RollBack(w, r, plan[..n]).1, plan)
    ensures Healthy(w, d.clock) ==> forall q :: q in Unresolved(RollBack(w, r, plan[..n]).1) ==> !Untouched(w, q, d.clock, RollBack(w, r, plan[..n]).0.clock)
  {
    assert plan[..n][..n] == plan[..n];
    var u := UndoLoop(w, d, r, plan[..n], n, Undo(r, []));
    UndoneOwn(w, d, r, plan, n, u);
    forall q | q in u.unresolved ensures OneOf(plan, q) {
      assert OneOf(plan[..n], q);
      var i :| 0 <= i < n && plan[..n][i].file == q;
      assert plan[i].file == q;
    }
    if u.unresolved == [] {
      TickCalm(w, u.disk);
      var e := RollBack(w, r, plan[..n]).0;
      forall q | Untouched(w, q, d.clock, e.clock) ensures Get(e.files, q) == Get(d.files, q) {
        assert Untouched(w, q, d.clock, u.disk.clock) && Untouched(w, q, u.disk.clock, e.clock);
      }
    }
    if Healthy(w, d.clock) { assert Healthy(w, r.clock); }
  }

  /** Calm time before a rollback. */
  lemma LaterRollBack(w: World, d: Disk, plan: seq<FileChange>, p: Progress, r: Disk)
    requires Recorded(d, plan, p) && Holds(w, d, p) && Calm(w, p.disk, r)
    ensures Holds(w, d, Progress(r, p.applied, true)) && OwnChanges(w, d, r, plan) && r.journal
  {
    AppliedOwn(w, d, plan, p);
    forall q | Untouched(w, q, d.clock, r.clock) ensures Get(r.files, q) == Value(d.files, p.applied, q) && Chained(d.files, p.applied, q) {
      assert Untouched(w, q, d.clock, p.disk.clock) && Untouched(w, q, p.disk.clock, r.clock);
    }
  }

  ghost predicate AllApplied(w: World, d: Disk, e: Disk, plan: seq<FileChange>) {
    && !e.journal && d.clock <= e.clock && OwnChanges(w, d, e, plan)
    && (forall q :: Untouched(w, q, d.clock, e.clock) ==> Get(e.files, q) == Value(d.files, plan, q))
    && (forall k :: 0 <= k < |plan| && plan[k].before.Some? ==> plan[k].file in e.backups && e.backups[plan[k].file] == plan[k].before.value)
  }

  /** From the journal on: all new, or all back. */
  lemma CommitIsAtomic(w: World, d: Disk, plan: seq<FileChange>)
    requires d.journal
    ensures var (e, o) := Commit(w, d, plan);
            if o.Applied? then AllApplied(w, d, e, plan) else RestoredSince(w, d, e, o, plan)
    ensures var (e, o) := Commit(w, d, plan);
            Healthy(w, d.clock) ==> forall q :: q in Unresolved(o) ==> !Untouched(w, q, d.clock, e.clock)
  {
    var p := ApplyLoop(w, d, plan, |plan|);
    var (verified, ok) := Awaits(w, p.disk, 1);
    AwaitsCalm(w, p.disk, 1);
    LaterRollBack(w, d, plan, p, p.disk);
    LaterRollBack(w, d, plan, p, verified);
    if p.failed {
      RollBackRestores(w, d, p.disk, plan, |p.applied|);
    } else if !ok {
      RollBackRestores(w, d, verified, plan, |p.applied|);
    } else {
      CloseJournal(w, d, plan, p, verified);
    }
  }

  lemma CloseJournal(w: World, d: Disk, plan: seq<FileChange>, p: Progress, verified: Disk)
    requires Recorded(d, plan, p) && Holds(w, d, p) && BackedUp(p) && Calm(w, p.disk, verified) && p.applied == plan
    ensures var (closed, gone) := RemoveJournal(w, verified);
            if gone then AllApplied(w, d, closed, plan)
            else var (e, o) := RollBack(w, closed, plan);
                 && RestoredSince(w, d, e, o, plan)
                 && (Healthy(w, d.clock) ==> forall q :: q in Unresolved(o) ==> !Untouched(w, q, d.clock, e.clock))
  {
    var (closed, gone) := RemoveJournal(w, verified);
    TickCalm(w, verified);
    CalmTrans(w, p.disk, verified, Tick(w, verified));
    LaterRollBack(w, d, plan, p, Tick(w, verified));
    if !gone {
      assert closed == Tick(w, verified);
      assert plan[..|plan|] == plan;
      RollBackRestores(w, d, closed, plan, |plan|);
    } else {
      forall q | Untouched(w, q, d.clock, closed.clock) ensures Get(closed.files, q) == Value(d.files, plan, q) {
        assert Untouched(w, q, d.clock, Tick(w, verified).clock);
      }
    }
  }

  /**
   The transaction, path by path, for a path nobody else edits meanwhile: refused leaves it alone;
   success leaves what the plan last says of it; and a rollback leaves what was there before, unless it
   reports the path unresolved.
   */
  lemma TransactionIsAtomic(w: World, d: Disk, plan: seq<FileChange>, stamp: string, q: Path)
    requires Untouched(w, q, d.clock, Transaction(w, d, plan, stamp).0.clock)
    ensures var (e, o) := Transaction(w, d, plan, stamp);
            match o
            case Refused => Get(e.files, q) == Get(d.files, q)
            case Applied => Prepared(plan, stamp).Some? && Get(e.files, q) == Value(d.files, Prepared(plan, stamp).value, q)
            case _ => q !in Unresolved(o) ==> Get(e.files, q) == Get(d.files, q)
  {
    var (begun, prepared) := Begin(w, d, plan, stamp);
    BeginCalm(w, d, plan, stamp);
    if prepared.Some? {
      CommitIsAtomic(w, begun, prepared.value);
      var e := Transaction(w, d, plan, stamp).0;
      assert Untouched(w, q, begun.clock, e.clock) && Untouched(w, q, d.clock, begun.clock);
      assert Get(begun.files, q) == Get(d.files, q);
      SameStart(d.files, begun.files, prepared.value, q);
    }
  }

  lemma {:induction false} SameStart(a: map<Path, Content>, b: map<Path, Content>, applied: seq<FileChange>, q: Path)
    requires Get(a, q) == Get(b, q)
    ensures Value(a, applied, q) == Value(b, applied, q)
  {
    if applied != [] { SameStart(a, b, applied[..|applied| - 1], q); }
  }

  /** What the plan last says of a path, and nothing for a path it does not name. */
  lemma {:induction false} ValueMeans(start: map<Path, Content>, plan: seq<FileChange>, q: Path)
    ensures if OneOf(plan, q)
            then exists k :: 0 <= k < |plan| && plan[k].file == q && Value(start, plan, q) == Some(plan[k].content)
                             && (forall j :: k < j < |plan| ==> plan[j].file != q)
            else Value(start, plan, q) == Get(start, q)
  {
    if plan != [] {
      var last := |plan| - 1;
      ValueMeans(start, plan[..last], q);
      if plan[last].file == q {
        assert Value(start, plan, q) == Some(plan[last].content);
      } else if OneOf(plan, q) {
        var i :| 0 <= i < |plan| && plan[i].file == q;
        assert plan[..last][i].file == q;
        assert OneOf(plan[..last], q);
        var k :| 0 <= k < last && plan[..last][k].file == q && Value(start, plan[..last], q) == Some(plan[..last][k].content)
                 && (forall j :: k < j < last ==> plan[..last][j].file != q);
        assert forall j :: k < j < last ==> plan[..last][j] == plan[j];
        assert plan[k].file == q && Value(start, plan, q) == Some(plan[k].content) && (forall j :: k < j < |plan| ==> plan[j].file != q);
      } else {
        assert !OneOf(plan[..last], q) by {
          forall i | 0 <= i < last ensures plan[..last][i].file != q { assert plan[i].file != q; }
        }
      }
    }
  }

  /**
   The journal outlives the run exactly when it is still needed: it is gone after success, and after a
   rollback it stays for unresolved paths - or when its own removal failed.  A run that was refused never
   wrote one.
   */
  lemma JournalOutlives(w: World, d: Disk, plan: seq<FileChange>, stamp: string)
    ensures var (e, o) := Transaction(w, d, plan, stamp);
            && (o.Refused? ==> e.journal == d.journal && e.ours == d.ours)
            && (!o.Refused? ==> !d.journal && (e.journal <==> Unresolved(o) != [] || o.JournalStuck?))
            && (forall q :: q in Unresolved(o) ==> OneOf(plan, q))
  {
    var (begun, prepared) := Begin(w, d, plan, stamp);
    BeginCalm(w, d, plan, stamp);
    if prepared.Some? {
      CommitIsAtomic(w, begun, prepared.value);
      PreparedSameFiles(plan, stamp);
    }
  }

  lemma PreparedSameFiles(plan: seq<FileChange>, stamp: string)
    requires Prepared(plan, stamp).Some?
    ensures var made := Prepared(plan, stamp).value;
            |made| == |plan| && (forall i :: 0 <= i < |plan| ==> made[i].file == plan[i].file && made[i].before == plan[i].before)
    ensures forall q :: OneOf(Prepared(plan, stamp).value, q) ==> OneOf(plan, q)
  {
    var made := Prepared(plan, stamp).value;
    forall q | OneOf(made, q) ensures OneOf(plan, q) {
      var i :| 0 <= i < |made| && made[i].file == q;
      assert plan[i].file == q;
    }
  }

  /** While nothing fails from the journal on, only someone else's edit leaves a path unresolved. */
  lemma UnresolvedWasEdited(w: World, d: Disk, plan: seq<FileChange>, stamp: string, q: Path)
    requires Healthy(w, Begin(w, d, plan, stamp).0.clock) && q in Unresolved(Transaction(w, d, plan, stamp).1)
    ensures !Untouched(w, q, d.clock, Transaction(w, d, plan, stamp).0.clock)
  {
    var (begun, prepared) := Begin(w, d, plan, stamp);
    BeginCalm(w, d, plan, stamp);
    CommitIsAtomic(w, begun, prepared.value);
    var e := Transaction(w, d, plan, stamp).0;
    assert Untouched(w, q, d.clock, e.clock) ==> Untouched(w, q, begun.clock, e.clock);
  }

  /** Every own change was made under the journal, over what the plan saw or over this transaction's own content - except as UndoChange says. */
  lemma EveryChangeIsOwn(w: World, d: Disk, plan: seq<FileChange>, stamp: string)
    ensures var e := Transaction(w, d, plan, stamp).0;
            if Transaction(w, d, plan, stamp).1.Refused? then e.ours == d.ours
            else Prepared(plan, stamp).Some? && OwnChanges(w, d, e, Prepared(plan, stamp).value)
  {
    var (begun, prepared) := Begin(w, d, plan, stamp);
    BeginCalm(w, d, plan, stamp);
    if prepared.Some? { CommitIsAtomic(w, begun, prepared.value); }
  }

  /** The one way an own change loses someone else's text: an edit at the very instant a new file is removed, after its check. */
  lemma LostEditIff(w: World, c: Change, f: FileChange)
    requires AppliedChange(c, f) || UndoChange(w, c, f)
    ensures c.before != f.before && c.before != Some(f.content) <==>
            UndoChange(w, c, f) && f.before.None? && f.file in w.edits(c.at) && w.edits(c.at)[f.file] != Some(f.content)
  {
  }

  // ---------------------------------------------------------------- the manifest

  lemma {:induction false} WithBackupsLists(known: map<Path, string>, plan: seq<FileChange>, stamp: string, i: nat, q: Path)
    requires i <= |plan|
    ensures var all := WithBackups(known, plan, stamp, i);
            if exists k :: 0 <= k < i && plan[k].file == q && plan[k].before.Some? then q in all && all[q] == BackupName(q, stamp)
            else (q in all <==> q in known) && (q in known ==> all[q] == known[q])
  {
    if i > 0 { WithBackupsLists(known, plan, stamp, i - 1, q); }
  }

  /**
   After success the manifest names a backup for every overwritten file, and that backup holds the old
   text; what it listed before of other files is kept.
   */
  lemma ManifestListsBackups(w: World, d: Disk, plan: seq<FileChange>, stamp: string, k: nat)
    requires Transaction(w, d, plan, stamp).1.Applied? && k < |plan| && plan[k].before.Some? && FirstManifest(plan, 0) < |plan|
    ensures var (e, made) := (Transaction(w, d, plan, stamp).0, Prepared(plan, stamp));
            && plan[k].file in e.backups && e.backups[plan[k].file] == plan[k].before.value
            && made.Some? && made.value[FirstManifest(plan, 0)].content.ManifestDoc?
            && plan[k].file in made.value[FirstManifest(plan, 0)].content.backups
            && made.value[FirstManifest(plan, 0)].content.backups[plan[k].file] == plan[k].file + ".setup-backup-" + stamp
  {
    var (begun, prepared) := Begin(w, d, plan, stamp);
    CommitIsAtomicAt(w, d, plan, stamp);
    PreparedSameFiles(plan, stamp);
    assert prepared.value[k].before == plan[k].before && prepared.value[k].file == plan[k].file;
    var m := FirstManifest(plan, 0);
    WithBackupsLists(plan[m].content.backups, plan, stamp, |plan|, plan[k].file);
  }

  lemma CommitIsAtomicAt(w: World, d: Disk, plan: seq<FileChange>, stamp: string)
    requires Transaction(w, d, plan, stamp).1.Applied?
    ensures var (begun, prepared) := Begin(w, d, plan, stamp);
            prepared == Prepared(plan, stamp) && prepared.Some? && AllApplied(w, begun, Transaction(w, d, plan, stamp).0, prepared.value)
  {
    var (begun, prepared) := Begin(w, d, plan, stamp);
    BeginCalm(w, d, plan, stamp);
    CommitIsAtomic(w, begun, prepared.value);
  }

  // ---------------------------------------------------------------- the lost edit

  /** One edit, by someone else, at one instant; one await that fails, at another. */
  function OneEdit(at: nat, p: Path, c: Content, failsAt: nat): World {
    World(n => if n == at then map[p := Some(c)] else map[], n => n == failsAt)
  }

  /** Nobody edits and nothing fails in the next n instants. */
  predicate QuietFor(w: World, d: Disk, n: nat) {
    forall at :: d.clock <= at < d.clock + n ==> w.edits(at) == map[] && !w.fails(at)
  }

  function Later(d: Disk, n: nat): Disk { d.(clock := d.clock + n) }

  lemma QuietTick(w: World, d: Disk)
    requires w.edits(d.clock) == map[]
    ensures Tick(w, d) == d.(clock := d.clock + 1)
  {
    assert Edited(d.files, map[]) == d.files;
  }

  lemma {:induction false} QuietAwaits(w: World, d: Disk, n: nat)
    requires QuietFor(w, d, n)
    ensures Awaits(w, d, n) == (Later(d, n), true)
    decreases n
  {
    if n > 0 {
      QuietTick(w, d);
      QuietAwaits(w, Tick(w, d), n - 1);
    }
  }

  /** The rollback of a new file, with an edit landing between its check and its removal: the edit is gone, and the path counts as resolved. */
  lemma UndoLosesEdit(w: World, d: Disk, f: FileChange, theirs: Content)
    requires f.before.None? && Get(d.files, f.file) == Some(f.content) && QuietFor(w, d, 2)
    requires w.edits(d.clock + 2) == map[f.file := Some(theirs)] && !w.fails(d.clock + 2)
    ensures UndoNext(w, Undo(d, []), f) ==
            Undo(Later(d, 3).(files := d.files - {f.file}, ours := d.ours + [Change(d.clock + 2, f.file, Some(theirs), None, d.journal)]), [])
  {
    QuietAwaits(w, d, 1);
    var checked := Later(d, 1);
    QuietTick(w, checked);
    var read := Tick(w, checked);
    assert Tick(w, read).files == read.files[f.file := theirs];
    assert read.files[f.file := theirs] - {f.file} == d.files - {f.file};
  }

  lemma QuietBegin(w: World, d: Disk, f: FileChange, stamp: string)
    requires QuietFor(w, d, 6) && !d.journal && !f.isManifest && Get(d.files, f.file) == f.before
    ensures Begin(w, d, [f], stamp) == (Later(d, 6).(journal := true), Some([f]))
  {
    QuietAwaits(w, d, 2);
    var looked := Later(d, 2);
    assert CheckUpTo(w, looked, [f], 0) == (looked, true);
    QuietAwaits(w, looked, 1);
    QuietTick(w, Later(d, 3));
    assert CheckUpTo(w, looked, [f], 1) == (Later(d, 4), true);
    QuietAwaits(w, Later(d, 4), 1);
    assert FirstManifest([f], 0) == 1;
    QuietTick(w, Later(d, 5));
  }

  lemma QuietCreate(w: World, d: Disk, f: FileChange)
    requires QuietFor(w, d, 7) && f.before.None? && f.file !in d.files
    ensures ApplyOne(w, d, f) ==
            (Later(d, 7).(files := d.files[f.file := f.content], ours := d.ours + [Change(d.clock + 5, f.file, None, Some(f.content), d.journal)]), Wrote)
  {
    QuietAwaits(w, d, 2);
    QuietTick(w, Later(d, 2));
    QuietAwaits(w, Later(d, 3), 1);
    QuietPublish(w, Later(d, 4), f);
  }

  lemma QuietPublish(w: World, d: Disk, f: FileChange)
    requires QuietFor(w, d, 3) && f.file !in d.files
    ensures PublishNew(w, d, f) ==
            (Later(d, 3).(files := d.files[f.file := f.content], ours := d.ours + [Change(d.clock + 1, f.file, None, Some(f.content), d.journal)]), Wrote)
  {
    QuietAwaits(w, d, 1);
    QuietTick(w, Later(d, 1));
    var published := Write(Later(d, 2), d.clock + 1, f.file, Some(f.content));
    QuietTick(w, published);
  }

  /**
   A whole transaction that loses someone else's text: it creates a file, its verification fails, and while
   the rollback removes the file another writer puts its own text there.  The text is gone, nothing is
   reported unresolved, and no journal is left.
   */
  lemma EditLostInRollback(d: Disk, f: FileChange, theirs: Content, stamp: string)
    requires !d.journal && f.before.None? && f.file !in d.files && !f.isManifest && theirs != f.content
    ensures var w := OneEdit(d.clock + 16, f.file, theirs, d.clock + 13);
            Transaction(w, d, [f], stamp) ==
            (Later(d, 18).(ours := d.ours + [Change(d.clock + 11, f.file, None, Some(f.content), true), Change(d.clock + 16, f.file, Some(theirs), None, true)]),
             RolledBack([]))
  {
    var w := OneEdit(d.clock + 16, f.file, theirs, d.clock + 13);
    OneEditIsQuiet(w, d, d.clock + 16, f.file, theirs, d.clock + 13, 13);
    OneEditIsQuiet(w, Later(d, 14), d.clock + 16, f.file, theirs, d.clock + 13, 2);
    TransactionLosesEdit(w, d, f, theirs, stamp);
  }

  lemma OneEditIsQuiet(w: World, d: Disk, at: nat, p: Path, c: Content, failsAt: nat, n: nat)
    requires w == OneEdit(at, p, c, failsAt) && (at < d.clock || d.clock + n <= at) && (failsAt < d.clock || d.clock + n <= failsAt)
    ensures QuietFor(w, d, n)
  {
  }

  lemma TransactionLosesEdit(w: World, d: Disk, f: FileChange, theirs: Content, stamp: string)
    requires !d.journal && f.before.None? && f.file !in d.files && !f.isManifest && theirs != f.content
    requires QuietFor(w, d, 13) && w.edits(d.clock + 13) == map[] && w.fails(d.clock + 13) && QuietFor(w, Later(d, 14), 2)
    requires w.edits(d.clock + 16) == map[f.file := Some(theirs)] && !w.fails(d.clock + 16)
    requires w.edits(d.clock + 17) == map[] && !w.fails(d.clock + 17)
    ensures Transaction(w, d, [f], stamp) ==
            (Later(d, 18).(ours := d.ours + [Change(d.clock + 11, f.file, None, Some(f.content), true), Change(d.clock + 16, f.file, Some(theirs), None, true)]),
             RolledBack([]))
  {
    var begun := Later(d, 6).(journal := true);
    QuietPart(w, d, 13, d, 6);
    QuietPart(w, d, 13, begun, 7);
    QuietPart(w, Later(d, 14), 2, Later(begun, 8), 2);
    QuietBegin(w, d, f, stamp);
    TransactionIsCommit(w, d, [f], stamp, begun);
    CommitLosesEdit(w, begun, f, theirs);
  }

  lemma QuietPart(w: World, d: Disk, n: nat, e: Disk, m: nat)
    requires QuietFor(w, d, n) && d.clock <= e.clock && e.clock + m <= d.clock + n
    ensures QuietFor(w, e, m)
  {
  }

  lemma CommitLosesEdit(w: World, d: Disk, f: FileChange, theirs: Content)
    requires d.journal && f.before.None? && f.file !in d.files && theirs != f.content
    requires QuietFor(w, d, 7) && w.edits(d.clock + 7) == map[] && w.fails(d.clock + 7) && QuietFor(w, Later(d, 8), 2)
    requires w.edits(d.clock + 10) == map[f.file := Some(theirs)] && !w.fails(d.clock + 10)
    requires w.edits(d.clock + 11) == map[] && !w.fails(d.clock + 11)
    ensures Commit(w, d, [f]) ==
            (Later(d, 12).(journal := false,
                           ours := d.ours + [Change(d.clock + 5, f.file, None, Some(f.content), true), Change(d.clock + 10, f.file, Some(theirs), None, true)]),
             RolledBack([]))
  {
    var wrote := [Change(d.clock + 5, f.file, None, Some(f.content), true)];
    var created := Later(d, 7).(files := d.files[f.file := f.content], ours := d.ours + wrote);
    QuietCreate(w, d, f);
    AppliedOnce(w, d, f, created);
    VerifyFails(w, created);
    CommitRollsBack(w, d, [f], created, Later(created, 1));
    RollBackLosesEdit(w, Later(created, 1), f, theirs);
    AddedThenTaken(d.files, f.file, f.content);
    AppendTwice(d.ours, wrote[0], Change(d.clock + 10, f.file, Some(theirs), None, true));
  }

  lemma AddedThenTaken<K, V>(m: map<K, V>, k: K, v: V)
    requires k !in m
    ensures m[k := v] - {k} == m
  {
  }

  lemma AppendTwice<T>(s: seq<T>, x: T, y: T)
    ensures s + [x] + [y] == s + [x, y]
  {
  }

  lemma CommitRollsBack(w: World, d: Disk, plan: seq<FileChange>, applied: Disk, verified: Disk)
    requires ApplyUpTo(w, d, plan, |plan|) == Progress(applied, plan, false) && Awaits(w, applied, 1) == (verified, false)
    ensures Commit(w, d, plan) == RollBack(w, verified, plan)
  {
  }

  lemma TransactionIsCommit(w: World, d: Disk, plan: seq<FileChange>, stamp: string, begun: Disk)
    requires Begin(w, d, plan, stamp) == (begun, Some(plan))
    ensures Transaction(w, d, plan, stamp) == Commit(w, begun, plan)
  {
  }

  lemma VerifyFails(w: World, d: Disk)
    requires w.edits(d.clock) == map[] && w.fails(d.clock)
    ensures Awaits(w, d, 1) == (Later(d, 1), false)
  {
    QuietTick(w, d);
  }

  lemma RollBackLosesEdit(w: World, d: Disk, f: FileChange, theirs: Content)
    requires f.before.None? && Get(d.files, f.file) == Some(f.content) && QuietFor(w, d, 2)
    requires w.edits(d.clock + 2) == map[f.file := Some(theirs)] && !w.fails(d.clock + 2)
    requires w.edits(d.clock + 3) == map[] && !w.fails(d.clock + 3)
    ensures RollBack(w, d, [f]) ==
            (Later(d, 4).(files := d.files - {f.file}, journal := false,
                          ours := d.ours + [Change(d.clock + 2, f.file, Some(theirs), None, d.journal)]), RolledBack([]))
  {
    UndoLosesEdit(w, d, f, theirs);
    UndoneOnce(w, d, f);
    QuietTick(w, UndoNext(w, Undo(d, []), f).disk);
  }

  lemma AppliedOnce(w: World, d: Disk, f: FileChange, e: Disk)
    requires ApplyOne(w, d, f) == (e, Wrote)
    ensures ApplyUpTo(w, d, [f], 1) == Progress(e, [f], false)
  {
    assert ApplyUpTo(w, d, [f], 0) == Progress(d, [], false);
  }

  lemma UndoneOnce(w: World, d: Disk, f: FileChange)
    ensures UndoAll(w, Undo(d, []), [f]) == UndoNext(w, Undo(d, []), f)
  {
    var u := UndoNext(w, Undo(d, []), f);
    assert [f][..0] == [];
    assert UndoAll(w, u, []) == u;
  }
}

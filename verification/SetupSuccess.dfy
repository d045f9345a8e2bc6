/**
 When a setup succeeds: always when nothing fails, nobody edits what it plans to write and the plan describes what
 is there; and never when one of its awaits failed.
 */
module SetupSuccess {
  import opened Options
  import opened SetupModel
  import opened SetupProofs

  /** From this instant on nobody edits the path. */
  ghost predicate Left(w: World, q: Path, from: nat) {
    forall t: nat :: from <= t ==> q !in w.edits(t)
  }

  lemma LeftIsUntouched(w: World, q: Path, from: nat, a: nat, b: nat)
    requires Left(w, q, from) && from <= a
    ensures Untouched(w, q, a, b) && Left(w, q, a)
  {
  }

  /** No await of these instants fails. */
  ghost predicate NoFail(w: World, from: nat, to: nat) {
    forall t: nat :: from <= t < to ==> !w.fails(t)
  }

  lemma NoFailPart(w: World, from: nat, to: nat, a: nat, b: nat)
    requires NoFail(w, from, to) && from <= a && b <= to
    ensures NoFail(w, a, b)
  {
  }

  lemma {:induction false} AwaitsGrow(w: World, d: Disk, n: nat)
    ensures d.clock <= Awaits(w, d, n).0.clock && (n > 0 ==> d.clock < Awaits(w, d, n).0.clock)
    decreases n
  {
    if n > 0 && !Fails(w, d) { AwaitsGrow(w, Tick(w, d), n - 1); }
  }

  /** Awaits of which none fails before they are over, all succeed. */
  lemma {:induction false} HealthyAwaits(w: World, d: Disk, n: nat, to: nat)
    requires NoFail(w, d.clock, to) && Awaits(w, d, n).0.clock <= to
    ensures var (e, ok) := Awaits(w, d, n); ok && d.clock <= e.clock && e.backups == d.backups && e.journal == d.journal
    decreases n
  {
    AwaitsGrow(w, d, n);
    if n > 0 { HealthyAwaits(w, Tick(w, d), n - 1, to); }
  }

  /** What awaits leave of a path that nobody edits. */
  lemma LeftAwaits(w: World, d: Disk, n: nat, q: Path)
    requires Left(w, q, d.clock)
    ensures Get(Awaits(w, d, n).0.files, q) == Get(d.files, q) && Left(w, q, Awaits(w, d, n).0.clock)
  {
    AwaitsCalm(w, d, n);
    LeftIsUntouched(w, q, d.clock, d.clock, Awaits(w, d, n).0.clock);
  }

  lemma LeftTick(w: World, d: Disk, q: Path)
    requires Left(w, q, d.clock)
    ensures Get(Tick(w, d).files, q) == Get(d.files, q) && Left(w, q, d.clock + 1)
  {
  }

  lemma PublishSucceeds(w: World, d: Disk, f: FileChange, to: nat)
    requires NoFail(w, d.clock, to) && PublishNew(w, d, f).0.clock <= to && Left(w, f.file, d.clock) && f.file !in d.files
    ensures var (e, written) := PublishNew(w, d, f); written == Wrote && e.journal == d.journal && e.backups == d.backups
  {
    var staged := Awaits(w, d, 1).0;
    AwaitsGrow(w, d, 1);
    PublishGrows(w, d, f);
    HealthyAwaits(w, d, 1, to);
    LeftAwaits(w, d, 1, f.file);
    LeftTick(w, staged, f.file);
  }

  lemma PublishGrows(w: World, d: Disk, f: FileChange)
    ensures PublishNew(w, d, f).0.clock >= Awaits(w, d, 1).0.clock + 2
  {
  }

  lemma ReplaceSucceeds(w: World, d: Disk, f: FileChange, to: nat)
    requires NoFail(w, d.clock, to) && Left(w, f.file, d.clock) && f.before.Some? && Get(d.files, f.file) == f.before && f.file !in d.backups
    requires WriteReady(w, d, f).0.clock <= to
    ensures var (e, written) := WriteReady(w, d, f);
            written == Wrote && e.journal == d.journal && e.backups == d.backups[f.file := f.before.value]
  {
    LeftTick(w, d, f.file);
    LeftTick(w, WriteBackup(w, d, f.file, f.before.value).0, f.file);
  }

  lemma ReadySucceeds(w: World, d: Disk, f: FileChange, to: nat)
    requires NoFail(w, d.clock, to) && WriteReady(w, d, f).0.clock <= to && Left(w, f.file, d.clock)
    requires Get(d.files, f.file) == f.before && (f.before.Some? ==> f.file !in d.backups)
    ensures var (e, written) := WriteReady(w, d, f);
            && written == Wrote && e.journal == d.journal
            && e.backups == if f.before.Some? then d.backups[f.file := f.before.value] else d.backups
  {
    if f.before.None? { PublishSucceeds(w, d, f, to); } else { ReplaceSucceeds(w, d, f, to); }
  }

  lemma ReadyGrows(w: World, d: Disk, f: FileChange)
    ensures d.clock <= WriteReady(w, d, f).0.clock
  {
    AwaitsGrow(w, d, 1);
    if f.before.None? { PublishGrows(w, d, f); }
  }

  /** The three stages of an application. */
  lemma ApplyStages(w: World, d: Disk, f: FileChange, checked: Disk, read: Disk, ready: Disk)
    requires checked == Awaits(w, d, 2).0 && read == Tick(w, checked) && ready == Awaits(w, read, 1).0
    ensures ApplyOne(w, d, f) ==
              if !Awaits(w, d, 2).1 then (checked, NotWritten)
              else if Fails(w, checked) || Get(read.files, f.file) != f.before then (read, NotWritten)
              else if !Awaits(w, read, 1).1 then (ready, NotWritten)
              else WriteReady(w, ready, f)
  {
  }

  lemma ApplyGrows(w: World, d: Disk, f: FileChange)
    ensures d.clock <= Awaits(w, d, 2).0.clock <= ApplyOne(w, d, f).0.clock
  {
    var checked := Awaits(w, d, 2).0;
    var read := Tick(w, checked);
    var ready := Awaits(w, read, 1).0;
    AwaitsGrow(w, d, 2);
    AwaitsGrow(w, read, 1);
    ReadyGrows(w, ready, f);
    ApplyStages(w, d, f, checked, read, ready);
  }

  /** A file that holds what the plan saw is written, with a backup of what it overwrites. */
  lemma ApplySucceeds(w: World, d: Disk, f: FileChange, to: nat)
    requires NoFail(w, d.clock, to) && ApplyOne(w, d, f).0.clock <= to && Left(w, f.file, d.clock)
    requires Get(d.files, f.file) == f.before && (f.before.Some? ==> f.file !in d.backups)
    ensures var (e, written) := ApplyOne(w, d, f);
            && written == Wrote && e.journal == d.journal && d.clock <= e.clock
            && e.backups == if f.before.Some? then d.backups[f.file := f.before.value] else d.backups
  {
    var checked := Awaits(w, d, 2).0;
    var read := Tick(w, checked);
    var ready := Awaits(w, read, 1).0;
    ApplyGrows(w, d, f);
    ApplyStages(w, d, f, checked, read, ready);
    HealthyAwaits(w, d, 2, to);
    LeftAwaits(w, d, 2, f.file);
    LeftTick(w, checked, f.file);
    AwaitsGrow(w, read, 1);
    ReadyGrows(w, ready, f);
    HealthyAwaits(w, read, 1, to);
    LeftAwaits(w, read, 1, f.file);
    ReadySucceeds(w, ready, f, to);
  }

  // ---------------------------------------------------------------- the whole plan

  /** Nothing fails in these instants, and nobody edits a path of the plan from the first of them on. */
  ghost predicate Smooth(w: World, from: nat, to: nat, plan: seq<FileChange>) {
    NoFail(w, from, to) && forall i :: 0 <= i < |plan| ==> Left(w, plan[i].file, from)
  }

  /** The plan names no path twice, and describes what is there; nothing is in the way of its backups. */
  predicate Fresh(d: Disk, plan: seq<FileChange>) {
    && (forall i, k :: 0 <= i < k < |plan| ==> plan[i].file != plan[k].file)
    && (forall i :: 0 <= i < |plan| ==> Get(d.files, plan[i].file) == plan[i].before && (plan[i].before.Some? ==> plan[i].file !in d.backups))
  }

  /** The backups after the first i files. */
  predicate BackupsUpTo(d: Disk, e: Disk, plan: seq<FileChange>, i: nat)
    requires i <= |plan|
  {
    forall q :: q in e.backups ==> q in d.backups || exists k :: 0 <= k < i && plan[k].file == q
  }

  lemma NextGrows(w: World, p: Progress, f: FileChange)
    ensures p.disk.clock <= ApplyNext(w, p, f).disk.clock
  {
    ApplyGrows(w, p.disk, f);
  }

  predicate NotBefore(from: nat, p: Progress) { from <= p.disk.clock }

  lemma NextNotBefore(w: World, from: nat, p: Progress, f: FileChange)
    requires NotBefore(from, p)
    ensures NotBefore(from, ApplyNext(w, p, f))
  {
    NextGrows(w, p, f);
  }

  lemma {:induction false} LoopGrows(w: World, d: Disk, plan: seq<FileChange>, n: nat)
    requires n <= |plan|
    ensures NotBefore(d.clock, ApplyUpTo(w, d, plan, n))
    decreases n
  {
    if n > 0 {
      LoopGrows(w, d, plan, n - 1);
      NextNotBefore(w, d.clock, ApplyUpTo(w, d, plan, n - 1), plan[n - 1]);
    }
  }

  /** The loop has written the first i files, and its invariants hold. */
  ghost predicate Succeeding(w: World, d: Disk, plan: seq<FileChange>, i: nat, p: Progress)
    requires i <= |plan|
  {
    !p.failed && p.applied == plan[..i] && Holds(w, d, p) && BackupsUpTo(d, p.disk, plan, i)
  }

  ghost predicate LateOrSucceeding(w: World, d: Disk, plan: seq<FileChange>, i: nat, p: Progress, to: nat)
    requires i <= |plan|
  {
    to < p.disk.clock || Succeeding(w, d, plan, i, p)
  }

  lemma AppliesNext(w: World, d: Disk, plan: seq<FileChange>, i: nat, p: Progress, to: nat)
    requires i < |plan| && Smooth(w, d.clock, to, plan) && Fresh(d, plan) && Succeeding(w, d, plan, i, p)
    requires ApplyOne(w, p.disk, plan[i]).0.clock <= to
    ensures ApplyOne(w, p.disk, plan[i]).1 == Wrote
    ensures ApplyOne(w, p.disk, plan[i]).0.backups ==
              if plan[i].before.Some? then p.disk.backups[plan[i].file := plan[i].before.value] else p.disk.backups
  {
    NextHolds(w, d, plan, i, p);
    NoFailPart(w, d.clock, to, p.disk.clock, to);
    ApplySucceeds(w, p.disk, plan[i], to);
  }

  lemma NextIs(w: World, p: Progress, f: FileChange, e: Disk, written: Written)
    requires !p.failed && ApplyOne(w, p.disk, f) == (e, written)
    ensures ApplyNext(w, p, f) == Progress(e, if written.NotWritten? then p.applied else p.applied + [f], !written.Wrote?)
  {
  }

  lemma BackupAdded(d: Disk, p: Disk, e: Disk, plan: seq<FileChange>, i: nat)
    requires i < |plan| && BackupsUpTo(d, p, plan, i)
    requires e.backups == if plan[i].before.Some? then p.backups[plan[i].file := plan[i].before.value] else p.backups
    ensures BackupsUpTo(d, e, plan, i + 1)
  {
  }

  lemma SucceedingNext(w: World, d: Disk, plan: seq<FileChange>, i: nat, p: Progress, e: Disk, next: Progress)
    requires i < |plan| && Succeeding(w, d, plan, i, p) && next == Progress(e, p.applied + [plan[i]], false) && Holds(w, d, next)
    requires e.backups == if plan[i].before.Some? then p.disk.backups[plan[i].file := plan[i].before.value] else p.disk.backups
    ensures Succeeding(w, d, plan, i + 1, next)
  {
    BackupAdded(d, p.disk, e, plan, i);
    assert plan[..i + 1] == plan[..i] + [plan[i]];
  }

  lemma NextSucceeds(w: World, d: Disk, plan: seq<FileChange>, i: nat, p: Progress, to: nat)
    requires i < |plan| && Smooth(w, d.clock, to, plan) && Fresh(d, plan) && LateOrSucceeding(w, d, plan, i, p, to)
    ensures LateOrSucceeding(w, d, plan, i + 1, ApplyNext(w, p, plan[i]), to)
  {
    NextGrows(w, p, plan[i]);
    if p.disk.clock <= to {
      var (e, written) := ApplyOne(w, p.disk, plan[i]);
      NextIs(w, p, plan[i], e, written);
      if e.clock <= to {
        AppliesNext(w, d, plan, i, p, to);
        HoldsStep(w, d, p, plan[i]);
        SucceedingNext(w, d, plan, i, p, e, ApplyNext(w, p, plan[i]));
      }
    }
  }

  lemma {:induction false} LoopSucceeds(w: World, d: Disk, plan: seq<FileChange>, i: nat, to: nat)
    requires i <= |plan| && Smooth(w, d.clock, to, plan) && Fresh(d, plan)
    ensures LateOrSucceeding(w, d, plan, i, ApplyUpTo(w, d, plan, i), to)
  {
    if i > 0 {
      LoopSucceeds(w, d, plan, i - 1, to);
      NextSucceeds(w, d, plan, i - 1, ApplyUpTo(w, d, plan, i - 1), to);
    }
  }

  lemma NextHolds(w: World, d: Disk, plan: seq<FileChange>, i: nat, p: Progress)
    requires i < |plan| && Fresh(d, plan) && Left(w, plan[i].file, d.clock)
    requires Holds(w, d, p) && p.applied == plan[..i] && BackupsUpTo(d, p.disk, plan, i)
    ensures Left(w, plan[i].file, p.disk.clock)
    ensures Get(p.disk.files, plan[i].file) == plan[i].before && (plan[i].before.Some? ==> plan[i].file !in p.disk.backups)
  {
    LeftIsUntouched(w, plan[i].file, d.clock, d.clock, p.disk.clock);
    LeftIsUntouched(w, plan[i].file, d.clock, p.disk.clock, p.disk.clock);
    ValueMeans(d.files, plan[..i], plan[i].file);
    assert !OneOf(plan[..i], plan[i].file);
  }

  // The first pass.

  lemma StillThere(w: World, d: Disk, e: Disk, plan: seq<FileChange>, i: nat)
    requires i < |plan| && Left(w, plan[i].file, d.clock) && Fresh(d, plan) && Calm(w, d, e)
    ensures Left(w, plan[i].file, e.clock) && Get(e.files, plan[i].file) == plan[i].before
  {
    LeftIsUntouched(w, plan[i].file, d.clock, d.clock, e.clock);
    LeftIsUntouched(w, plan[i].file, d.clock, e.clock, e.clock);
  }

  lemma StillThereWhenChecked(w: World, d: Disk, plan: seq<FileChange>, i: nat)
    requires i < |plan| && Left(w, plan[i].file, d.clock) && Fresh(d, plan)
    ensures var e := CheckUpTo(w, d, plan, i).0; Left(w, plan[i].file, e.clock) && Get(e.files, plan[i].file) == plan[i].before
  {
    CheckCalm(w, d, plan, i);
    StillThere(w, d, CheckUpTo(w, d, plan, i).0, plan, i);
  }

  /** One look of the first pass. */
  function Look(w: World, d: Disk, f: FileChange): (Disk, bool) {
    var (checked, ok) := Awaits(w, d, 1);
    var read := Tick(w, checked);
    if !ok then (checked, false) else (read, !Fails(w, checked) && Get(read.files, f.file) == f.before)
  }

  lemma CheckIsLook(w: World, d: Disk, plan: seq<FileChange>, i: nat)
    requires i < |plan|
    ensures CheckUpTo(w, d, plan, i + 1) == if CheckUpTo(w, d, plan, i).1 then Look(w, CheckUpTo(w, d, plan, i).0, plan[i]) else CheckUpTo(w, d, plan, i)
  {
  }

  /** Later, with nothing changed but files. */
  ghost predicate Looked(d: Disk, e: Disk) { d.clock <= e.clock && e.backups == d.backups && e.journal == d.journal }

  lemma LookSucceeds(w: World, d: Disk, f: FileChange, to: nat)
    requires NoFail(w, d.clock, to) && Look(w, d, f).0.clock <= to && Left(w, f.file, d.clock) && Get(d.files, f.file) == f.before
    ensures Look(w, d, f).1 && Looked(d, Look(w, d, f).0)
  {
    HealthyAwaits(w, d, 1, to);
    LeftAwaits(w, d, 1, f.file);
    LeftTick(w, Awaits(w, d, 1).0, f.file);
  }

  lemma CheckGrows(w: World, d: Disk, plan: seq<FileChange>, i: nat)
    requires i < |plan|
    ensures CheckUpTo(w, d, plan, i).0.clock <= CheckUpTo(w, d, plan, i + 1).0.clock
  {
    CheckIsLook(w, d, plan, i);
    AwaitsGrow(w, CheckUpTo(w, d, plan, i).0, 1);
  }

  lemma CheckNext(w: World, d: Disk, plan: seq<FileChange>, i: nat, before: Disk, to: nat)
    requires i < |plan| && CheckUpTo(w, d, plan, i) == (before, true) && Looked(d, before) && NoFail(w, d.clock, to)
    requires Left(w, plan[i].file, before.clock) && Get(before.files, plan[i].file) == plan[i].before
    requires CheckUpTo(w, d, plan, i + 1).0.clock <= to
    ensures CheckUpTo(w, d, plan, i + 1).1 && Looked(d, CheckUpTo(w, d, plan, i + 1).0)
  {
    CheckIsLook(w, d, plan, i);
    NoFailPart(w, d.clock, to, before.clock, to);
    LookSucceeds(w, before, plan[i], to);
  }

  lemma {:induction false} CheckSucceeds(w: World, d: Disk, plan: seq<FileChange>, i: nat, to: nat)
    requires i <= |plan| && Smooth(w, d.clock, to, plan) && Fresh(d, plan) && CheckUpTo(w, d, plan, i).0.clock <= to
    ensures CheckUpTo(w, d, plan, i).1 && Looked(d, CheckUpTo(w, d, plan, i).0)
  {
    if i > 0 {
      CheckGrows(w, d, plan, i - 1);
      CheckSucceeds(w, d, plan, i - 1, to);
      StillThereWhenChecked(w, d, plan, i - 1);
      CheckNext(w, d, plan, i - 1, CheckUpTo(w, d, plan, i - 1).0, to);
    }
  }

  /** The stages of the beginning. */
  lemma BeginStages(w: World, d: Disk, plan: seq<FileChange>, stamp: string, looked: Disk, checked: Disk, made: Disk)
    requires looked == Awaits(w, d, 2).0 && checked == CheckUpTo(w, looked, plan, |plan|).0 && made == Awaits(w, checked, 1).0
    ensures Begin(w, d, plan, stamp) ==
              if !Awaits(w, d, 2).1 || looked.journal then (looked, None)
              else if !CheckUpTo(w, looked, plan, |plan|).1 then (checked, None)
              else if !Awaits(w, checked, 1).1 || Prepared(plan, stamp).None? then (made, None)
              else if Fails(w, made) || made.journal then (Tick(w, made), None)
              else (Tick(w, made).(journal := true), Prepared(plan, stamp))
  {
  }

  lemma {:induction false} CheckGrew(w: World, d: Disk, plan: seq<FileChange>, i: nat)
    requires i <= |plan|
    ensures d.clock <= CheckUpTo(w, d, plan, i).0.clock
  {
    if i > 0 {
      CheckGrew(w, d, plan, i - 1);
      CheckGrows(w, d, plan, i - 1);
    }
  }

  lemma BeginSucceeds(w: World, d: Disk, plan: seq<FileChange>, stamp: string, to: nat)
    requires !d.journal && Smooth(w, d.clock, to, plan) && Fresh(d, plan) && Prepared(plan, stamp).Some?
    requires Begin(w, d, plan, stamp).0.clock <= to
    ensures var (begun, prepared) := Begin(w, d, plan, stamp);
            prepared == Prepared(plan, stamp) && d.clock <= begun.clock && begun.backups == d.backups && begun.journal
  {
    var looked := Awaits(w, d, 2).0;
    var checked := CheckUpTo(w, looked, plan, |plan|).0;
    var made := Awaits(w, checked, 1).0;
    BeginStages(w, d, plan, stamp, looked, checked, made);
    AwaitsGrow(w, d, 2);
    CheckGrew(w, looked, plan, |plan|);
    AwaitsGrow(w, checked, 1);
    HealthyAwaits(w, d, 2, to);
    LookedFresh(w, d, plan, to);
    CheckSucceeds(w, looked, plan, |plan|, to);
    NoFailPart(w, d.clock, to, checked.clock, to);
    HealthyAwaits(w, checked, 1, to);
  }

  lemma LookedFresh(w: World, d: Disk, plan: seq<FileChange>, to: nat)
    requires Smooth(w, d.clock, to, plan) && Fresh(d, plan) && Awaits(w, d, 2).0.backups == d.backups
    ensures Smooth(w, Awaits(w, d, 2).0.clock, to, plan) && Fresh(Awaits(w, d, 2).0, plan)
  {
    AwaitsCalm(w, d, 2);
    LaterFresh(w, d, Awaits(w, d, 2).0, plan, to);
  }

  lemma LaterFresh(w: World, d: Disk, e: Disk, plan: seq<FileChange>, to: nat)
    requires Smooth(w, d.clock, to, plan) && Fresh(d, plan) && Calm(w, d, e) && e.backups == d.backups
    ensures Smooth(w, e.clock, to, plan) && Fresh(e, plan)
  {
    forall i | 0 <= i < |plan| ensures Left(w, plan[i].file, e.clock) && Get(e.files, plan[i].file) == plan[i].before {
      StillThere(w, d, e, plan, i);
    }
  }

  // The end.

  lemma UndoOneGrows(w: World, d: Disk, f: FileChange)
    ensures d.clock <= UndoOne(w, d, f).0.clock
  {
    AwaitsGrow(w, d, 1);
  }

  lemma {:induction false} UndoAllGrows(w: World, u: Undo, left: seq<FileChange>)
    ensures u.disk.clock <= UndoAll(w, u, left).disk.clock
    decreases |left|
  {
    if left != [] {
      UndoOneGrows(w, u.disk, left[|left| - 1]);
      UndoAllGrows(w, UndoNext(w, u, left[|left| - 1]), left[..|left| - 1]);
    }
  }

  lemma RollBackGrows(w: World, d: Disk, applied: seq<FileChange>)
    ensures d.clock <= RollBack(w, d, applied).0.clock
  {
    UndoAllGrows(w, Undo(d, []), applied);
  }

  /** However it ends, a commit has waited for its verification if nothing failed before. */
  lemma CloseGrows(w: World, p: Progress)
    ensures p.disk.clock <= Close(w, p).0.clock
    ensures !p.failed ==> Awaits(w, p.disk, 1).0.clock <= Close(w, p).0.clock
    ensures !p.failed && Awaits(w, p.disk, 1).1 ==> Awaits(w, p.disk, 1).0.clock + 1 <= Close(w, p).0.clock
  {
    var verified := Awaits(w, p.disk, 1).0;
    AwaitsGrow(w, p.disk, 1);
    RollBackGrows(w, p.disk, p.applied);
    RollBackGrows(w, verified, p.applied);
    RollBackGrows(w, RemoveJournal(w, verified).0, p.applied);
  }

  lemma CloseSucceeds(w: World, p: Progress, to: nat)
    requires !p.failed && NoFail(w, p.disk.clock, to) && Close(w, p).0.clock <= to
    ensures Close(w, p).1 == Applied
  {
    CloseGrows(w, p);
    AwaitsGrow(w, p.disk, 1);
    HealthyAwaits(w, p.disk, 1, to);
  }

  lemma CommitSucceeds(w: World, d: Disk, plan: seq<FileChange>, to: nat)
    requires Smooth(w, d.clock, to, plan) && Fresh(d, plan) && Commit(w, d, plan).0.clock <= to
    ensures Commit(w, d, plan).1 == Applied
  {
    var p := ApplyUpTo(w, d, plan, |plan|);
    CloseGrows(w, p);
    LoopSucceeds(w, d, plan, |plan|, to);
    LoopGrows(w, d, plan, |plan|);
    NoFailPart(w, d.clock, to, p.disk.clock, to);
    CloseSucceeds(w, p, to);
  }

  /** The paths whose text the plan overwrites. */
  function Overwritten(plan: seq<FileChange>): set<Path> {
    set k | 0 <= k < |plan| && plan[k].before.Some? :: plan[k].file
  }

  lemma BackupsListed(known: map<Path, string>, plan: seq<FileChange>, stamp: string)
    ensures var all := WithBackups(known, plan, stamp, |plan|);
            && all.Keys == known.Keys + Overwritten(plan)
            && (forall q :: q in all ==> all[q] == if q in Overwritten(plan) then q + ".setup-backup-" + stamp else known[q])
  {
    var all := WithBackups(known, plan, stamp, |plan|);
    forall q
      ensures q in all <==> q in known.Keys + Overwritten(plan)
      ensures q in all ==> all[q] == if q in Overwritten(plan) then q + ".setup-backup-" + stamp else known[q]
    {
      WithBackupsLists(known, plan, stamp, |plan|, q);
    }
  }

  /**
   A plan with a manifest is prepared exactly within the bounds of 1024 files and 1024 backups; its first manifest
   then lists the backups of this run besides those it knew, and everything else is written as planned.
   */
  lemma PreparedMeans(plan: seq<FileChange>, stamp: string, m: nat)
    requires m < |plan| && plan[m].isManifest && (forall i :: 0 <= i < m ==> !plan[i].isManifest)
    ensures Prepared(plan, stamp).Some? <==>
              |plan| <= 1024 && plan[m].content.ManifestDoc? && |plan[m].content.backups.Keys + Overwritten(plan)| <= 1024
    ensures Prepared(plan, stamp).Some? ==>
              var made := Prepared(plan, stamp).value;
              && |made| == |plan| && (forall i :: 0 <= i < |plan| && i != m ==> made[i] == plan[i])
              && made[m].content.ManifestDoc? && made[m] == plan[m].(content := made[m].content) && made[m].content.text == plan[m].content.text
              && made[m].content.backups.Keys == plan[m].content.backups.Keys + Overwritten(plan)
              && (forall q :: q in made[m].content.backups ==>
                    made[m].content.backups[q] == if q in Overwritten(plan) then q + ".setup-backup-" + stamp else plan[m].content.backups[q])
  {
    FirstManifestIs(plan, 0, m);
    if plan[m].content.ManifestDoc? {
      BackupsListed(plan[m].content.backups, plan, stamp);
      var all := WithBackups(plan[m].content.backups, plan, stamp, |plan|);
      assert |all| == |all.Keys|;
    }
  }

  lemma {:induction false} FirstManifestIs(plan: seq<FileChange>, i: nat, m: nat)
    requires i <= m <= |plan| && (m < |plan| ==> plan[m].isManifest) && forall k :: i <= k < m ==> !plan[k].isManifest
    ensures FirstManifest(plan, i) == m
    decreases m - i
  {
    if i < m { FirstManifestIs(plan, i + 1, m); }
  }

  /** A plan without a manifest is written as it stands. */
  lemma PlainPlanIsPrepared(plan: seq<FileChange>, stamp: string)
    requires forall i :: 0 <= i < |plan| ==> !plan[i].isManifest
    ensures Prepared(plan, stamp) == if |plan| <= 1024 then Some(plan) else None
  {
    FirstManifestIs(plan, 0, |plan|);
  }

  lemma SmoothCommit(w: World, d: Disk, plan: seq<FileChange>, stamp: string, to: nat)
    requires Smooth(w, d.clock, to, plan) && Fresh(d, plan) && Begin(w, d, plan, stamp).1.Some? && Begin(w, d, plan, stamp).0.backups == d.backups
    ensures var (begun, made) := (Begin(w, d, plan, stamp).0, Prepared(plan, stamp).value);
            begun.journal && Smooth(w, begun.clock, to, made) && Fresh(begun, made)
  {
    var begun, made := Begin(w, d, plan, stamp).0, Prepared(plan, stamp).value;
    BeginCalm(w, d, plan, stamp);
    LaterFresh(w, d, begun.(journal := false), plan, to);
    PreparedSameFiles(plan, stamp);
    forall i | 0 <= i < |made| ensures Left(w, made[i].file, begun.clock) && Get(begun.files, made[i].file) == made[i].before {
      assert made[i].file == plan[i].file;
    }
  }

  lemma TransactionGrows(w: World, d: Disk, plan: seq<FileChange>, stamp: string)
    ensures Begin(w, d, plan, stamp).0.clock <= Transaction(w, d, plan, stamp).0.clock
  {
    if Begin(w, d, plan, stamp).1.Some? {
      TransactionCommits(w, d, plan, stamp);
      var begun, made := Begin(w, d, plan, stamp).0, Begin(w, d, plan, stamp).1.value;
      LoopGrows(w, begun, made, |made|);
      CloseGrows(w, ApplyUpTo(w, begun, made, |made|));
    }
  }

  lemma SucceedsWhenSmooth(w: World, d: Disk, plan: seq<FileChange>, stamp: string)
    requires !d.journal && Fresh(d, plan) && Prepared(plan, stamp).Some?
    requires Smooth(w, d.clock, Transaction(w, d, plan, stamp).0.clock, plan)
    ensures Transaction(w, d, plan, stamp).1 == Applied
  {
    var to := Transaction(w, d, plan, stamp).0.clock;
    TransactionGrows(w, d, plan, stamp);
    BeginSucceeds(w, d, plan, stamp, to);
    SmoothCommit(w, d, plan, stamp, to);
    TransactionCommits(w, d, plan, stamp);
    CommitSucceeds(w, Begin(w, d, plan, stamp).0, Prepared(plan, stamp).value, to);
  }

  /** What success means for each planned path that nobody edits: its new content, and the overwritten text in its backup. */
  lemma AppliedHolds(w: World, d: Disk, plan: seq<FileChange>, stamp: string, i: nat)
    requires Transaction(w, d, plan, stamp).1 == Applied && i < |plan| && Left(w, plan[i].file, d.clock)
    requires forall k :: 0 <= k < |plan| && k != i ==> plan[k].file != plan[i].file
    ensures var (e, made) := (Transaction(w, d, plan, stamp).0, Prepared(plan, stamp));
            && made.Some? && |made.value| == |plan| && Get(e.files, plan[i].file) == Some(made.value[i].content)
            && (plan[i].before.Some? ==> plan[i].file in e.backups && e.backups[plan[i].file] == plan[i].before.value)
  {
    var begun, made := Begin(w, d, plan, stamp).0, Prepared(plan, stamp).value;
    PreparedSameFiles(plan, stamp);
    CommitIsAtomicAt(w, d, plan, stamp);
    BeginCalm(w, d, plan, stamp);
    var e := Transaction(w, d, plan, stamp).0;
    assert made[i].file == plan[i].file && made[i].before == plan[i].before;
    LeftIsUntouched(w, made[i].file, d.clock, begun.clock, e.clock);
    ValueMeans(begun.files, made, made[i].file);
    assert OneOf(made, made[i].file);
  }

  /**
   A setup succeeds: when nothing fails while it runs, nobody edits a planned path, no earlier setup is pending, no
   backup is in the way, the plan names each path once and describes what is there, and its manifest can list the
   backups, then every planned path ends with its new content, every overwritten text is in its backup, and no
   journal is left.
   */
  lemma SetupSucceeds(w: World, d: Disk, plan: seq<FileChange>, stamp: string)
    requires !d.journal && Fresh(d, plan) && Prepared(plan, stamp).Some?
    requires Smooth(w, d.clock, Transaction(w, d, plan, stamp).0.clock, plan)
    ensures var ((e, o), made) := (Transaction(w, d, plan, stamp), Prepared(plan, stamp).value);
            && o == Applied && !e.journal && |made| == |plan|
            && (forall i :: 0 <= i < |plan| ==> Get(e.files, plan[i].file) == Some(made[i].content))
            && (forall i :: 0 <= i < |plan| && plan[i].before.Some? ==>
                  plan[i].file in e.backups && e.backups[plan[i].file] == plan[i].before.value)
  {
    SucceedsWhenSmooth(w, d, plan, stamp);
    PreparedSameFiles(plan, stamp);
    JournalOutlives(w, d, plan, stamp);
    var e := Transaction(w, d, plan, stamp).0;
    forall i | 0 <= i < |plan|
      ensures Get(e.files, plan[i].file) == Some(Prepared(plan, stamp).value[i].content)
      ensures plan[i].before.Some? ==> plan[i].file in e.backups && e.backups[plan[i].file] == plan[i].before.value
    {
      AppliedHolds(w, d, plan, stamp, i);
    }
  }

  // ---------------------------------------------------------------- and only then

  lemma {:induction false} AwaitsNoFail(w: World, d: Disk, n: nat)
    requires Awaits(w, d, n).1
    ensures Awaits(w, d, n).0.clock == d.clock + n && NoFail(w, d.clock, d.clock + n)
    decreases n
  {
    if n > 0 { AwaitsNoFail(w, Tick(w, d), n - 1); }
  }

  lemma ApplyNoFail(w: World, d: Disk, f: FileChange)
    requires ApplyOne(w, d, f).1 == Wrote
    ensures d.clock <= ApplyOne(w, d, f).0.clock && NoFail(w, d.clock, ApplyOne(w, d, f).0.clock)
  {
    var read := Tick(w, Awaits(w, d, 2).0);
    var ready := Awaits(w, read, 1).0;
    AwaitsNoFail(w, d, 2);
    AwaitsNoFail(w, read, 1);
    if f.before.None? {
      PublishNoFail(w, ready, f);
      assert ApplyOne(w, d, f) == PublishNew(w, ready, f);
    } else {
      assert ApplyOne(w, d, f).0.clock == ready.clock + 2 && !w.fails(ready.clock) && !w.fails(ready.clock + 1);
    }
  }

  lemma PublishNoFail(w: World, d: Disk, f: FileChange)
    requires PublishNew(w, d, f).1 == Wrote
    ensures d.clock <= PublishNew(w, d, f).0.clock && NoFail(w, d.clock, PublishNew(w, d, f).0.clock)
  {
    AwaitsNoFail(w, d, 1);
  }

  lemma NextWrote(w: World, p: Progress, f: FileChange)
    requires !ApplyNext(w, p, f).failed
    ensures !p.failed && ApplyOne(w, p.disk, f).1 == Wrote && ApplyNext(w, p, f).disk == ApplyOne(w, p.disk, f).0
  {
  }

  lemma NextNoFail(w: World, from: nat, p: Progress, f: FileChange)
    requires !ApplyNext(w, p, f).failed && from <= p.disk.clock && NoFail(w, from, p.disk.clock)
    ensures p.disk.clock <= ApplyNext(w, p, f).disk.clock && NoFail(w, from, ApplyNext(w, p, f).disk.clock)
  {
    NextWrote(w, p, f);
    ApplyNoFail(w, p.disk, f);
  }

  /** Progress that has not failed met no failing await. */
  ghost predicate Clean(w: World, from: nat, p: Progress) {
    p.failed || (from <= p.disk.clock && NoFail(w, from, p.disk.clock))
  }

  lemma NextIsClean(w: World, from: nat, p: Progress, f: FileChange)
    requires Clean(w, from, p)
    ensures Clean(w, from, ApplyNext(w, p, f))
  {
    if !ApplyNext(w, p, f).failed {
      NextWrote(w, p, f);
      NextNoFail(w, from, p, f);
    }
  }

  lemma {:induction false} LoopIsClean(w: World, d: Disk, plan: seq<FileChange>, i: nat)
    requires i <= |plan|
    ensures Clean(w, d.clock, ApplyUpTo(w, d, plan, i))
  {
    if i > 0 {
      LoopIsClean(w, d, plan, i - 1);
      NextIsClean(w, d.clock, ApplyUpTo(w, d, plan, i - 1), plan[i - 1]);
    }
  }

  lemma {:induction false} CheckNoFail(w: World, d: Disk, plan: seq<FileChange>, i: nat)
    requires i <= |plan| && CheckUpTo(w, d, plan, i).1
    ensures d.clock <= CheckUpTo(w, d, plan, i).0.clock && NoFail(w, d.clock, CheckUpTo(w, d, plan, i).0.clock)
  {
    if i > 0 {
      CheckNoFail(w, d, plan, i - 1);
      AwaitsNoFail(w, CheckUpTo(w, d, plan, i - 1).0, 1);
    }
  }

  lemma BeginNoFail(w: World, d: Disk, plan: seq<FileChange>, stamp: string)
    requires Begin(w, d, plan, stamp).1.Some?
    ensures d.clock <= Begin(w, d, plan, stamp).0.clock && NoFail(w, d.clock, Begin(w, d, plan, stamp).0.clock)
  {
    var looked := Awaits(w, d, 2).0;
    AwaitsNoFail(w, d, 2);
    CheckNoFail(w, looked, plan, |plan|);
    AwaitsNoFail(w, CheckUpTo(w, looked, plan, |plan|).0, 1);
  }

  lemma RollBackIsNotApplied(w: World, d: Disk, applied: seq<FileChange>)
    ensures RollBack(w, d, applied).1 != Applied
  {
  }

  lemma NoFailMore(w: World, from: nat, to: nat)
    requires NoFail(w, from, to) && !w.fails(to) && !w.fails(to + 1)
    ensures NoFail(w, from, to + 2)
  {
  }

  lemma ClosedApplied(w: World, p: Progress)
    requires Close(w, p).1 == Applied
    ensures !p.failed && !w.fails(p.disk.clock) && !w.fails(p.disk.clock + 1) && Close(w, p).0.clock == p.disk.clock + 2
  {
    var verified := Awaits(w, p.disk, 1).0;
    RollBackIsNotApplied(w, p.disk, p.applied);
    RollBackIsNotApplied(w, verified, p.applied);
    RollBackIsNotApplied(w, RemoveJournal(w, verified).0, p.applied);
  }

  lemma CommitNoFail(w: World, from: nat, p: Progress)
    requires Clean(w, from, p) && Close(w, p).1 == Applied
    ensures from <= Close(w, p).0.clock && NoFail(w, from, Close(w, p).0.clock)
  {
    ClosedApplied(w, p);
    NoFailMore(w, from, p.disk.clock);
  }

  lemma NoFailJoins(w: World, a: nat, b: nat, c: nat)
    requires NoFail(w, a, b) && NoFail(w, b, c)
    ensures NoFail(w, a, c)
  {
  }

  lemma TransactionCommits(w: World, d: Disk, plan: seq<FileChange>, stamp: string)
    requires Begin(w, d, plan, stamp).1.Some?
    ensures Transaction(w, d, plan, stamp) == Commit(w, Begin(w, d, plan, stamp).0, Begin(w, d, plan, stamp).1.value)
  {
  }

  /** A setup that succeeds had no failing await, from its first look to the removal of its journal. */
  lemma AppliedHadNoFailure(w: World, d: Disk, plan: seq<FileChange>, stamp: string)
    requires Transaction(w, d, plan, stamp).1 == Applied
    ensures NoFail(w, d.clock, Transaction(w, d, plan, stamp).0.clock)
  {
    var (begun, prepared) := Begin(w, d, plan, stamp);
    BeginNoFail(w, d, plan, stamp);
    TransactionCommits(w, d, plan, stamp);
    LoopIsClean(w, begun, prepared.value, |prepared.value|);
    CommitNoFail(w, begun.clock, ApplyUpTo(w, begun, prepared.value, |prepared.value|));
    NoFailJoins(w, d.clock, begun.clock, Transaction(w, d, plan, stamp).0.clock);
  }

  lemma {:induction false} CheckedHolds(w: World, d: Disk, plan: seq<FileChange>, n: nat, i: nat)
    requires i < n <= |plan| && CheckUpTo(w, d, plan, n).1
    requires Untouched(w, plan[i].file, d.clock, CheckUpTo(w, d, plan, n).0.clock)
    ensures Get(d.files, plan[i].file) == plan[i].before
  {
    var before := CheckUpTo(w, d, plan, n - 1).0;
    AwaitsNoFail(w, before, 1);
    if i < n - 1 {
      CheckedHolds(w, d, plan, n - 1, i);
    } else {
      CheckCalm(w, d, plan, n);
      assert CheckUpTo(w, d, plan, n).0 == Tick(w, Awaits(w, before, 1).0);
    }
  }

  /** File i was written in full, and the loop went on from there. */
  ghost predicate WroteAt(w: World, d: Disk, plan: seq<FileChange>, i: nat, to: nat)
    requires i < |plan|
  {
    var p := ApplyUpTo(w, d, plan, i);
    !p.failed && ApplyOne(w, p.disk, plan[i]).1 == Wrote && ApplyOne(w, p.disk, plan[i]).0.clock <= to
  }

  ghost predicate FailedOrWroteAt(w: World, d: Disk, plan: seq<FileChange>, i: nat, p: Progress)
    requires i < |plan|
  {
    p.failed || WroteAt(w, d, plan, i, p.disk.clock)
  }

  lemma LastWrote(w: World, d: Disk, plan: seq<FileChange>, i: nat)
    requires i < |plan|
    ensures FailedOrWroteAt(w, d, plan, i, ApplyNext(w, ApplyUpTo(w, d, plan, i), plan[i]))
  {
    if !ApplyNext(w, ApplyUpTo(w, d, plan, i), plan[i]).failed { NextWrote(w, ApplyUpTo(w, d, plan, i), plan[i]); }
  }

  lemma WroteStays(w: World, d: Disk, plan: seq<FileChange>, i: nat, p: Progress, f: FileChange)
    requires i < |plan| && FailedOrWroteAt(w, d, plan, i, p)
    ensures FailedOrWroteAt(w, d, plan, i, ApplyNext(w, p, f))
  {
    if !ApplyNext(w, p, f).failed {
      NextWrote(w, p, f);
      ApplyNoFail(w, p.disk, f);
    }
  }

  lemma {:induction false} EachWrote(w: World, d: Disk, plan: seq<FileChange>, n: nat, i: nat)
    requires i < n <= |plan|
    ensures FailedOrWroteAt(w, d, plan, i, ApplyUpTo(w, d, plan, n))
    decreases n
  {
    if i == n - 1 {
      LastWrote(w, d, plan, i);
    } else {
      EachWrote(w, d, plan, n - 1, i);
      WroteStays(w, d, plan, i, ApplyUpTo(w, d, plan, n - 1), plan[n - 1]);
    }
  }

  /** A backup is never written over one that is there. */
  lemma WroteNewBackup(w: World, d: Disk, f: FileChange)
    requires !ApplyOne(w, d, f).1.NotWritten? && f.before.Some?
    ensures f.file !in d.backups
  {
    var read := Tick(w, Awaits(w, d, 2).0);
    AwaitsCalm(w, d, 2);
    AwaitsCalm(w, read, 1);
  }

  predicate HasBackup(p: Progress, q: Path) { q in p.disk.backups }

  lemma NextKeepsBackup(w: World, p: Progress, f: FileChange, q: Path)
    requires HasBackup(p, q)
    ensures HasBackup(ApplyNext(w, p, f), q)
  {
    ApplyOneIsSwap(w, p.disk, f);
  }

  lemma {:induction false} LoopKeepsBackup(w: World, d: Disk, plan: seq<FileChange>, i: nat, q: Path) returns (p: Progress)
    requires i <= |plan| && q in d.backups
    ensures p == ApplyUpTo(w, d, plan, i) && HasBackup(p, q)
  {
    if i == 0 {
      p := Progress(d, [], false);
    } else {
      p := LoopKeepsBackup(w, d, plan, i - 1, q);
      NextKeepsBackup(w, p, plan[i - 1], q);
      p := ApplyNext(w, p, plan[i - 1]);
    }
  }

  /** A file written at place i for which there was a text had no backup before the loop. */
  lemma NoBackupBefore(w: World, d: Disk, plan: seq<FileChange>, i: nat, to: nat)
    requires i < |plan| && WroteAt(w, d, plan, i, to) && plan[i].before.Some?
    ensures plan[i].file !in ApplyUpTo(w, d, plan, i).disk.backups && plan[i].file !in d.backups
  {
    WroteNewBackup(w, ApplyUpTo(w, d, plan, i).disk, plan[i]);
    if plan[i].file in d.backups { var p := LoopKeepsBackup(w, d, plan, i, plan[i].file); }
  }

  /** What an earlier entry of the same path left is what the plan must have seen at place k, if nobody else edits the path. */
  lemma SawEarlierEntry(w: World, d: Disk, plan: seq<FileChange>, k: nat, q: Path, to: nat) returns (m: nat)
    requires d.journal && k < |plan| && WroteAt(w, d, plan, k, to) && plan[k].file == q && Untouched(w, q, d.clock, to)
    requires OneOf(plan[..k], q)
    ensures m < k && plan[m].file == q && plan[k].before == Some(plan[m].content)
    ensures plan[m].before.Some? ==> q in ApplyUpTo(w, d, plan, k).disk.backups
  {
    var p := ApplyLoop(w, d, plan, k);
    ApplyOneIsSwap(w, p.disk, plan[k]);
    var e := ApplyOne(w, p.disk, plan[k]).0;
    assert Untouched(w, q, d.clock, p.disk.clock) && Untouched(w, q, p.disk.clock, e.clock);
    ValueMeans(d.files, plan[..k], q);
    m :| 0 <= m < k && plan[..k][m].file == q && Value(d.files, plan[..k], q) == Some(plan[..k][m].content);
    assert p.applied[m] == plan[m];
  }

  /** The parts of a setup that succeeded. */
  lemma AppliedParts(w: World, d: Disk, plan: seq<FileChange>, stamp: string) returns (begun: Disk, made: seq<FileChange>)
    requires Transaction(w, d, plan, stamp).1 == Applied
    ensures Begin(w, d, plan, stamp) == (begun, Some(made)) && Prepared(plan, stamp) == Some(made) && begun.journal
    ensures d.clock <= begun.clock <= ApplyUpTo(w, begun, made, |made|).disk.clock <= Transaction(w, d, plan, stamp).0.clock
    ensures !ApplyUpTo(w, begun, made, |made|).failed
  {
    begun, made := Begin(w, d, plan, stamp).0, Begin(w, d, plan, stamp).1.value;
    TransactionCommits(w, d, plan, stamp);
    BeginNoFail(w, d, plan, stamp);
    BeginCalm(w, d, plan, stamp);
    ClosedApplied(w, ApplyUpTo(w, begun, made, |made|));
    LoopIsClean(w, begun, made, |made|);
  }

  lemma UntouchedAwaits(w: World, d: Disk, n: nat, q: Path)
    requires Untouched(w, q, d.clock, Awaits(w, d, n).0.clock)
    ensures Get(Awaits(w, d, n).0.files, q) == Get(d.files, q)
  {
    AwaitsCalm(w, d, n);
  }

  lemma UntouchedPart(w: World, q: Path, from: nat, to: nat, a: nat, b: nat)
    requires Untouched(w, q, from, to) && from <= a && b <= to
    ensures Untouched(w, q, a, b)
  {
  }

  lemma FoundNoBackup(w: World, d: Disk, plan: seq<FileChange>, i: nat)
    requires i < |plan| && !ApplyUpTo(w, d, plan, |plan|).failed && plan[i].before.Some?
    ensures plan[i].file !in d.backups
  {
    EachWrote(w, d, plan, |plan|, i);
    NoBackupBefore(w, d, plan, i, ApplyUpTo(w, d, plan, |plan|).disk.clock);
  }

  lemma BegunKeepsBackups(w: World, d: Disk, plan: seq<FileChange>, stamp: string, q: Path)
    requires q in d.backups && Begin(w, d, plan, stamp).1.Some?
    ensures q in Begin(w, d, plan, stamp).0.backups
  {
    BeginCalm(w, d, plan, stamp);
  }

  lemma BegunSawText(w: World, d: Disk, plan: seq<FileChange>, stamp: string, i: nat)
    requires Begin(w, d, plan, stamp).1.Some? && i < |plan|
    requires Untouched(w, plan[i].file, d.clock, Begin(w, d, plan, stamp).0.clock)
    ensures Get(d.files, plan[i].file) == plan[i].before
  {
    var q, to := plan[i].file, Begin(w, d, plan, stamp).0.clock;
    var looked := Awaits(w, d, 2).0;
    var checked := CheckUpTo(w, looked, plan, |plan|).0;
    AwaitsNoFail(w, d, 2);
    CheckNoFail(w, looked, plan, |plan|);
    AwaitsNoFail(w, checked, 1);
    UntouchedPart(w, q, d.clock, to, d.clock, looked.clock);
    UntouchedPart(w, q, d.clock, to, looked.clock, checked.clock);
    UntouchedAwaits(w, d, 2, q);
    CheckedHolds(w, looked, plan, |plan|, i);
  }

  lemma BegunNoBackup(w: World, d: Disk, plan: seq<FileChange>, stamp: string, i: nat)
    requires Transaction(w, d, plan, stamp).1 == Applied && i < |plan| && plan[i].before.Some?
    ensures plan[i].file !in d.backups
  {
    var begun, made := AppliedParts(w, d, plan, stamp);
    PreparedSameFiles(plan, stamp);
    FoundNoBackup(w, begun, made, i);
    if plan[i].file in d.backups { BegunKeepsBackups(w, d, plan, stamp, plan[i].file); }
  }

  /** A plan that is out of date is refused before anything is written, the journal included. */
  lemma StalePlanIsRefused(w: World, d: Disk, plan: seq<FileChange>, stamp: string, i: nat)
    requires i < |plan| && Get(d.files, plan[i].file) != plan[i].before
    requires Untouched(w, plan[i].file, d.clock, Transaction(w, d, plan, stamp).0.clock)
    ensures var (e, o) := Transaction(w, d, plan, stamp); o == Refused && e.ours == d.ours && e.journal == d.journal
  {
    JournalOutlives(w, d, plan, stamp);
    if Begin(w, d, plan, stamp).1.Some? {
      var begun := Begin(w, d, plan, stamp).0;
      TransactionCommits(w, d, plan, stamp);
      BeginCalm(w, d, plan, stamp);
      CommitIsAtomic(w, begun, Begin(w, d, plan, stamp).1.value);
      UntouchedPart(w, plan[i].file, d.clock, Transaction(w, d, plan, stamp).0.clock, d.clock, begun.clock);
      BegunSawText(w, d, plan, stamp, i);
    }
  }

  lemma SecondEntryFails(w: World, d: Disk, plan: seq<FileChange>, k: nat, q: Path, seen: Option<Content>, to: nat)
    requires d.journal && k < |plan| && WroteAt(w, d, plan, k, to) && plan[k].file == q && Untouched(w, q, d.clock, to)
    requires forall m :: 0 <= m < |plan| && plan[m].file == q ==> plan[m].before == seen
    ensures !OneOf(plan[..k], q)
  {
    if OneOf(plan[..k], q) {
      var m := SawEarlierEntry(w, d, plan, k, q, to);
      NoBackupBefore(w, d, plan, k, to);
    }
  }

  /** And a plan that names a path twice is never applied, unless somebody else edits that path. */
  lemma PathNamedOnce(w: World, d: Disk, plan: seq<FileChange>, stamp: string, i: nat, k: nat)
    requires Transaction(w, d, plan, stamp).1 == Applied && i < k < |plan|
    requires Untouched(w, plan[k].file, d.clock, Transaction(w, d, plan, stamp).0.clock)
    ensures plan[i].file != plan[k].file
  {
    var q, to := plan[k].file, Transaction(w, d, plan, stamp).0.clock;
    var begun, made := AppliedParts(w, d, plan, stamp);
    var end := ApplyUpTo(w, begun, made, |made|).disk.clock;
    PreparedSameFiles(plan, stamp);
    UntouchedPart(w, q, d.clock, to, d.clock, begun.clock);
    UntouchedPart(w, q, d.clock, to, begun.clock, end);
    forall m | 0 <= m < |made| && made[m].file == q ensures made[m].before == Get(d.files, q) {
      assert plan[m].file == q;
      BegunSawText(w, d, plan, stamp, m);
    }
    EachWrote(w, begun, made, |made|, k);
    SecondEntryFails(w, begun, made, k, q, Get(d.files, q), end);
    assert made[..k][i].file == plan[i].file;
  }

  lemma AppliedOnlyIf(w: World, d: Disk, plan: seq<FileChange>, stamp: string)
    requires Transaction(w, d, plan, stamp).1 == Applied
    requires forall i :: 0 <= i < |plan| ==> Left(w, plan[i].file, d.clock)
    ensures !d.journal && Prepared(plan, stamp).Some? && Fresh(d, plan) && NoFail(w, d.clock, Transaction(w, d, plan, stamp).0.clock)
  {
    var to := Transaction(w, d, plan, stamp).0.clock;
    JournalOutlives(w, d, plan, stamp);
    AppliedHadNoFailure(w, d, plan, stamp);
    var begun, made := AppliedParts(w, d, plan, stamp);
    forall i | 0 <= i < |plan|
      ensures Get(d.files, plan[i].file) == plan[i].before && (plan[i].before.Some? ==> plan[i].file !in d.backups)
    {
      LeftIsUntouched(w, plan[i].file, d.clock, d.clock, begun.clock);
      BegunSawText(w, d, plan, stamp, i);
      if plan[i].before.Some? { BegunNoBackup(w, d, plan, stamp, i); }
    }
    forall i, k | 0 <= i < k < |plan| ensures plan[i].file != plan[k].file {
      LeftIsUntouched(w, plan[k].file, d.clock, d.clock, to);
      PathNamedOnce(w, d, plan, stamp, i, k);
    }
  }

  /**
   Exactly when a setup succeeds, in a world in which nobody edits a planned path: no earlier setup is pending, the
   plan is within its bounds, names each path once and describes what is there, no backup is in the way, and no
   await of the run fails.
   */
  lemma AppliedIff(w: World, d: Disk, plan: seq<FileChange>, stamp: string)
    requires forall i :: 0 <= i < |plan| ==> Left(w, plan[i].file, d.clock)
    ensures Transaction(w, d, plan, stamp).1 == Applied <==>
              && !d.journal && Prepared(plan, stamp).Some?
              && (forall i, k :: 0 <= i < k < |plan| ==> plan[i].file != plan[k].file)
              && (forall i :: 0 <= i < |plan| ==> Get(d.files, plan[i].file) == plan[i].before && (plan[i].before.Some? ==> plan[i].file !in d.backups))
              && (forall t: nat :: d.clock <= t < Transaction(w, d, plan, stamp).0.clock ==> !w.fails(t))
  {
    if Transaction(w, d, plan, stamp).1 == Applied { AppliedOnlyIf(w, d, plan, stamp); }
    if !d.journal && Prepared(plan, stamp).Some? && Fresh(d, plan) && NoFail(w, d.clock, Transaction(w, d, plan, stamp).0.clock) {
      SucceedsWhenSmooth(w, d, plan, stamp);
    }
  }
}

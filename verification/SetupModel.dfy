/**
 The setup transaction of bin/setup-transaction.js: a journal, compare-and-swap writes and a reverse
 rollback, run beside other writers.  Every await is an instant at which others may edit any file and
 the operation may fail; `replaceConfigAtomically` (bin/release-activate.js) is one compare-and-swap.
 */
module SetupModel {
  import opened Options

  const MAX_FILES := 1024

  type Path = string

  /** A file's text; a manifest's carries its list of backups. */
  datatype Content = Text(text: string) | ManifestDoc(text: string, backups: map<Path, string>)

  datatype FileChange = FileChange(file: Path, before: Option<Content>, content: Content, isManifest: bool)

  /** What others do to the files at each instant, and whether the operation of that instant fails. */
  datatype World = World(edits: nat -> map<Path, Option<Content>>, fails: nat -> bool)

  /** A change this transaction made to a target. */
  datatype Change = Change(at: nat, file: Path, before: Option<Content>, after: Option<Content>, journaled: bool)

  datatype Disk = Disk(clock: nat, files: map<Path, Content>, backups: map<Path, Content>, journal: bool, ours: seq<Change>)

  function Get(files: map<Path, Content>, p: Path): Option<Content> {
    if p in files then Some(files[p]) else None
  }

  function Put(files: map<Path, Content>, p: Path, c: Option<Content>): map<Path, Content> {
    if c.Some? then files[p := c.value] else files - {p}
  }

  /** Others' edits of one instant. */
  function Edited(files: map<Path, Content>, edits: map<Path, Option<Content>>): map<Path, Content> {
    map p | p in files.Keys + edits.Keys && (if p in edits then edits[p].Some? else true) :: if p in edits then edits[p].value else files[p]
  }

  function Tick(w: World, d: Disk): Disk {
    d.(clock := d.clock + 1, files := Edited(d.files, w.edits(d.clock)))
  }

  predicate Fails(w: World, d: Disk) { w.fails(d.clock) }

  /** n awaits that touch no target, up to the first that fails. */
  function Awaits(w: World, d: Disk, n: nat): (Disk, bool)
    decreases n
  {
    if n == 0 then (d, true)
    else if Fails(w, d) then (Tick(w, d), false)
    else Awaits(w, Tick(w, d), n - 1)
  }

  /** A write to a target, recorded. */
  function Write(d: Disk, at: nat, p: Path, c: Option<Content>): Disk {
    d.(files := Put(d.files, p, c), ours := d.ours + [Change(at, p, Get(d.files, p), c, d.journal)])
  }

  datatype Written = NotWritten | Wrote | WroteThenFailed

  /** link(staged, target), then the removal of the staged copy. */
  function PublishNew(w: World, d: Disk, f: FileChange): (Disk, Written) {
    var (staged, ok) := Awaits(w, d, 1);
    var linked := Tick(w, staged);
    if !ok || Fails(w, staged) || f.file in linked.files then (Tick(w, linked), NotWritten)
    else
      var published := Write(linked, staged.clock, f.file, Some(f.content));
      (Tick(w, published), if Fails(w, published) then WroteThenFailed else Wrote)
  }

  /** replaceConfigAtomically as a compare-and-swap. */
  function Replace(w: World, d: Disk, p: Path, c: Content, expected: Content): (Disk, bool) {
    var t := Tick(w, d);
    if Fails(w, d) || Get(t.files, p) != Some(expected) then (t, false) else (Write(t, d.clock, p, Some(c)), true)
  }

  function WriteBackup(w: World, d: Disk, p: Path, c: Content): (Disk, bool) {
    var t := Tick(w, d);
    if Fails(w, d) || p in t.backups then (t, false) else (t.(backups := t.backups[p := c]), true)
  }

  /** The write itself: a new file is published, an old one backed up and replaced. */
  function WriteReady(w: World, ready: Disk, f: FileChange): (Disk, Written) {
    if f.before.None? then PublishNew(w, ready, f)
    else
      var (backed, saved) := WriteBackup(w, ready, f.file, f.before.value);
      if !saved then (backed, NotWritten)
      else
        var (swapped, done) := Replace(w, backed, f.file, f.content, f.before.value);
        (swapped, if done then Wrote else NotWritten)
  }

  /** One file of the plan: the checks, then the write. */
  function ApplyOne(w: World, d: Disk, f: FileChange): (Disk, Written) {
    var (checked, ok) := Awaits(w, d, 2);
    var read := Tick(w, checked);
    if !ok then (checked, NotWritten)
    else if Fails(w, checked) || Get(read.files, f.file) != f.before then (read, NotWritten)
    else
      var (ready, made) := Awaits(w, read, 1);
      if !made then (ready, NotWritten) else WriteReady(w, ready, f)
  }

  datatype Progress = Progress(disk: Disk, applied: seq<FileChange>, failed: bool)

  function ApplyNext(w: World, p: Progress, f: FileChange): Progress {
    if p.failed then p
    else
      var (d, written) := ApplyOne(w, p.disk, f);
      Progress(d, if written.NotWritten? then p.applied else p.applied + [f], !written.Wrote?)
  }

  function ApplyUpTo(w: World, d: Disk, plan: seq<FileChange>, i: nat): Progress
    requires i <= |plan|
  {
    if i == 0 then Progress(d, [], false) else ApplyNext(w, ApplyUpTo(w, d, plan, i - 1), plan[i - 1])
  }

  datatype Undo = Undo(disk: Disk, unresolved: seq<Path>)

  function Restore(w: World, d: Disk, f: FileChange): (Disk, bool) {
    if f.before.Some? then Replace(w, d, f.file, f.before.value, f.content) else Remove(w, d, f.file)
  }

  /** Undo one applied file, unless what is there is no longer what this transaction wrote. */
  function UndoOne(w: World, d: Disk, f: FileChange): (Disk, bool) {
    var (checked, ok) := Awaits(w, d, 1);
    var read := Tick(w, checked);
    if !ok then (checked, false)
    else if Fails(w, checked) || Get(read.files, f.file) != Some(f.content) then (read, false)
    else Restore(w, read, f)
  }

  function UndoNext(w: World, u: Undo, f: FileChange): Undo {
    var (d, done) := UndoOne(w, u.disk, f);
    Undo(d, if done then u.unresolved else u.unresolved + [f.file])
  }

  /** rm, which looks at nothing but whether the file exists. */
  function Remove(w: World, d: Disk, p: Path): (Disk, bool) {
    var t := Tick(w, d);
    if Fails(w, d) || p !in t.files then (t, false) else (Write(t, d.clock, p, None), true)
  }

  /** The files still to undo, newest first. */
  function UndoAll(w: World, u: Undo, left: seq<FileChange>): Undo
    decreases |left|
  {
    if left == [] then u else UndoAll(w, UndoNext(w, u, left[|left| - 1]), left[..|left| - 1])
  }

  // ---------------------------------------------------------------- the manifest

  function BackupName(p: Path, stamp: string): string { p + ".setup-backup-" + stamp }

  /** The manifest's backups with those of this run. */
  function WithBackups(known: map<Path, string>, plan: seq<FileChange>, stamp: string, i: nat): map<Path, string>
    requires i <= |plan|
  {
    if i == 0 then known
    else
      var rest := WithBackups(known, plan, stamp, i - 1);
      if plan[i - 1].before.Some? then rest[plan[i - 1].file := BackupName(plan[i - 1].file, stamp)] else rest
  }

  function FirstManifest(plan: seq<FileChange>, i: nat): nat
    requires i <= |plan|
    decreases |plan| - i
  {
    if i == |plan| || plan[i].isManifest then i else FirstManifest(plan, i + 1)
  }

  /** The plan as it is written, its manifest listing the backups; None when that list cannot be made. */
  function Prepared(plan: seq<FileChange>, stamp: string): Option<seq<FileChange>> {
    var m := FirstManifest(plan, 0);
    if |plan| > MAX_FILES then None
    else if m >= |plan| then Some(plan)
    else if plan[m].content.Text? then None
    else
      var backups := WithBackups(plan[m].content.backups, plan, stamp, |plan|);
      if |backups| > MAX_FILES then None else Some(plan[m := plan[m].(content := plan[m].content.(backups := backups))])
  }

  // ---------------------------------------------------------------- the transaction

  datatype Outcome =
    | Refused
    | Applied
    | RolledBack(unresolved: seq<Path>)
    | JournalStuck

  /** The first pass: every target still holds what the plan saw. */
  function CheckUpTo(w: World, d: Disk, plan: seq<FileChange>, i: nat): (Disk, bool)
    requires i <= |plan|
  {
    if i == 0 then (d, true)
    else
      var (before, fine) := CheckUpTo(w, d, plan, i - 1);
      if !fine then (before, false)
      else
        var (checked, ok) := Awaits(w, before, 1);
        var read := Tick(w, checked);
        if !ok then (checked, false) else (read, !Fails(w, checked) && Get(read.files, plan[i - 1].file) == plan[i - 1].before)
  }

  /** Up to the journal. */
  function Begin(w: World, d: Disk, plan: seq<FileChange>, stamp: string): (Disk, Option<seq<FileChange>>) {
    var (looked, ok) := Awaits(w, d, 2);
    if !ok || looked.journal then (looked, None)
    else
      var (checked, fine) := CheckUpTo(w, looked, plan, |plan|);
      if !fine then (checked, None)
      else
        var (made, dir) := Awaits(w, checked, 1);
        var prepared := Prepared(plan, stamp);
        if !dir || prepared.None? then (made, None)
        else
          var t := Tick(w, made);
          if Fails(w, made) || t.journal then (t, None) else (t.(journal := true), prepared)
  }

  function RemoveJournal(w: World, d: Disk): (Disk, bool) {
    (Tick(w, d).(journal := Fails(w, d) && d.journal), !Fails(w, d))
  }

  /** After the journal: apply, and then `Close`. */
  function Commit(w: World, d: Disk, plan: seq<FileChange>): (Disk, Outcome) {
    Close(w, ApplyUpTo(w, d, plan, |plan|))
  }

  /** Verify what was applied, and either drop the journal or roll back. */
  function Close(w: World, p: Progress): (Disk, Outcome) {
    var (verified, ok) := Awaits(w, p.disk, 1);
    if p.failed then RollBack(w, p.disk, p.applied)
    else if !ok then RollBack(w, verified, p.applied)
    else
      var (closed, gone) := RemoveJournal(w, verified);
      if gone then (closed, Applied) else RollBack(w, closed, p.applied)
  }

  function RollBack(w: World, d: Disk, applied: seq<FileChange>): (Disk, Outcome) {
    var u := UndoAll(w, Undo(d, []), applied);
    if u.unresolved != [] then (u.disk, RolledBack(u.unresolved))
    else
      var (closed, gone) := RemoveJournal(w, u.disk);
      (closed, if gone then RolledBack([]) else JournalStuck)
  }

  function Transaction(w: World, d: Disk, plan: seq<FileChange>, stamp: string): (Disk, Outcome) {
    var (begun, prepared) := Begin(w, d, plan, stamp);
    if prepared.None? then (begun, Refused) else Commit(w, begun, prepared.value)
  }
}

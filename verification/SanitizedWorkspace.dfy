/**
 The exact check of a sanitized workspace (`enumerateSanitizedTree`, `verifySanitizedWorkspace` in server.js):
 a walk lists the tree, and the lists, the digests and the boundary contract are compared with the manifest.
 */
module SanitizedWorkspace {
  import opened ManifestPaths
  import opened Options
  import opened TreeDigest

  /** A parsed manifest: the entries of its files object and its directories array. */
  datatype Manifest = Manifest(files: seq<(string, string)>, directories: seq<string>)

  datatype Contract = Contract(required: seq<string>, forbidden: seq<string>)

  /**
   What is not modelled: the size of the content with a digest, the platform's case key, whether a file lies
   within one of a list of paths, and the names that every JavaScript object inherits.
   */
  datatype Host = Host(maxFiles: nat, maxBytes: nat, size: string -> nat, caseKey: string -> string,
                       within: (string, seq<string>) -> bool, inherited: set<string>)

  datatype Discrepancy =
    | Missing(path: string)
    | Unexpected(path: string)
    | DirectoryMissing(path: string)
    | DirectoryUnexpected(path: string)
    | RequiredMissing(path: string)
    | ForbiddenPresent(path: string)
    | HashMismatch(path: string, expected: Option<string>, actual: string)  // None: an inherited member, not a digest

  datatype Verdict = Refused | Checked(discrepancies: seq<Discrepancy>)

  predicate Ok(v: Verdict) { v == Checked([]) }

  // ---------------------------------------------------------------- what the manifest must be

  predicate Sha256Hex(d: string) {
    |d| == 64 && forall i :: 0 <= i < 64 ==> 'a' <= d[i] <= 'f' || '0' <= d[i] <= '9'
  }

  predicate AllSafe(paths: seq<string>) { forall i :: 0 <= i < |paths| ==> SafePath(paths[i]) }

  /** No two share a case key. */
  ghost predicate Distinguishable(paths: seq<string>, caseKey: string -> string) {
    forall i, j :: 0 <= i < j < |paths| ==> caseKey(paths[i]) != caseKey(paths[j])
  }

  function Names(files: seq<(string, string)>): seq<string> { seq(|files|, i requires 0 <= i < |files| => files[i].0) }

  predicate AllSha256Hex(files: seq<(string, string)>) { forall i :: 0 <= i < |files| ==> Sha256Hex(files[i].1) }

  ghost predicate WellFormed(m: Manifest, h: Host) {
    && |m.files| <= h.maxFiles && |m.directories| <= h.maxFiles
    && AllSafe(Names(m.files)) && AllSafe(m.directories)
    && Distinguishable(Names(m.files), h.caseKey) && Distinguishable(m.directories, h.caseKey)
    && AllSha256Hex(m.files)
  }

  // ---------------------------------------------------------------- what the tree holds

  /** The walk's list of files, and of directories. */
  function ListedFiles(rows: seq<Row>): seq<(string, string)> {
    if rows == [] then []
    else
      var last := rows[|rows| - 1];
      ListedFiles(rows[..|rows| - 1]) + (if last.FileRow? then [(PathText(last.path), last.sha256)] else [])
  }

  function ListedDirs(rows: seq<Row>): seq<string> {
    if rows == [] then []
    else
      var last := rows[|rows| - 1];
      ListedDirs(rows[..|rows| - 1]) + (if last.DirRow? then [PathText(last.path)] else [])
  }

  function BytesOf(rows: seq<Row>, size: string -> nat): nat {
    if rows == [] then 0
    else BytesOf(rows[..|rows| - 1], size) + (if rows[|rows| - 1].FileRow? then size(rows[|rows| - 1].sha256) else 0)
  }

  predicate WithinBounds(rows: seq<Row>, h: Host) { |ListedFiles(rows)| <= h.maxFiles && BytesOf(rows, h.size) <= h.maxBytes }

  ghost predicate Readable(tree: seq<Child>, h: Host) { Digestible(tree) && WithinBounds(Rows(tree, []), h) }

  function FileTexts(rows: seq<Row>): set<string> { set i | 0 <= i < |rows| && rows[i].FileRow? :: PathText(rows[i].path) }

  function DirTexts(rows: seq<Row>): set<string> { set i | 0 <= i < |rows| && rows[i].DirRow? :: PathText(rows[i].path) }

  function FileDigests(rows: seq<Row>): set<(string, string)> {
    set i | 0 <= i < |rows| && rows[i].FileRow? :: (PathText(rows[i].path), rows[i].sha256)
  }

  // ---------------------------------------------------------------- what is a discrepancy

  ghost predicate Acceptable(c: Contract, m: Manifest, tree: seq<Child>, h: Host) {
    WellFormed(m, h) && Readable(tree, h) && AllSafe(c.required) && AllSafe(c.forbidden)
  }

  predicate Real(d: Discrepancy, c: Contract, m: Manifest, rows: seq<Row>, h: Host) {
    match d
    case Missing(path) => path in Names(m.files) && path !in FileTexts(rows)
    case Unexpected(path) => path in FileTexts(rows) && path !in Names(m.files)
    case DirectoryMissing(path) => path in m.directories && path !in DirTexts(rows)
    case DirectoryUnexpected(path) => path in DirTexts(rows) && path !in m.directories
    case RequiredMissing(path) => path in c.required && path !in FileTexts(rows)
    case ForbiddenPresent(path) => path in FileTexts(rows) && h.within(path, c.forbidden)
    case HashMismatch(path, expected, actual) =>
      && (path, actual) in FileDigests(rows)
      && (if expected.Some? then (path, expected.value) in m.files && actual != expected.value
          else path in h.inherited && path !in Names(m.files))
  }

  /** The tree's files with their digests are the manifest's, its directories are the manifest's, and the boundary is kept. */
  ghost predicate Matches(c: Contract, m: Manifest, rows: seq<Row>, h: Host) {
    && FileDigests(rows) == (set f | f in m.files)
    && DirTexts(rows) == (set d | d in m.directories)
    && (forall path :: path in c.required ==> path in FileTexts(rows))
    && (forall path :: path in FileTexts(rows) ==> !h.within(path, c.forbidden))
  }

  /** What a run is refused for, spelled out: bounds, unsafe paths, paths that share a case key, bad digests, links and special entries. */
  lemma AcceptableIff(c: Contract, m: Manifest, tree: seq<Child>, h: Host)
    ensures Acceptable(c, m, tree, h) <==>
              && |m.files| <= h.maxFiles && |m.directories| <= h.maxFiles
              && (forall f :: f in m.files ==> SafePath(f.0) && |f.1| == 64 && forall i :: 0 <= i < 64 ==> f.1[i] in "0123456789abcdef")
              && (forall d :: d in m.directories || d in c.required || d in c.forbidden ==> SafePath(d))
              && (forall i, j :: 0 <= i < j < |m.files| ==> h.caseKey(m.files[i].0) != h.caseKey(m.files[j].0))
              && (forall i, j :: 0 <= i < j < |m.directories| ==> h.caseKey(m.directories[i]) != h.caseKey(m.directories[j]))
              && Digestible(tree) && |ListedFiles(Rows(tree, []))| <= h.maxFiles && BytesOf(Rows(tree, []), h.size) <= h.maxBytes
  {
    HexMeans();
    forall i | 0 <= i < |m.files| ensures Names(m.files)[i] == m.files[i].0 && m.files[i] in m.files {}
    SafeMeans(Names(m.files));
    SafeMeans(m.directories);
    SafeMeans(c.required);
    SafeMeans(c.forbidden);
  }

  lemma HexMeans()
    ensures forall ch: char :: ch in "0123456789abcdef" <==> 'a' <= ch <= 'f' || '0' <= ch <= '9'
  {
  }

  lemma SafeMeans(paths: seq<string>)
    ensures AllSafe(paths) <==> forall p :: p in paths ==> SafePath(p)
  {
  }

  lemma NameOfFile(files: seq<(string, string)>, path: string)
    ensures path in Names(files) <==> exists d :: (path, d) in files
  {
    if path in Names(files) {
      var i :| 0 <= i < |files| && Names(files)[i] == path;
      assert files[i] == (path, files[i].1);
    }
    if exists d :: (path, d) in files {
      var d :| (path, d) in files;
      var i :| 0 <= i < |files| && files[i] == (path, d);
      assert Names(files)[i] == path;
    }
  }

  lemma OneDigest(files: seq<(string, string)>, caseKey: string -> string, path: string, d: string, e: string)
    requires Distinguishable(Names(files), caseKey) && (path, d) in files && (path, e) in files
    ensures d == e
  {
    var i :| 0 <= i < |files| && files[i] == (path, d);
    var j :| 0 <= j < |files| && files[j] == (path, e);
    assert Names(files)[i] == path && Names(files)[j] == path;
  }

  lemma DigestOfText(rows: seq<Row>, path: string)
    ensures path in FileTexts(rows) <==> exists d :: (path, d) in FileDigests(rows)
  {
    if path in FileTexts(rows) {
      var i :| 0 <= i < |rows| && rows[i].FileRow? && PathText(rows[i].path) == path;
      assert (path, rows[i].sha256) in FileDigests(rows);
    }
  }

  predicate HasFile(rows: seq<Row>, path: string) { exists r :: r in rows && r.FileRow? && PathText(r.path) == path }

  predicate HasDir(rows: seq<Row>, path: string) { exists r :: r in rows && r.DirRow? && PathText(r.path) == path }

  predicate NamesFile(m: Manifest, path: string) { exists f :: f in m.files && f.0 == path }

  /** What each kind of discrepancy says of the manifest and of the tree's entries. */
  lemma DiscrepancyMeans(d: Discrepancy, c: Contract, m: Manifest, rows: seq<Row>, h: Host)
    ensures Real(d, c, m, rows, h) <==>
              match d
              case Missing(path) => NamesFile(m, path) && !HasFile(rows, path)
              case Unexpected(path) => HasFile(rows, path) && !NamesFile(m, path)
              case DirectoryMissing(path) => path in m.directories && !HasDir(rows, path)
              case DirectoryUnexpected(path) => HasDir(rows, path) && path !in m.directories
              case RequiredMissing(path) => path in c.required && !HasFile(rows, path)
              case ForbiddenPresent(path) => HasFile(rows, path) && h.within(path, c.forbidden)
              case HashMismatch(path, expected, actual) =>
                && (exists r :: r in rows && r.FileRow? && PathText(r.path) == path && r.sha256 == actual)
                && (match expected
                    case Some(digest) => (path, digest) in m.files && actual != digest
                    case None => path in h.inherited && !NamesFile(m, path))
  {
    NameOfFile(m.files, d.path);
    TextsAreRows(rows, d.path);
    if d.HashMismatch? { DigestsAreRows(rows, d.path, d.actual); }
    assert NamesFile(m, d.path) <==> d.path in Names(m.files) by {
      if NamesFile(m, d.path) {
        var f :| f in m.files && f.0 == d.path;
        assert (d.path, f.1) in m.files;
      }
      if d.path in Names(m.files) {
        var e :| (d.path, e) in m.files;
        assert (d.path, e).0 == d.path;
      }
    }
  }

  lemma TextsAreRows(rows: seq<Row>, path: string)
    ensures path in FileTexts(rows) <==> HasFile(rows, path)
    ensures path in DirTexts(rows) <==> HasDir(rows, path)
  {
    if HasFile(rows, path) {
      var r :| r in rows && r.FileRow? && PathText(r.path) == path;
      var i :| 0 <= i < |rows| && rows[i] == r;
      assert PathText(rows[i].path) in FileTexts(rows);
    }
    if HasDir(rows, path) {
      var r :| r in rows && r.DirRow? && PathText(r.path) == path;
      var i :| 0 <= i < |rows| && rows[i] == r;
      assert PathText(rows[i].path) in DirTexts(rows);
    }
  }

  lemma DigestsAreRows(rows: seq<Row>, path: string, digest: string)
    ensures (path, digest) in FileDigests(rows) <==> exists r :: r in rows && r.FileRow? && PathText(r.path) == path && r.sha256 == digest
  {
    if r :| r in rows && r.FileRow? && PathText(r.path) == path && r.sha256 == digest {
      var i :| 0 <= i < |rows| && rows[i] == r;
      assert (PathText(rows[i].path), rows[i].sha256) in FileDigests(rows);
    }
  }

  ghost predicate Clean(c: Contract, m: Manifest, rows: seq<Row>, h: Host) { forall d :: !Real(d, c, m, rows, h) }

  lemma CleanMatches(c: Contract, m: Manifest, rows: seq<Row>, h: Host)
    requires WellFormed(m, h) && Clean(c, m, rows, h)
    ensures Matches(c, m, rows, h)
  {
    forall f: (string, string)
      ensures f in FileDigests(rows) <==> f in m.files
    {
      CleanFile(c, m, rows, h, f.0, f.1);
    }
    forall d
      ensures d in DirTexts(rows) <==> d in m.directories
    {
      assert !Real(DirectoryMissing(d), c, m, rows, h) && !Real(DirectoryUnexpected(d), c, m, rows, h);
    }
    forall path
      ensures path in c.required ==> path in FileTexts(rows)
      ensures path in FileTexts(rows) ==> !h.within(path, c.forbidden)
    {
      assert !Real(RequiredMissing(path), c, m, rows, h) && !Real(ForbiddenPresent(path), c, m, rows, h);
    }
  }

  lemma CleanFile(c: Contract, m: Manifest, rows: seq<Row>, h: Host, path: string, digest: string)
    requires WellFormed(m, h) && Clean(c, m, rows, h)
    ensures (path, digest) in FileDigests(rows) <==> (path, digest) in m.files
  {
    NameOfFile(m.files, path);
    DigestOfText(rows, path);
    assert !Real(Missing(path), c, m, rows, h) && !Real(Unexpected(path), c, m, rows, h);
    if (path, digest) in FileDigests(rows) {
      var e :| (path, e) in m.files;
      assert !Real(HashMismatch(path, Some(e), digest), c, m, rows, h);
    }
    if (path, digest) in m.files {
      var a :| (path, a) in FileDigests(rows);
      assert !Real(HashMismatch(path, Some(digest), a), c, m, rows, h);
    }
  }

  lemma MatchesIsClean(c: Contract, m: Manifest, rows: seq<Row>, h: Host, d: Discrepancy)
    requires WellFormed(m, h) && Matches(c, m, rows, h)
    ensures !Real(d, c, m, rows, h)
  {
    NameOfFile(m.files, d.path);
    DigestOfText(rows, d.path);
    if d.HashMismatch? && Real(d, c, m, rows, h) {
      assert (d.path, d.actual) in m.files;
      if d.expected.Some? { OneDigest(m.files, h.caseKey, d.path, d.expected.value, d.actual); }
    }
  }

  /** No discrepancy exists exactly when the tree matches. */
  lemma CleanIffMatches(c: Contract, m: Manifest, rows: seq<Row>, h: Host)
    requires WellFormed(m, h)
    ensures Clean(c, m, rows, h) <==> Matches(c, m, rows, h)
  {
    if Clean(c, m, rows, h) { CleanMatches(c, m, rows, h); }
    if Matches(c, m, rows, h) {
      forall d ensures !Real(d, c, m, rows, h) { MatchesIsClean(c, m, rows, h, d); }
    }
  }

  // ---------------------------------------------------------------- which trees match

  function FileRowFor(f: (string, string)): Row { FileRow(Parts(f.0), f.1) }

  function DirRowFor(d: string): Row { DirRow(Parts(d)) }

  /** The entries the manifest means: each path read as names below the root. */
  function ManifestRows(m: Manifest): set<Row> {
    (set f | f in m.files :: FileRowFor(f)) + (set d | d in m.directories :: DirRowFor(d))
  }

  predicate PlainPaths(rows: seq<Row>) { forall i :: 0 <= i < |rows| ==> PlainPath(PathOf(rows[i])) }

  lemma SafeName(files: seq<(string, string)>, f: (string, string))
    requires AllSafe(Names(files)) && f in files
    ensures SafePath(f.0)
  {
    var i :| 0 <= i < |files| && files[i] == f;
    assert Names(files)[i] == f.0;
  }

  ghost predicate TextsMatch(rows: seq<Row>, m: Manifest) {
    FileDigests(rows) == (set f | f in m.files) && DirTexts(rows) == (set d | d in m.directories)
  }

  predicate AllSafeNames(m: Manifest) { AllSafe(Names(m.files)) && AllSafe(m.directories) }

  lemma FileRowKnown(rows: seq<Row>, m: Manifest, r: Row)
    requires AllSafeNames(m) && TextsMatch(rows, m) && PlainPaths(rows) && r.FileRow?
    ensures r in rows <==> r in ManifestRows(m)
  {
    if r in rows {
      var i :| 0 <= i < |rows| && rows[i] == r;
      assert PlainPath(PathOf(rows[i])) && (PathText(rows[i].path), rows[i].sha256) in FileDigests(rows);
      PartsOfText(r.path);
      assert r == FileRowFor((PathText(r.path), r.sha256));
    }
    if r in ManifestRows(m) {
      var f :| f in m.files && r == FileRowFor(f);
      assert f in FileDigests(rows);
      var i :| 0 <= i < |rows| && rows[i].FileRow? && (PathText(rows[i].path), rows[i].sha256) == f;
      assert PlainPath(PathOf(rows[i]));
      PartsOfText(rows[i].path);
      assert rows[i] == r;
    }
  }

  lemma DirRowKnown(rows: seq<Row>, m: Manifest, r: Row)
    requires AllSafeNames(m) && TextsMatch(rows, m) && PlainPaths(rows) && r.DirRow?
    ensures r in rows <==> r in ManifestRows(m)
  {
    if r in rows {
      var i :| 0 <= i < |rows| && rows[i] == r;
      assert PlainPath(PathOf(rows[i])) && PathText(rows[i].path) in DirTexts(rows);
      PartsOfText(r.path);
      assert r == DirRowFor(PathText(r.path));
    }
    if r in ManifestRows(m) {
      var d :| d in m.directories && r == DirRowFor(d);
      assert d in DirTexts(rows);
      var i :| 0 <= i < |rows| && rows[i].DirRow? && PathText(rows[i].path) == d;
      assert PlainPath(PathOf(rows[i]));
      PartsOfText(rows[i].path);
      assert rows[i] == r;
    }
  }

  lemma ManifestRowsArePlain(m: Manifest, r: Row)
    requires AllSafeNames(m) && r in ManifestRows(m)
    ensures PlainPath(PathOf(r))
  {
    if r.FileRow? {
      var f :| f in m.files && r == FileRowFor(f);
      SafeName(m.files, f);
      SafePartsArePlain(f.0);
    } else {
      var d :| d in m.directories && r == DirRowFor(d);
      SafePartsArePlain(d);
    }
  }

  lemma FileTextKnown(rows: seq<Row>, m: Manifest, f: (string, string))
    requires AllSafeNames(m) && (set r | r in rows) == ManifestRows(m)
    ensures f in FileDigests(rows) <==> f in m.files
  {
    if f in FileDigests(rows) {
      var i :| 0 <= i < |rows| && rows[i].FileRow? && (PathText(rows[i].path), rows[i].sha256) == f;
      assert rows[i] in ManifestRows(m);
      var g :| g in m.files && rows[i] == FileRowFor(g);
      SafeName(m.files, g);
      TextOfParts(g.0);
    }
    if f in m.files {
      SafeName(m.files, f);
      TextOfParts(f.0);
      assert FileRowFor(f) in ManifestRows(m) && FileRowFor(f) in rows;
    }
  }

  lemma DirTextKnown(rows: seq<Row>, m: Manifest, d: string)
    requires AllSafeNames(m) && (set r | r in rows) == ManifestRows(m)
    ensures d in DirTexts(rows) <==> d in m.directories
  {
    if d in DirTexts(rows) {
      var i :| 0 <= i < |rows| && rows[i].DirRow? && PathText(rows[i].path) == d;
      assert rows[i] in ManifestRows(m);
      var e :| e in m.directories && rows[i] == DirRowFor(e);
      TextOfParts(e);
    }
    if d in m.directories {
      TextOfParts(d);
      assert DirRowFor(d) in ManifestRows(m) && DirRowFor(d) in rows;
    }
  }

  /** The tree is the manifest's, entry by entry, exactly when the compared texts match and no name holds a backslash. */
  lemma TreeIsManifestIff(rows: seq<Row>, m: Manifest)
    requires AllSafeNames(m)
    ensures (set r | r in rows) == ManifestRows(m) <==> TextsMatch(rows, m) && PlainPaths(rows)
  {
    if (set r | r in rows) == ManifestRows(m) {
      forall f ensures f in FileDigests(rows) <==> f in m.files { FileTextKnown(rows, m, f); }
      forall d ensures d in DirTexts(rows) <==> d in m.directories { DirTextKnown(rows, m, d); }
      forall i | 0 <= i < |rows| ensures PlainPath(PathOf(rows[i])) {
        assert rows[i] in ManifestRows(m);
        ManifestRowsArePlain(m, rows[i]);
      }
    }
    if TextsMatch(rows, m) && PlainPaths(rows) {
      forall r ensures r in rows <==> r in ManifestRows(m) {
        if r.FileRow? { FileRowKnown(rows, m, r); } else { DirRowKnown(rows, m, r); }
      }
    }
  }
}

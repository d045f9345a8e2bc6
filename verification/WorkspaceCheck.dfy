/**
 The sanitized-workspace check as it is run: a walk that lists files and directories and stops at the first
 link or past a bound, then loops that push discrepancies.
 */
module WorkspaceCheck {
  import opened Options
  import opened SanitizedWorkspace
  import opened TreeDigest
  import opened ManifestPaths

  // ---------------------------------------------------------------- the walk

  lemma ListsGrow(rows: seq<Row>, r: Row, h: Host)
    ensures ListedFiles(rows + [r]) == ListedFiles(rows) + (if r.FileRow? then [(PathText(r.path), r.sha256)] else [])
    ensures ListedDirs(rows + [r]) == ListedDirs(rows) + (if r.DirRow? then [PathText(r.path)] else [])
    ensures BytesOf(rows + [r], h.size) == BytesOf(rows, h.size) + (if r.FileRow? then h.size(r.sha256) else 0)
  {
    assert (rows + [r])[..|rows|] == rows;
  }

  /** Rows beyond a bound stay beyond it. */
  lemma {:induction false} BoundsShrink(rows: seq<Row>, more: seq<Row>, h: Host)
    requires WithinBounds(rows + more, h)
    ensures WithinBounds(rows, h)
    decreases |more|
  {
    if more == [] {
      assert rows + more == rows;
    } else {
      var n := |more| - 1;
      assert rows + more == rows + more[..n] + [more[n]];
      ListsGrow(rows + more[..n], more[n], h);
      BoundsShrink(rows, more[..n], h);
    }
  }

  class Listing {
    var files: seq<(string, string)>
    var directories: seq<string>
    var totalBytes: nat
    ghost var rows: seq<Row>

    ghost predicate Valid(h: Host)
      reads this
    {
      files == ListedFiles(rows) && directories == ListedDirs(rows) && totalBytes == BytesOf(rows, h.size)
    }

    constructor (h: Host)
      ensures Valid(h) && rows == []
    {
      files, directories, totalBytes, rows := [], [], 0, [];
    }

    /** The walk over a directory's entries. */
    method Walk(children: seq<Child>, prefix: seq<string>, h: Host) returns (ok: bool)
      requires Valid(h) && WithinBounds(rows, h)
      modifies this
      ensures Valid(h)
      ensures ok <==> Digestible(children) && WithinBounds(old(rows) + Rows(children, prefix), h)
      ensures ok ==> rows == old(rows) + Rows(children, prefix)
      decreases children
    {
      ghost var before := rows;
      if children == [] {
        assert before + Rows(children, prefix) == before;
        return true;
      }
      ghost var path := prefix + [children[0].name];
      ok := Visit(children[0].node, prefix + [children[0].name], h);
      if Digestible(children) { RowsOfFirst(children, prefix, before); }
      if !ok {
        StoppedEarly(children, prefix, before, h);
        return;
      }
      ok := Walk(children[1..], prefix, h);
    }

    method Visit(node: Node, path: seq<string>, h: Host) returns (ok: bool)
      requires Valid(h) && WithinBounds(rows, h)
      modifies this
      ensures Valid(h)
      ensures ok <==> Passable(node) && WithinBounds(old(rows) + NodeRows(node, path), h)
      ensures ok ==> rows == old(rows) + NodeRows(node, path)
      decreases node
    {
      ghost var before := rows;
      match node
      case Link => return false;
      case Special => return false;
      case Directory(inner) =>
        Push(DirRow(path), h);
        ok := Walk(inner, path, h);
        assert Digestible(inner) ==> before + [DirRow(path)] + Rows(inner, path) == before + NodeRows(node, path);
      case File(sha256) =>
        Push(FileRow(path, sha256), h);
        ok := !(|files| > h.maxFiles || totalBytes > h.maxBytes);
    }

    method Push(row: Row, h: Host)
      requires Valid(h)
      modifies this
      ensures Valid(h) && rows == old(rows) + [row]
      ensures row.DirRow? ==> files == old(files) && totalBytes == old(totalBytes)
    {
      ListsGrow(rows, row, h);
      match row {
        case DirRow(path) => directories := directories + [PathText(path)];
        case FileRow(path, sha256) =>
          totalBytes := totalBytes + h.size(sha256);
          files := files + [(PathText(path), sha256)];
      }
      rows := rows + [row];
    }
  }

  lemma StoppedEarly(children: seq<Child>, prefix: seq<string>, before: seq<Row>, h: Host)
    requires children != []
    requires var node, path := children[0].node, prefix + [children[0].name];
             !(Passable(node) && WithinBounds(before + NodeRows(node, path), h))
    ensures !(Digestible(children) && WithinBounds(before + Rows(children, prefix), h))
  {
    if Digestible(children) && WithinBounds(before + Rows(children, prefix), h) {
      RowsOfFirst(children, prefix, before);
      BoundsShrink(before + NodeRows(children[0].node, prefix + [children[0].name]), Rows(children[1..], prefix), h);
    }
  }

  lemma TextsGrow(rows: seq<Row>, r: Row)
    ensures FileDigests(rows + [r]) == FileDigests(rows) + (if r.FileRow? then {(PathText(r.path), r.sha256)} else {})
    ensures DirTexts(rows + [r]) == DirTexts(rows) + (if r.DirRow? then {PathText(r.path)} else {})
  {
    var all := rows + [r];
    assert all[|rows|] == r && forall i :: 0 <= i < |rows| ==> all[i] == rows[i];
  }

  lemma {:induction false} ListsHold(rows: seq<Row>)
    ensures FileDigests(rows) == (set f | f in ListedFiles(rows)) && DirTexts(rows) == (set d | d in ListedDirs(rows))
  {
    if rows != [] {
      var rest, last := rows[..|rows| - 1], rows[|rows| - 1];
      ListsHold(rest);
      TextsGrow(rest, last);
      assert rows == rest + [last];
    }
  }

  // ---------------------------------------------------------------- the manifest

  function KeySet(paths: seq<string>, caseKey: string -> string): set<string> { set i | 0 <= i < |paths| :: caseKey(paths[i]) }

  lemma LastKeyTells(paths: seq<string>, caseKey: string -> string)
    requires paths != []
    ensures var n := |paths| - 1;
            Distinguishable(paths, caseKey) <==> Distinguishable(paths[..n], caseKey) && caseKey(paths[n]) !in KeySet(paths[..n], caseKey)
  {
    var n := |paths| - 1;
    var rest, key := paths[..n], caseKey(paths[n]);
    if key in KeySet(rest, caseKey) {
      var i :| 0 <= i < n && caseKey(rest[i]) == key;
      assert caseKey(paths[i]) == caseKey(paths[n]);
    } else {
      assert forall i :: 0 <= i < n ==> caseKey(rest[i]) in KeySet(rest, caseKey);
      assert forall i :: 0 <= i < n ==> caseKey(paths[i]) == caseKey(rest[i]);
    }
  }

  /** As many keys as paths exactly when no two paths share one. */
  lemma {:induction false} KeySetTells(paths: seq<string>, caseKey: string -> string)
    ensures |KeySet(paths, caseKey)| <= |paths|
    ensures |KeySet(paths, caseKey)| == |paths| <==> Distinguishable(paths, caseKey)
  {
    if paths != [] {
      var n := |paths| - 1;
      var rest, key := paths[..n], caseKey(paths[n]);
      KeySetTells(rest, caseKey);
      assert KeySet(paths, caseKey) == KeySet(rest, caseKey) + {key};
      LastKeyTells(paths, caseKey);
    }
  }

  /** Object.fromEntries: a later entry replaces an earlier one. */
  function Canonical(files: seq<(string, string)>): map<string, string> {
    if files == [] then map[] else Canonical(files[..|files| - 1])[files[|files| - 1].0 := files[|files| - 1].1]
  }

  lemma {:induction false} CanonicalHolds(files: seq<(string, string)>, caseKey: string -> string, path: string)
    requires Distinguishable(Names(files), caseKey)
    ensures path in Canonical(files) <==> path in Names(files)
    ensures path in Canonical(files) ==> (path, Canonical(files)[path]) in files
  {
    if files != [] {
      var rest, last := files[..|files| - 1], files[|files| - 1];
      assert Names(files) == Names(rest) + [last.0] && files == rest + [last];
      assert Names(rest) == Names(files)[..|rest|];
      CanonicalHolds(rest, caseKey, path);
    }
  }

  method CheckManifest(m: Manifest, h: Host) returns (ok: bool)
    ensures ok <==> WellFormed(m, h)
  {
    if |m.files| > h.maxFiles || |m.directories| > h.maxFiles { return false; }
    var expectedFiles := Names(m.files);
    if !AllSafe(expectedFiles) || !AllSafe(m.directories) { return false; }
    KeySetTells(expectedFiles, h.caseKey);
    KeySetTells(m.directories, h.caseKey);
    if |KeySet(expectedFiles, h.caseKey)| != |expectedFiles| || |KeySet(m.directories, h.caseKey)| != |m.directories| { return false; }
    ok := AllSha256Hex(m.files);
  }

  // ---------------------------------------------------------------- the comparison

  /** One loop of the comparison: a discrepancy for each path that has one. */
  method Report(paths: seq<string>, wrong: string -> bool, make: string -> Discrepancy, found: seq<Discrepancy>)
    returns (all: seq<Discrepancy>)
    ensures forall d :: d in all <==> d in found || exists path :: path in paths && wrong(path) && d == make(path)
  {
    all := found;
    for i := 0 to |paths|
      invariant forall d :: d in all <==> d in found || exists k :: 0 <= k < i && wrong(paths[k]) && d == make(paths[k])
    {
      if wrong(paths[i]) { all := all + [make(paths[i])]; }
    }
  }

  /** The digests, looked up in an object: a name it does not hold itself may still find an inherited member. */
  method ReportDigests(files: seq<(string, string)>, canonical: map<string, string>, inherited: set<string>, found: seq<Discrepancy>)
    returns (all: seq<Discrepancy>)
    ensures forall d :: d in all <==> d in found || exists f :: f in files && Mismatch(f, canonical, inherited, d)
  {
    all := found;
    for i := 0 to |files|
      invariant forall d :: d in all <==> d in found || exists k :: 0 <= k < i && Mismatch(files[k], canonical, inherited, d)
    {
      var (relative, actual) := files[i];
      if relative in canonical {
        if actual != canonical[relative] { all := all + [HashMismatch(relative, Some(canonical[relative]), actual)]; }
      } else if relative in inherited {
        all := all + [HashMismatch(relative, None, actual)];
      }
    }
  }

  predicate Mismatch(f: (string, string), canonical: map<string, string>, inherited: set<string>, d: Discrepancy) {
    if f.0 in canonical then f.1 != canonical[f.0] && d == HashMismatch(f.0, Some(canonical[f.0]), f.1)
    else f.0 in inherited && d == HashMismatch(f.0, None, f.1)
  }

  lemma MismatchIsReal(c: Contract, m: Manifest, rows: seq<Row>, h: Host, files: seq<(string, string)>, d: Discrepancy)
    requires WellFormed(m, h) && files == ListedFiles(rows)
    ensures (exists f :: f in files && Mismatch(f, Canonical(m.files), h.inherited, d)) <==> d.HashMismatch? && Real(d, c, m, rows, h)
  {
    var canonical := Canonical(m.files);
    ListsHold(rows);
    if exists f :: f in files && Mismatch(f, canonical, h.inherited, d) {
      var f :| f in files && Mismatch(f, canonical, h.inherited, d);
      CanonicalHolds(m.files, h.caseKey, f.0);
      assert f in FileDigests(rows);
    }
    if d.HashMismatch? && Real(d, c, m, rows, h) {
      CanonicalHolds(m.files, h.caseKey, d.path);
      NameOfFile(m.files, d.path);
      if d.expected.Some? { OneDigest(m.files, h.caseKey, d.path, d.expected.value, canonical[d.path]); }
      assert (d.path, d.actual) in files && Mismatch((d.path, d.actual), canonical, h.inherited, d);
    }
  }

  method Compare(c: Contract, m: Manifest, listing: Listing, h: Host) returns (all: seq<Discrepancy>)
    requires WellFormed(m, h) && listing.Valid(h)
    ensures forall d :: d in all <==> Real(d, c, m, listing.rows, h)
  {
    ghost var rows := listing.rows;
    ListsHold(rows);
    var expectedFiles, actualFiles, actualDirectories := Names(m.files), Names(listing.files), listing.directories;
    ListedTexts(rows);
    var a := Report(expectedFiles, p => p !in actualFiles, p => Missing(p), []);
    var b := Report(actualFiles, p => p !in expectedFiles, p => Unexpected(p), a);
    var e := Report(m.directories, p => p !in actualDirectories, p => DirectoryMissing(p), b);
    var f := Report(actualDirectories, p => p !in m.directories, p => DirectoryUnexpected(p), e);
    var g := Report(c.required, p => p !in actualFiles, p => RequiredMissing(p), f);
    var i := Report(actualFiles, p => h.within(p, c.forbidden), p => ForbiddenPresent(p), g);
    all := ReportDigests(listing.files, Canonical(m.files), h.inherited, i);
    forall d ensures d in all <==> Real(d, c, m, rows, h) {
      MismatchIsReal(c, m, rows, h, listing.files, d);
      assert d in i <==> !d.HashMismatch? && Real(d, c, m, rows, h);
    }
  }

  lemma ListedTexts(rows: seq<Row>)
    ensures forall path :: path in Names(ListedFiles(rows)) <==> path in FileTexts(rows)
    ensures forall path :: path in ListedDirs(rows) <==> path in DirTexts(rows)
  {
    ListsHold(rows);
    forall path ensures path in Names(ListedFiles(rows)) <==> path in FileTexts(rows) {
      NameOfFile(ListedFiles(rows), path);
      DigestOfText(rows, path);
    }
    assert forall path :: path in ListedDirs(rows) <==> path in (set d | d in ListedDirs(rows));
  }

  /** Every discrepancy is reported and every report is one; ok means an acceptable manifest and a matching tree. */
  method VerifySanitizedWorkspace(c: Contract, m: Manifest, tree: seq<Child>, h: Host) returns (v: Verdict)
    ensures v.Refused? <==> !Acceptable(c, m, tree, h)
    ensures v.Checked? ==> forall d :: d in v.discrepancies <==> Real(d, c, m, Rows(tree, []), h)
    ensures Ok(v) <==> Acceptable(c, m, tree, h) && Matches(c, m, Rows(tree, []), h)
  {
    var sound := CheckManifest(m, h);
    if !sound { return Refused; }
    var listing := new Listing(h);
    ghost var none: seq<Row> := [];
    assert Digestible(tree) ==> none + Rows(tree, []) == Rows(tree, []);
    var listed := listing.Walk(tree, [], h);
    if !listed { return Refused; }
    if !AllSafe(c.required) || !AllSafe(c.forbidden) { return Refused; }
    var discrepancies := Compare(c, m, listing, h);
    v := Checked(discrepancies);
    CleanIffMatches(c, m, Rows(tree, []), h);
    assert discrepancies != [] ==> discrepancies[0] in discrepancies;
  }

  // ---------------------------------------------------------------- a tree that is not the manifest's

  lemma PlainNamesAreSafe()
    ensures SafePath("a") && SafePath("a/b")
  {
    PartsUnfold("a", "b");
    assert "a/b" == "a" + "/" + "b" && Parts("a") == ["a"] && Parts("a/b") == ["a", "b"];
    assert !Climbs("a") && !Climbs("b");
    assert '\\' !in "a/b" && NoControl("a/b") && NoControl("a");
  }

  /** A file named a\b beside an empty directory a. */
  function BesideTree(sha256: string): seq<Child> { [Child("a", Directory([])), Child("a\\b", File(sha256))] }

  lemma BesideRows(sha256: string)
    ensures Digestible(BesideTree(sha256)) && Rows(BesideTree(sha256), []) == [DirRow(["a"]), FileRow(["a\\b"], sha256)]
  {
    var tree, none: seq<string> := BesideTree(sha256), [];
    assert none + ["a"] == ["a"] && none + ["a\\b"] == ["a\\b"];
    assert Rows(tree[1..], none) == [FileRow(["a\\b"], sha256)];
  }

  /** A manifest of one file b in a directory a. */
  function InsideManifest(sha256: string): Manifest { Manifest([("a/b", sha256)], ["a"]) }

  lemma InsideIsWellFormed(sha256: string, h: Host)
    requires Sha256Hex(sha256) && 1 <= h.maxFiles
    ensures WellFormed(InsideManifest(sha256), h)
  {
    PlainNamesAreSafe();
    assert Names(InsideManifest(sha256).files) == ["a/b"];
  }

  lemma TwoRows(dir: Row, file: Row, h: Host)
    requires dir.DirRow? && file.FileRow?
    ensures ListedFiles([dir, file]) == [(PathText(file.path), file.sha256)] && ListedDirs([dir, file]) == [PathText(dir.path)]
    ensures BytesOf([dir, file], h.size) == h.size(file.sha256)
  {
    OneRow(dir, h);
    ListsGrow([dir], file, h);
    assert [dir] + [file] == [dir, file];
  }

  lemma OneRow(dir: Row, h: Host)
    requires dir.DirRow?
    ensures ListedFiles([dir]) == [] && ListedDirs([dir]) == [PathText(dir.path)] && BytesOf([dir], h.size) == 0
  {
    assert [dir][..0] == [];
  }

  /** A tree whose lists are the manifest's own matches. */
  lemma ListsMatch(m: Manifest, rows: seq<Row>, h: Host)
    requires ListedFiles(rows) == m.files && ListedDirs(rows) == m.directories
    requires forall path :: path in Names(m.files) ==> !h.within(path, [])
    ensures Matches(Contract(Names(m.files), []), m, rows, h)
  {
    ListsHold(rows);
    ListedTexts(rows);
  }

  lemma BesideTexts()
    ensures PathText(["a\\b"]) == "a/b" && PathText(["a"]) == "a" && !PlainPath(["a\\b"])
  {
    assert Slashed("a\\b") == "a/b" && Slashed("a") == "a";
    assert "a\\b"[1] == '\\';
    assert !PlainName(["a\\b"][0]);
  }

  /** With a backslash in a name the check passes a tree that is not the manifest's: the required file a/b is not in it. */
  lemma BackslashPasses(sha256: string, h: Host)
    requires Sha256Hex(sha256) && 1 <= h.maxFiles && h.size(sha256) <= h.maxBytes && !h.within("a/b", [])
    ensures var c, m, tree := Contract(["a/b"], []), InsideManifest(sha256), BesideTree(sha256);
            && Acceptable(c, m, tree, h) && Matches(c, m, Rows(tree, []), h)
            && (set r | r in Rows(tree, [])) != ManifestRows(m)
  {
    var m, tree, file := InsideManifest(sha256), BesideTree(sha256), FileRow(["a\\b"], sha256);
    BesideRows(sha256);
    var rows := Rows(tree, []);
    BesideTexts();
    TwoRows(DirRow(["a"]), file, h);
    InsideIsWellFormed(sha256, h);
    PlainNamesAreSafe();
    assert Names(m.files) == ["a/b"];
    ListsMatch(m, rows, h);
    assert !PlainPaths(rows) by { assert PathOf(rows[1]) == file.path; }
    TreeIsManifestIff(rows, m);
  }
}

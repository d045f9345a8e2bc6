/**
 What the lib/ digest lists (`listLibFiles`, `isLibDigestPath` in bin/lib-digest.js): every file under lib/
 and the bin/ files that exist, by path.  The digest pins exactly these; directories leave no trace.
 */
module LibListing {
  import opened DigestWalk
  import opened Sorting
  import opened TreeDigest

  datatype Lib = NoLib | NotADirectory | LibTree(children: seq<Child>)

  datatype BinEntry = Absent | Regular(sha256: string) | Unsupported

  datatype Outcome = Nothing | Refused | Listed(files: seq<LibFile>)

  const LIB: seq<string> := ["lib"]

  function PathOfFile(f: LibFile): string { f.path }

  /** The walk's pushes. */
  function WalkedFiles(rows: seq<Row>): seq<LibFile> {
    if rows == [] then []
    else
      var last := rows[|rows| - 1];
      WalkedFiles(rows[..|rows| - 1]) + (if last.FileRow? then [LibFile(PathText(last.path), last.sha256)] else [])
  }

  function BinFiles(names: seq<string>, at: string -> BinEntry): seq<LibFile> {
    if names == [] then []
    else
      var last := names[|names| - 1];
      BinFiles(names[..|names| - 1], at) + (if at(last).Regular? then [LibFile(last, at(last).sha256)] else [])
  }

  predicate Usable(names: seq<string>, at: string -> BinEntry) { forall i :: 0 <= i < |names| ==> !at(names[i]).Unsupported? }

  function Pushed(tree: seq<Child>, names: seq<string>, at: string -> BinEntry): seq<LibFile>
    requires Digestible(tree)
  {
    WalkedFiles(Rows(tree, LIB)) + BinFiles(names, at)
  }

  function Listing(tree: seq<Child>, names: seq<string>, at: string -> BinEntry): seq<LibFile>
    requires Digestible(tree)
  {
    SortBy(Pushed(tree, names, at), PathOfFile)
  }

  // ---------------------------------------------------------------- the listing as it is made

  lemma FilesGrow(rows: seq<Row>, r: Row)
    ensures WalkedFiles(rows + [r]) == WalkedFiles(rows) + (if r.FileRow? then [LibFile(PathText(r.path), r.sha256)] else [])
  {
    assert (rows + [r])[..|rows|] == rows;
  }

  class LibWalk {
    var files: seq<LibFile>
    ghost var rows: seq<Row>

    ghost predicate Valid()
      reads this
    {
      files == WalkedFiles(rows)
    }

    constructor ()
      ensures Valid() && rows == []
    {
      files, rows := [], [];
    }

    method Walk(children: seq<Child>, prefix: seq<string>) returns (ok: bool)
      requires Valid()
      modifies this
      ensures Valid() && (ok <==> Digestible(children))
      ensures ok ==> rows == old(rows) + Rows(children, prefix)
      decreases children
    {
      if children == [] { return true; }
      ghost var before := rows;
      ok := Visit(children[0].node, prefix + [children[0].name]);
      if !ok { return; }
      ok := Walk(children[1..], prefix);
      if ok { RowsOfFirst(children, prefix, before); }
    }

    /** A directory is walked and leaves nothing itself. */
    method Visit(node: Node, path: seq<string>) returns (ok: bool)
      requires Valid()
      modifies this
      ensures Valid() && (ok <==> Passable(node))
      ensures ok ==> rows == old(rows) + NodeRows(node, path)
      decreases node
    {
      match node
      case Link => return false;
      case Special => return false;
      case Directory(inner) =>
        FilesGrow(rows, DirRow(path));
        rows := rows + [DirRow(path)];
        ok := Walk(inner, path);
      case File(sha256) =>
        FilesGrow(rows, FileRow(path, sha256));
        files := files + [LibFile(PathText(path), sha256)];
        rows := rows + [FileRow(path, sha256)];
        ok := true;
    }
  }

  method ListLibFiles(lib: Lib, names: seq<string>, at: string -> BinEntry) returns (o: Outcome)
    ensures o.Nothing? <==> lib.NoLib?
    ensures o.Refused? <==> lib.NotADirectory? || (lib.LibTree? && !(Digestible(lib.children) && Usable(names, at)))
    ensures o.Listed? ==> o.files == Listing(lib.children, names, at)
  {
    match lib
    case NoLib => return Nothing;
    case NotADirectory => return Refused;
    case LibTree(children) =>
      var walk := new LibWalk();
      var ok := walk.Walk(children, LIB);
      if !ok { return Refused; }
      assert walk.rows == Rows(children, LIB);
      var files := walk.files;
      for i := 0 to |names|
        invariant Usable(names[..i], at)
        invariant files == walk.files + BinFiles(names[..i], at)
      {
        assert names[..i + 1][..i] == names[..i];
        if at(names[i]).Unsupported? { return Refused; }
        if at(names[i]).Regular? { files := files + [LibFile(names[i], at(names[i]).sha256)]; }
      }
      assert names[..|names|] == names;
      return Listed(SortBy(files, PathOfFile));
  }

  // ---------------------------------------------------------------- what is listed

  lemma {:induction false} WalkedFilesHold(rows: seq<Row>, f: LibFile)
    ensures f in WalkedFiles(rows) <==> exists r :: r in rows && r.FileRow? && f == LibFile(PathText(r.path), r.sha256)
  {
    if rows != [] {
      var rest, last := rows[..|rows| - 1], rows[|rows| - 1];
      WalkedFilesHold(rest, f);
      assert rows == rest + [last];
    }
  }

  lemma {:induction false} BinFilesHold(names: seq<string>, at: string -> BinEntry, f: LibFile)
    ensures f in BinFiles(names, at) <==> f.path in names && at(f.path) == Regular(f.sha256)
  {
    if names != [] {
      var rest, last := names[..|names| - 1], names[|names| - 1];
      BinFilesHold(rest, at, f);
      assert names == rest + [last];
    }
  }

  /** Every path below lib/ begins with it. */
  lemma {:induction false} LibTextBegins(path: seq<string>)
    requires |path| > 1 && path[0] == "lib"
    ensures "lib/" <= PathText(path)
  {
    var last := |path| - 1;
    if last == 1 {
      assert path[..1] == LIB && Slashed("lib") == "lib";
      assert PathText(path) == "lib" + "/" + Slashed(path[1]);
      assert "lib" + "/" == "lib/";
    } else {
      LibTextBegins(path[..last]);
    }
  }

  lemma {:induction false} RowsAreBelow(children: seq<Child>, prefix: seq<string>, r: Row)
    requires Digestible(children) && r in Rows(children, prefix)
    ensures |r.path| > |prefix| && r.path[..|prefix|] == prefix
    ensures exists i :: 0 <= i < |children| && children[i].name == r.path[|prefix|]
    decreases children
  {
    var path := prefix + [children[0].name];
    if r in Rows(children[1..], prefix) {
      RowsAreBelow(children[1..], prefix, r);
      var i :| 0 <= i < |children[1..]| && children[1..][i].name == r.path[|prefix|];
      assert children[i + 1].name == r.path[|prefix|];
    } else if children[0].node.Directory? && r in Rows(children[0].node.children, path) {
      RowsAreBelow(children[0].node.children, path, r);
      assert path[..|prefix|] == prefix && r.path[|prefix|] == r.path[..|path|][|prefix|];
    }
  }

  /** Everything listed is a path the release manifest counts as part of the digest (isLibDigestPath): below lib/, or a pinned bin/ file as it is. */
  lemma ListedAreLibPaths(tree: seq<Child>, names: seq<string>, at: string -> BinEntry, f: LibFile)
    requires Digestible(tree) && f in Listing(tree, names, at)
    ensures "lib/" <= f.path || (f.path in names && at(f.path) == Regular(f.sha256))
  {
    ListedIsPushed(tree, names, at, f);
    if f in WalkedFiles(Rows(tree, LIB)) {
      WalkedFilesHold(Rows(tree, LIB), f);
      var r :| r in Rows(tree, LIB) && r.FileRow? && f == LibFile(PathText(r.path), r.sha256);
      RowsAreBelow(tree, LIB, r);
      assert r.path[0] == r.path[..1][0];
      LibTextBegins(r.path);
    } else {
      BinFilesHold(names, at, f);
    }
  }

  lemma ListedIsPushed(tree: seq<Child>, names: seq<string>, at: string -> BinEntry, f: LibFile)
    requires Digestible(tree)
    ensures f in Listing(tree, names, at) <==> f in WalkedFiles(Rows(tree, LIB)) || f in BinFiles(names, at)
  {
    SortKeeps(Pushed(tree, names, at), PathOfFile);
    assert f in multiset(Listing(tree, names, at)) <==> f in multiset(Pushed(tree, names, at));
  }

  // ---------------------------------------------------------------- no path twice

  /** No directory holds a name twice. */
  ghost predicate DistinctNames(children: seq<Child>)
    decreases children
  {
    children == [] ||
    ((forall i :: 0 < i < |children| ==> children[i].name != children[0].name)
     && (children[0].node.Directory? ==> DistinctNames(children[0].node.children)) && DistinctNames(children[1..]))
  }

  predicate DistinctPaths(rows: seq<Row>) { forall i, j :: 0 <= i < j < |rows| ==> rows[i].path != rows[j].path }

  lemma DistinctConcat(a: seq<Row>, b: seq<Row>)
    requires DistinctPaths(a) && DistinctPaths(b) && forall r, s :: r in a && s in b ==> r.path != s.path
    ensures DistinctPaths(a + b)
  {
  }

  lemma {:induction false} RowsAreDistinct(children: seq<Child>, prefix: seq<string>)
    requires Digestible(children) && DistinctNames(children)
    ensures DistinctPaths(Rows(children, prefix))
    decreases children, 1
  {
    if children != [] {
      var path, rest := prefix + [children[0].name], Rows(children[1..], prefix);
      var first := NodeRows(children[0].node, path);
      NodeIsDistinct(children[0].node, path);
      RowsAreDistinct(children[1..], prefix);
      forall r, s | r in first && s in rest ensures r.path != s.path {
        NodeIsBelow(children[0].node, path, r);
        RowsAreBelow(children[1..], prefix, s);
        var i :| 0 <= i < |children[1..]| && children[1..][i].name == s.path[|prefix|];
        assert children[i + 1].name != children[0].name;
        assert r.path[|prefix|] == r.path[..|path|][|prefix|];
      }
      DistinctConcat(first, rest);
      RowsOfFirst(children, prefix, []);
      assert [] + first + rest == first + rest && [] + Rows(children, prefix) == Rows(children, prefix);
    }
  }

  lemma NodeIsBelow(node: Node, path: seq<string>, r: Row)
    requires Passable(node) && r in NodeRows(node, path)
    ensures |r.path| >= |path| && r.path[..|path|] == path
  {
    if node.Directory? && r in Rows(node.children, path) { RowsAreBelow(node.children, path, r); }
  }

  lemma {:induction false} NodeIsDistinct(node: Node, path: seq<string>)
    requires Passable(node) && (node.Directory? ==> DistinctNames(node.children))
    ensures DistinctPaths(NodeRows(node, path))
    decreases node, 0
  {
    if node.Directory? {
      var inner := Rows(node.children, path);
      RowsAreDistinct(node.children, path);
      forall s | s in inner ensures s.path != path { RowsAreBelow(node.children, path, s); }
      DistinctConcat([DirRow(path)], inner);
    }
  }

  lemma {:induction false} DistinctTexts(rows: seq<Row>)
    requires DistinctPaths(rows) && forall i :: 0 <= i < |rows| ==> PlainPath(PathOf(rows[i]))
    ensures DistinctBy(WalkedFiles(rows), PathOfFile)
  {
    if rows != [] {
      var rest, last := rows[..|rows| - 1], rows[|rows| - 1];
      DistinctTexts(rest);
      if last.FileRow? {
        forall f | f in WalkedFiles(rest) ensures f.path != PathText(last.path) {
          WalkedFilesHold(rest, f);
          var r :| r in rest && r.FileRow? && f == LibFile(PathText(r.path), r.sha256);
          var k :| 0 <= k < |rest| && rest[k] == r;
          assert rows[k] == r && PlainPath(PathOf(rows[k])) && PlainPath(PathOf(rows[|rows| - 1]));
          if PathText(r.path) == PathText(last.path) { PathTextIsUnique(r.path, last.path); }
        }
      }
    }
  }

  lemma {:induction false} DistinctBins(names: seq<string>, at: string -> BinEntry)
    requires forall i, j :: 0 <= i < j < |names| ==> names[i] != names[j]
    ensures DistinctBy(BinFiles(names, at), PathOfFile)
  {
    if names != [] {
      var rest, last := names[..|names| - 1], names[|names| - 1];
      DistinctBins(rest, at);
      forall f | f in BinFiles(rest, at) ensures f.path != last { BinFilesHold(rest, at, f); }
    }
  }

  /** The pinned bin/ files: named once, and outside lib/. */
  predicate BinNames(names: seq<string>) {
    && (forall i, j :: 0 <= i < j < |names| ==> names[i] != names[j])
    && (forall i :: 0 <= i < |names| ==> NulFree(names[i]) && !("lib/" <= names[i]))
  }

  ghost predicate PlainLib(tree: seq<Child>) { Digestible(tree) && AllNames(tree, PlainName) && DistinctNames(tree) }

  lemma NothingTwice(tree: seq<Child>, names: seq<string>, at: string -> BinEntry)
    requires PlainLib(tree) && BinNames(names)
    ensures DistinctBy(Pushed(tree, names, at), PathOfFile)
  {
    var rows, walked, bins := Rows(tree, LIB), WalkedFiles(Rows(tree, LIB)), BinFiles(names, at);
    LibIsPlain();
    PlainTreeRows(tree, LIB);
    RowsAreDistinct(tree, LIB);
    DistinctTexts(rows);
    DistinctBins(names, at);
    forall f, g | f in walked && g in bins ensures f.path != g.path {
      WalkedBegins(tree, f);
      BinFilesHold(names, at, g);
    }
    ConcatDistinct(walked, bins);
  }

  lemma LibIsPlain()
    ensures PlainPath(LIB)
  {
    assert PlainName("lib");
  }

  lemma WalkedBegins(tree: seq<Child>, f: LibFile)
    requires Digestible(tree) && f in WalkedFiles(Rows(tree, LIB))
    ensures "lib/" <= f.path
  {
    WalkedFilesHold(Rows(tree, LIB), f);
    var r :| r in Rows(tree, LIB) && r.FileRow? && f == LibFile(PathText(r.path), r.sha256);
    RowsAreBelow(tree, LIB, r);
    assert r.path[0] == r.path[..1][0];
    LibTextBegins(r.path);
  }

  lemma ConcatDistinct(a: seq<LibFile>, b: seq<LibFile>)
    requires DistinctBy(a, PathOfFile) && DistinctBy(b, PathOfFile) && forall f, g :: f in a && g in b ==> f.path != g.path
    ensures DistinctBy(a + b, PathOfFile)
  {
  }

  // ---------------------------------------------------------------- what the pin means

  /** One state of an installation: its lib/ tree and its bin/ files. */
  datatype Installed = Installed(tree: seq<Child>, at: string -> BinEntry)

  ghost predicate Sound(i: Installed, names: seq<string>) {
    && PlainLib(i.tree) && BinNames(names) && Usable(names, i.at)
    && (forall k :: 0 <= k < |names| ==> i.at(names[k]).Regular? ==> |i.at(names[k]).sha256| == 64)
  }

  function PinnedText(i: Installed, names: seq<string>): string
    requires Digestible(i.tree)
  {
    LibText(Listing(i.tree, names, i.at))
  }

  /** The same files with the same contents, and the same pinned bin/ files. */
  ghost predicate SameFiles(i: Installed, j: Installed, names: seq<string>)
    requires Digestible(i.tree) && Digestible(j.tree)
  {
    && (forall r: Row :: r.FileRow? ==> (r in Rows(i.tree, LIB) <==> r in Rows(j.tree, LIB)))
    && (forall name: string :: name in names ==> i.at(name) == j.at(name))
  }

  lemma ListingIsValid(i: Installed, names: seq<string>)
    requires Sound(i, names)
    ensures ValidLib(Listing(i.tree, names, i.at))
  {
    var files := Listing(i.tree, names, i.at);
    LibIsPlain();
    PlainTreeRows(i.tree, LIB);
    forall k | 0 <= k < |files| ensures NulFree(files[k].path) && |files[k].sha256| == 64 {
      FileIsValid(i, names, files[k]);
    }
  }

  lemma FileIsValid(i: Installed, names: seq<string>, f: LibFile)
    requires Sound(i, names) && PlainRows(Rows(i.tree, LIB)) && f in Listing(i.tree, names, i.at)
    ensures NulFree(f.path) && |f.sha256| == 64
  {
    var rows := Rows(i.tree, LIB);
    ListedIsPushed(i.tree, names, i.at, f);
    if f in WalkedFiles(rows) {
      WalkedFilesHold(rows, f);
      var r :| r in rows && r.FileRow? && f == LibFile(PathText(r.path), r.sha256);
      var k :| 0 <= k < |rows| && rows[k] == r;
      assert PlainRow(rows[k]);
      PathTextIsNulFree(r.path);
    } else {
      BinFilesHold(names, i.at, f);
      var k :| 0 <= k < |names| && names[k] == f.path;
      assert i.at(names[k]) == Regular(f.sha256);
    }
  }

  lemma WalkedMoves(i: Installed, j: Installed, names: seq<string>, f: LibFile)
    requires Sound(i, names) && Sound(j, names) && Listing(i.tree, names, i.at) == Listing(j.tree, names, j.at)
    ensures f in WalkedFiles(Rows(i.tree, LIB)) ==> f in WalkedFiles(Rows(j.tree, LIB))
    ensures f in BinFiles(names, i.at) ==> f in BinFiles(names, j.at)
  {
    ListedIsPushed(i.tree, names, i.at, f);
    ListedIsPushed(j.tree, names, j.at, f);
    if f in WalkedFiles(Rows(i.tree, LIB)) {
      WalkedBegins(i.tree, f);
      BinFilesHold(names, j.at, f);
    }
    if f in BinFiles(names, i.at) {
      BinFilesHold(names, i.at, f);
      if f in WalkedFiles(Rows(j.tree, LIB)) { WalkedBegins(j.tree, f); }
    }
  }

  lemma RowMoves(i: Installed, j: Installed, names: seq<string>, r: Row)
    requires Sound(i, names) && Sound(j, names) && Listing(i.tree, names, i.at) == Listing(j.tree, names, j.at)
    requires r.FileRow? && r in Rows(i.tree, LIB)
    ensures r in Rows(j.tree, LIB)
  {
    var f := LibFile(PathText(r.path), r.sha256);
    WalkedFilesHold(Rows(i.tree, LIB), f);
    WalkedMoves(i, j, names, f);
    WalkedFilesHold(Rows(j.tree, LIB), f);
    var s :| s in Rows(j.tree, LIB) && s.FileRow? && f == LibFile(PathText(s.path), s.sha256);
    RowIsPlain(i.tree, r);
    RowIsPlain(j.tree, s);
    PathTextIsUnique(r.path, s.path);
  }

  lemma RowIsPlain(tree: seq<Child>, r: Row)
    requires PlainLib(tree) && r in Rows(tree, LIB)
    ensures PlainPath(r.path)
  {
    LibIsPlain();
    PlainTreeRows(tree, LIB);
    var k :| 0 <= k < |Rows(tree, LIB)| && Rows(tree, LIB)[k] == r;
    assert PlainRow(Rows(tree, LIB)[k]);
  }

  lemma BinMoves(i: Installed, j: Installed, names: seq<string>, name: string)
    requires Sound(i, names) && Sound(j, names) && Listing(i.tree, names, i.at) == Listing(j.tree, names, j.at)
    requires name in names && i.at(name).Regular?
    ensures j.at(name) == i.at(name)
  {
    var f := LibFile(name, i.at(name).sha256);
    BinFilesHold(names, i.at, f);
    WalkedMoves(i, j, names, f);
    BinFilesHold(names, j.at, f);
  }

  lemma ListingTells(i: Installed, j: Installed, names: seq<string>)
    requires Sound(i, names) && Sound(j, names) && Listing(i.tree, names, i.at) == Listing(j.tree, names, j.at)
    ensures SameFiles(i, j, names)
  {
    forall r: Row | r.FileRow? ensures r in Rows(i.tree, LIB) <==> r in Rows(j.tree, LIB) {
      if r in Rows(i.tree, LIB) { RowMoves(i, j, names, r); }
      if r in Rows(j.tree, LIB) { RowMoves(j, i, names, r); }
    }
    forall name | name in names ensures i.at(name) == j.at(name) {
      if i.at(name).Regular? { BinMoves(i, j, names, name); }
      if j.at(name).Regular? { BinMoves(j, i, names, name); }
      var k :| 0 <= k < |names| && names[k] == name;
      assert !i.at(names[k]).Unsupported? && !j.at(names[k]).Unsupported?;
    }
  }

  lemma SamePushed(i: Installed, j: Installed, names: seq<string>, f: LibFile)
    requires Digestible(i.tree) && Digestible(j.tree) && SameFiles(i, j, names)
    ensures f in Pushed(i.tree, names, i.at) <==> f in Pushed(j.tree, names, j.at)
  {
    WalkedFilesHold(Rows(i.tree, LIB), f);
    WalkedFilesHold(Rows(j.tree, LIB), f);
    BinFilesHold(names, i.at, f);
    BinFilesHold(names, j.at, f);
  }

  /**
   The pinned text is the same exactly when lib/ holds the same files with the same contents and the pinned
   bin/ files are the same: whatever order directories are read in, and whatever empty directories there are.
   */
  lemma PinMeansFiles(i: Installed, j: Installed, names: seq<string>)
    requires Sound(i, names) && Sound(j, names)
    ensures PinnedText(i, names) == PinnedText(j, names) <==> SameFiles(i, j, names)
  {
    if PinnedText(i, names) == PinnedText(j, names) {
      ListingIsValid(i, names);
      ListingIsValid(j, names);
      LibTextIsUnique(Listing(i.tree, names, i.at), Listing(j.tree, names, j.at));
      ListingTells(i, j, names);
    }
    if SameFiles(i, j, names) {
      var a, b := Pushed(i.tree, names, i.at), Pushed(j.tree, names, j.at);
      NothingTwice(i.tree, names, i.at);
      NothingTwice(j.tree, names, j.at);
      forall f ensures f in a <==> f in b { SamePushed(i, j, names, f); }
      SameSetSameMultiset(a, b, PathOfFile);
      SortIsOrderFree(a, b, PathOfFile);
    }
  }
}

/**
 The digests as they are computed: a recursive walk that pushes entries and counts files, and a hash fed
 file by file.  The hash itself is any function of the text it was fed.
 */
module DigestWalk {
  import opened Options
  import opened TreeDigest

  function FilesIn(rows: seq<Row>): nat {
    if rows == [] then 0 else FilesIn(rows[..|rows| - 1]) + (if rows[|rows| - 1].FileRow? then 1 else 0)
  }

  /** digestTree: its list of entries and its count of files; the rows say which path of names each entry came from. */
  class TreeWalk {
    var entries: seq<Entry>
    var fileCount: nat
    ghost var rows: seq<Row>

    ghost predicate Valid()
      reads this
    {
      entries == ToEntries(rows) && fileCount == FilesIn(rows)
    }

    constructor ()
      ensures Valid() && rows == []
    {
      entries, fileCount, rows := [], 0, [];
    }

    method Push(row: Row)
      requires Valid()
      modifies this
      ensures Valid() && rows == old(rows) + [row]
    {
      entries := entries + [ToEntry(row)];
      if row.FileRow? { fileCount := fileCount + 1; }
      rows := rows + [row];
      assert rows[..|rows| - 1] == old(rows);
    }

    /** walk: refused at the first link or special entry. */
    method Walk(children: seq<Child>, prefix: seq<string>) returns (ok: bool)
      requires Valid()
      modifies this
      ensures Valid() && (ok <==> Digestible(children))
      ensures ok ==> rows == old(rows) + Rows(children, prefix)
      decreases children
    {
      if children == [] { return true; }
      ghost var before := rows;
      ok := Visit(children[0].node, prefix + [children[0].name]);
      if !ok { return; }
      ok := Walk(children[1..], prefix);
      if ok { RowsOfFirst(children, prefix, before); }
    }

    method Visit(node: Node, path: seq<string>) returns (ok: bool)
      requires Valid()
      modifies this
      ensures Valid() && (ok <==> Passable(node))
      ensures ok ==> rows == old(rows) + NodeRows(node, path)
      decreases node
    {
      match node
      case Link => return false;
      case Special => return false;
      case Directory(inner) =>
        Push(DirRow(path));
        ok := Walk(inner, path);
      case File(sha256) =>
        Push(FileRow(path, sha256));
        ok := true;
    }

    /** treeSha256: the hash of the joined entries. */
    method Digest(sha: string -> string) returns (digest: string)
      ensures digest == sha(Stream(entries))
    {
      var text := "";
      for i := 0 to |entries|
        invariant text + Stream(entries[i..]) == Stream(entries)
      {
        assert entries[i..][1..] == entries[i + 1..];
        text := text + Text(entries[i]);
      }
      assert entries[|entries|..] == [] && text + Stream([]) == text;
      digest := sha(text);
    }
  }

  // ---------------------------------------------------------------- lib/

  datatype LibFile = LibFile(path: string, sha256: string)

  function LibText(files: seq<LibFile>): string {
    if files == [] then "" else files[0].path + [NUL] + files[0].sha256 + ['\n'] + LibText(files[1..])
  }

  predicate ValidLib(files: seq<LibFile>) {
    forall i :: 0 <= i < |files| ==> NulFree(files[i].path) && |files[i].sha256| == 64
  }

  method LibDigestOf(files: seq<LibFile>, sha: string -> string) returns (digest: string)
    ensures digest == sha(LibText(files))
  {
    var fed := "";
    for i := 0 to |files|
      invariant fed + LibText(files[i..]) == LibText(files)
    {
      assert files[i..][1..] == files[i + 1..];
      fed := fed + (files[i].path + [NUL] + files[i].sha256 + ['\n']);
    }
    assert files[|files|..] == [] && fed + LibText([]) == fed;
    digest := sha(fed);
  }

  lemma LibFileIsRead(f: LibFile, rest: string)
    requires NulFree(f.path) && |f.sha256| == 64
    ensures var s := f.path + [NUL] + f.sha256 + ['\n'] + rest;
            && FirstNul(s) == |f.path| && s[..|f.path|] == f.path
            && s[|f.path| + 1..|f.path| + 65] == f.sha256 && s[|f.path| + 66..] == rest
  {
    var s := f.path + [NUL] + f.sha256 + ['\n'] + rest;
    assert s[..|f.path|] == f.path;
    FirstNulIs(s, |f.path|);
  }

  /** One text, one list of files. */
  lemma {:induction false} LibTextIsUnique(a: seq<LibFile>, b: seq<LibFile>)
    requires ValidLib(a) && ValidLib(b) && LibText(a) == LibText(b)
    ensures a == b
  {
    if a == [] || b == [] {
      assert a != [] ==> |LibText(a)| > 0;
      assert b != [] ==> |LibText(b)| > 0;
    } else {
      LibFileIsRead(a[0], LibText(a[1..]));
      LibFileIsRead(b[0], LibText(b[1..]));
      LibTextIsUnique(a[1..], b[1..]);
      assert a == [a[0]] + a[1..] && b == [b[0]] + b[1..];
    }
  }

  ghost predicate CollisionFree(sha: string -> string) {
    forall x, y :: sha(x) == sha(y) ==> x == y
  }

  /** Under a collision-free hash one pin means one list of files, and one tree. */
  lemma PinsMeanOneTree(sha: string -> string, a: seq<LibFile>, b: seq<LibFile>, t: seq<Child>, u: seq<Child>)
    requires CollisionFree(sha)
    requires ValidLib(a) && ValidLib(b) && Digestible(t) && Digestible(u) && AllNames(t, PlainName) && AllNames(u, PlainName)
    ensures sha(LibText(a)) == sha(LibText(b)) <==> a == b
    ensures sha(TreeText(t)) == sha(TreeText(u)) <==> t == u
  {
    if LibText(a) == LibText(b) { LibTextIsUnique(a, b); }
    TreeTextIsUnique(t, u);
  }
}

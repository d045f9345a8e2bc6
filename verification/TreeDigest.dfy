/**
 What the digests of bin/plugin-tree-digest.js and bin/lib-digest.js pin: the text they hash can be read
 back, so that one text means one list of entries, and a list of entries one tree.
 */
module TreeDigest {
  import opened Options

  const NUL: char := '\0'

  datatype Entry =
    | DirEntry(path: string)
    | FileEntry(path: string, sha256: string)
    | AbsentEntry(path: string)

  predicate NulFree(s: string) { forall i :: 0 <= i < |s| ==> s[i] != NUL }

  predicate ValidEntry(e: Entry) { NulFree(e.path) && (e.FileEntry? ==> |e.sha256| == 64) }

  predicate AllValid(es: seq<Entry>) { forall i :: 0 <= i < |es| ==> ValidEntry(es[i]) }

  function Tag(e: Entry): char {
    match e
    case DirEntry(_) => 'D'
    case FileEntry(_, _) => 'F'
    case AbsentEntry(_) => 'A'
  }

  /** An entry as it is pushed. */
  function Text(e: Entry): string {
    [Tag(e), NUL] + e.path + (if e.FileEntry? then [NUL] + e.sha256 else []) + ['\n']
  }

  /** entries.join("") */
  function Stream(es: seq<Entry>): string {
    if es == [] then [] else Text(es[0]) + Stream(es[1..])
  }

  // ---------------------------------------------------------------- reading the text back

  /** Where the first NUL is, or the length. */
  function FirstNul(s: string): (n: nat)
    ensures n <= |s| && NulFree(s[..n]) && (n < |s| ==> s[n] == NUL)
  {
    if s == [] || s[0] == NUL then 0 else 1 + FirstNul(s[1..])
  }

  /**
   The first entry and the rest.  A path may hold newlines, but no NUL: a directory's path ends before
   the newline and the tag that stand before the next NUL, or before the last newline; a file's path ends
   at its NUL, and 64 characters and a newline follow.
   */
  function Read(s: string): Option<(Entry, string)> {
    if |s| < 3 || s[1] != NUL then None else ReadAfter(s[0], s[2..])
  }

  function ReadAfter(tag: char, body: string): Option<(Entry, string)>
    requires body != []
  {
    var n := FirstNul(body);
    if tag == 'F' then
      if n + 66 > |body| then None else Some((FileEntry(body[..n], body[n + 1..n + 65]), body[n + 66..]))
    else
      var end := if n == |body| then n - 1 else n - 2;
      if end < 0 then None
      else if tag == 'D' then Some((DirEntry(body[..end]), body[end + 1..]))
      else if tag == 'A' then Some((AbsentEntry(body[..end]), body[end + 1..]))
      else None
  }

  lemma {:induction false} FirstNulIs(s: string, n: nat)
    requires n <= |s| && NulFree(s[..n]) && (n == |s| || s[n] == NUL)
    ensures FirstNul(s) == n
  {
    if n > 0 {
      assert s[..n][0] != NUL;
      assert s[1..][..n - 1] == s[..n][1..];
      FirstNulIs(s[1..], n - 1);
    }
  }

  /** What can follow an entry: nothing, or another one. */
  predicate Follows(rest: string) { rest == [] || (|rest| >= 2 && rest[0] != NUL && rest[1] == NUL) }

  lemma StreamFollows(es: seq<Entry>)
    ensures Follows(Stream(es))
  {
    if es != [] { assert Stream(es) == Text(es[0]) + Stream(es[1..]); }
  }

  lemma FileIsRead(path: string, sha256: string, rest: string)
    requires NulFree(path) && |sha256| == 64
    ensures Read(Text(FileEntry(path, sha256)) + rest) == Some((FileEntry(path, sha256), rest))
  {
    var body := path + ([NUL] + sha256) + ['\n'] + rest;
    ReadIsAfter('F', body);
    assert Text(FileEntry(path, sha256)) + rest == ['F', NUL] + body;
    assert body[..|path|] == path;
    FirstNulIs(body, |path|);
    assert body[|path| + 1..|path| + 65] == sha256;
    assert body[|path| + 66..] == rest;
  }

  lemma PathIsRead(path: string, rest: string)
    requires NulFree(path) && Follows(rest)
    ensures var body := path + ['\n'] + rest;
            && FirstNul(body) == (if rest == [] then |path| + 1 else |path| + 2)
            && body[..|path|] == path && body[|path| + 1..] == rest
  {
    var body := path + ['\n'] + rest;
    var n := if rest == [] then |path| + 1 else |path| + 2;
    forall i | 0 <= i < n ensures body[..n][i] != NUL {
      if i < |path| { assert body[i] == path[i]; }
    }
    FirstNulIs(body, n);
  }

  lemma ReadIsAfter(tag: char, body: string)
    requires body != []
    ensures Read([tag, NUL] + body) == ReadAfter(tag, body)
  {
    var s := [tag, NUL] + body;
    assert s[2..] == body;
  }

  lemma DirIsRead(tag: char, path: string, rest: string)
    requires (tag == 'D' || tag == 'A') && NulFree(path) && Follows(rest)
    ensures Read([tag, NUL] + path + ['\n'] + rest) == Some((if tag == 'D' then DirEntry(path) else AbsentEntry(path), rest))
  {
    var body := path + ['\n'] + rest;
    ReadIsAfter(tag, body);
    assert [tag, NUL] + path + ['\n'] + rest == [tag, NUL] + body;
    PathIsRead(path, rest);
  }

  lemma EntryIsRead(e: Entry, rest: string)
    requires ValidEntry(e) && Follows(rest)
    ensures Read(Text(e) + rest) == Some((e, rest))
  {
    match e
    case FileEntry(path, sha256) => FileIsRead(path, sha256, rest);
    case _ =>
      DirIsRead(Tag(e), e.path, rest);
      assert Text(e) + rest == [Tag(e), NUL] + e.path + ['\n'] + rest;
  }

  /** One text, one list of entries. */
  lemma {:induction false} StreamIsUnique(a: seq<Entry>, b: seq<Entry>)
    requires AllValid(a) && AllValid(b) && Stream(a) == Stream(b)
    ensures a == b
  {
    if a == [] || b == [] {
      assert a != [] ==> |Stream(a)| >= 3;
      assert b != [] ==> |Stream(b)| >= 3;
    } else {
      StreamFollows(a[1..]);
      StreamFollows(b[1..]);
      EntryIsRead(a[0], Stream(a[1..]));
      EntryIsRead(b[0], Stream(b[1..]));
      StreamIsUnique(a[1..], b[1..]);
      assert a == [a[0]] + a[1..] && b == [b[0]] + b[1..];
    }
  }

  // ---------------------------------------------------------------- trees

  /** What a walk finds; a directory's children in the order it visits them, files by their digests. */
  datatype Node =
    | File(sha256: string)
    | Directory(children: seq<Child>)
    | Link
    | Special

  datatype Child = Child(name: string, node: Node)

  /** A path of names, joined with slashes, every backslash turned into one. */
  function PathText(path: seq<string>): string {
    if path == [] then ""
    else if |path| == 1 then Slashed(path[0])
    else PathText(path[..|path| - 1]) + "/" + Slashed(path[|path| - 1])
  }

  function Slashed(name: string): string {
    seq(|name|, i requires 0 <= i < |name| => if name[i] == '\\' then '/' else name[i])
  }

  /** Only links and special entries stop the walk. */
  predicate Digestible(children: seq<Child>)
    decreases children
  {
    children == [] ||
    (!children[0].node.Link? && !children[0].node.Special?
     && (children[0].node.Directory? ==> Digestible(children[0].node.children)) && Digestible(children[1..]))
  }

  datatype Row = DirRow(path: seq<string>) | FileRow(path: seq<string>, sha256: string)

  /** The walk, top down, each entry with its path of names. */
  function Rows(children: seq<Child>, prefix: seq<string>): seq<Row>
    requires Digestible(children)
    decreases children
  {
    if children == [] then []
    else
      var path := prefix + [children[0].name];
      (match children[0].node
       case File(sha256) => [FileRow(path, sha256)]
       case Directory(inner) => [DirRow(path)] + Rows(inner, path))
      + Rows(children[1..], prefix)
  }

  predicate Passable(node: Node) { !node.Link? && !node.Special? && (node.Directory? ==> Digestible(node.children)) }

  function NodeRows(node: Node, path: seq<string>): seq<Row>
    requires Passable(node)
  {
    match node
    case File(sha256) => [FileRow(path, sha256)]
    case Directory(inner) => [DirRow(path)] + Rows(inner, path)
  }

  lemma RowsOfFirst(children: seq<Child>, prefix: seq<string>, before: seq<Row>)
    requires children != [] && Digestible(children)
    ensures before + Rows(children, prefix) ==
            before + NodeRows(children[0].node, prefix + [children[0].name]) + Rows(children[1..], prefix)
  {
    assert Rows(children, prefix) == NodeRows(children[0].node, prefix + [children[0].name]) + Rows(children[1..], prefix);
  }

  function ToEntry(r: Row): Entry {
    match r
    case DirRow(path) => DirEntry(PathText(path))
    case FileRow(path, sha256) => FileEntry(PathText(path), sha256)
  }

  function ToEntries(rows: seq<Row>): seq<Entry> {
    seq(|rows|, i requires 0 <= i < |rows| => ToEntry(rows[i]))
  }

  /** A name that a file system's directory can hold. */
  predicate RealName(name: string) { name != "" && NulFree(name) && '/' !in name }

  predicate PlainName(name: string) { RealName(name) && '\\' !in name }

  ghost predicate AllNames(children: seq<Child>, ok: string -> bool)
    decreases children
  {
    children == [] ||
    (ok(children[0].name)
     && (match children[0].node case File(sha256) => |sha256| == 64 case Directory(inner) => AllNames(inner, ok) case _ => true)
     && AllNames(children[1..], ok))
  }

  predicate PlainPath(path: seq<string>) {
    path != [] && forall i :: 0 <= i < |path| ==> PlainName(path[i])
  }

  function PathOf(r: Row): seq<string> { r.path }

  predicate PlainRow(r: Row) { PlainPath(PathOf(r)) && (r.FileRow? ==> |r.sha256| == 64) }

  predicate PlainRows(rows: seq<Row>) { forall i :: 0 <= i < |rows| ==> PlainRow(rows[i]) }

  lemma SlashedPlain(name: string)
    requires PlainName(name)
    ensures Slashed(name) == name
  {
  }

  lemma NoSlashAfter(a: string, x: string)
    requires '/' !in x
    ensures forall j :: |a| < j < |a + "/" + x| ==> (a + "/" + x)[j] != '/'
  {
    forall j | |a| < j < |a + "/" + x| ensures (a + "/" + x)[j] != '/' {
      assert (a + "/" + x)[j] == x[j - |a| - 1];
    }
  }

  /** The last name is what follows the last slash. */
  lemma LastSlash(a: string, x: string, b: string, y: string)
    requires a + "/" + x == b + "/" + y && '/' !in x && '/' !in y
    ensures a == b && x == y
  {
    var s := a + "/" + x;
    assert s[|a|] == '/' && s[|b|] == '/';
    NoSlashAfter(a, x);
    NoSlashAfter(b, y);
    assert |a| == |b|;
    assert s[..|a|] == a && s[|a| + 1..] == x;
    assert s == b + "/" + y && s[..|b|] == b && s[|b| + 1..] == y;
  }

  lemma NoSlashInOne(a: string, x: string, y: string)
    requires '/' !in y
    ensures a + "/" + x != y
  {
    assert (a + "/" + x)[|a|] == '/';
  }

  lemma {:induction false} PathTextIsUnique(p: seq<string>, q: seq<string>)
    requires PlainPath(p) && PlainPath(q) && PathText(p) == PathText(q)
    ensures p == q
  {
    var i, j := |p| - 1, |q| - 1;
    SlashedPlain(p[i]);
    SlashedPlain(q[j]);
    if i == 0 && j == 0 {
      assert p == [p[0]] && q == [q[0]];
    } else if i == 0 {
      NoSlashInOne(PathText(q[..j]), q[j], p[0]);
    } else if j == 0 {
      NoSlashInOne(PathText(p[..i]), p[i], q[0]);
    } else {
      LastSlash(PathText(p[..i]), p[i], PathText(q[..j]), q[j]);
      PathTextIsUnique(p[..i], q[..j]);
      assert p == p[..i] + [p[i]] && q == q[..j] + [q[j]];
    }
  }

  lemma EntriesTellRows(a: seq<Row>, b: seq<Row>)
    requires PlainRows(a) && PlainRows(b) && ToEntries(a) == ToEntries(b)
    ensures a == b
  {
    assert |a| == |ToEntries(a)| == |b|;
    forall i | 0 <= i < |a| ensures a[i] == b[i] {
      assert ToEntry(a[i]) == ToEntries(a)[i] == ToEntries(b)[i] == ToEntry(b[i]);
      PathTextIsUnique(PathOf(a[i]), PathOf(b[i]));
    }
  }

  // ---------------------------------------------------------------- one list of rows, one tree

  predicate Under(prefix: seq<string>, r: Row) { |PathOf(r)| > |prefix| && PathOf(r)[..|prefix|] == prefix }

  /** What can follow a directory's rows: nothing, or a row that is not inside it. */
  predicate Outside(prefix: seq<string>, rest: seq<Row>) { rest == [] || !Under(prefix, rest[0]) }

  lemma FirstRow(children: seq<Child>, prefix: seq<string>)
    requires children != [] && Digestible(children)
    ensures Rows(children, prefix) != [] && PathOf(Rows(children, prefix)[0]) == prefix + [children[0].name]
    ensures Under(prefix, Rows(children, prefix)[0])
  {
  }

  lemma FirstIsUnder(children: seq<Child>, prefix: seq<string>, rest: seq<Row>)
    requires Digestible(children)
    ensures children != [] ==> Rows(children, prefix) + rest != [] && Under(prefix, (Rows(children, prefix) + rest)[0])
  {
    if children != [] { FirstRow(children, prefix); }
  }

  lemma NotDeeper(prefix: seq<string>, name: string, r: Row)
    requires !Under(prefix, r)
    ensures !Under(prefix + [name], r)
  {
    var path := PathOf(r);
    assert |path| > |prefix| ==> path[..|prefix| + 1][..|prefix|] == path[..|prefix|];
    assert (prefix + [name])[..|prefix|] == prefix;
  }

  lemma SiblingsOutside(children: seq<Child>, prefix: seq<string>, name: string, rest: seq<Row>)
    requires Digestible(children) && Outside(prefix, rest)
    ensures Outside(prefix + [name], Rows(children, prefix) + rest)
  {
    if children != [] {
      FirstRow(children, prefix);
    } else {
      assert Rows(children, prefix) + rest == rest;
      if rest != [] { NotDeeper(prefix, name, rest[0]); }
    }
  }

  lemma RowsUnfold(children: seq<Child>, prefix: seq<string>, rest: seq<Row>)
    requires children != [] && Digestible(children)
    ensures var path := prefix + [children[0].name];
            Rows(children, prefix) + rest ==
            match children[0].node
            case File(sha256) => [FileRow(path, sha256)] + (Rows(children[1..], prefix) + rest)
            case Directory(inner) => [DirRow(path)] + (Rows(inner, path) + (Rows(children[1..], prefix) + rest))
  {
  }

  lemma Tail<T>(x: T, s: seq<T>, y: T, t: seq<T>)
    requires [x] + s == [y] + t
    ensures x == y && s == t
  {
    assert ([x] + s)[0] == x && ([y] + t)[0] == y && ([x] + s)[1..] == s && ([y] + t)[1..] == t;
  }

  lemma {:induction false} RowsTellTree(a: seq<Child>, b: seq<Child>, prefix: seq<string>, c: seq<Row>, d: seq<Row>)
    requires Digestible(a) && Digestible(b) && Outside(prefix, c) && Outside(prefix, d)
    requires Rows(a, prefix) + c == Rows(b, prefix) + d
    ensures a == b && c == d
    decreases a
  {
    if a == [] || b == [] {
      FirstIsUnder(a, prefix, c);
      FirstIsUnder(b, prefix, d);
      assert Rows([], prefix) + c == c && Rows([], prefix) + d == d;
    } else {
      RowsUnfold(a, prefix, c);
      RowsUnfold(b, prefix, d);
      FirstsTell(a, b, prefix, c, d);
      var path := prefix + [a[0].name];
      var restA, restB := Rows(a[1..], prefix) + c, Rows(b[1..], prefix) + d;
      if a[0].node.Directory? {
        Tail(DirRow(path), Rows(a[0].node.children, path) + restA, DirRow(path), Rows(b[0].node.children, path) + restB);
        SiblingsOutside(a[1..], prefix, a[0].name, c);
        SiblingsOutside(b[1..], prefix, a[0].name, d);
        RowsTellTree(a[0].node.children, b[0].node.children, path, restA, restB);
      } else {
        Tail(FileRow(path, a[0].node.sha256), restA, FileRow(path, b[0].node.sha256), restB);
      }
      RowsTellTree(a[1..], b[1..], prefix, c, d);
      assert a == [a[0]] + a[1..] && b == [b[0]] + b[1..];
    }
  }

  /** The first row tells the first child's name and kind. */
  lemma FirstsTell(a: seq<Child>, b: seq<Child>, prefix: seq<string>, c: seq<Row>, d: seq<Row>)
    requires a != [] && b != [] && Digestible(a) && Digestible(b) && Rows(a, prefix) + c == Rows(b, prefix) + d
    ensures a[0].name == b[0].name && a[0].node.Directory? == b[0].node.Directory?
  {
    FirstRow(a, prefix);
    FirstRow(b, prefix);
    assert (Rows(a, prefix) + c)[0] == Rows(a, prefix)[0] && (Rows(b, prefix) + d)[0] == Rows(b, prefix)[0];
    assert a[0].name == (prefix + [a[0].name])[|prefix|] == b[0].name;
  }

  // ---------------------------------------------------------------- the digest pins the tree

  lemma {:induction false} PlainTreeRows(children: seq<Child>, prefix: seq<string>)
    requires Digestible(children) && AllNames(children, PlainName) && (prefix == [] || PlainPath(prefix))
    ensures PlainRows(Rows(children, prefix))
    decreases children
  {
    if children != [] {
      var path := prefix + [children[0].name];
      assert PlainPath(path);
      if children[0].node.Directory? { PlainTreeRows(children[0].node.children, path); }
      PlainTreeRows(children[1..], prefix);
    }
  }

  lemma {:induction false} PathTextIsNulFree(path: seq<string>)
    requires PlainPath(path)
    ensures NulFree(PathText(path))
  {
    var last := |path| - 1;
    SlashedPlain(path[last]);
    if last > 0 { PathTextIsNulFree(path[..last]); }
  }

  lemma PlainRowsAreValid(rows: seq<Row>)
    requires PlainRows(rows)
    ensures AllValid(ToEntries(rows))
  {
    forall i | 0 <= i < |rows| ensures ValidEntry(ToEntries(rows)[i]) { PathTextIsNulFree(PathOf(rows[i])); }
  }

  function TreeText(tree: seq<Child>): string
    requires Digestible(tree)
  {
    Stream(ToEntries(Rows(tree, [])))
  }

  /** No two trees without backslashes in their names have the same text: the pin means one tree. */
  lemma TreeTextIsUnique(a: seq<Child>, b: seq<Child>)
    requires Digestible(a) && Digestible(b) && AllNames(a, PlainName) && AllNames(b, PlainName)
    ensures TreeText(a) == TreeText(b) <==> a == b
  {
    if TreeText(a) == TreeText(b) {
      PlainTreeRows(a, []);
      PlainTreeRows(b, []);
      PlainRowsAreValid(Rows(a, []));
      PlainRowsAreValid(Rows(b, []));
      StreamIsUnique(ToEntries(Rows(a, [])), ToEntries(Rows(b, [])));
      EntriesTellRows(Rows(a, []), Rows(b, []));
      assert Rows(a, []) + [] == Rows(a, []) && Rows(b, []) + [] == Rows(b, []);
      RowsTellTree(a, b, [], [], []);
    }
  }

  /**
   With a backslash in a name it does not: on a system that allows one, a file named a\\b beside an empty
   directory a has the text of a file b inside a.
   */
  lemma BackslashCollides(sha256: string)
    requires |sha256| == 64
    ensures var inside := [Child("a", Directory([Child("b", File(sha256))]))];
            var beside := [Child("a", Directory([])), Child("a\\b", File(sha256))];
            && Digestible(inside) && Digestible(beside) && inside != beside && RealName("a\\b")
            && TreeText(inside) == TreeText(beside)
  {
    var inside := [Child("a", Directory([Child("b", File(sha256))]))];
    var beside := [Child("a", Directory([])), Child("a\\b", File(sha256))];
    var none: seq<string> := [];
    assert Rows(inside, none) == [DirRow(none + ["a"]), FileRow(none + ["a"] + ["b"], sha256)] by {
      assert Rows([Child("b", File(sha256))], none + ["a"]) == [FileRow(none + ["a"] + ["b"], sha256)];
    }
    assert Rows(beside, none) == [DirRow(none + ["a"]), FileRow(none + ["a\\b"], sha256)] by {
      assert Rows(beside[1..], none) == [FileRow(none + ["a\\b"], sha256)];
    }
    var ab := none + ["a"] + ["b"];
    assert ab[..1] == ["a"] && Slashed("a") == "a" && Slashed("b") == "b" && Slashed("a\\b") == "a/b";
    assert PathText(ab) == PathText(["a"]) + "/" + Slashed("b") == "a" + "/" + "b" == "a/b";
    assert PathText(none + ["a\\b"]) == "a/b";
    assert ToEntries(Rows(inside, none)) == ToEntries(Rows(beside, none));
    assert inside[0].node != beside[0].node;
  }
}

/**
 The paths a sanitized-workspace manifest may name (`normalizedManifestRelativePath` in server.js), and what
 they mean: exactly the texts of paths of plain names that cannot climb out of the root.
 */
module ManifestPaths {
  import opened TreeDigest

  /** Where the last slash is. */
  function LastSlashAt(s: string): (i: nat)
    requires '/' in s
    ensures i < |s| && s[i] == '/' && '/' !in s[i + 1..]
  {
    if s[|s| - 1] == '/' then |s| - 1
    else
      assert '/' in s[..|s| - 1];
      var i := LastSlashAt(s[..|s| - 1]);
      assert s[i + 1..] == s[..|s| - 1][i + 1..] + [s[|s| - 1]];
      i
  }

  /** raw.split("/") */
  function Parts(raw: string): (parts: seq<string>)
    ensures parts != []
    decreases |raw|
  {
    if '/' !in raw then [raw] else Parts(raw[..LastSlashAt(raw)]) + [raw[LastSlashAt(raw) + 1..]]
  }

  predicate Letter(c: char) { 'a' <= c <= 'z' || 'A' <= c <= 'Z' }

  predicate DriveRooted(raw: string) { |raw| >= 3 && Letter(raw[0]) && raw[1] == ':' && raw[2] == '/' }

  predicate Control(c: char) { c < ' ' || c == '\U{7F}' }

  predicate NoControl(raw: string) { forall i :: 0 <= i < |raw| ==> !Control(raw[i]) }

  predicate Climbs(part: string) { part == "" || part == "." || part == ".." }

  predicate SafePath(raw: string) {
    && '\\' !in raw && raw != "" && !DriveRooted(raw) && raw[0] != '/'
    && (forall i :: 0 <= i < |Parts(raw)| ==> !Climbs(Parts(raw)[i]))
    && NoControl(raw)
  }

  lemma SplitAtLast(raw: string) returns (head: string, tail: string)
    requires '/' in raw
    ensures raw == head + "/" + tail && |head| < |raw| && '/' !in tail
    ensures Parts(raw) == Parts(head) + [tail]
  {
    var at := LastSlashAt(raw);
    head, tail := raw[..at], raw[at + 1..];
  }

  lemma TextUnfolds(path: seq<string>, name: string)
    requires path != []
    ensures PathText(path + [name]) == PathText(path) + "/" + Slashed(name)
  {
    assert (path + [name])[..|path|] == path;
  }

  lemma SlashedIs(s: string)
    requires '\\' !in s
    ensures Slashed(s) == s
  {
  }

  lemma {:induction false} TextOfParts(raw: string)
    requires '\\' !in raw
    ensures PathText(Parts(raw)) == raw
    decreases |raw|
  {
    if '/' in raw {
      var head, tail := SplitAtLast(raw);
      TextOfParts(head);
      TextUnfolds(Parts(head), tail);
      SlashedIs(tail);
    } else {
      SlashedIs(raw);
    }
  }

  lemma LastSlashOf(a: string, x: string)
    requires '/' !in x
    ensures var s := a + "/" + x; '/' in s && LastSlashAt(s) == |a|
  {
    var s := a + "/" + x;
    assert s[|a|] == '/';
    NoSlashAfter(a, x);
  }

  lemma PartsUnfold(a: string, x: string)
    requires '/' !in x
    ensures Parts(a + "/" + x) == Parts(a) + [x]
  {
    LastSlashOf(a, x);
    var s := a + "/" + x;
    assert s[..|a|] == a && s[|a| + 1..] == x;
  }

  lemma {:induction false} PartsOfText(path: seq<string>)
    requires PlainPath(path)
    ensures Parts(PathText(path)) == path
    decreases |path|
  {
    var n := |path| - 1;
    SlashedIs(path[n]);
    if n == 0 {
      assert path == [path[0]];
    } else {
      var rest, last := path[..n], path[n];
      TextUnfolds(rest, last);
      PartsUnfold(PathText(rest), last);
      PartsOfText(rest);
      assert path == rest + [last];
    }
  }

  /** A part holds no slash, and no character the whole does not hold. */
  lemma {:induction false} PartHolds(raw: string, k: nat, c: char)
    requires k < |Parts(raw)| && c in Parts(raw)[k]
    ensures c != '/' && c in raw
    decreases |raw|
  {
    if '/' in raw {
      var at := LastSlashAt(raw);
      if k < |Parts(raw)| - 1 { PartHolds(raw[..at], k, c); }
    }
  }

  lemma SafePartsArePlain(raw: string)
    requires SafePath(raw)
    ensures PlainPath(Parts(raw))
  {
    forall k | 0 <= k < |Parts(raw)| ensures PlainName(Parts(raw)[k]) {
      var part := Parts(raw)[k];
      assert !Climbs(part);
      if '/' in part { PartHolds(raw, k, '/'); }
      if '\\' in part { PartHolds(raw, k, '\\'); }
      if NUL in part { PartHolds(raw, k, NUL); }
    }
  }

  ghost predicate Reaches(raw: string, path: seq<string>) {
    && PlainPath(path) && PathText(path) == raw
    && (forall i :: 0 <= i < |path| ==> path[i] != "." && path[i] != "..")
  }

  /** A manifest may name exactly the paths of plain names below the root, save control characters and drive letters. */
  lemma SafePathMeans(raw: string)
    ensures SafePath(raw) <==>
              && !(|raw| >= 3 && ('a' <= raw[0] <= 'z' || 'A' <= raw[0] <= 'Z') && raw[1] == ':' && raw[2] == '/')
              && (forall i :: 0 <= i < |raw| ==> raw[i] >= ' ' && raw[i] != '\U{7F}')
              && exists path :: Reaches(raw, path)
  {
    if SafePath(raw) {
      SafePartsArePlain(raw);
      TextOfParts(raw);
      assert Reaches(raw, Parts(raw));
    }
    if !DriveRooted(raw) && NoControl(raw) && exists path :: Reaches(raw, path) {
      var path :| Reaches(raw, path);
      PartsOfText(path);
      PlainTextStarts(path);
      PlainTextHasNoBackslash(path);
    }
  }

  lemma {:induction false} PlainTextStarts(path: seq<string>)
    requires PlainPath(path)
    ensures PathText(path) != "" && PathText(path)[0] != '/'
  {
    SlashedPlain(path[|path| - 1]);
    assert path[|path| - 1][0] in path[|path| - 1];
    if |path| > 1 { PlainTextStarts(path[..|path| - 1]); }
  }

  lemma {:induction false} PlainTextHasNoBackslash(path: seq<string>)
    requires PlainPath(path)
    ensures '\\' !in PathText(path)
  {
    SlashedPlain(path[|path| - 1]);
    if |path| > 1 { PlainTextHasNoBackslash(path[..|path| - 1]); }
  }
}

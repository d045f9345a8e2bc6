/**
 The other archive within the writer's limits that a strict reader refuses: one of 0xffff entries, a count
 that announces ZIP64 records (section 4.4.1.4 of the APPNOTE).
 */
module ZipSentinels {
  import opened Options
  import opened Sorting
  import opened ZipFormat
  import ZipProofs

  function Letter(n: nat): char
    requires n < 16
  {
    ('a' as int + n) as char
  }

  /** The last k digits of a number in base 16, as letters. */
  function Letters(n: nat, k: nat): (s: string)
    ensures |s| == k
  {
    if k == 0 then [] else Letters(n / 16, k - 1) + [Letter(n % 16)]
  }

  function Power16(k: nat): nat { if k == 0 then 1 else 16 * Power16(k - 1) }

  lemma {:induction false} LettersDiffer(m: nat, n: nat, k: nat)
    requires m < Power16(k) && n < Power16(k) && Letters(m, k) == Letters(n, k)
    ensures m == n
  {
    if k > 0 {
      var a, b := Letters(m, k), Letters(n, k);
      assert a[..k - 1] == Letters(m / 16, k - 1) && b[..k - 1] == Letters(n / 16, k - 1);
      assert a[k - 1] == Letter(m % 16) && b[k - 1] == Letter(n % 16);
      LettersDiffer(m / 16, n / 16, k - 1);
    }
  }

  lemma {:induction false} OnePart(name: string)
    requires '/' !in name
    ensures Parts(name) == [name]
  {
    if name != [] {
      var last := |name| - 1;
      OnePart(name[..last]);
      assert name[..last] + [name[last]] == name;
    }
  }

  lemma {:induction false} LettersAreAlphanumeric(n: nat, k: nat)
    ensures forall i :: 0 <= i < k ==> Alphanumeric(Letters(n, k)[i])
  {
    if k > 0 { LettersAreAlphanumeric(n / 16, k - 1); }
  }

  lemma LettersAreSafe(n: nat)
    ensures SafeEntry(Letters(n, 4))
  {
    var name := Letters(n, 4);
    LettersAreAlphanumeric(n, 4);
    assert forall i :: 0 <= i < |name| ==> Alphanumeric(name[i]);
    OnePart(name);
    assert Parts(name) == [name];
  }

  /** Files without content, under safe names of four letters. */
  predicate Small(f: File) { |f.name| == 4 && SafeEntry(f.name) && f.content == [] }

  predicate AllSmall(files: seq<File>) { forall i :: 0 <= i < |files| ==> Small(files[i]) }

  lemma {:induction false} ConcatLength<T>(chunks: seq<seq<T>>, n: nat)
    requires forall i :: 0 <= i < |chunks| ==> |chunks[i]| == n
    ensures |Concat(chunks)| == |chunks| * n
  {
    if chunks != [] {
      ConcatLength(chunks[..|chunks| - 1], n);
      OneMore(|chunks| - 1, n);
    }
  }

  lemma OneMore(k: nat, n: nat)
    ensures k * n + n == (k + 1) * n
  {
  }

  lemma LocalsLength(c: Codec, files: seq<File>, i: nat)
    requires AllSmall(files) && i <= |files|
    ensures Offset(c, files, i) == i * (34 + |c.deflate([])|)
  {
    var n, chunks := 34 + |c.deflate([])|, LocalRecords(c, files)[..i];
    forall k | 0 <= k < |chunks| ensures |chunks[k]| == n { assert Small(files[k]); }
    ConcatLength(chunks, n);
  }

  lemma CentralsLength(c: Codec, files: seq<File>)
    requires AllSmall(files)
    ensures |Centrals(c, files)| == |files| * 50
  {
    var chunks := CentralRecords(c, files);
    forall k | 0 <= k < |chunks| ensures |chunks[k]| == 50 { assert Small(files[k]); }
    ConcatLength(chunks, 50);
  }

  lemma SmallBound(i: nat, n: nat)
    requires i <= MAX16 && n <= 1034
    ensures i * n <= 70_000_000
  {
    assert i * n <= MAX16 * n;
  }

  lemma {:induction false} SmallFilesFit(c: Codec, files: seq<File>, n: nat)
    requires AllSmall(files) && |files| <= MAX16 && n <= |files| && |c.deflate([])| <= 1000
    ensures FitUpTo(c, files, n)
  {
    if n > 0 {
      SmallFilesFit(c, files, n - 1);
      LocalsLength(c, files, n - 1);
      SmallBound(n - 1, 34 + |c.deflate([])|);
      assert Small(files[n - 1]);
    }
  }

  lemma SmallFilesAreAccepted(c: Codec, files: seq<File>)
    requires AllSmall(files) && |files| <= MAX16 && |c.deflate([])| <= 1000
    ensures Accepted(c, files)
  {
    SmallFilesFit(c, files, |files|);
    LocalsLength(c, files, |files|);
    SmallBound(|files|, 34 + |c.deflate([])|);
    assert LocalRecords(c, files)[..|files|] == LocalRecords(c, files);
    CentralsLength(c, files);
  }

  lemma ManyFiles(n: nat) returns (files: seq<File>)
    requires n <= 65536
    ensures |files| == n && AllSmall(files) && DistinctBy(files, NameOf)
  {
    files := seq(n, i requires 0 <= i < n => File(Letters(i, 4), []));
    forall i | 0 <= i < n ensures Small(files[i]) { LettersAreSafe(i); }
    forall i, j | 0 <= i < j < n ensures NameOf(files[i]) != NameOf(files[j]) {
      assert Power16(4) == 65536;
      if Letters(i, 4) == Letters(j, 4) { LettersDiffer(i, j, 4); }
    }
  }

  lemma SortedAreSmall(files: seq<File>)
    requires AllSmall(files)
    ensures AllSmall(Sort(files)) && |Sort(files)| == |files|
  {
    SortKeeps(files, NameOf);
    SortKeepsLength(files, NameOf);
    forall i | 0 <= i < |Sort(files)| ensures Small(Sort(files)[i]) {
      assert Sort(files)[i] in multiset(files);
    }
  }

  /** Such an archive exists: 0xffff empty files of different names, which the writer packs and a strict reader refuses. */
  lemma FullDirectoryIsRefused(c: Codec) returns (files: seq<File>)
    requires Inverse(c) && |c.deflate([])| <= 1000
    ensures |files| == MAX16 && DistinctBy(files, NameOf)
    ensures Accepted(c, Sort(files)) && Read(c, Archive(c, Sort(files))) == None
  {
    files := ManyFiles(MAX16);
    SortedAreSmall(files);
    SmallFilesAreAccepted(c, Sort(files));
    ZipProofs.RoundTrip(c, Sort(files));
  }
}

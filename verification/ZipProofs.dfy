/**
 What is written can be read: a strict reader recovers exactly the files of every archive that has no
 ZIP64 sentinel in it, and of no other; and the bytes do not depend on the order the files came in.
 */
module ZipProofs {
  import opened Options
  import opened Sorting
  import opened ZipFormat

  // ---------------------------------------------------------------- bytes at a position

  predicate At(z: seq<U8>, p: nat, s: seq<U8>) {
    p + |s| <= |z| && z[p..p + |s|] == s
  }

  lemma AtSplit(z: seq<U8>, p: nat, a: seq<U8>, b: seq<U8>)
    ensures At(z, p, a + b) <==> At(z, p, a) && At(z, p + |a|, b)
  {
    if p + |a| + |b| <= |z| {
      assert z[p..p + |a + b|] == z[p..p + |a|] + z[p + |a|..p + |a| + |b|];
      if z[p..p + |a + b|] == a + b {
        assert z[p..p + |a|] == z[p..p + |a + b|][..|a|] == a;
        assert z[p + |a|..p + |a| + |b|] == z[p..p + |a + b|][|a|..] == b;
      }
    }
  }

  lemma Number16(z: seq<U8>, p: nat, n: nat)
    requires At(z, p, Le16(n)) && n <= MAX16
    ensures U16At(z, p) == n
  {
    assert z[p] == z[p..p + 2][0] && z[p + 1] == z[p..p + 2][1];
  }

  lemma Number32(z: seq<U8>, p: nat, n: nat)
    requires At(z, p, Le32(n)) && n <= MAX32
    ensures U32At(z, p) == n
  {
    var s := z[p..p + 4];
    assert z[p] == s[0] && z[p + 1] == s[1] && z[p + 2] == s[2] && z[p + 3] == s[3];
    Digits(n);
  }

  lemma Digits(n: nat)
    requires n <= MAX32
    ensures n % 256 + 256 * (n / 256 % 256) + 65536 * (n / 65536 % 256) + 16777216 * (n / 16777216 % 256) == n
  {
    assert n / 65536 == n / 256 / 256 && n / 16777216 == n / 65536 / 256;
  }

  // ---------------------------------------------------------------- records where they were put

  lemma SharedFieldsAt(c: Codec, z: seq<U8>, p: nat, f: File)
    requires Fits(c, f, 0) && At(z, p, SharedFields(c, f))
    ensures p + 26 <= |z| && U16At(z, p + 4) == 8
    ensures U32At(z, p + 10) == Checksum(f.content) && U32At(z, p + 14) == |c.deflate(f.content)| && U32At(z, p + 18) == |f.content|
    ensures U16At(z, p + 22) == |f.name| && U16At(z, p + 24) == 0
  {
    var s2 := Le16(20) + Le16(0x800);
    var s3 := s2 + Le16(8);
    var s4 := s3 + Le16(0);
    var s5 := s4 + Le16(33);
    var s6 := s5 + Le32(Checksum(f.content));
    var s7 := s6 + Le32(|c.deflate(f.content)|);
    var s8 := s7 + Le32(|f.content|);
    var s9 := s8 + Le16(|f.name|);
    AtSplit(z, p, s9, Le16(0));
    AtSplit(z, p, s8, Le16(|f.name|));
    AtSplit(z, p, s7, Le32(|f.content|));
    AtSplit(z, p, s6, Le32(|c.deflate(f.content)|));
    AtSplit(z, p, s5, Le32(Checksum(f.content)));
    AtSplit(z, p, s4, Le16(33));
    AtSplit(z, p, s3, Le16(0));
    AtSplit(z, p, s2, Le16(8));
    Number16(z, p + 4, 8);
    Number32(z, p + 10, Checksum(f.content));
    Number32(z, p + 14, |c.deflate(f.content)|);
    Number32(z, p + 18, |f.content|);
    Number16(z, p + 22, |f.name|);
    Number16(z, p + 24, 0);
  }

  function Listing(c: Codec, f: File, offset: nat): Directory {
    Directory(Checksum(f.content), |c.deflate(f.content)|, |f.content|, Encode(f.name), offset)
  }

  function Expected(c: Codec, f: File, offset: nat): Recovered {
    Recovered(Encode(f.name), f.content, Checksum(f.content), |c.deflate(f.content)|, offset)
  }

  lemma LocalHeaderAt(c: Codec, z: seq<U8>, f: File, o: nat)
    requires Fits(c, f, 0) && At(z, o, LocalHeader(c, f))
    ensures o + 30 <= |z| && U32At(z, o) == 0x04034b50 && U16At(z, o + 8) == 8
    ensures U32At(z, o + 14) == Checksum(f.content) && U32At(z, o + 18) == |c.deflate(f.content)| && U32At(z, o + 22) == |f.content|
    ensures U16At(z, o + 26) == |f.name| && U16At(z, o + 28) == 0
  {
    AtSplit(z, o, Le32(0x04034b50), SharedFields(c, f));
    Number32(z, o, 0x04034b50);
    SharedFieldsAt(c, z, o + 4, f);
  }

  lemma LocalFieldsRead(c: Codec, z: seq<U8>, d: Directory, content: seq<U8>, data: seq<U8>)
    requires var o := d.offset;
             && o + 30 <= |z| && U32At(z, o) == 0x04034b50 && U16At(z, o + 8) == 8
             && U32At(z, o + 14) == d.checksum && U32At(z, o + 18) == d.compressed && U32At(z, o + 22) == d.size
             && U16At(z, o + 26) == |d.name| && U16At(z, o + 28) == 0
             && At(z, o + 30, d.name) && At(z, o + 30 + |d.name|, data)
    requires |data| == d.compressed && c.inflate(data) == Some(content) && |content| == d.size && Checksum(content) == d.checksum
    ensures ReadLocal(c, z, d) == Some(Recovered(d.name, content, d.checksum, d.compressed, d.offset))
  {
  }

  lemma RecordParts(c: Codec, z: seq<U8>, f: File, offset: nat)
    requires At(z, offset, LocalRecord(c, f))
    ensures At(z, offset, LocalHeader(c, f)) && At(z, offset + 30, Encode(f.name)) && At(z, offset + 30 + |f.name|, c.deflate(f.content))
  {
    AtSplit(z, offset, LocalHeader(c, f) + Encode(f.name), c.deflate(f.content));
    AtSplit(z, offset, LocalHeader(c, f), Encode(f.name));
  }

  lemma LocalIsRead(c: Codec, z: seq<U8>, f: File, offset: nat)
    requires Inverse(c) && Fits(c, f, offset) && At(z, offset, LocalRecord(c, f))
    ensures ReadLocal(c, z, Listing(c, f, offset)) == Some(Expected(c, f, offset))
  {
    RecordParts(c, z, f, offset);
    LocalHeaderAt(c, z, f, offset);
    LocalFieldsRead(c, z, Listing(c, f, offset), f.content, c.deflate(f.content));
  }

  lemma CentralHeaderAt(c: Codec, z: seq<U8>, p: nat, f: File, offset: nat)
    requires Fits(c, f, offset) && At(z, p, CentralHeader(c, f, offset))
    ensures p + 46 <= |z| && U32At(z, p) == 0x02014b50 && U16At(z, p + 10) == 8
    ensures U32At(z, p + 16) == Checksum(f.content) && U32At(z, p + 20) == |c.deflate(f.content)| && U32At(z, p + 24) == |f.content|
    ensures U16At(z, p + 28) == |f.name| && U16At(z, p + 30) == 0 && U16At(z, p + 32) == 0 && U32At(z, p + 42) == offset
  {
    var s1 := Le32(0x02014b50) + Le16(20);
    var s2 := s1 + SharedFields(c, f);
    var s3 := s2 + Le16(0);
    var s4 := s3 + Le16(0);
    var s5 := s4 + Le16(0);
    var s6 := s5 + Le32(0);
    AtSplit(z, p, s6, Le32(offset));
    AtSplit(z, p, s5, Le32(0));
    AtSplit(z, p, s4, Le16(0));
    AtSplit(z, p, s3, Le16(0));
    AtSplit(z, p, s2, Le16(0));
    AtSplit(z, p, s1, SharedFields(c, f));
    AtSplit(z, p, Le32(0x02014b50), Le16(20));
    Number32(z, p, 0x02014b50);
    SharedFieldsAt(c, z, p + 6, f);
    Number16(z, p + 32, 0);
    Number32(z, p + 42, offset);
  }

  predicate SentinelEntry(c: Codec, f: File, offset: nat) {
    |c.deflate(f.content)| == MAX32 || |f.content| == MAX32 || offset == MAX32
  }

  lemma CentralFieldsRead(z: seq<U8>, p: nat, d: Directory)
    requires p + 46 + |d.name| <= |z| && U32At(z, p) == 0x02014b50 && U16At(z, p + 10) == 8
    requires U32At(z, p + 16) == d.checksum && U32At(z, p + 20) == d.compressed && U32At(z, p + 24) == d.size
    requires U16At(z, p + 28) == |d.name| && U16At(z, p + 30) == 0 && U16At(z, p + 32) == 0 && U32At(z, p + 42) == d.offset
    requires At(z, p + 46, d.name)
    ensures ReadDirectory(z, p) ==
            if d.compressed == MAX32 || d.size == MAX32 || d.offset == MAX32 then None else Some((d, p + 46 + |d.name|))
  {
  }

  lemma CentralParts(c: Codec, z: seq<U8>, p: nat, f: File, offset: nat)
    requires At(z, p, CentralRecord(c, f, offset))
    ensures At(z, p, CentralHeader(c, f, offset)) && At(z, p + 46, Encode(f.name))
  {
    AtSplit(z, p, CentralHeader(c, f, offset), Encode(f.name));
  }

  lemma CentralIsRead(c: Codec, z: seq<U8>, p: nat, f: File, offset: nat)
    requires Fits(c, f, offset) && At(z, p, CentralRecord(c, f, offset))
    ensures ReadDirectory(z, p) == if SentinelEntry(c, f, offset) then None else Some((Listing(c, f, offset), p + 46 + |f.name|))
  {
    CentralParts(c, z, p, f, offset);
    CentralHeaderAt(c, z, p, f, offset);
    CentralFieldsRead(z, p, Listing(c, f, offset));
  }

  // ---------------------------------------------------------------- the whole archive

  /** A chunk stands after the chunks before it. */
  lemma {:induction false} ChunkStands(z: seq<U8>, p: nat, chunks: seq<seq<U8>>, i: nat, q: nat)
    requires i < |chunks| && At(z, p, Concat(chunks)) && q == p + |Concat(chunks[..i])|
    ensures At(z, q, chunks[i])
  {
    var last := |chunks| - 1;
    AtSplit(z, p, Concat(chunks[..last]), chunks[last]);
    if i < last {
      assert chunks[..last][..i] == chunks[..i];
      ChunkStands(z, p, chunks[..last], i, q);
    }
  }

  lemma NextChunk<T>(chunks: seq<seq<T>>, i: nat)
    requires i < |chunks|
    ensures |Concat(chunks[..i + 1])| == |Concat(chunks[..i])| + |chunks[i]|
  {
    assert chunks[..i + 1][..i] == chunks[..i];
  }

  /** Where the central record of entry i begins. */
  function Start(c: Codec, files: seq<File>, i: nat): nat
    requires i <= |files|
  {
    |Locals(c, files)| + |Concat(CentralRecords(c, files)[..i])|
  }

  lemma {:induction false} EntryFitted(c: Codec, files: seq<File>, i: nat, n: nat)
    requires i < n <= |files| && FitUpTo(c, files, n)
    ensures EntryFits(c, files, i)
    decreases n
  {
    if i < n - 1 { EntryFitted(c, files, i, n - 1); }
  }

  function ExpectedFrom(c: Codec, files: seq<File>, i: nat): seq<Recovered>
    requires i <= |files|
    decreases |files| - i
  {
    if i == |files| then [] else [Expected(c, files[i], Offset(c, files, i))] + ExpectedFrom(c, files, i + 1)
  }

  predicate SentinelFrom(c: Codec, files: seq<File>, i: nat)
    requires i <= |files|
    decreases |files| - i
  {
    i < |files| && (SentinelEntry(c, files[i], Offset(c, files, i)) || SentinelFrom(c, files, i + 1))
  }

  lemma OneMoreRead(c: Codec, z: seq<U8>, p: nat, n: nat, d: Directory, next: nat, file: Recovered)
    requires n > 0 && ReadDirectory(z, p).Some? && ReadDirectory(z, p).value.0 == d && ReadDirectory(z, p).value.1 == next
    requires ReadLocal(c, z, d) == Some(file)
    ensures var rest := ReadEntries(c, z, next, n - 1);
            ReadEntries(c, z, p, n) == if rest.None? then None else Some([file] + rest.value)
  {
  }

  /** Entry i stands where the reader looks for it. */
  lemma HeaderStands(c: Codec, z: seq<U8>, files: seq<File>, i: nat)
    requires i < |files| && At(z, |Locals(c, files)|, Centrals(c, files))
    ensures At(z, Start(c, files, i), CentralRecords(c, files)[i]) && Start(c, files, i + 1) == Start(c, files, i) + |CentralRecords(c, files)[i]|
  {
    ChunkStands(z, |Locals(c, files)|, CentralRecords(c, files), i, Start(c, files, i));
    NextChunk(CentralRecords(c, files), i);
  }

  lemma RecordStands(c: Codec, z: seq<U8>, files: seq<File>, i: nat, p: nat, o: nat)
    requires i < |files| && p == Start(c, files, i) && o == Offset(c, files, i) && At(z, |Locals(c, files)|, Centrals(c, files))
    ensures At(z, p, CentralRecord(c, files[i], o)) && Start(c, files, i + 1) == p + 46 + |files[i].name|
  {
    HeaderStands(c, z, files, i);
    assert CentralRecords(c, files)[i] == CentralRecord(c, files[i], o);
  }

  lemma FileStands(c: Codec, z: seq<U8>, files: seq<File>, i: nat, o: nat)
    requires Inverse(c) && i < |files| && o == Offset(c, files, i) && Fits(c, files[i], o)
    requires At(z, 0, Locals(c, files))
    ensures ReadLocal(c, z, Listing(c, files[i], o)) == Some(Expected(c, files[i], o))
  {
    ChunkStands(z, 0, LocalRecords(c, files), i, o);
    LocalIsRead(c, z, files[i], o);
  }

  lemma {:induction false} EntriesAreRead(c: Codec, z: seq<U8>, files: seq<File>, i: nat)
    requires Inverse(c) && i <= |files| && EntriesFit(c, files)
    requires At(z, 0, Locals(c, files)) && At(z, |Locals(c, files)|, Centrals(c, files))
    ensures ReadEntries(c, z, Start(c, files, i), |files| - i) == if SentinelFrom(c, files, i) then None else Some(ExpectedFrom(c, files, i))
    decreases |files| - i
  {
    if i < |files| {
      EntriesAreRead(c, z, files, i + 1);
      EntryFitted(c, files, i, |files|);
      RecordStands(c, z, files, i, Start(c, files, i), Offset(c, files, i));
      CentralIsRead(c, z, Start(c, files, i), files[i], Offset(c, files, i));
      FileStands(c, z, files, i, Offset(c, files, i));
      if !SentinelEntry(c, files[i], Offset(c, files, i)) {
        OneMoreRead(c, z, Start(c, files, i), |files| - i, Listing(c, files[i], Offset(c, files, i)), Start(c, files, i + 1),
                    Expected(c, files[i], Offset(c, files, i)));
      }
    }
  }

  // ---------------------------------------------------------------- no sentinels but these

  lemma {:induction false} ChunkFits<T>(chunks: seq<seq<T>>, i: nat)
    requires i < |chunks|
    ensures |Concat(chunks[..i])| + |chunks[i]| <= |Concat(chunks)|
  {
    var last := |chunks| - 1;
    if i < last {
      ChunkFits(chunks[..last], i);
      assert chunks[..last][..i] == chunks[..i];
    }
  }

  /** In an accepted archive only a file of exactly 0xffffffff bytes makes a sentinel. */
  lemma SentinelIsSize(c: Codec, files: seq<File>, i: nat)
    requires Accepted(c, files) && i < |files|
    ensures SentinelEntry(c, files[i], Offset(c, files, i)) <==> |files[i].content| == MAX32
  {
    EntryFitted(c, files, i, |files|);
    ChunkFits(LocalRecords(c, files), i);
    ChunkFits(CentralRecords(c, files), i);
  }

  predicate HasFullFile(files: seq<File>, i: nat)
    requires i <= |files|
  {
    exists k :: i <= k < |files| && |files[k].content| == MAX32
  }

  lemma {:induction false} SentinelsAreSizes(c: Codec, files: seq<File>, i: nat)
    requires Accepted(c, files) && i <= |files|
    ensures SentinelFrom(c, files, i) <==> HasFullFile(files, i)
    decreases |files| - i
  {
    if i < |files| {
      SentinelIsSize(c, files, i);
      SentinelsAreSizes(c, files, i + 1);
      if HasFullFile(files, i) && |files[i].content| != MAX32 {
        var k :| i <= k < |files| && |files[k].content| == MAX32;
        assert i + 1 <= k;
      }
    }
  }

  lemma PlacesHaveRoom(c: Codec, files: seq<File>)
    requires Accepted(c, files)
    ensures |Locals(c, files)| < MAX32 && |Centrals(c, files)| < MAX32
  {
    if files != [] {
      ChunkFits(LocalRecords(c, files), 0);
      ChunkFits(CentralRecords(c, files), 0);
    }
  }

  lemma EndIsRead(c: Codec, z: seq<U8>, count: nat, size: nat, offset: nat, e: nat)
    requires e + 22 == |z| && At(z, e, EndRecord(count, size, offset)) && count <= MAX16 && size < MAX32 && offset < MAX32 && offset + size == e
    ensures Read(c, z) == if count == MAX16 then None else ReadEntries(c, z, offset, count)
  {
    var s1 := Le32(0x06054b50) + Le16(0);
    var s2 := s1 + Le16(0);
    var s3 := s2 + Le16(count);
    var s4 := s3 + Le16(count);
    var s5 := s4 + Le32(size);
    var s6 := s5 + Le32(offset);
    AtSplit(z, e, s6, Le16(0));
    AtSplit(z, e, s5, Le32(offset));
    AtSplit(z, e, s4, Le32(size));
    AtSplit(z, e, s3, Le16(count));
    AtSplit(z, e, s2, Le16(count));
    AtSplit(z, e, s1, Le16(0));
    AtSplit(z, e, Le32(0x06054b50), Le16(0));
    Number32(z, e, 0x06054b50);
    Number16(z, e + 8, count);
    Number16(z, e + 10, count);
    Number32(z, e + 12, size);
    Number32(z, e + 16, offset);
    Number16(z, e + 20, 0);
  }

  lemma ArchiveParts(c: Codec, files: seq<File>, z: seq<U8>)
    requires z == Archive(c, files)
    ensures At(z, 0, Locals(c, files)) && At(z, |Locals(c, files)|, Centrals(c, files))
    ensures At(z, |Locals(c, files)| + |Centrals(c, files)|, EndRecord(|files|, |Centrals(c, files)|, |Locals(c, files)|))
  {
    assert At(z, 0, z) by { assert z[0..|z|] == z; }
    AtSplit(z, 0, Locals(c, files) + Centrals(c, files), EndRecord(|files|, |Centrals(c, files)|, |Locals(c, files)|));
    AtSplit(z, 0, Locals(c, files), Centrals(c, files));
  }

  /**
   The round trip, exactly: of every accepted archive a strict reader recovers the entries, their
   contents, sizes, checksums and offsets - unless there are exactly 0xffff entries or a file of exactly
   0xffffffff bytes, which the limits let through and a strict reader takes for ZIP64.
   */
  lemma RoundTrip(c: Codec, files: seq<File>)
    requires Inverse(c) && Accepted(c, files)
    ensures Read(c, Archive(c, files)) == if |files| == MAX16 || HasFullFile(files, 0) then None else Some(ExpectedFrom(c, files, 0))
  {
    EndStands(c, files);
    DirectoryIsRead(c, files);
  }

  lemma OneLetterIsSafe(name: string)
    requires |name| == 1 && Alphanumeric(name[0])
    ensures SafeEntry(name)
  {
    var rest := Parts([]);
    assert name[..0] == [] && rest == [""];
    assert rest[0] + [name[0]] == name;
    assert Parts(name) == rest[..0] + [rest[0] + [name[0]]];
    assert Parts(name) == [name];
  }

  /** Such an archive exists: one file of 0xffffffff zero bytes, which deflate shrinks far below the limits. */
  lemma FullFileIsRefused(c: Codec) returns (files: seq<File>)
    requires Inverse(c) && |c.deflate(seq(MAX32, _ => 0))| <= 1_000_000_000
    ensures Accepted(c, files) && Read(c, Archive(c, files)) == None
  {
    var f := File("a", seq(MAX32, _ => 0));
    files := [f];
    OneLetterIsSafe("a");
    assert LocalRecords(c, files)[..0] == [] && LocalRecords(c, files) == [LocalRecord(c, f)];
    assert CentralRecords(c, files)[..0] == [] && CentralRecords(c, files) == [CentralRecord(c, f, 0)];
    assert Concat([LocalRecord(c, f)]) == LocalRecord(c, f) && Concat([CentralRecord(c, f, 0)]) == CentralRecord(c, f, 0);
    assert EntryFits(c, files, 0);
    RoundTrip(c, files);
    assert |files[0].content| == MAX32;
  }

  lemma EndStands(c: Codec, files: seq<File>)
    requires Accepted(c, files)
    ensures Read(c, Archive(c, files)) ==
            if |files| == MAX16 then None else ReadEntries(c, Archive(c, files), |Locals(c, files)|, |files|)
  {
    var z := Archive(c, files);
    var l, d := |Locals(c, files)|, |Centrals(c, files)|;
    ArchiveParts(c, files, z);
    PlacesHaveRoom(c, files);
    EndIsRead(c, z, |files|, d, l, l + d);
  }

  lemma DirectoryIsRead(c: Codec, files: seq<File>)
    requires Inverse(c) && Accepted(c, files)
    ensures ReadEntries(c, Archive(c, files), |Locals(c, files)|, |files|) ==
            if HasFullFile(files, 0) then None else Some(ExpectedFrom(c, files, 0))
  {
    ArchiveParts(c, files, Archive(c, files));
    EntriesAreRead(c, Archive(c, files), files, 0);
    SentinelsAreSizes(c, files, 0);
    assert Start(c, files, 0) == |Locals(c, files)|;
  }

  lemma {:induction false} ExpectedAt(c: Codec, files: seq<File>, i: nat, k: nat)
    requires i <= k < |files|
    ensures |ExpectedFrom(c, files, i)| == |files| - i && ExpectedFrom(c, files, i)[k - i] == Expected(c, files[k], Offset(c, files, k))
    decreases |files| - i
  {
    if i < k { ExpectedAt(c, files, i + 1, k); } else if i + 1 < |files| { ExpectedAt(c, files, i + 1, i + 1); }
  }

  /** The recovered name is the name: different safe names have different bytes. */
  lemma NamesTellApart(a: string, b: string)
    requires SafeEntry(a) && SafeEntry(b) && Encode(a) == Encode(b)
    ensures a == b
  {
    forall i | 0 <= i < |a| ensures a[i] == b[i] {
      assert Encode(a)[i] == Encode(b)[i];
      assert NameChar(a[i]) && NameChar(b[i]);
    }
  }

  // ---------------------------------------------------------------- order

  /** The archive does not depend on the order in which the files were collected. */
  lemma OrderDoesNotMatter(c: Codec, a: seq<File>, b: seq<File>)
    requires DistinctBy(a, NameOf) && multiset(a) == multiset(b)
    ensures Archive(c, Sort(a)) == Archive(c, Sort(b)) && (Accepted(c, Sort(a)) <==> Accepted(c, Sort(b)))
  {
    SortIsOrderFree(a, b, NameOf);
  }
}

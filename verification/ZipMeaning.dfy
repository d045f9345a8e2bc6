/**
 What the archive writer accepts and writes, in plain terms: safe names as joined parts, sizes as sums, the fixed
 fields of the headers, and a published value of the checksum.
 */
module ZipMeaning {
  import opened Options
  import opened ShiftRegisters
  import opened Sorting
  import opened ZipFormat
  import opened ZipProofs
  import opened Crc

  // ---------------------------------------------------------------- names

  /** parts.join("/") */
  function Joined(parts: seq<string>): string
    requires parts != []
  {
    var last := |parts| - 1;
    if last == 0 then parts[0] else Joined(parts[..last]) + "/" + parts[last]
  }

  predicate NoSlash(part: string) { '/' !in part }

  /** These parts, joined, are the name, and none holds a slash. */
  predicate Splits(parts: seq<string>, name: string) {
    parts != [] && Joined(parts) == name && forall i :: 0 <= i < |parts| ==> NoSlash(parts[i])
  }

  lemma SlashEnds(rest: seq<string>, less: string)
    requires Splits(rest, less)
    ensures Splits(rest + [""], less + "/")
  {
    assert (rest + [""])[..|rest|] == rest;
    assert Joined(rest + [""]) == less + "/" + "";
  }

  lemma Appended(a: string, b: string, c: char)
    ensures a + "/" + (b + [c]) == a + "/" + b + [c]
  {
  }

  lemma LetterEnds(rest: seq<string>, less: string, c: char)
    requires Splits(rest, less) && c != '/'
    ensures Splits(rest[..|rest| - 1] + [rest[|rest| - 1] + [c]], less + [c])
  {
    var last := |rest| - 1;
    var longer := rest[..last] + [rest[last] + [c]];
    if last > 0 {
      assert longer[..last] == rest[..last];
      Appended(Joined(rest[..last]), rest[last], c);
    }
  }

  lemma PartsUnfold(less: string, c: char)
    requires Parts(less) != []
    ensures Parts(less + [c]) == if c == '/' then Parts(less) + [""] else Parts(less)[..|Parts(less)| - 1] + [Parts(less)[|Parts(less)| - 1] + [c]]
  {
    var name := less + [c];
    assert name[..|name| - 1] == less && name[|name| - 1] == c;
  }

  lemma SplitsNext(rest: seq<string>, less: string, c: char)
    requires Splits(rest, less)
    ensures Splits(if c == '/' then rest + [""] else rest[..|rest| - 1] + [rest[|rest| - 1] + [c]], less + [c])
  {
    if c == '/' {
      SlashEnds(rest, less);
      assert less + [c] == less + "/";
    } else {
      LetterEnds(rest, less, c);
    }
  }

  lemma PartsJoinNext(less: string, c: char)
    requires Splits(Parts(less), less)
    ensures Splits(Parts(less + [c]), less + [c])
  {
    SplitsNext(Parts(less), less, c);
    PartsUnfold(less, c);
  }

  lemma {:induction false} PartsJoinUpTo(name: string, n: nat)
    requires n <= |name|
    ensures Splits(Parts(name[..n]), name[..n])
  {
    if n > 0 {
      PartsJoinUpTo(name, n - 1);
      PartsJoinNext(name[..n - 1], name[n - 1]);
      assert name[..n] == name[..n - 1] + [name[n - 1]];
    }
  }

  lemma PartsJoin(name: string)
    ensures Splits(Parts(name), name)
  {
    PartsJoinUpTo(name, |name|);
    assert name[..|name|] == name;
  }

  lemma {:induction false} PartsAppend(head: string, tail: string)
    requires NoSlash(tail)
    ensures Parts(head + "/" + tail) == Parts(head) + [tail]
    decreases |tail|
  {
    var whole := head + "/" + tail;
    PartsJoin(head);
    if tail == "" {
      assert whole[..|whole| - 1] == head;
    } else {
      var less := tail[..|tail| - 1];
      PartsAppend(head, less);
      assert whole[..|whole| - 1] == head + "/" + less;
      assert less + [tail[|tail| - 1]] == tail;
    }
  }

  lemma {:induction false} SinglePart(name: string)
    requires NoSlash(name)
    ensures Parts(name) == [name]
    decreases |name|
  {
    if name != [] {
      SinglePart(name[..|name| - 1]);
      assert name[..|name| - 1] + [name[|name| - 1]] == name;
    }
  }

  lemma {:induction false} JoinedParts(parts: seq<string>)
    requires parts != [] && forall part :: part in parts ==> NoSlash(part)
    ensures Parts(Joined(parts)) == parts
    decreases |parts|
  {
    var last := |parts| - 1;
    if last == 0 {
      SinglePart(parts[0]);
      assert parts == [parts[0]];
    } else {
      JoinedParts(parts[..last]);
      PartsAppend(Joined(parts[..last]), parts[last]);
      assert parts[..last] + [parts[last]] == parts;
    }
  }

  lemma {:induction false} JoinedHolds(parts: seq<string>, c: char)
    requires parts != []
    ensures c in Joined(parts) <==> (exists i :: 0 <= i < |parts| && c in parts[i]) || (c == '/' && |parts| > 1)
    decreases |parts|
  {
    var last := |parts| - 1;
    if last > 0 {
      JoinedHolds(parts[..last], c);
      assert forall i :: 0 <= i < last ==> parts[..last][i] == parts[i];
    }
  }

  /** A plain part of a name: letters, digits, dots, underscores and hyphens, and not one that climbs. */
  predicate PlainPart(part: string) {
    && part != "" && part != "." && part != ".."
    && forall c :: c in part ==> 'a' <= c <= 'z' || 'A' <= c <= 'Z' || '0' <= c <= '9' || c == '.' || c == '_' || c == '-'
  }

  predicate NameOfParts(name: string, parts: seq<string>) {
    && parts != [] && Joined(parts) == name && (forall i :: 0 <= i < |parts| ==> PlainPart(parts[i]))
  }

  lemma SafePartIsPlain(name: string, i: nat)
    requires SafeEntry(name) && i < |Parts(name)|
    ensures PlainPart(Parts(name)[i])
  {
    var part := Parts(name)[i];
    PartsJoin(name);
    assert part in Parts(name) && NoSlash(part);
    forall c | c in part
      ensures c != '/' && NameChar(c)
    {
      JoinedHolds(Parts(name), c);
      var k :| 0 <= k < |name| && name[k] == c;
    }
  }

  lemma PlainPartsAreSafe(name: string, parts: seq<string>)
    requires NameOfParts(name, parts) && name != "" && Alphanumeric(name[0])
    ensures SafeEntry(name)
  {
    forall part | part in parts ensures NoSlash(part) && PlainPart(part) {}
    JoinedParts(parts);
    forall k | 0 <= k < |name| ensures NameChar(name[k]) {
      JoinedHolds(parts, name[k]);
    }
  }

  /** An entry name is safe exactly when it is plain parts joined by slashes and begins with a letter or digit. */
  lemma SafeNameMeans(name: string)
    ensures SafeEntry(name) <==>
              && (exists parts :: NameOfParts(name, parts))
              && name != "" && ('a' <= name[0] <= 'z' || 'A' <= name[0] <= 'Z' || '0' <= name[0] <= '9')
  {
    if SafeEntry(name) {
      PartsJoin(name);
      forall i | 0 <= i < |Parts(name)| ensures PlainPart(Parts(name)[i]) { SafePartIsPlain(name, i); }
      assert NameOfParts(name, Parts(name));
    }
    if name != "" && Alphanumeric(name[0]) && exists parts :: NameOfParts(name, parts) {
      var parts :| NameOfParts(name, parts);
      PlainPartsAreSafe(name, parts);
    }
  }

  // ---------------------------------------------------------------- sizes

  /** The bytes of the local records of these files. */
  function LocalBytes(c: Codec, files: seq<File>): nat {
    if files == [] then 0
    else
      var f := files[|files| - 1];
      LocalBytes(c, files[..|files| - 1]) + 30 + |f.name| + |c.deflate(f.content)|
  }

  /** The bytes of their central records. */
  function CentralBytes(files: seq<File>): nat {
    if files == [] then 0 else CentralBytes(files[..|files| - 1]) + 46 + |files[|files| - 1].name|
  }

  lemma {:induction false} LocalsMeasure(c: Codec, files: seq<File>, n: nat)
    requires n <= |files|
    ensures |Concat(LocalRecords(c, files)[..n])| == LocalBytes(c, files[..n])
  {
    if n > 0 {
      LocalsMeasure(c, files, n - 1);
      NextChunk(LocalRecords(c, files), n - 1);
      assert LocalRecords(c, files)[n - 1] == LocalRecord(c, files[n - 1]);
      assert files[..n][..n - 1] == files[..n - 1];
    }
  }

  lemma {:induction false} CentralsMeasure(c: Codec, files: seq<File>, n: nat)
    requires n <= |files|
    ensures |Concat(CentralRecords(c, files)[..n])| == CentralBytes(files[..n])
  {
    if n > 0 {
      CentralsMeasure(c, files, n - 1);
      NextChunk(CentralRecords(c, files), n - 1);
      assert CentralRecords(c, files)[n - 1] == CentralRecord(c, files[n - 1], Offset(c, files, n - 1));
      assert files[..n][..n - 1] == files[..n - 1];
    }
  }

  lemma WholeMeasure(c: Codec, files: seq<File>)
    ensures |Locals(c, files)| == LocalBytes(c, files) && |Centrals(c, files)| == CentralBytes(files)
  {
    LocalsMeasure(c, files, |files|);
    CentralsMeasure(c, files, |files|);
    assert LocalRecords(c, files)[..|files|] == LocalRecords(c, files) && CentralRecords(c, files)[..|files|] == CentralRecords(c, files);
    assert files[..|files|] == files;
  }

  /** What is demanded of one file. */
  predicate Admissible(c: Codec, f: File) {
    SafeEntry(f.name) && |f.name| <= 65535 && |f.content| <= 4294967295 && |c.deflate(f.content)| <= 4294967295
  }

  lemma OneFits(c: Codec, files: seq<File>, i: nat)
    requires i < |files| && |Locals(c, files)| <= 4294967295 && Admissible(c, files[i])
    ensures EntryFits(c, files, i)
  {
    ChunkFits(LocalRecords(c, files), i);
  }

  lemma {:induction false} AllFit(c: Codec, files: seq<File>, n: nat)
    requires n <= |files| && |Locals(c, files)| <= 4294967295 && forall i :: 0 <= i < n ==> Admissible(c, files[i])
    ensures FitUpTo(c, files, n)
  {
    if n > 0 {
      AllFit(c, files, n - 1);
      OneFits(c, files, n - 1);
    }
  }

  /** An archive is written exactly for at most 65,535 files of safe names whose sizes fit their fields, and together fit an offset. */
  lemma AcceptedIff(c: Codec, files: seq<File>)
    ensures Accepted(c, files) <==>
              && |files| <= 65535
              && (forall i :: 0 <= i < |files| ==> Admissible(c, files[i]))
              && LocalBytes(c, files) + CentralBytes(files) <= 4294967295
  {
    WholeMeasure(c, files);
    if EntriesFit(c, files) {
      forall i | 0 <= i < |files| ensures Admissible(c, files[i]) { EntryFitted(c, files, i, |files|); }
    }
    if LocalBytes(c, files) <= 4294967295 && forall i :: 0 <= i < |files| ==> Admissible(c, files[i]) { AllFit(c, files, |files|); }
  }

  // ---------------------------------------------------------------- the checksum

  lemma Clocked(r: bv32, m: bv32)
    ensures Clock(CRC32, r, CRC32.odd(m)) == if (r & 1) != (m & 1) then 0xedb88320 ^ (r >> 1) else r >> 1
    ensures CRC32.half(m) == m >> 1
  {
    assert (r & 1 == 1) != (m & 1 == 1) <==> (r & 1) != (m & 1);
  }

  lemma FedOnce(r: bv32, m: bv32, n: nat, s: bv32, k: bv32)
    requires n > 0 && s == (if (r & 1) != (m & 1) then 0xedb88320 ^ (r >> 1) else r >> 1) && k == m >> 1
    ensures Feed(CRC32, r, m, n) == Feed(CRC32, s, k, n - 1)
  {
    Clocked(r, m);
  }

  /** The published value for the one letter "a". */
  lemma ChecksumOfA()
    ensures BitwiseCrc([0x61]) == 0xe8b7be43
  {
    assert BitwiseRegister([]) == ONES && [0x61 as Byte][..0] == [];
    FedOnce(0xffffffff, 0x61, 8, 0x7fffffff, 0x30);
    FedOnce(0x7fffffff, 0x30, 7, 0xd2477cdf, 0x18);
    FedOnce(0xd2477cdf, 0x18, 6, 0x849b3d4f, 0xc);
    FedOnce(0x849b3d4f, 0xc, 5, 0xaff51d87, 0x6);
    FedOnce(0xaff51d87, 0x6, 4, 0xba420de3, 0x3);
    FedOnce(0xba420de3, 0x3, 3, 0x5d2106f1, 0x1);
    FedOnce(0x5d2106f1, 0x1, 2, 0x2e908378, 0x0);
    FedOnce(0x2e908378, 0x0, 1, 0x174841bc, 0x0);
    assert Feed(CRC32, ONES, 0x61, 8) == 0x174841bc;
  }

  // ---------------------------------------------------------------- the fixed fields

  /** Version 2.0, UTF-8 names, deflate, and midnight of 1980-01-01 (sections 4.4.3 to 4.4.6 of the APPNOTE). */
  predicate FixedFields(z: seq<U8>, p: nat) {
    && p + 10 <= |z|
    && U16At(z, p) == 20 && U16At(z, p + 2) == 0x800 && U16At(z, p + 4) == 8 && U16At(z, p + 6) == 0 && U16At(z, p + 8) == 1 + 32
  }

  lemma FixedStand(z: seq<U8>, p: nat)
    requires At(z, p, Le16(20) + Le16(0x800) + Le16(8) + Le16(0) + Le16(33))
    ensures FixedFields(z, p)
  {
    var s2 := Le16(20) + Le16(0x800);
    var s3 := s2 + Le16(8);
    var s4 := s3 + Le16(0);
    AtSplit(z, p, s4, Le16(33));
    AtSplit(z, p, s3, Le16(0));
    AtSplit(z, p, s2, Le16(8));
    AtSplit(z, p, Le16(20), Le16(0x800));
    Number16(z, p, 20);
    Number16(z, p + 2, 0x800);
    Number16(z, p + 4, 8);
    Number16(z, p + 6, 0);
    Number16(z, p + 8, 33);
  }

  lemma SharedBeginFixed(c: Codec, z: seq<U8>, p: nat, f: File)
    requires At(z, p, SharedFields(c, f))
    ensures FixedFields(z, p)
  {
    var s5 := Le16(20) + Le16(0x800) + Le16(8) + Le16(0) + Le16(33);
    var s6 := s5 + Le32(Checksum(f.content));
    var s7 := s6 + Le32(|c.deflate(f.content)|);
    var s8 := s7 + Le32(|f.content|);
    var s9 := s8 + Le16(|f.name|);
    AtSplit(z, p, s9, Le16(0));
    AtSplit(z, p, s8, Le16(|f.name|));
    AtSplit(z, p, s7, Le32(|f.content|));
    AtSplit(z, p, s6, Le32(|c.deflate(f.content)|));
    AtSplit(z, p, s5, Le32(Checksum(f.content)));
    FixedStand(z, p);
  }

  lemma CentralBeginsFixed(c: Codec, z: seq<U8>, p: nat, f: File, offset: nat)
    requires At(z, p, CentralHeader(c, f, offset))
    ensures p + 6 <= |z| && U16At(z, p + 4) == 20 && FixedFields(z, p + 6)
    ensures At(z, p + 32, Le16(0) + Le16(0) + Le16(0) + Le32(0))
  {
    var s1 := Le32(0x02014b50) + Le16(20);
    var s2 := s1 + SharedFields(c, f);
    var mid := Le16(0) + Le16(0) + Le16(0) + Le32(0);
    assert CentralHeader(c, f, offset) == (s2 + mid) + Le32(offset);
    AtSplit(z, p, s2 + mid, Le32(offset));
    AtSplit(z, p, s2, mid);
    AtSplit(z, p, s1, SharedFields(c, f));
    AtSplit(z, p, Le32(0x02014b50), Le16(20));
    Number16(z, p + 4, 20);
    SharedBeginFixed(c, z, p + 6, f);
  }

  lemma LocalIsFixed(c: Codec, files: seq<File>, i: nat, z: seq<U8>, o: nat)
    requires i < |files| && At(z, 0, Locals(c, files)) && o == Offset(c, files, i)
    ensures FixedFields(z, o + 4)
  {
    ChunkStands(z, 0, LocalRecords(c, files), i, o);
    RecordParts(c, z, files[i], o);
    AtSplit(z, o, Le32(0x04034b50), SharedFields(c, files[i]));
    SharedBeginFixed(c, z, o + 4, files[i]);
  }

  lemma ZerosStand(z: seq<U8>, p: nat)
    requires At(z, p, Le16(0) + Le16(0) + Le16(0) + Le32(0))
    ensures p + 10 <= |z| && forall k :: p <= k < p + 10 ==> z[k] == 0
  {
    var zeros := Le16(0) + Le16(0) + Le16(0) + Le32(0);
    assert zeros == [0, 0, 0, 0, 0, 0, 0, 0, 0, 0];
    forall k | p <= k < p + 10 ensures z[k] == 0 { assert z[k] == z[p..p + 10][k - p]; }
  }

  /** A central header: version 2.0 twice, the fixed fields, and ten zero bytes for comment length, disk and attributes. */
  predicate FixedCentral(z: seq<U8>, p: nat) {
    && p + 42 <= |z| && U16At(z, p + 4) == 20 && FixedFields(z, p + 6)
    && forall k :: p + 32 <= k < p + 42 ==> z[k] == 0
  }

  lemma CentralIsFixed(c: Codec, files: seq<File>, i: nat, z: seq<U8>, p: nat)
    requires i < |files| && At(z, |Locals(c, files)|, Centrals(c, files)) && p == Start(c, files, i)
    ensures FixedCentral(z, p)
  {
    var o := Offset(c, files, i);
    RecordStands(c, z, files, i, p, o);
    CentralParts(c, z, p, files[i], o);
    CentralBeginsFixed(c, z, p, files[i], o);
    ZerosStand(z, p + 32);
  }

  /**
   Every local and every central header of an archive carries the same fixed version, flags, method and time stamp,
   and a central header no disk number, attributes or comment: nothing of the machine or the moment it was made on.
   */
  lemma HeadersAreFixed(c: Codec, files: seq<File>, i: nat, z: seq<U8>)
    requires i < |files| && z == Archive(c, files)
    ensures FixedFields(z, Offset(c, files, i) + 4)
    ensures FixedCentral(z, Start(c, files, i))
  {
    ArchiveParts(c, files, z);
    LocalIsFixed(c, files, i, z, Offset(c, files, i));
    CentralIsFixed(c, files, i, z, Start(c, files, i));
  }
}

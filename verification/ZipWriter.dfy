/**
 `submissionZip` as it runs: header buffers filled in place, chunks pushed to two lists, two running
 totals, proved to write the archive of ZipFormat or to refuse exactly what it does not accept.
 */
module ZipWriter {
  import opened Options
  import opened Sorting
  import opened ZipFormat
  import Crc

  predicate ZeroFrom(buffer: array<U8>, at: nat)
    reads buffer
  {
    forall k :: at <= k < buffer.Length ==> buffer[k] == 0
  }

  /** writeUInt16LE, right after what is already written */
  method Write16(buffer: array<U8>, n: nat, at: nat)
    requires at + 2 <= buffer.Length && n <= MAX16 && ZeroFrom(buffer, at)
    modifies buffer
    ensures buffer[..at + 2] == old(buffer[..at]) + Le16(n) && ZeroFrom(buffer, at + 2)
  {
    buffer[at] := n % 256;
    buffer[at + 1] := n / 256 % 256;
  }

  method Write32(buffer: array<U8>, n: nat, at: nat)
    requires at + 4 <= buffer.Length && n <= MAX32 && ZeroFrom(buffer, at)
    modifies buffer
    ensures buffer[..at + 4] == old(buffer[..at]) + Le32(n) && ZeroFrom(buffer, at + 4)
  {
    buffer[at] := n % 256;
    buffer[at + 1] := n / 256 % 256;
    buffer[at + 2] := n / 65536 % 256;
    buffer[at + 3] := n / 16777216 % 256;
  }

  /** header.copy(entry, at, from, from + count) */
  method CopyInto(entry: array<U8>, header: array<U8>, from: nat, count: nat, at: nat)
    requires entry != header && from + count <= header.Length && at + count <= entry.Length && ZeroFrom(entry, at)
    modifies entry
    ensures entry[..at + count] == old(entry[..at]) + header[from..from + count] && ZeroFrom(entry, at + count)
  {
    for k := 0 to count
      invariant entry[..at + k] == old(entry[..at]) + header[from..from + k] && ZeroFrom(entry, at + k)
    {
      entry[at + k] := header[from + k];
      assert entry[..at + k + 1] == entry[..at + k] + [header[from + k]];
      assert header[from..from + k + 1] == header[from..from + k] + [header[from + k]];
    }
  }

  /** A field left as allocated is zero. */
  lemma ZeroField(buffer: array<U8>, at: nat)
    requires at + 2 <= buffer.Length && ZeroFrom(buffer, at)
    ensures buffer[..at + 2] == buffer[..at] + Le16(0)
  {
    assert buffer[at] == 0 && buffer[at + 1] == 0;
  }

  lemma Assoc(a: seq<U8>, b: seq<U8>, c: seq<U8>)
    ensures (a + b) + c == a + (b + c)
  {
  }

  /** The version, the flags, the method and the fixed time stamp. */
  method FillFixed(header: array<U8>)
    requires header.Length == 30 && header[..4] == Le32(0x04034b50) && ZeroFrom(header, 4)
    modifies header
    ensures header[..14] == Le32(0x04034b50) + (Le16(20) + Le16(0x800) + Le16(8) + Le16(0) + Le16(33)) && ZeroFrom(header, 14)
  {
    var sig := Le32(0x04034b50);
    Write16(header, 20, 4);
    Write16(header, 0x800, 6);
    Assoc(sig, Le16(20), Le16(0x800));
    Write16(header, 8, 8);
    Assoc(sig, Le16(20) + Le16(0x800), Le16(8));
    ZeroField(header, 10);
    Assoc(sig, Le16(20) + Le16(0x800) + Le16(8), Le16(0));
    Write16(header, 33, 12);
    Assoc(sig, Le16(20) + Le16(0x800) + Le16(8) + Le16(0), Le16(33));
  }

  /** The checksum, the sizes and the length of the name. */
  method FillSizes(header: array<U8>, checksum: nat, compressed: nat, size: nat, name: nat, ghost fixed: seq<U8>)
    requires header.Length == 30 && header[..14] == Le32(0x04034b50) + fixed && ZeroFrom(header, 14)
    requires checksum <= MAX32 && compressed <= MAX32 && size <= MAX32 && name <= MAX16
    modifies header
    ensures header[..30] == Le32(0x04034b50) + (fixed + Le32(checksum) + Le32(compressed) + Le32(size) + Le16(name) + Le16(0))
  {
    ghost var sig := Le32(0x04034b50);
    Write32(header, checksum, 14);
    Assoc(sig, fixed, Le32(checksum));
    Write32(header, compressed, 18);
    Assoc(sig, fixed + Le32(checksum), Le32(compressed));
    Write32(header, size, 22);
    Assoc(sig, fixed + Le32(checksum) + Le32(compressed), Le32(size));
    Write16(header, name, 26);
    Assoc(sig, fixed + Le32(checksum) + Le32(compressed) + Le32(size), Le16(name));
    ZeroField(header, 28);
    Assoc(sig, fixed + Le32(checksum) + Le32(compressed) + Le32(size) + Le16(name), Le16(0));
  }

  method FillLocal(c: Codec, f: File, checksum: nat, compressed: nat) returns (header: array<U8>)
    requires |f.content| <= MAX32 && compressed <= MAX32 && |f.name| <= MAX16
    requires checksum == Checksum(f.content) && compressed == |c.deflate(f.content)|
    ensures fresh(header) && header.Length == 30 && header[..] == LocalHeader(c, f)
  {
    header := new U8[30](_ => 0);
    assert header[..0] == [];
    Write32(header, 0x04034b50, 0);
    assert [] + Le32(0x04034b50) == Le32(0x04034b50);
    FillFixed(header);
    FillSizes(header, checksum, compressed, |f.content|, |f.name|, Le16(20) + Le16(0x800) + Le16(8) + Le16(0) + Le16(33));
    assert header[..] == header[..30];
  }

  /** The comment length, disk number and attributes stay zero; then the offset. */
  method FillOffset(entry: array<U8>, offset: nat)
    requires entry.Length == 46 && offset <= MAX32 && ZeroFrom(entry, 32)
    modifies entry
    ensures entry[..] == old(entry[..32]) + Le16(0) + Le16(0) + Le16(0) + Le32(0) + Le32(offset)
  {
    ZeroField(entry, 32);
    ZeroField(entry, 34);
    ZeroField(entry, 36);
    assert entry[..42] == entry[..38] + Le32(0);
    Write32(entry, offset, 42);
    assert entry[..] == entry[..46];
  }

  method FillCentral(c: Codec, f: File, header: array<U8>, offset: nat) returns (entry: array<U8>)
    requires header.Length == 30 && header[..] == LocalHeader(c, f) && offset <= MAX32
    ensures fresh(entry) && entry.Length == 46 && entry[..] == CentralHeader(c, f, offset)
  {
    entry := new U8[46](_ => 0);
    assert entry[..0] == [];
    Write32(entry, 0x02014b50, 0);
    assert [] + Le32(0x02014b50) == Le32(0x02014b50);
    Write16(entry, 20, 4);
    CopyInto(entry, header, 4, 26, 6);
    assert header[4..30] == header[..][4..] == SharedFields(c, f);
    FillOffset(entry, offset);
  }

  method FillEnd(count: nat, size: nat, offset: nat) returns (end: array<U8>)
    requires count <= MAX16 && size <= MAX32 && offset <= MAX32
    ensures fresh(end) && end.Length == 22 && end[..] == EndRecord(count, size, offset)
  {
    end := new U8[22](_ => 0);
    assert end[..0] == [];
    Write32(end, 0x06054b50, 0);
    assert [] + Le32(0x06054b50) == Le32(0x06054b50);
    ZeroField(end, 4);
    ZeroField(end, 6);
    Write16(end, count, 8);
    Write16(end, count, 10);
    Write32(end, size, 12);
    Write32(end, offset, 16);
    ZeroField(end, 20);
    assert end[..] == end[..22];
  }

  /** crc32(bytes) */
  method ChecksumOf(table: array<bv32>, content: seq<U8>) returns (checksum: nat)
    requires Crc.IsTable(table)
    ensures checksum == Checksum(content)
  {
    var bits := Crc.Crc32(table, seq(|content|, i requires 0 <= i < |content| => content[i] as bv8));
    checksum := bits as nat;
  }

  /** One entry: its local record and its central record. */
  method WriteEntry(c: Codec, table: array<bv32>, f: File, offset: nat) returns (local: seq<U8>, central: seq<U8>)
    requires Crc.IsTable(table) && Fits(c, f, offset)
    ensures local == LocalRecord(c, f) && central == CentralRecord(c, f, offset)
  {
    var compressed := c.deflate(f.content);
    var checksum := ChecksumOf(table, f.content);
    var header := FillLocal(c, f, checksum, |compressed|);
    local := header[..] + Encode(f.name) + compressed;
    var entry := FillCentral(c, f, header, offset);
    central := entry[..] + Encode(f.name);
  }

  lemma NextConcat<T>(chunks: seq<seq<T>>, i: nat)
    requires i < |chunks|
    ensures Concat(chunks[..i + 1]) == Concat(chunks[..i]) + chunks[i]
  {
    assert chunks[..i + 1][..i] == chunks[..i];
  }

  lemma ChunksAre(c: Codec, sorted: seq<File>, i: nat)
    requires i < |sorted|
    ensures LocalRecords(c, sorted)[i] == LocalRecord(c, sorted[i])
    ensures CentralRecords(c, sorted)[i] == CentralRecord(c, sorted[i], Offset(c, sorted, i))
  {
  }

  /** The chunks of entry i, pushed. */
  method PushEntry(c: Codec, table: array<bv32>, sorted: seq<File>, i: nat, local: seq<U8>, central: seq<U8>)
    returns (longer: seq<U8>, larger: seq<U8>)
    requires Crc.IsTable(table) && i < |sorted| && Fits(c, sorted[i], |local|)
    requires local == Concat(LocalRecords(c, sorted)[..i]) && central == Concat(CentralRecords(c, sorted)[..i])
    ensures longer == Concat(LocalRecords(c, sorted)[..i + 1]) && larger == Concat(CentralRecords(c, sorted)[..i + 1])
  {
    var record, entry := WriteEntry(c, table, sorted[i], |local|);
    ChunksAre(c, sorted, i);
    NextConcat(LocalRecords(c, sorted), i);
    NextConcat(CentralRecords(c, sorted), i);
    longer, larger := local + record, central + entry;
  }

  lemma {:induction false} MisfitStays(c: Codec, files: seq<File>, i: nat, n: nat)
    requires i < n <= |files| && !EntryFits(c, files, i)
    ensures !FitUpTo(c, files, n)
    decreases n
  {
    if i < n - 1 { MisfitStays(c, files, i, n - 1); }
  }

  method WriteEntries(c: Codec, table: array<bv32>, sorted: seq<File>)
    returns (fits: bool, local: seq<U8>, central: seq<U8>, offset: nat, centralSize: nat)
    requires Crc.IsTable(table)
    ensures fits == EntriesFit(c, sorted)
    ensures fits ==> local == Locals(c, sorted) && central == Centrals(c, sorted) && offset == |local| && centralSize == |central|
  {
    local, central, offset, centralSize := [], [], 0, 0;
    ghost var locals, centrals := LocalRecords(c, sorted), CentralRecords(c, sorted);
    for i := 0 to |sorted|
      invariant local == Concat(locals[..i]) && central == Concat(centrals[..i]) && offset == |local| && centralSize == |central|
      invariant FitUpTo(c, sorted, i)
    {
      var safe := SafeEntry(sorted[i].name) && Fits(c, sorted[i], offset);
      assert safe == EntryFits(c, sorted, i);
      if !safe {
        MisfitStays(c, sorted, i, |sorted|);
        return false, [], [], 0, 0;
      }
      local, central := PushEntry(c, table, sorted, i, local, central);
      offset, centralSize := |local|, |central|;
    }
    assert locals[..|sorted|] == locals && centrals[..|sorted|] == centrals;
    fits := true;
  }

  /** The writer refuses exactly what the format's limits and the name check do not accept. */
  method SubmissionZip(c: Codec, table: array<bv32>, files: seq<File>) returns (archive: Option<seq<U8>>)
    requires Crc.IsTable(table)
    ensures archive == if Accepted(c, Sort(files)) then Some(Archive(c, Sort(files))) else None
  {
    SortKeepsLength(files, NameOf);
    if |files| > MAX16 { return None; }
    var fits, local, central, offset, centralSize := WriteEntries(c, table, Sort(files));
    if !fits || offset + centralSize > MAX32 { return None; }
    var end := FillEnd(|files|, centralSize, offset);
    archive := Some(local + central + end[..]);
  }
}

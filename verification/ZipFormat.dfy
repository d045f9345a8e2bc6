/**
 The archives of bin/package-agensi.js, and a reader for them: conventional ZIP as sections 4.3.7, 4.3.12
 and 4.3.16 of the PKWARE APPNOTE lay it out.  The reader is strict: a count or size that is all ones
 announces ZIP64 records (section 4.4.1.4), which conventional archives do not have, so it refuses them.
 Deflate and inflate are any pair of functions of which the second undoes the first.
 */
module ZipFormat {
  import opened Options
  import opened Sorting
  import Crc

  type U8 = x: int | 0 <= x < 256

  const MAX16 := 0xffff
  const MAX32 := 0xffff_ffff

  datatype File = File(name: string, content: seq<U8>)

  datatype Codec = Codec(deflate: seq<U8> -> seq<U8>, inflate: seq<U8> -> Option<seq<U8>>)

  ghost predicate Inverse(c: Codec) {
    forall b :: c.inflate(c.deflate(b)) == Some(b)
  }

  function Checksum(content: seq<U8>): (n: nat)
    ensures n <= MAX32
  {
    Crc.BitwiseCrc(seq(|content|, i requires 0 <= i < |content| => content[i] as bv8)) as nat
  }

  // ---------------------------------------------------------------- numbers

  function Le16(n: nat): (s: seq<U8>)
    ensures |s| == 2
  {
    [n % 256, n / 256 % 256]
  }

  function Le32(n: nat): (s: seq<U8>)
    ensures |s| == 4
  {
    [n % 256, n / 256 % 256, n / 65536 % 256, n / 16777216 % 256]
  }

  function U16At(z: seq<U8>, p: nat): nat
    requires p + 2 <= |z|
  {
    z[p] as int + 256 * z[p + 1] as int
  }

  function U32At(z: seq<U8>, p: nat): nat
    requires p + 4 <= |z|
  {
    z[p] as int + 256 * z[p + 1] as int + 65536 * z[p + 2] as int + 16777216 * z[p + 3] as int
  }

  // ---------------------------------------------------------------- names

  predicate Alphanumeric(c: char) { 'a' <= c <= 'z' || 'A' <= c <= 'Z' || '0' <= c <= '9' }

  predicate NameChar(c: char) { Alphanumeric(c) || c == '.' || c == '_' || c == '/' || c == '-' }

  /** name.split("/") */
  function Parts(name: string): seq<string> {
    if name == [] then [""]
    else
      var rest := Parts(name[..|name| - 1]);
      if name[|name| - 1] == '/' then rest + [""]
      else if rest == [] then [] else rest[..|rest| - 1] + [rest[|rest| - 1] + [name[|name| - 1]]]
  }

  predicate SafeEntry(name: string) {
    && name != [] && Alphanumeric(name[0]) && (forall i :: 0 <= i < |name| ==> NameChar(name[i]))
    && (forall part :: part in Parts(name) ==> part != "" && part != "." && part != "..")
  }

  /** UTF-8 of a name that passed the check, which is ASCII. */
  function Encode(name: string): (s: seq<U8>)
    ensures |s| == |name|
  {
    seq(|name|, i requires 0 <= i < |name| => name[i] as int % 256)
  }

  // ---------------------------------------------------------------- records

  /** The 26 bytes that a local and a central header share. */
  function SharedFields(c: Codec, f: File): (s: seq<U8>)
    ensures |s| == 26
  {
    Le16(20) + Le16(0x800) + Le16(8) + Le16(0) + Le16(33) + Le32(Checksum(f.content)) + Le32(|c.deflate(f.content)|) + Le32(|f.content|)
    + Le16(|f.name|) + Le16(0)
  }

  function LocalHeader(c: Codec, f: File): (s: seq<U8>)
    ensures |s| == 30
  {
    Le32(0x04034b50) + SharedFields(c, f)
  }

  function LocalRecord(c: Codec, f: File): seq<U8> {
    LocalHeader(c, f) + Encode(f.name) + c.deflate(f.content)
  }

  function CentralHeader(c: Codec, f: File, offset: nat): (s: seq<U8>)
    ensures |s| == 46
  {
    Le32(0x02014b50) + Le16(20) + SharedFields(c, f) + Le16(0) + Le16(0) + Le16(0) + Le32(0) + Le32(offset)
  }

  function CentralRecord(c: Codec, f: File, offset: nat): (s: seq<U8>)
    ensures |s| == 46 + |f.name|
  {
    CentralHeader(c, f, offset) + Encode(f.name)
  }

  function Concat<T>(chunks: seq<seq<T>>): seq<T> {
    if chunks == [] then [] else Concat(chunks[..|chunks| - 1]) + chunks[|chunks| - 1]
  }

  function LocalRecords(c: Codec, files: seq<File>): (s: seq<seq<U8>>)
    ensures |s| == |files|
  {
    seq(|files|, i requires 0 <= i < |files| => LocalRecord(c, files[i]))
  }

  /** Where the local record of entry i begins. */
  function Offset(c: Codec, files: seq<File>, i: nat): nat
    requires i <= |files|
  {
    |Concat(LocalRecords(c, files)[..i])|
  }

  function CentralRecords(c: Codec, files: seq<File>): (s: seq<seq<U8>>)
    ensures |s| == |files|
  {
    seq(|files|, i requires 0 <= i < |files| => CentralRecord(c, files[i], Offset(c, files, i)))
  }

  function Locals(c: Codec, files: seq<File>): seq<U8> { Concat(LocalRecords(c, files)) }

  function Centrals(c: Codec, files: seq<File>): seq<U8> { Concat(CentralRecords(c, files)) }

  function EndRecord(count: nat, size: nat, offset: nat): (s: seq<U8>)
    ensures |s| == 22
  {
    Le32(0x06054b50) + Le16(0) + Le16(0) + Le16(count) + Le16(count) + Le32(size) + Le32(offset) + Le16(0)
  }

  // ---------------------------------------------------------------- writing

  predicate Fits(c: Codec, f: File, offset: nat) {
    |f.name| <= MAX16 && |f.content| <= MAX32 && |c.deflate(f.content)| <= MAX32 && offset <= MAX32
  }

  /** The limits and checks, entry by entry. */
  predicate EntriesFit(c: Codec, files: seq<File>) {
    FitUpTo(c, files, |files|)
  }

  predicate FitUpTo(c: Codec, files: seq<File>, n: nat)
    requires n <= |files|
  {
    n == 0 || (FitUpTo(c, files, n - 1) && EntryFits(c, files, n - 1))
  }

  predicate EntryFits(c: Codec, files: seq<File>, i: nat)
    requires i < |files|
  {
    SafeEntry(files[i].name) && Fits(c, files[i], Offset(c, files, i))
  }

  predicate Accepted(c: Codec, files: seq<File>) {
    |files| <= MAX16 && EntriesFit(c, files) && |Locals(c, files)| + |Centrals(c, files)| <= MAX32
  }

  function Archive(c: Codec, files: seq<File>): seq<U8> {
    Locals(c, files) + Centrals(c, files) + EndRecord(|files|, |Centrals(c, files)|, |Locals(c, files)|)
  }

  function NameOf(f: File): string { f.name }

  /** sort by name */
  function Sort(files: seq<File>): seq<File> { SortBy(files, NameOf) }

  // ---------------------------------------------------------------- reading

  datatype Recovered = Recovered(name: seq<U8>, content: seq<U8>, checksum: nat, compressed: nat, offset: nat)

  /** What a central header says of its file. */
  datatype Directory = Directory(checksum: nat, compressed: nat, size: nat, name: seq<U8>, offset: nat)

  /** The local header must say the same, and the data must inflate to what both say. */
  function ReadLocal(c: Codec, z: seq<U8>, d: Directory): Option<Recovered> {
    var o := d.offset;
    if o + 30 > |z| || U32At(z, o) != 0x04034b50 || U16At(z, o + 8) != 8 then None
    else if U32At(z, o + 14) != d.checksum || U32At(z, o + 18) != d.compressed || U32At(z, o + 22) != d.size then None
    else
      var name := o + 30;
      var data := name + U16At(z, o + 26) + U16At(z, o + 28);
      if data + d.compressed > |z| || z[name..name + U16At(z, o + 26)] != d.name then None
      else
        var content := c.inflate(z[data..data + d.compressed]);
        if content.None? || |content.value| != d.size || Checksum(content.value) != d.checksum then None
        else Some(Recovered(d.name, content.value, d.checksum, d.compressed, o))
  }

  /** One central header, and where the next one is. */
  function ReadDirectory(z: seq<U8>, p: nat): Option<(Directory, nat)> {
    if p + 46 > |z| || U32At(z, p) != 0x02014b50 || U16At(z, p + 10) != 8 then None
    else if U32At(z, p + 20) == MAX32 || U32At(z, p + 24) == MAX32 || U32At(z, p + 42) == MAX32 then None
    else
      var end := p + 46 + U16At(z, p + 28);
      var next := end + U16At(z, p + 30) + U16At(z, p + 32);
      if next > |z| then None
      else Some((Directory(U32At(z, p + 16), U32At(z, p + 20), U32At(z, p + 24), z[p + 46..end], U32At(z, p + 42)), next))
  }

  function ReadEntries(c: Codec, z: seq<U8>, p: nat, n: nat): Option<seq<Recovered>>
    decreases n
  {
    if n == 0 then Some([])
    else
      var entry := ReadDirectory(z, p);
      if entry.None? then None
      else
        var file := ReadLocal(c, z, entry.value.0);
        var rest := ReadEntries(c, z, entry.value.1, n - 1);
        if file.None? || rest.None? then None else Some([file.value] + rest.value)
  }

  /** From the end record to the central directory to each local header. */
  function Read(c: Codec, z: seq<U8>): Option<seq<Recovered>> {
    if |z| < 22 then None
    else
      var e := |z| - 22;
      var count, size, offset := U16At(z, e + 10), U32At(z, e + 12), U32At(z, e + 16);
      if U32At(z, e) != 0x06054b50 || U16At(z, e + 8) != count || U16At(z, e + 20) != 0 then None
      else if count == MAX16 || size == MAX32 || offset == MAX32 || offset + size != e then None
      else ReadEntries(c, z, offset, count)
  }
}

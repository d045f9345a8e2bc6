/**
 The checksum of bin/package-agensi.js: a table of 256 eight-step shifts and one look-up per byte,
 against CRC-32 (section 4.4.7 of the PKWARE APPNOTE, section 8 of RFC 1952) computed one message bit
 at a time.
 */
module Crc {
  import opened ShiftRegisters

  type Byte = bv8

  const ONES: bv32 := 0xffffffff

  function Xor(a: bv32, b: bv32): bv32 { a ^ b }
  function Half(a: bv32): bv32 { a >> 1 }
  predicate Odd(a: bv32) { a & 1 == 1 }

  const CRC32 := Words(Xor, Odd, Half, 0, 0xedb88320)

  // ---------------------------------------------------------------- the two checksums

  /** The register after these bytes, a bit at a time, each byte's lowest bit first. */
  function BitwiseRegister(bytes: seq<Byte>): bv32 {
    if bytes == [] then ONES else Feed(CRC32, BitwiseRegister(bytes[..|bytes| - 1]), bytes[|bytes| - 1] as bv32, 8)
  }

  function BitwiseCrc(bytes: seq<Byte>): bv32 {
    BitwiseRegister(bytes) ^ ONES
  }

  function LowByte(x: bv32): bv32 { x & 0xff }
  function HighBytes(x: bv32): bv32 { x & 0xffffff00 }

  /** One look-up. */
  function Update(value: bv32, b: Byte): bv32 {
    Xor(Shifts(CRC32, LowByte(Xor(value, b as bv32)), 8), value >> 8)
  }

  // ---------------------------------------------------------------- bit-vector facts, one to a lemma

  lemma XorAssociates(x: bv32, y: bv32, z: bv32)
    ensures Xor(Xor(x, y), z) == Xor(x, Xor(y, z))
  {
  }

  lemma XorCommutes(x: bv32, y: bv32)
    ensures Xor(x, y) == Xor(y, x)
  {
  }

  lemma XorCancels(x: bv32)
    ensures Xor(x, x) == 0
    ensures Xor(0, x) == x
  {
  }

  lemma OddXor(x: bv32, y: bv32)
    ensures Odd(Xor(x, y)) == (Odd(x) != Odd(y))
  {
  }

  lemma HalfXor(x: bv32, y: bv32)
    ensures Half(Xor(x, y)) == Xor(Half(x), Half(y))
  {
  }

  lemma Crc32Associates()
    ensures Associates(CRC32)
  {
    forall x, y, z ensures CRC32.xor(CRC32.xor(x, y), z) == CRC32.xor(x, CRC32.xor(y, z)) { XorAssociates(x, y, z); }
  }

  lemma Crc32Commutes()
    ensures Commutes(CRC32)
  {
    forall x, y ensures CRC32.xor(x, y) == CRC32.xor(y, x) { XorCommutes(x, y); }
  }

  lemma Crc32HasZero()
    ensures Cancels(CRC32) && HasZero(CRC32)
  {
    forall x ensures CRC32.xor(x, x) == CRC32.zero && CRC32.xor(CRC32.zero, x) == x { XorCancels(x); }
  }

  lemma Crc32OddAdds()
    ensures OddAdds(CRC32)
  {
    forall x, y ensures CRC32.odd(CRC32.xor(x, y)) == (CRC32.odd(x) != CRC32.odd(y)) { OddXor(x, y); }
  }

  lemma Crc32HalfAdds()
    ensures HalfAdds(CRC32)
  {
    forall x, y ensures CRC32.half(CRC32.xor(x, y)) == CRC32.xor(CRC32.half(x), CRC32.half(y)) { HalfXor(x, y); }
  }

  lemma Crc32IsLawful()
    ensures Lawful(CRC32)
  {
    Crc32Associates();
    Crc32Commutes();
    Crc32HasZero();
    Crc32OddAdds();
    Crc32HalfAdds();
  }

  function Half8(x: bv32): bv32 { Half(Half(Half(Half(Half(Half(Half(Half(x)))))))) }

  lemma ByteRunsOut(b: Byte)
    ensures Halves(CRC32, b as bv32, 8) == 0
  {
    EightHalves(CRC32, b as bv32);
    assert Half8(b as bv32) == 0;
  }

  lemma LowAndHigh(x: bv32)
    ensures Xor(LowByte(x), HighBytes(x)) == x
  {
  }

  predicate EightClear(x: bv32) {
    && !Odd(x) && !Odd(Half(x)) && !Odd(Half(Half(x))) && !Odd(Half(Half(Half(x)))) && !Odd(Half(Half(Half(Half(x)))))
    && !Odd(Half(Half(Half(Half(Half(x)))))) && !Odd(Half(Half(Half(Half(Half(Half(x))))))) && !Odd(Half(Half(Half(Half(Half(Half(Half(x))))))))
  }

  lemma HighIsEightClear(x: bv32)
    ensures EightClear(HighBytes(x))
  {
  }

  lemma EightClearIsClear(x: bv32)
    requires EightClear(x)
    ensures LowBitsClear(CRC32, x, 8)
  {
    var h := Half(Half(Half(Half(x))));
    assert LowBitsClear(CRC32, Half(Half(Half(Half(h)))), 0);
    assert LowBitsClear(CRC32, Half(Half(Half(h))), 1);
    assert LowBitsClear(CRC32, Half(Half(h)), 2);
    assert LowBitsClear(CRC32, Half(h), 3);
    assert LowBitsClear(CRC32, h, 4);
    assert LowBitsClear(CRC32, Half(Half(Half(x))), 5);
    assert LowBitsClear(CRC32, Half(Half(x)), 6);
    assert LowBitsClear(CRC32, Half(x), 7);
  }

  lemma HighIsClear(x: bv32)
    ensures LowBitsClear(CRC32, HighBytes(x), 8)
  {
    HighIsEightClear(x);
    EightClearIsClear(HighBytes(x));
  }

  lemma HighMoves(v: bv32, b: Byte)
    ensures Halves(CRC32, HighBytes(Xor(v, b as bv32)), 8) == v >> 8
  {
    EightHalves(CRC32, HighBytes(Xor(v, b as bv32)));
    HighHalves(v, b);
  }

  lemma HighHalves(v: bv32, b: Byte)
    ensures Half8(HighBytes(Xor(v, b as bv32))) == v >> 8
  {
  }

  lemma StepToZero(x: bv32)
    ensures Shift(CRC32, x) == 0 ==> x == 0
  {
  }

  // ---------------------------------------------------------------- one look-up, and all of them

  lemma UpdateFeeds(value: bv32, b: Byte)
    ensures Update(value, b) == Feed(CRC32, value, b as bv32, 8)
  {
    var x := Xor(value, b as bv32);
    Crc32IsLawful();
    LowAndHigh(x);
    HighIsClear(x);
    HighMoves(value, b);
    ByteRunsOut(b);
    LookUpFeeds(CRC32, value, b as bv32, LowByte(x), HighBytes(x), 8);
  }

  ghost predicate IsTable(table: array<bv32>)
    reads table
  {
    table.Length == 256 && forall i :: 0 <= i < 256 ==> table[i] == Shifts(CRC32, i as bv32, 8)
  }

  method BuildTable() returns (table: array<bv32>)
    ensures fresh(table) && IsTable(table)
  {
    table := new bv32[256];
    for index := 0 to 256
      invariant forall i :: 0 <= i < index ==> table[i] == Shifts(CRC32, i as bv32, 8)
    {
      var value := TableEntry(index as bv32, 8);
      table[index] := value;
    }
  }

  method TableEntry(index: bv32, steps: nat) returns (value: bv32)
    ensures value == Shifts(CRC32, index, steps)
  {
    value := index;
    for bit := 0 to steps
      invariant Shifts(CRC32, index, steps) == Shifts(CRC32, value, steps - bit)
    {
      value := if value & 1 == 1 then 0xedb88320 ^ (value >> 1) else value >> 1;
    }
  }

  lemma IndexFits(x: bv32)
    ensures LowByte(x) as int < 256 && (LowByte(x) as int) as bv32 == LowByte(x)
  {
  }

  method LookUp(table: array<bv32>, value: bv32, b: Byte) returns (next: bv32)
    requires IsTable(table)
    ensures next == Feed(CRC32, value, b as bv32, 8)
  {
    var index := LowByte(Xor(value, b as bv32));
    IndexFits(Xor(value, b as bv32));
    UpdateFeeds(value, b);
    next := Xor(table[index as int], value >> 8);
  }

  /** The table-driven checksum is CRC-32. */
  method Crc32(table: array<bv32>, bytes: seq<Byte>) returns (checksum: bv32)
    requires IsTable(table)
    ensures checksum == BitwiseCrc(bytes)
  {
    var value := ONES;
    for i := 0 to |bytes|
      invariant value == BitwiseRegister(bytes[..i])
    {
      assert bytes[..i + 1][..i] == bytes[..i];
      value := LookUp(table, value, bytes[i]);
    }
    assert bytes[..|bytes|] == bytes;
    checksum := value ^ ONES;
  }

  // ---------------------------------------------------------------- what the checksum detects

  lemma Crc32IsReversible()
    ensures Reversible(CRC32)
  {
    forall x ensures Shift(CRC32, x) == CRC32.zero ==> x == CRC32.zero { StepToZero(x); }
  }

  lemma BytesTellApart(m: Byte, n: Byte)
    ensures m as bv32 == n as bv32 ==> m == n
  {
  }

  lemma FeedsStayApart(r: bv32, s: bv32, m: Byte, n: Byte)
    requires (r == s && m != n) || (r != s && m == n)
    ensures Feed(CRC32, r, m as bv32, 8) != Feed(CRC32, s, n as bv32, 8)
  {
    ByteRunsOut(m);
    ByteRunsOut(n);
    Crc32IsLawful();
    Crc32IsReversible();
    BytesTellApart(m, n);
    OneDifferenceStays(CRC32, r, m as bv32, s, n as bv32, 8);
  }

  lemma {:induction false} RegistersStayApart(a: seq<Byte>, b: seq<Byte>, i: nat)
    requires |a| == |b| && i < |a| && a[i] != b[i]
    requires forall j :: 0 <= j < |a| && j != i ==> a[j] == b[j]
    ensures BitwiseRegister(a) != BitwiseRegister(b)
  {
    var last := |a| - 1;
    if i == last {
      assert a[..last] == b[..last];
    } else {
      RegistersStayApart(a[..last], b[..last], i);
    }
    FeedsStayApart(BitwiseRegister(a[..last]), BitwiseRegister(b[..last]), a[last], b[last]);
  }

  lemma OnesTellApart(r: bv32, s: bv32)
    ensures r ^ ONES == s ^ ONES ==> r == s
  {
  }

  /** A single damaged byte, wherever it is, changes the checksum. */
  lemma OneDamagedByteIsDetected(a: seq<Byte>, b: seq<Byte>, i: nat)
    requires |a| == |b| && i < |a| && a[i] != b[i]
    requires forall j :: 0 <= j < |a| && j != i ==> a[j] == b[j]
    ensures BitwiseCrc(a) != BitwiseCrc(b)
  {
    RegistersStayApart(a, b, i);
    OnesTellApart(BitwiseRegister(a), BitwiseRegister(b));
  }
}

// What the bytes of a written VHDX container are, field by field. The reader
// needs only some of these fields; other readers may use the rest.
module VhdxFields {
  import opened Arith
  import opened Bytes
  import opened VhdxLayout
  import VhdxRoundTrip

  // ----- identifiers --------------------------------------------------------------------------

  /** The bytes of a GUID with the parts of its text: the first three numbers are little-endian, the last two are not. */
  function GuidOf(a: nat, b: nat, c: nat, d: nat): seq<byte> {
    LeBytes(a, 4) + LeBytes(b, 2) + LeBytes(c, 2) + BeBytes(d, 8)
  }

  lemma {:induction false} GuidBytes(a: nat, b: nat, c: nat, d: nat)
    ensures var h := d / 0x1_0000_0000;
      GuidOf(a, b, c, d) == [
      a % 256, a / 256 % 256, a / 0x1_0000 % 256, a / 0x100_0000 % 256, b % 256, b / 256 % 256, c % 256, c / 256 % 256,
      h / 0x100_0000 % 256, h / 0x1_0000 % 256, h / 256 % 256, h % 256,
      d / 0x100_0000 % 256, d / 0x1_0000 % 256, d / 256 % 256, d % 256]
  {
    hide LeBytes, BeBytes;
    FourBytes(a);
    TwoBytes(b);
    TwoBytes(c);
    EightBytes(d);
    FourBytes(d);
    FourBytes(d / 0x1_0000_0000);
    forall i | 0 <= i < 8
      ensures BeBytes(d, 8)[i] == LeBytes(d, 8)[7 - i]
    {
      BeBytesBackwards(d, 8, i);
    }
  }

  // The identifiers are those of [MS-VHDX], sections 2.2.3.2 and 2.6.2.

  lemma BatGuid()
    ensures GuidBat == GuidOf(0x2DC27766, 0xF623, 0x4200, 0x9D64115E9BFD4A08)
  {
    hide GuidOf;
    GuidBytes(0x2DC27766, 0xF623, 0x4200, 0x9D64115E9BFD4A08);
  }

  lemma MetadataGuid()
    ensures GuidMetadata == GuidOf(0x8B7CA206, 0x4790, 0x4B9A, 0xB8FE575F050F886E)
  {
    hide GuidOf;
    GuidBytes(0x8B7CA206, 0x4790, 0x4B9A, 0xB8FE575F050F886E);
  }

  lemma FileParametersGuid()
    ensures GuidFileParameters == GuidOf(0xCAA16737, 0xFA36, 0x4D43, 0xB3B633F0AA44E76B)
  {
    hide GuidOf;
    GuidBytes(0xCAA16737, 0xFA36, 0x4D43, 0xB3B633F0AA44E76B);
  }

  lemma DiskSizeGuid()
    ensures GuidDiskSize == GuidOf(0x2FA54224, 0xCD1B, 0x4876, 0xB2115DBED83BF4B8)
  {
    hide GuidOf;
    GuidBytes(0x2FA54224, 0xCD1B, 0x4876, 0xB2115DBED83BF4B8);
  }

  lemma DiskIdGuid()
    ensures GuidDiskId == GuidOf(0xBECA12AB, 0xB2E6, 0x4523, 0x93EFC309E000C746)
  {
    hide GuidOf;
    GuidBytes(0xBECA12AB, 0xB2E6, 0x4523, 0x93EFC309E000C746);
  }

  lemma LogicalSectorGuid()
    ensures GuidLogicalSector == GuidOf(0x8141BF1D, 0xA96F, 0x4709, 0xBA47F233A8FAAB5F)
  {
    hide GuidOf;
    GuidBytes(0x8141BF1D, 0xA96F, 0x4709, 0xBA47F233A8FAAB5F);
  }

  lemma PhysicalSectorGuid()
    ensures GuidPhysicalSector == GuidOf(0xCDA348C7, 0x445D, 0x4471, 0x9CC9E9885251C556)
  {
    hide GuidOf;
    GuidBytes(0xCDA348C7, 0x445D, 0x4471, 0x9CC9E9885251C556);
  }

  /** The file identifier: a signature, the creator in UTF-16, and zeros. */
  lemma IdentifierBytes()
    ensures var s, text := Identifier(), "cluster-api-provider-scvmm";
      && s[..8] == Ascii("vhdxfile") && s[60..256] == Zeros(196)
      && forall i :: 0 <= i < 26 ==> s[8 + 2 * i] == text[i] as int % 256 && s[9 + 2 * i] == 0
  {
    hide Ascii, Utf16;
    var a, b := Ascii("vhdxfile"), Utf16("cluster-api-provider-scvmm");
    var s := a + b + Zeros(196);
    assert s[..8] == a;
    assert s[60..256] == Zeros(196);
    forall i | 0 <= i < 26
      ensures s[8 + 2 * i] == "cluster-api-provider-scvmm"[i] as int % 256 && s[9 + 2 * i] == 0
    {
      Utf16At("cluster-api-provider-scvmm", i);
      assert s[8 + 2 * i] == b[2 * i] && s[9 + 2 * i] == b[2 * i + 1];
    }
  }

  lemma Utf16At(text: string, i: nat)
    requires i < |text|
    ensures Utf16(text)[2 * i] == text[i] as int % 256 && Utf16(text)[2 * i + 1] == 0
  {
  }

  // ----- headers and region tables ------------------------------------------------------------

  lemma HeaderParts(a: seq<byte>, s: seq<byte>, f: seq<byte>, d: seq<byte>, v: seq<byte>, l: seq<byte>, o: seq<byte>)
    requires |a| == 4 && |s| == 8 && |f| == |d| == 16 && |v| == 2 && |l| == 4 && |o| == 8
    ensures var h := a + Zeros(4) + s + f + d + Zeros(18) + v + l + o;
      && h[..4] == a && h[4..8] == Zeros(4) && h[8..16] == s && h[16..32] == f && h[32..48] == d
      && h[48..66] == Zeros(18) && h[66..68] == v && h[68..72] == l && h[72..80] == o
  {
    var h := a + Zeros(4) + s + f + d + Zeros(18) + v + l + o;
    assert h[..4] == a;
    assert h[4..8] == Zeros(4);
    assert h[8..16] == s;
    assert h[16..32] == f;
    assert h[32..48] == d;
    assert h[48..66] == Zeros(18);
    assert h[66..68] == v;
    assert h[68..72] == l;
    assert h[72..80] == o;
  }

  /** Every byte of a header but its checksum: no log, whose area is the second MiB, and version 1. */
  lemma HeaderBytes(sequence: nat, fileWrite: Guid, dataWrite: Guid)
    requires sequence < 256
    ensures var h := HeaderFields(sequence, fileWrite, dataWrite);
      && h[..4] == Ascii("head") && h[4..8] == Zeros(4) && h[8..16] == [sequence, 0, 0, 0, 0, 0, 0, 0]
      && h[16..32] == fileWrite && h[32..48] == dataWrite && h[48..66] == Zeros(18)
      && h[66..68] == [1, 0] && h[68..72] == [0, 0, 0x10, 0] && h[72..80] == [0, 0, 0x10, 0, 0, 0, 0, 0]
  {
    hide LeBytes, Ascii;
    SmallNumber(sequence);
    TwoBytes(1);
    FourBytes(0x10_0000);
    Mebibytes(1);
    HeaderParts(Ascii("head"), LeBytes(sequence, 8), fileWrite, dataWrite, LeBytes(1, 2), LeBytes(0x10_0000, 4), LeBytes(0x10_0000, 8));
  }

  lemma {:induction false} SmallNumber(v: nat)
    requires v < 256
    ensures LeBytes(v, 8) == [v, 0, 0, 0, 0, 0, 0, 0]
  {
    hide LeBytes;
    EightBytes(v);
    FourBytes(v);
    FourBytes(0);
  }

  lemma {:induction false} Mebibytes(n: nat)
    requires n < 16
    ensures LeBytes(n * 0x10_0000, 8) == [0, 0, 16 * n, 0, 0, 0, 0, 0]
  {
    hide LeBytes;
    EightBytes(n * 0x10_0000);
    FourBytes(n * 0x10_0000);
    FourBytes(0);
  }

  /** A sealed structure: its fields with their checksum in bytes 4 to 7, and zeros. */
  lemma SealedBytes(fields: seq<byte>, n: nat, crc: Crc)
    requires 8 <= |fields| <= n
    ensures var s, sum := Sealed(fields, n, crc), crc(fields + Zeros(n - |fields|));
      && s[..4] == fields[..4]
      && s[4..8] == [sum % 256, sum / 256 % 256, sum / 0x1_0000 % 256, sum / 0x100_0000 % 256]
      && s[8..|fields|] == fields[8..] && s[|fields|..] == Zeros(n - |fields|)
  {
    hide LeBytes;
    FourBytes(crc(fields + Zeros(n - |fields|)));
  }

  lemma EntryParts(g: seq<byte>, o: seq<byte>, l: seq<byte>)
    requires |g| == 16 && |o| == 8 && |l| == 4
    ensures var e := g + o + l + Zeros(4); e[..16] == g && e[16..24] == o && e[24..28] == l && e[28..32] == Zeros(4)
  {
    var e := g + o + l + Zeros(4);
    assert e[..16] == g;
    assert e[16..24] == o;
    assert e[24..28] == l;
    assert e[28..32] == Zeros(4);
  }

  /** A region of one MiB at MiB `n`; it is not marked as required. */
  lemma RegionEntryBytes(guid: Guid, n: nat)
    requires n < 16
    ensures var e := RegionEntry(guid, n, 1);
      && e[..16] == guid && e[16..24] == [0, 0, 16 * n, 0, 0, 0, 0, 0] && e[24..28] == [0, 0, 0x10, 0] && e[28..32] == Zeros(4)
  {
    hide LeBytes;
    Mebibytes(n);
    FourBytes(0x10_0000);
    EntryParts(guid, LeBytes(n * 0x10_0000, 8), LeBytes(0x10_0000, 4));
  }

  /** The region table: the block table is at 2 MiB and the metadata at 3 MiB. */
  lemma RegionBytes()
    ensures var r := RegionFields();
      && r[..4] == Ascii("regi") && r[4..8] == Zeros(4) && r[8..16] == [2, 0, 0, 0, 0, 0, 0, 0]
      && r[16..48] == RegionEntry(GuidBat, 2, 1) && r[48..80] == RegionEntry(GuidMetadata, 3, 1)
  {
    hide LeBytes, Ascii, RegionEntry;
    FourBytes(2);
    var a, b := RegionEntry(GuidBat, 2, 1), RegionEntry(GuidMetadata, 3, 1);
    var r := Ascii("regi") + Zeros(4) + LeBytes(2, 4) + Zeros(4) + a + b;
    assert r[..4] == Ascii("regi");
    assert r[4..8] == Zeros(4);
    assert r[8..16] == [2, 0, 0, 0, 0, 0, 0, 0];
    assert r[16..48] == a;
    assert r[48..80] == b;
  }

  // ----- metadata -------------------------------------------------------------------------------

  lemma ItemParts(g: seq<byte>, o: seq<byte>, l: seq<byte>, f: seq<byte>)
    requires |g| == 16 && |o| == |l| == |f| == 4
    ensures var e := g + o + l + f + Zeros(4);
      e[..16] == g && e[16..20] == o && e[20..24] == l && e[24..28] == f && e[28..32] == Zeros(4)
  {
    var e := g + o + l + f + Zeros(4);
    assert e[..16] == g;
    assert e[16..20] == o;
    assert e[20..24] == l;
    assert e[24..28] == f;
    assert e[28..32] == Zeros(4);
  }

  /** An item of `length` bytes whose value is `d` bytes into the values, which start 64 KiB into the region. */
  lemma ItemBytes(guid: Guid, d: nat, length: nat, flags: nat)
    requires d < 256 && length < 256 && flags < 256
    ensures var e := MetadataEntry(guid, 65536 + d, length, flags);
      && e[..16] == guid && e[16..20] == [d, 0, 1, 0] && e[20..24] == [length, 0, 0, 0]
      && e[24..28] == [flags, 0, 0, 0] && e[28..32] == Zeros(4)
  {
    hide LeBytes;
    FourBytes(65536 + d);
    FourBytes(length);
    FourBytes(flags);
    ItemParts(guid, LeBytes(65536 + d, 4), LeBytes(length, 4), LeBytes(flags, 4));
  }

  /**
   * The metadata table has five items: block size and flags, disk size, disk
   * identifier, logical and physical sector size. All but the first belong to
   * the virtual disk, and all are required.
   */
  lemma TableBytes()
    ensures var m := MetadataTable();
      && m[..8] == Ascii("metadata") && m[8..12] == [0, 0, 5, 0] && m[12..32] == Zeros(20)
      && m[32..64] == MetadataEntry(GuidFileParameters, 65536 + 0, 8, 4)
      && m[64..96] == MetadataEntry(GuidDiskSize, 65536 + 8, 8, 6)
      && m[96..128] == MetadataEntry(GuidDiskId, 65536 + 16, 16, 6)
      && m[128..160] == MetadataEntry(GuidLogicalSector, 65536 + 32, 4, 6)
      && m[160..192] == MetadataEntry(GuidPhysicalSector, 65536 + 36, 4, 6)
      && m[192..256] == Zeros(64)
  {
    hide LeBytes, Ascii, MetadataEntry;
    TwoBytes(5);
    TableParts(Ascii("metadata"), LeBytes(5, 2),
      MetadataEntry(GuidFileParameters, 65536, 8, 4), MetadataEntry(GuidDiskSize, 65544, 8, 6),
      MetadataEntry(GuidDiskId, 65552, 16, 6), MetadataEntry(GuidLogicalSector, 65568, 4, 6),
      MetadataEntry(GuidPhysicalSector, 65572, 4, 6));
  }

  lemma TableParts(s: seq<byte>, n: seq<byte>, a: seq<byte>, b: seq<byte>, c: seq<byte>, d: seq<byte>, e: seq<byte>)
    requires |s| == 8 && |n| == 2 && |a| == |b| == |c| == |d| == |e| == 32
    ensures var m := s + Zeros(2) + n + Zeros(20) + a + b + c + d + e + Zeros(64);
      && m[..8] == s && m[8..12] == [0, 0] + n && m[12..32] == Zeros(20) && m[32..64] == a && m[64..96] == b
      && m[96..128] == c && m[128..160] == d && m[160..192] == e && m[192..256] == Zeros(64)
  {
    var m := s + Zeros(2) + n + Zeros(20) + a + b + c + d + e + Zeros(64);
    assert m[..8] == s;
    assert m[8..12] == [0, 0] + n;
    assert m[12..32] == Zeros(20);
    assert m[32..64] == a;
    assert m[64..96] == b;
    assert m[96..128] == c;
    assert m[128..160] == d;
    assert m[160..192] == e;
    assert m[192..256] == Zeros(64);
  }

  /** The values of the items: blocks of 1 MiB kept allocated, the disk's size and identifier, sectors of 512 bytes. */
  lemma {:induction false} ValueBytes(size: nat, diskId: Guid)
    ensures var v := MetadataValues(size, diskId);
      && v[..4] == [0, 0, 0x10, 0] && v[4..8] == [1, 0, 0, 0]
      && v[8..12] == [size % 256, size / 256 % 256, size / 0x1_0000 % 256, size / 0x100_0000 % 256]
      && v[12..16] == LeBytes(size / 0x1_0000_0000, 4)
      && v[16..32] == diskId && v[32..36] == [0, 2, 0, 0] && v[36..40] == [0, 2, 0, 0] && v[40..256] == Zeros(216)
  {
    hide LeBytes;
    FourBytes(0x10_0000);
    FourBytes(1);
    EightBytes(size);
    FourBytes(size);
    FourBytes(512);
    ValueParts(LeBytes(0x10_0000, 4), LeBytes(1, 4), LeBytes(size, 8), diskId, LeBytes(512, 4));
    var v := MetadataValues(size, diskId);
    assert v[8..12] == v[8..16][..4] && v[12..16] == v[8..16][4..];
  }

  lemma ValueParts(b: seq<byte>, f: seq<byte>, s: seq<byte>, d: seq<byte>, l: seq<byte>)
    requires |b| == |f| == |l| == 4 && |s| == 8 && |d| == 16
    ensures var v := b + f + s + d + l + l + Zeros(216);
      v[..4] == b && v[4..8] == f && v[8..16] == s && v[16..32] == d && v[32..36] == l && v[36..40] == l && v[40..256] == Zeros(216)
  {
    var v := b + f + s + d + l + l + Zeros(216);
    assert v[..4] == b;
    assert v[4..8] == f;
    assert v[8..16] == s;
    assert v[16..32] == d;
    assert v[32..36] == l;
    assert v[36..40] == l;
    assert v[40..256] == Zeros(216);
  }

  // ----- the block table ------------------------------------------------------------------------

  /** An entry for each MiB begun: state 6, and the MiB of the file the block is at. The last entry is a zero block. */
  lemma {:induction false} BatBytes(size: nat, b: nat)
    ensures Needs(size, 0x10_0000, Blocks(size)) && |Bat(size)| == 8 * Blocks(size) + 8
    ensures b < Blocks(size) ==> Bat(size)[8 * b..8 * b + 8] == LeBytes(6 + (4 + b) * 0x10_0000, 8)
    ensures Bat(size)[8 * Blocks(size)..] == [2, 0, 0, 0, 0, 0, 0, 0]
  {
    hide LeBytes, BatTo, Units;
    UnitsNeeded(size, MiB);
    SmallNumber(2);
    var s, n := BatTo(Blocks(size)), Blocks(size);
    assert (s + LeBytes(2, 8))[8 * n..] == LeBytes(2, 8);
    if b < n {
      VhdxRoundTrip.BatPiece(b, n);
      Prefix(s, LeBytes(2, 8), 8 * b, 8 * b + 8);
    }
  }

  // ----- where everything is ---------------------------------------------------------------------

  /** The offsets of the container's writes, and of the clear bytes that come last. */
  lemma Offsets(size: nat, ids: Guids, crc: Crc)
    ensures var ws := ContainerWrites(size, ids, crc);
      && ws[0].off == 0 && ws[1].off == 0x1_0000 && ws[2].off == 0x2_0000 && ws[3].off == 0x3_0000 && ws[4].off == 0x4_0000
      && ws[5].off == 0x20_0000 && ws[6].off == 0x30_0000 && ws[7].off == 0x31_0000
    ensures PadWrite().off + 256 == 0x50_0000 && PadWrite().data == Zeros(256)
  {
  }
}

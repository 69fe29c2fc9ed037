// Reading back a written VHDX container: the reader of the format sees the
// image of the file system, except for the bytes the last write clears.
module VhdxRoundTrip {
  import opened Arith
  import opened Bytes
  import opened Wrappers
  import opened CloudInit
  import opened SparseFiles
  import opened VhdxLayout
  import opened VhdxWriter
  import opened VhdxReader

  // ----- windows of a file built from writes ------------------------------------------------

  predicate Apart(w: Write, a: nat, n: nat) {
    w.data == [] || a + n <= w.off || w.off + |w.data| <= a
  }

  lemma {:induction false} WindowOfNone(ws: seq<Write>, a: nat, n: nat)
    requires forall j :: 0 <= j < |ws| ==> Apart(ws[j], a, n)
    ensures Window(Applied([], ws), a, n) == Zeros(n)
  {
    hide Overlay;
    if ws != [] {
      var last := ws[|ws| - 1];
      WindowOfNone(ws[..|ws| - 1], a, n);
      WindowOfOverlay(Applied([], ws[..|ws| - 1]), last.off, last.data, a, n);
    }
  }

  /** Where only write `k` reaches, the file is that write over a clear file. */
  lemma {:induction false} WindowOfWrite(ws: seq<Write>, k: nat, a: nat, n: nat)
    requires k < |ws| && ws[k].data != []
    requires forall j :: 0 <= j < |ws| && j != k ==> Apart(ws[j], a, n)
    ensures Window(Applied([], ws), a, n) == Window(Overlay([], ws[k].off, ws[k].data), a, n)
    decreases |ws|
  {
    var last := ws[|ws| - 1];
    var front := Applied([], ws[..|ws| - 1]);
    if k == |ws| - 1 {
      WindowOfNone(ws[..|ws| - 1], a, n);
      OverClear(front, last.off, last.data, a, n);
    } else {
      WindowOfWrite(ws[..|ws| - 1], k, a, n);
      WindowOfOverlay(front, last.off, last.data, a, n);
    }
  }

  lemma OverClear(f: seq<byte>, off: nat, p: seq<byte>, a: nat, n: nat)
    requires p != [] && Window(f, a, n) == Zeros(n)
    ensures Window(Overlay(f, off, p), a, n) == Window(Overlay([], off, p), a, n)
  {
    forall i | 0 <= i < n
      ensures Window(Overlay(f, off, p), a, n)[i] == Window(Overlay([], off, p), a, n)[i]
    {
      assert Window(f, a, n)[i] == 0;
    }
  }

  lemma OwnWindow(off: nat, p: seq<byte>, n: nat)
    requires p != [] && |p| <= n
    ensures Window(Overlay([], off, p), off, n) == p + Zeros(n - |p|)
  {
  }

  lemma SubWindowOf(f: seq<byte>, a: nat, n: nat, i: nat, m: nat)
    requires i + m <= n
    ensures Window(f, a + i, m) == Window(f, a, n)[i..i + m]
  {
  }

  // ----- where the structures are -------------------------------------------------------------

  /** The areas of the file, one for every container write; the image follows them. */
  function ZoneStart(k: nat): nat {
    if k == 0 then 0
    else if k <= 4 then 64 * KiB * k
    else if k == 5 then 2 * MiB
    else if k == 6 then 3 * MiB
    else if k == 7 then 3 * MiB + 64 * KiB
    else 4 * MiB
  }

  predicate InZones(ws: seq<Write>) {
    && |ws| >= 8
    && (forall j :: 0 <= j < 8 ==> ws[j].off == ZoneStart(j) && 0 < |ws[j].data| && ws[j].off + |ws[j].data| <= ZoneStart(j + 1))
    && (forall j :: 8 <= j < |ws| ==> ws[j].off >= 4 * MiB)
  }

  lemma ContainerInZones(size: nat, ids: Guids, crc: Crc)
    requires Blocks(size) <= 4096
    ensures InZones(ContainerWrites(size, ids, crc))
  {
    hide Identifier, HeaderFields, RegionFields, Sealed, Bat, MetadataTable, MetadataValues;
    var ws := ContainerWrites(size, ids, crc);
    forall j | 0 <= j < 8
      ensures ws[j].off == ZoneStart(j) && 0 < |ws[j].data| && ws[j].off + |ws[j].data| <= ZoneStart(j + 1)
    {
      if j == 0 {} else if j == 1 {} else if j == 2 {} else if j == 3 {} else if j == 4 {} else if j == 5 {} else if j == 6 {} else {}
    }
  }

  lemma AllInZones(fs: FileSystem, files: seq<CloudInitFile>, ids: Guids, crc: Crc)
    requires Ready(fs, files) && Blocks(|ImageOf(fs, files)|) <= 4096
    ensures InZones(VhdxWrites(fs, files, ids, crc))
  {
    hide ContainerWrites, ImageOf, Blocks, Ready;
    ContainerInZones(|ImageOf(fs, files)|, ids, crc);
  }

  lemma ZonesOrdered(j: nat, k: nat)
    requires j <= k
    ensures ZoneStart(j) <= ZoneStart(k)
  {
  }

  /** A structure stands alone in its zone, followed by zeros. */
  lemma {:induction false} ZoneWindow(ws: seq<Write>, k: nat, n: nat)
    requires InZones(ws) && k < 8 && |ws[k].data| <= n <= ZoneStart(k + 1) - ZoneStart(k)
    ensures Window(Applied([], ws), ZoneStart(k), n) == ws[k].data + Zeros(n - |ws[k].data|)
  {
    hide Applied, Overlay, ZoneStart;
    forall j | 0 <= j < |ws| && j != k
      ensures Apart(ws[j], ZoneStart(k), n)
    {
      if j < k {
        ZonesOrdered(j + 1, k);
      } else if j < 8 {
        ZonesOrdered(k + 1, j);
      } else {
        ZonesOrdered(k + 1, 8);
        LastZone();
      }
    }
    WindowOfWrite(ws, k, ZoneStart(k), n);
    OwnWindow(ZoneStart(k), ws[k].data, n);
  }

  lemma LastZone()
    ensures ZoneStart(8) == 4 * MiB
  {
  }

  // ----- sealed structures --------------------------------------------------------------------

  lemma SealedRead(fields: seq<byte>, n: nat, crc: Crc)
    requires 8 <= |fields| <= 256 <= n && fields[4..8] == Zeros(4)
    ensures var s := Sealed(fields, n, crc);
      && s == s[..256] + Zeros(n - 256)
      && SumOk(s, crc)
      && s[0..4] == fields[0..4]
      && forall i, j :: 8 <= i <= j <= |fields| ==> s[i..j] == fields[i..j]
  {
    var clear := fields + Zeros(n - |fields|);
    var sum := LeBytes(crc(clear), 4);
    var s := Sealed(fields, n, crc);
    SpliceBack(clear, sum, fields);
    FieldSizes();
    FieldRoundTrip(crc(clear), 4);
    WindowOfSplice(clear, 4, sum, 4, 8);
  }

  lemma SpliceBack(clear: seq<byte>, sum: seq<byte>, fields: seq<byte>)
    requires |sum| == 4 && 8 <= |fields| <= 256 <= |clear| && clear == fields + Zeros(|clear| - |fields|)
    requires fields[4..8] == Zeros(4)
    ensures Splice(Splice(clear, 4, sum), 4, Zeros(4)) == clear
    ensures Splice(clear, 4, sum) == Splice(clear, 4, sum)[..256] + Zeros(|clear| - 256)
    ensures Splice(clear, 4, sum)[0..4] == fields[0..4]
    ensures forall i, j :: 8 <= i <= j <= |fields| ==> Splice(clear, 4, sum)[i..j] == fields[i..j]
  {
    var s := Splice(clear, 4, sum);
    assert forall i :: 4 <= i < 8 ==> clear[i] == fields[4..8][i - 4];
    assert Splice(s, 4, Zeros(4)) == clear;
    assert s == s[..256] + Zeros(|clear| - 256);
    forall i, j | 8 <= i <= j <= |fields|
      ensures s[i..j] == fields[i..j]
    {
    }
  }

  lemma HeaderPieces(sequence: nat, g1: Guid, g2: Guid)
    ensures var h := HeaderFields(sequence, g1, g2);
      h[0..4] == Ascii("head") && h[4..8] == Zeros(4) && h[66..68] == LeBytes(1, 2)
  {
    hide LeBytes, Ascii;
    var h, sign, z := HeaderFields(sequence, g1, g2), Ascii("head"), Zeros(4);
    var a := sign + z + LeBytes(sequence, 8) + g1 + g2 + Zeros(18);
    assert h == a + LeBytes(1, 2) + (LeBytes(MiB, 4) + LeBytes(MiB, 8));
    PieceAt(a, LeBytes(1, 2), LeBytes(MiB, 4) + LeBytes(MiB, 8), 66, 2);
    assert h == sign + z + h[8..];
    PieceAt(sign, z, h[8..], 4, 4);
  }

  lemma HeaderRead(sequence: nat, g1: Guid, g2: Guid, crc: Crc)
    ensures var s := Sealed(HeaderFields(sequence, g1, g2), 4096, crc);
      s == s[..256] + Zeros(3840) && HeaderOk(s, crc)
  {
    hide Sealed, HeaderFields, SumOk;
    var h := HeaderFields(sequence, g1, g2);
    HeaderPieces(sequence, g1, g2);
    SealedRead(h, 4096, crc);
    assert Sealed(h, 4096, crc)[66..68] == h[66..68];
    FieldSizes();
    FieldRoundTrip(1, 2);
  }

  // ----- region table -------------------------------------------------------------------------

  lemma {:induction false} EntryPieces(guid: Guid, offMiB: nat, lenMiB: nat)
    ensures var e := RegionEntry(guid, offMiB, lenMiB);
      e[0..16] == guid && e[16..24] == LeBytes(offMiB * MiB, 8)
  {
    hide LeBytes;
    var e := RegionEntry(guid, offMiB, lenMiB);
    var rest := LeBytes(lenMiB * MiB, 4) + Zeros(4);
    assert e == guid + LeBytes(offMiB * MiB, 8) + rest;
    PieceAt(guid, LeBytes(offMiB * MiB, 8), rest, 16, 8);
  }

  lemma RegionPieces()
    ensures var r := RegionFields();
      && r[0..4] == Ascii("regi") && r[4..8] == Zeros(4) && r[8..12] == LeBytes(2, 4)
      && r[16..48] == RegionEntry(GuidBat, 2, 1) && r[48..80] == RegionEntry(GuidMetadata, 3, 1)
  {
    hide LeBytes, Ascii, RegionEntry;
    var r, sign, z := RegionFields(), Ascii("regi"), Zeros(4);
    var a, b := RegionEntry(GuidBat, 2, 1), RegionEntry(GuidMetadata, 3, 1);
    assert r == sign + z + (LeBytes(2, 4) + z + a + b);
    PieceAt(sign, z, LeBytes(2, 4) + z + a + b, 4, 4);
    assert r == sign + z + LeBytes(2, 4) + (z + a + b);
    PieceAt(sign + z, LeBytes(2, 4), z + a + b, 8, 4);
    PieceAt(sign + z + LeBytes(2, 4) + z, a, b, 16, 32);
    assert r == sign + z + LeBytes(2, 4) + z + a + b + [];
    PieceAt(sign + z + LeBytes(2, 4) + z + a, b, [], 48, 32);
  }

  lemma GuidsDiffer()
    ensures GuidBat != GuidMetadata
    ensures GuidFileParameters != GuidDiskSize && GuidFileParameters != GuidLogicalSector
    ensures GuidDiskSize != GuidLogicalSector && GuidDiskId != GuidLogicalSector
  {
    assert GuidBat[0] != GuidMetadata[0];
    assert GuidFileParameters[0] != GuidDiskSize[0] && GuidFileParameters[0] != GuidLogicalSector[0];
    assert GuidDiskSize[0] != GuidLogicalSector[0] && GuidDiskId[0] != GuidLogicalSector[0];
  }

  lemma RegionRead(crc: Crc)
    ensures var s := Sealed(RegionFields(), 65536, crc);
      && s == s[..256] + Zeros(65280) && RegionOk(s, crc) && Le(s, 8, 4) == 2
      && s[16..48] == RegionEntry(GuidBat, 2, 1) && s[48..80] == RegionEntry(GuidMetadata, 3, 1)
  {
    hide Sealed, RegionFields, SumOk, RegionEntry;
    var r := RegionFields();
    RegionPieces();
    SealedRead(r, 65536, crc);
    var s := Sealed(r, 65536, crc);
    assert s[8..12] == r[8..12] && s[16..48] == r[16..48] && s[48..80] == r[48..80];
    FieldSizes();
    FieldRoundTrip(2, 4);
  }

  lemma {:induction false} RegionsFound(s: seq<byte>)
    requires |s| == 65536
    requires s[16..48] == RegionEntry(GuidBat, 2, 1) && s[48..80] == RegionEntry(GuidMetadata, 3, 1)
    ensures FindRegion(s, GuidBat, 0, 2) == Some(2 * MiB)
    ensures FindRegion(s, GuidMetadata, 0, 2) == Some(3 * MiB)
  {
    hide RegionEntry, GuidBat, GuidMetadata, LeNum, LeBytes;
    EntryPieces(GuidBat, 2, 1);
    EntryPieces(GuidMetadata, 3, 1);
    Inside(s, 16, 48, RegionEntry(GuidBat, 2, 1), 0, 16);
    Inside(s, 16, 48, RegionEntry(GuidBat, 2, 1), 16, 24);
    Inside(s, 48, 80, RegionEntry(GuidMetadata, 3, 1), 0, 16);
    Inside(s, 48, 80, RegionEntry(GuidMetadata, 3, 1), 16, 24);
    GuidsDiffer();
    FieldSizes();
    FieldRoundTrip(2 * MiB, 8);
    FieldRoundTrip(3 * MiB, 8);
  }

  // ----- metadata -----------------------------------------------------------------------------

  lemma ItemPieces(guid: Guid, off: nat, length: nat, flags: nat)
    requires off < 0x1_0000_0000
    ensures var e := MetadataEntry(guid, off, length, flags);
      e[0..16] == guid && LeNum(e[16..20]) == off
  {
    hide LeBytes;
    var e, rest := MetadataEntry(guid, off, length, flags), LeBytes(length, 4) + LeBytes(flags, 4) + Zeros(4);
    assert e == guid + LeBytes(off, 4) + rest;
    PieceAt(guid, LeBytes(off, 4), rest, 16, 4);
    FieldSizes();
    FieldRoundTrip(off, 4);
  }

  lemma TablePieces(m: seq<byte>)
    requires |m| == 65536 && m[..256] == MetadataTable()
    ensures m[0..8] == Ascii("metadata") && m[10..12] == LeBytes(5, 2)
    ensures m[32..64] == MetadataEntry(GuidFileParameters, 65536, 8, 4)
    ensures m[64..96] == MetadataEntry(GuidDiskSize, 65544, 8, 6)
    ensures m[96..128] == MetadataEntry(GuidDiskId, 65552, 16, 6)
    ensures m[128..160] == MetadataEntry(GuidLogicalSector, 65568, 4, 6)
  {
    hide LeBytes, Ascii, MetadataEntry;
    var t, sign, n := MetadataTable(), Ascii("metadata"), LeBytes(5, 2);
    var a, b := MetadataEntry(GuidFileParameters, 65536, 8, 4), MetadataEntry(GuidDiskSize, 65544, 8, 6);
    var c, d := MetadataEntry(GuidDiskId, 65552, 16, 6), MetadataEntry(GuidLogicalSector, 65568, 4, 6);
    var e := MetadataEntry(GuidPhysicalSector, 65572, 4, 6);
    TableSplit(sign, Zeros(2), n, Zeros(20), a, b, c, d, e + Zeros(64));
    assert t == sign + Zeros(2) + n + Zeros(20) + a + b + c + d + (e + Zeros(64));
    Inside(m, 0, 256, t, 0, 8);
    Inside(m, 0, 256, t, 10, 12);
    Inside(m, 0, 256, t, 32, 64);
    Inside(m, 0, 256, t, 64, 96);
    Inside(m, 0, 256, t, 96, 128);
    Inside(m, 0, 256, t, 128, 160);
  }

  lemma TableSplit(s: seq<byte>, y: seq<byte>, n: seq<byte>, z: seq<byte>, a: seq<byte>, b: seq<byte>, c: seq<byte>, d: seq<byte>, x: seq<byte>)
    requires |s| == 8 && |y| == 2 && |n| == 2 && |z| == 20 && |a| == 32 && |b| == 32 && |c| == 32 && |d| == 32
    ensures var t := s + y + n + z + a + b + c + d + x;
      && t[0..8] == s && t[10..12] == n && t[32..64] == a && t[64..96] == b && t[96..128] == c && t[128..160] == d
  {
    var t := s + y + n + z + a + b + c + d + x;
    assert t[0..8] == s;
    assert t[10..12] == n;
    assert t[32..64] == a;
    assert t[64..96] == b;
    assert t[96..128] == c;
    assert t[128..160] == d;
  }

  /** Entry `i` of the metadata table, found or passed over. */
  lemma ItemAt(m: seq<byte>, i: nat, guid: Guid, off: nat, length: nat, flags: nat)
    requires |m| == 65536 && i < 5 && off < 0x1_0000_0000
    requires m[32 + 32 * i..64 + 32 * i] == MetadataEntry(guid, off, length, flags)
    ensures FindItem(m, guid, i, 5) == Some(off)
    ensures forall g: Guid :: g != guid ==> FindItem(m, g, i, 5) == FindItem(m, g, i + 1, 5)
  {
    hide MetadataEntry;
    ItemPieces(guid, off, length, flags);
    var e := MetadataEntry(guid, off, length, flags);
    Inside(m, 32 + 32 * i, 64 + 32 * i, e, 0, 16);
    Inside(m, 32 + 32 * i, 64 + 32 * i, e, 16, 20);
  }

  lemma {:induction false} ItemsFound(m: seq<byte>)
    requires |m| == 65536 && m[..256] == MetadataTable()
    ensures FindItem(m, GuidFileParameters, 0, 5) == Some(65536)
    ensures FindItem(m, GuidDiskSize, 0, 5) == Some(65544)
    ensures FindItem(m, GuidLogicalSector, 0, 5) == Some(65568)
  {
    hide FindItem, MetadataEntry, MetadataTable;
    GuidsDiffer();
    TablePieces(m);
    ItemAt(m, 0, GuidFileParameters, 65536, 8, 4);
    ItemAt(m, 1, GuidDiskSize, 65544, 8, 6);
    ItemAt(m, 2, GuidDiskId, 65552, 16, 6);
    ItemAt(m, 3, GuidLogicalSector, 65568, 4, 6);
  }

  lemma {:induction false} ValuePieces(size: nat, diskId: Guid)
    ensures var v := MetadataValues(size, diskId);
      v[0..4] == LeBytes(MiB, 4) && v[8..16] == LeBytes(size, 8) && v[32..36] == LeBytes(512, 4)
  {
    hide LeBytes, Zeros;
    var v := MetadataValues(size, diskId);
    var a, b, c, d := LeBytes(MiB, 4), LeBytes(1, 4), LeBytes(size, 8), LeBytes(512, 4);
    assert v == a + b + c + (diskId + d + d + Zeros(216));
    PieceAt(a + b, c, diskId + d + d + Zeros(216), 8, 8);
    assert v == a + b + c + diskId + d + (d + Zeros(216));
    PieceAt(a + b + c + diskId, d, d + Zeros(216), 32, 4);
    assert v[0..4] == a;
  }

  /** The metadata give the block size, the disk size and the sector size. */
  lemma MetadataRead(f: seq<byte>, size: nat, diskId: Guid)
    requires Window(f, 3 * MiB, 65536) == MetadataTable() + Zeros(65280)
    requires Window(f, 3 * MiB + 65536, 256) == MetadataValues(size, diskId)
    requires size < 0x1_0000_0000_0000_0000
    ensures ReadMetadata(f, 3 * MiB) == Some(Disk(MiB, size, 512))
  {
    hide MetadataTable, MetadataValues, FindItem, Window;
    var m, v := Window(f, 3 * MiB, 65536), MetadataValues(size, diskId);
    assert m[..256] == MetadataTable();
    ItemsFound(m);
    TablePieces(m);
    ValuePieces(size, diskId);
    SubWindowOf(f, 3 * MiB + 65536, 256, 0, 4);
    SubWindowOf(f, 3 * MiB + 65536, 256, 8, 8);
    SubWindowOf(f, 3 * MiB + 65536, 256, 32, 4);
    FieldSizes();
    FieldRoundTrip(5, 2);
    FieldRoundTrip(MiB, 4);
    FieldRoundTrip(size, 8);
    FieldRoundTrip(512, 4);
  }

  // ----- blocks -------------------------------------------------------------------------------

  lemma {:induction false} BatPiece(b: nat, k: nat)
    requires b < k
    ensures BatTo(k)[8 * b..8 * b + 8] == LeBytes(BatEntry(b), 8)
    decreases k
  {
    hide LeBytes, BatEntry;
    if k > b + 1 {
      BatPiece(b, k - 1);
      assert (BatTo(k - 1) + LeBytes(BatEntry(k - 1), 8))[8 * b..8 * b + 8] == BatTo(k - 1)[8 * b..8 * b + 8];
    }
  }

  lemma BatRead(f: seq<byte>, size: nat, b: nat)
    requires Window(f, 2 * MiB, 8 * (Blocks(size) + 1)) == Bat(size)
    requires b < Blocks(size) <= 4096
    ensures LeNum(Window(f, 2 * MiB + 8 * b, 8)) == BatEntry(b)
  {
    hide LeBytes, Blocks, Window, BatTo;
    var n := Blocks(size);
    BatPiece(b, n);
    SubWindowOf(f, 2 * MiB, 8 * (n + 1), 8 * b, 8);
    assert (BatTo(n) + LeBytes(2, 8))[8 * b..8 * b + 8] == BatTo(n)[8 * b..8 * b + 8];
    FieldSizes();
    FieldRoundTrip(BatEntry(b), 8);
  }

  lemma EntryMeaning(f: seq<byte>, b: nat)
    ensures BlockBytes(f, BatEntry(b), MiB) == Some(Window(f, 4 * MiB + b * MiB, MiB))
  {
    hide Window;
    assert BatEntry(b) == 8 * ((b + 4) * 0x2_0000) + 6;
    assert BatEntry(b) / MiB == b + 4;
  }

  /** The blocks of the disk are one stretch of the file from 4 MiB on. */
  lemma {:induction false} BlocksRead(f: seq<byte>, size: nat, b: nat)
    requires Window(f, 2 * MiB, 8 * (Blocks(size) + 1)) == Bat(size)
    requires b <= Blocks(size) <= 4096
    ensures ReadBlocks(f, 2 * MiB, MiB, 4096, b, Blocks(size))
         == Some(Window(f, 4 * MiB + b * MiB, (Blocks(size) - b) * MiB))
    decreases Blocks(size) - b
  {
    hide Bat, Blocks, BatEntry, BlockBytes, Window;
    var n := Blocks(size);
    if b == n {
      assert Window(f, 4 * MiB + b * MiB, 0) == [];
    } else {
      assert b / 4096 == 0;
      BatRead(f, size, b);
      EntryMeaning(f, b);
      BlocksRead(f, size, b + 1);
      WindowJoin(f, 4 * MiB + b * MiB, MiB, (n - b - 1) * MiB);
    }
  }

  lemma WindowJoin(f: seq<byte>, a: nat, m: nat, n: nat)
    ensures Window(f, a, m) + Window(f, a + m, n) == Window(f, a, m + n)
  {
  }

  lemma BlockCount(size: nat)
    requires size > 0
    ensures (size + MiB - 1) / MiB == Blocks(size) && size <= Blocks(size) * MiB
  {
    UnitsCover(size, MiB);
    var n := Blocks(size);
    DivModUnique(size + MiB - 1, MiB, n, size + MiB - 1 - n * MiB);
  }

  lemma DiskRead(f: seq<byte>, size: nat)
    requires Window(f, 2 * MiB, 8 * (Blocks(size) + 1)) == Bat(size)
    requires 0 < size && Blocks(size) <= 4096
    ensures ReadDisk(f, 2 * MiB, Disk(MiB, size, 512)) == Some(Window(f, 4 * MiB, size))
  {
    hide Bat, Blocks, Window, ReadBlocks;
    BlockCount(size);
    BlocksRead(f, size, 0);
    SubWindowOf(f, 4 * MiB, Blocks(size) * MiB, 0, size);
  }

  // ----- the image ----------------------------------------------------------------------------

  /** The image with the last 256 bytes of its first block cleared. */
  function PadCleared(img: seq<byte>): (s: seq<byte>)
    ensures |s| == |img|
    ensures forall i :: 0 <= i < |s| ==> s[i] == if MiB - 256 <= i < MiB then 0 else img[i]
  {
    seq(|img|, i requires 0 <= i < |img| => if MiB - 256 <= i < MiB then 0 else img[i])
  }

  lemma {:induction false} ContainerClear(ws: seq<Write>, n: nat)
    requires InZones(ws) && |ws| == 8
    ensures Window(Applied([], ws), 4 * MiB, n) == Zeros(n)
    ensures |Applied([], ws)| <= 4 * MiB
  {
    hide Overlay, ZoneStart;
    LastZone();
    forall j | 0 <= j < 8
      ensures Apart(ws[j], 4 * MiB, n) && ws[j].off + |ws[j].data| <= 4 * MiB
    {
      ZonesOrdered(j + 1, 8);
    }
    WindowOfNone(ws, 4 * MiB, n);
    LengthBelow(ws, 4 * MiB);
  }

  lemma {:induction false} LengthBelow(ws: seq<Write>, n: nat)
    requires forall j :: 0 <= j < |ws| ==> ws[j].off + |ws[j].data| <= n
    ensures |Applied([], ws)| <= n
  {
    if ws != [] {
      LengthBelow(ws[..|ws| - 1], n);
    }
  }

  /** The area from 4 MiB on: the image, with the pad written over it. */
  lemma ImageArea(g: seq<byte>, skip: nat, img: seq<byte>)
    requires skip < |img| && img[..skip] == Zeros(skip)
    requires Window(g, 4 * MiB, |img|) == Zeros(|img|) && |g| <= 4 * MiB
    ensures var f := Overlay(Overlay(g, 4 * MiB + skip, img[skip..]), 5 * MiB - 256, Zeros(256));
      && Window(f, 4 * MiB, |img|) == PadCleared(img)
      && |f| == if |img| <= MiB then 5 * MiB else 4 * MiB + |img|
  {
    var f := Overlay(Overlay(g, 4 * MiB + skip, img[skip..]), 5 * MiB - 256, Zeros(256));
    forall i | 0 <= i < |img|
      ensures Window(f, 4 * MiB, |img|)[i] == PadCleared(img)[i]
    {
      assert i < skip ==> img[i] == img[..skip][i] == 0;
      assert Window(g, 4 * MiB, |img|)[i] == 0;
    }
  }

  lemma VhdxArea(fs: FileSystem, files: seq<CloudInitFile>, ids: Guids, crc: Crc)
    requires Ready(fs, files) && Blocks(|ImageOf(fs, files)|) <= 4096
    ensures var f := Applied([], VhdxWrites(fs, files, ids, crc)); var img := ImageOf(fs, files);
      && Window(f, 4 * MiB, |img|) == PadCleared(img)
      && |f| == if |img| <= MiB then 5 * MiB else 4 * MiB + |img|
  {
    hide ImageOf, Ready, Blocks, Overlay, Applied, ContainerWrites, PadCleared, Window, InZones;
    var img := ImageOf(fs, files);
    var ws := ContainerWrites(|img|, ids, crc);
    ImageShape(fs, files);
    ContainerInZones(|img|, ids, crc);
    ContainerClear(ws, |img|);
    AppliedStep([], ws, ImageWrite(fs, files));
    AppliedStep([], ws + [ImageWrite(fs, files)], PadWrite());
    ImageArea(Applied([], ws), Unwritten(fs), img);
  }

  // ----- the container ------------------------------------------------------------------------

  /** Every structure of the container stands in the finished file as it was written. */
  lemma StructuresStand(fs: FileSystem, files: seq<CloudInitFile>, ids: Guids, crc: Crc)
    requires Ready(fs, files) && Blocks(|ImageOf(fs, files)|) <= 4096
    ensures var f := Applied([], VhdxWrites(fs, files, ids, crc)); var size := |ImageOf(fs, files)|;
      && Window(f, 0, 256) == Identifier()
      && Window(f, 64 * KiB, 4096) == Sealed(HeaderFields(1, ids.file1, ids.data1), 4096, crc)
      && Window(f, 128 * KiB, 4096) == Sealed(HeaderFields(2, ids.file2, ids.data2), 4096, crc)
      && Window(f, 192 * KiB, 65536) == Sealed(RegionFields(), 65536, crc)
      && Window(f, 256 * KiB, 65536) == Sealed(RegionFields(), 65536, crc)
      && Window(f, 2 * MiB, 8 * (Blocks(size) + 1)) == Bat(size)
      && Window(f, 3 * MiB, 65536) == MetadataTable() + Zeros(65280)
      && Window(f, 3 * MiB + 65536, 256) == MetadataValues(size, ids.disk)
  {
    hide Applied, Window, Identifier, Sealed, HeaderFields, RegionFields, Bat, MetadataTable, MetadataValues, InZones,
         ImageOf, Ready, Blocks, ImageWrite, PadWrite, HeaderOk, RegionOk;
    var ws, size := VhdxWrites(fs, files, ids, crc), |ImageOf(fs, files)|;
    AllInZones(fs, files, ids, crc);
    HeaderRead(1, ids.file1, ids.data1, crc);
    HeaderRead(2, ids.file2, ids.data2, crc);
    RegionRead(crc);
    ZoneWindow(ws, 0, 256);
    ZoneWindow(ws, 1, 4096);
    ZoneWindow(ws, 2, 4096);
    ZoneWindow(ws, 3, 65536);
    ZoneWindow(ws, 4, 65536);
    ZoneWindow(ws, 5, 8 * (Blocks(size) + 1));
    ZoneWindow(ws, 6, 65536);
    ZoneWindow(ws, 7, 256);
  }

  lemma ContainerRead(f: seq<byte>, size: nat, ids: Guids, crc: Crc)
    requires 0 < size < 0x1_0000_0000_0000_0000 && Blocks(size) <= 4096
    requires Window(f, 0, 256) == Identifier()
    requires Window(f, 64 * KiB, 4096) == Sealed(HeaderFields(1, ids.file1, ids.data1), 4096, crc)
    requires Window(f, 128 * KiB, 4096) == Sealed(HeaderFields(2, ids.file2, ids.data2), 4096, crc)
    requires Window(f, 192 * KiB, 65536) == Sealed(RegionFields(), 65536, crc)
    requires Window(f, 256 * KiB, 65536) == Sealed(RegionFields(), 65536, crc)
    requires Window(f, 2 * MiB, 8 * (Blocks(size) + 1)) == Bat(size)
    requires Window(f, 3 * MiB, 65536) == MetadataTable() + Zeros(65280)
    requires Window(f, 3 * MiB + 65536, 256) == MetadataValues(size, ids.disk)
    ensures ReadVhdx(f, crc) == Some(Window(f, 4 * MiB, size))
  {
    hide Window, Sealed, HeaderFields, RegionFields, Bat, MetadataTable, MetadataValues, Blocks,
         HeaderOk, FindRegion, ReadMetadata, ReadDisk, Identifier, RegionEntry;
    HeaderRead(1, ids.file1, ids.data1, crc);
    HeaderRead(2, ids.file2, ids.data2, crc);
    RegionRead(crc);
    RegionsFound(Window(f, 192 * KiB, 65536));
    MetadataRead(f, size, ids.disk);
    DiskRead(f, size);
    SubWindowOf(f, 0, 256, 0, 8);
    IdentifierPieces();
  }

  lemma IdentifierPieces()
    ensures Identifier()[0..8] == Ascii("vhdxfile")
  {
    hide Ascii, Utf16;
    assert (Ascii("vhdxfile") + Utf16("cluster-api-provider-scvmm") + Zeros(196))[0..8] == Ascii("vhdxfile");
  }

  /**
   * The virtual disk of a written container is the image with the pad's bytes
   * cleared; so the disk is the image exactly when those bytes of the image
   * are zero, as they are for every image of at most 1 MiB less 256 bytes.
   */
  lemma WrittenContainerReads(fs: FileSystem, files: seq<CloudInitFile>, ids: Guids, crc: Crc)
    requires Ready(fs, files) && Blocks(|ImageOf(fs, files)|) <= 4096
    ensures var f := Applied([], VhdxWrites(fs, files, ids, crc)); var img := ImageOf(fs, files);
      && ReadVhdx(f, crc) == Some(PadCleared(img))
      && (ReadVhdx(f, crc) == Some(img) <==> forall i :: MiB - 256 <= i < MiB && i < |img| ==> img[i] == 0)
      && (|img| <= MiB - 256 ==> ReadVhdx(f, crc) == Some(img) && |f| == 5 * MiB)
  {
    hide Applied, VhdxWrites, Window, Identifier, Sealed, HeaderFields, RegionFields, Bat, MetadataTable, MetadataValues,
         ReadVhdx, ImageOf, Ready, Blocks;
    var img := ImageOf(fs, files);
    ImageShape(fs, files);
    StructuresStand(fs, files, ids, crc);
    VhdxArea(fs, files, ids, crc);
    BlocksBound(|img|);
    ContainerRead(Applied([], VhdxWrites(fs, files, ids, crc)), |img|, ids, crc);
    WhenCleared(img);
  }

  lemma BlocksBound(size: nat)
    requires Blocks(size) <= 4096
    ensures size < 0x1_0000_0000_0000_0000
  {
    UnitsCover(size, MiB);
  }

  lemma WhenCleared(img: seq<byte>)
    ensures PadCleared(img) == img <==> forall i :: MiB - 256 <= i < MiB && i < |img| ==> img[i] == 0
    ensures |img| <= MiB - 256 ==> PadCleared(img) == img
  {
    if forall i :: MiB - 256 <= i < MiB && i < |img| ==> img[i] == 0 {
      assert PadCleared(img) == img;
    } else {
      var i :| MiB - 256 <= i < MiB && i < |img| && img[i] != 0;
      assert PadCleared(img)[i] != img[i];
    }
  }
}

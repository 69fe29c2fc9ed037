// writeVHDX: wraps the image of a file system in a VHDX container.
module VhdxWriter {
  import opened Arith
  import opened Bytes
  import opened Wrappers
  import opened CloudInit
  import opened SparseFiles
  import opened VhdxLayout
  import FatVolume
  import FatWriter
  import IsoVolume
  import IsoWriter

  // ----- structures -------------------------------------------------------------------------

  method PutSum(sector: array<byte>, crc: Crc, ghost fields: seq<byte>)
    requires 8 <= |fields| <= sector.Length && sector[..] == fields + Zeros(sector.Length - |fields|)
    modifies sector
    ensures sector[..] == Sealed(fields, sector.Length, crc)
  {
    var checksum := crc(sector[..]);
    PutBytes(sector, 4, LeBytes(checksum, 4));
  }

  method PutHeaderFields(sector: array<byte>, sequence: nat, fileWrite: Guid, dataWrite: Guid, ghost z: seq<byte>)
    requires sector.Length == 4096 && z == Zeros(4096) && sector[..] == z
    modifies sector
    ensures sector[..] == Splice(z, 0, HeaderFields(sequence, fileWrite, dataWrite))
  {
    hide Splice, LeBytes, Ascii;
    var sign, number := Ascii("head"), LeBytes(sequence, 8);
    PutBytes(sector, 0, sign);
    PutBytes(sector, 8, number);
    SpliceGap(z, 0, sign, 4, number);
    PutBytes(sector, 16, fileWrite);
    SpliceTwice(z, 0, sign + Zeros(4) + number, fileWrite);
    PutBytes(sector, 32, dataWrite);
    SpliceTwice(z, 0, sign + Zeros(4) + number + fileWrite, dataWrite);
    ghost var d := sign + Zeros(4) + number + fileWrite + dataWrite;
    PutBytes(sector, 66, LeBytes(1, 2));
    SpliceGap(z, 0, d, 18, LeBytes(1, 2));
    PutBytes(sector, 68, LeBytes(MiB, 4));
    SpliceTwice(z, 0, d + Zeros(18) + LeBytes(1, 2), LeBytes(MiB, 4));
    PutBytes(sector, 72, LeBytes(MiB, 8));
    SpliceTwice(z, 0, d + Zeros(18) + LeBytes(1, 2) + LeBytes(MiB, 4), LeBytes(MiB, 8));
  }

  method MakeHeader(sequence: nat, fileWrite: Guid, dataWrite: Guid, crc: Crc) returns (sector: array<byte>)
    ensures fresh(sector) && sector[..] == Sealed(HeaderFields(sequence, fileWrite, dataWrite), 4096, crc)
  {
    hide Sealed, HeaderFields;
    sector := new byte[4096](_ => 0);
    assert sector[..] == Zeros(4096);
    PutHeaderFields(sector, sequence, fileWrite, dataWrite, sector[..]);
    SpliceZeros(HeaderFields(sequence, fileWrite, dataWrite), 4096);
    PutSum(sector, crc, HeaderFields(sequence, fileWrite, dataWrite));
  }

  method PutRegionEntry(sector: array<byte>, off: nat, guid: Guid, offMiB: nat, lenMiB: nat)
    requires ClearRange(sector[..], off, 32)
    modifies sector
    ensures sector[..] == Splice(old(sector[..]), off, RegionEntry(guid, offMiB, lenMiB))
  {
    hide Splice, LeBytes;
    ghost var s := sector[..];
    PutBytes(sector, off, guid);
    PutBytes(sector, off + 16, LeBytes(offMiB * MiB, 8));
    SpliceTwice(s, off, guid, LeBytes(offMiB * MiB, 8));
    PutBytes(sector, off + 24, LeBytes(lenMiB * MiB, 4));
    SpliceTwice(s, off, guid + LeBytes(offMiB * MiB, 8), LeBytes(lenMiB * MiB, 4));
    SpliceRest(s, off, guid + LeBytes(offMiB * MiB, 8) + LeBytes(lenMiB * MiB, 4), 4);
  }

  method MakeRegion(crc: Crc) returns (sector: array<byte>)
    ensures fresh(sector) && sector[..] == Sealed(RegionFields(), 65536, crc)
  {
    hide Sealed, RegionEntry, LeBytes, Ascii, Splice;
    sector := new byte[65536](_ => 0);
    ghost var z := Zeros(65536);
    assert sector[..] == z;
    var sign := Ascii("regi");
    PutBytes(sector, 0, sign);
    PutBytes(sector, 8, LeBytes(2, 4));
    SpliceGap(z, 0, sign, 4, LeBytes(2, 4));
    PutRegionEntry(sector, 16, GuidBat, 2, 1);
    SpliceGap(z, 0, sign + Zeros(4) + LeBytes(2, 4), 4, RegionEntry(GuidBat, 2, 1));
    PutRegionEntry(sector, 48, GuidMetadata, 3, 1);
    SpliceTwice(z, 0, sign + Zeros(4) + LeBytes(2, 4) + Zeros(4) + RegionEntry(GuidBat, 2, 1), RegionEntry(GuidMetadata, 3, 1));
    SpliceZeros(RegionFields(), 65536);
    PutSum(sector, crc, RegionFields());
  }

  method PutMetadata(sector: array<byte>, off: nat, guid: Guid, offs: nat, length: nat, flags: nat)
    requires ClearRange(sector[..], off, 32)
    modifies sector
    ensures sector[..] == Splice(old(sector[..]), off, MetadataEntry(guid, offs, length, flags))
  {
    hide Splice, LeBytes;
    ghost var s := sector[..];
    PutBytes(sector, off, guid);
    PutBytes(sector, off + 16, LeBytes(offs, 4));
    SpliceTwice(s, off, guid, LeBytes(offs, 4));
    PutBytes(sector, off + 20, LeBytes(length, 4));
    SpliceTwice(s, off, guid + LeBytes(offs, 4), LeBytes(length, 4));
    PutBytes(sector, off + 24, LeBytes(flags, 4));
    SpliceTwice(s, off, guid + LeBytes(offs, 4) + LeBytes(length, 4), LeBytes(flags, 4));
    SpliceRest(s, off, guid + LeBytes(offs, 4) + LeBytes(length, 4) + LeBytes(flags, 4), 4);
  }

  method MakeMetadataTable() returns (sector: array<byte>)
    ensures fresh(sector) && sector[..] == MetadataTable()
  {
    hide Splice, LeBytes, MetadataEntry, Ascii;
    sector := new byte[256](_ => 0);
    ghost var z := Zeros(256);
    assert sector[..] == z;
    var sign := Ascii("metadata");
    PutBytes(sector, 0, sign);
    PutBytes(sector, 10, LeBytes(5, 2));
    SpliceGap(z, 0, sign, 2, LeBytes(5, 2));
    ghost var d := sign + Zeros(2) + LeBytes(5, 2);
    PutMetadata(sector, 32, GuidFileParameters, 65536, 8, 4);
    SpliceGap(z, 0, d, 20, MetadataEntry(GuidFileParameters, 65536, 8, 4));
    d := d + Zeros(20) + MetadataEntry(GuidFileParameters, 65536, 8, 4);
    PutMetadataRest(sector, z, d);
  }

  method PutMetadataRest(sector: array<byte>, ghost z: seq<byte>, ghost d: seq<byte>)
    requires sector.Length == 256 && z == Zeros(256) && |d| == 64 && sector[..] == Splice(z, 0, d)
    modifies sector
    ensures sector[..] == d + MetadataEntry(GuidDiskSize, 65544, 8, 6) + MetadataEntry(GuidDiskId, 65552, 16, 6)
      + MetadataEntry(GuidLogicalSector, 65568, 4, 6) + MetadataEntry(GuidPhysicalSector, 65572, 4, 6) + Zeros(64)
  {
    hide MetadataEntry;
    ghost var a, b := MetadataEntry(GuidDiskSize, 65544, 8, 6), MetadataEntry(GuidDiskId, 65552, 16, 6);
    ghost var c, e := MetadataEntry(GuidLogicalSector, 65568, 4, 6), MetadataEntry(GuidPhysicalSector, 65572, 4, 6);
    PutMetadata(sector, 64, GuidDiskSize, 65544, 8, 6);
    SpliceTwice(z, 0, d, a);
    PutMetadata(sector, 96, GuidDiskId, 65552, 16, 6);
    SpliceTwice(z, 0, d + a, b);
    PutMetadata(sector, 128, GuidLogicalSector, 65568, 4, 6);
    SpliceTwice(z, 0, d + a + b, c);
    PutMetadata(sector, 160, GuidPhysicalSector, 65572, 4, 6);
    SpliceTwice(z, 0, d + a + b + c, e);
    SpliceZeros(d + a + b + c + e, 256);
  }

  method MakeMetadataValues(size: nat, diskId: Guid) returns (sector: array<byte>)
    ensures fresh(sector) && sector[..] == MetadataValues(size, diskId)
  {
    hide Splice, LeBytes;
    sector := new byte[256](_ => 0);
    ghost var z := Zeros(256);
    assert sector[..] == z;
    PutBytes(sector, 0, LeBytes(MiB, 4));
    PutBytes(sector, 4, LeBytes(1, 4));
    SpliceTwice(z, 0, LeBytes(MiB, 4), LeBytes(1, 4));
    PutBytes(sector, 8, LeBytes(size, 8));
    SpliceTwice(z, 0, LeBytes(MiB, 4) + LeBytes(1, 4), LeBytes(size, 8));
    ghost var d := LeBytes(MiB, 4) + LeBytes(1, 4) + LeBytes(size, 8);
    PutBytes(sector, 16, diskId);
    SpliceTwice(z, 0, d, diskId);
    PutBytes(sector, 32, LeBytes(512, 4));
    SpliceTwice(z, 0, d + diskId, LeBytes(512, 4));
    PutBytes(sector, 36, LeBytes(512, 4));
    SpliceTwice(z, 0, d + diskId + LeBytes(512, 4), LeBytes(512, 4));
    SpliceZeros(d + diskId + LeBytes(512, 4) + LeBytes(512, 4), 256);
  }

  method MakeIdentifier() returns (sector: array<byte>)
    ensures fresh(sector) && sector[..] == Identifier()
  {
    hide Splice, Ascii, Utf16;
    sector := new byte[256](_ => 0);
    ghost var z := Zeros(256);
    assert sector[..] == z;
    PutBytes(sector, 0, Ascii("vhdxfile"));
    PutBytes(sector, 8, Utf16("cluster-api-provider-scvmm"));
    SpliceTwice(z, 0, Ascii("vhdxfile"), Utf16("cluster-api-provider-scvmm"));
    SpliceZeros(Ascii("vhdxfile") + Utf16("cluster-api-provider-scvmm"), 256);
  }

  /** 6 and the block's place in the upper bits share no bit. */
  lemma {:induction false} EntryBits(b: nat)
    ensures BitOr(6, Shl(b + 4, 20)) == BatEntry(b)
  {
    Pow2Small();
    ShlIsProduct(b + 4, 20);
    ShlIsProduct(1, 20);
    BitOrDisjoint(6, b + 4, 20);
  }

  method MakeBat(size: nat) returns (sector: array<byte>)
    ensures fresh(sector) && sector[..] == Bat(size)
  {
    UnitsByDivision(size, MiB);
    var numblocks := TruncDiv(size - 1, MiB) + 1;
    sector := new byte[8 * (numblocks + 1)](_ => 0);
    assert sector[..] == BatTo(0) + Zeros(8 * (numblocks + 1));
    for b := 0 to numblocks
      invariant sector.Length == 8 * (numblocks + 1)
      invariant sector[..] == BatTo(b) + Zeros(8 * (numblocks + 1 - b))
    {
      EntryBits(b);
      var batEntry := BitOr(6, Shl(b + 4, 20));
      PutEntry(sector, b, numblocks + 1 - b, batEntry);
      assert BatTo(b + 1) == BatTo(b) + LeBytes(BatEntry(b), 8);
    }
    PutEntry(sector, numblocks, 1, 2);
    assert sector[..] == BatTo(numblocks) + LeBytes(2, 8) + Zeros(0);
  }

  method PutEntry(sector: array<byte>, b: nat, left: nat, entry: nat)
    requires left > 0 && sector[..] == BatTo(b) + Zeros(8 * left)
    modifies sector
    ensures sector[..] == BatTo(b) + LeBytes(entry, 8) + Zeros(8 * (left - 1))
  {
    hide LeBytes, BatTo, Splice;
    TailClear(BatTo(b), 8 * left, LeBytes(entry, 8));
    PutBytes(sector, 8 * b, LeBytes(entry, 8));
  }

  // ----- file systems ------------------------------------------------------------------------

  /** The file systems a container can hold; clock values are given. */
  datatype FileSystem = Vfat(stamp: seq<byte>) | Iso9660(date: seq<byte>, now: seq<byte>)

  /** What a handler asks of its caller. */
  predicate Ready(fs: FileSystem, files: seq<CloudInitFile>) {
    match fs
    case Vfat(stamp) => |stamp| == 4 && FatVolume.NamesHaveSixBytes(files) && FatVolume.BaseSectors(files) < 0xFFFF_FFFF
    case Iso9660(date, now) => |date| == 6 && |now| == 16
  }

  function ImageOf(fs: FileSystem, files: seq<CloudInitFile>): seq<byte>
    requires Ready(fs, files)
  {
    match fs
    case Vfat(stamp) => FatVolume.FatImage(files, stamp)
    case Iso9660(date, now) => IsoVolume.IsoImage(files, date, now)
  }

  /** Bytes at the start of the volume that the handler leaves unwritten. */
  function Unwritten(fs: FileSystem): nat {
    if fs.Vfat? then 0 else 32768
  }

  lemma VfatShape(files: seq<CloudInitFile>, stamp: seq<byte>)
    requires Ready(Vfat(stamp), files)
    ensures var img := ImageOf(Vfat(stamp), files);
      && img == FatVolume.FatImage(files, stamp) == img[0..]
      && 0 < |img| == 512 * FatVolume.GeometryOf(files).totalSectors
      && |img| % 512 == 0 && img[..0] == Zeros(0)
  {
    hide FatVolume.FatImage, FatVolume.LeastTable, FatVolume.Width, FatVolume.RootSectors;
    var img := FatVolume.FatImage(files, stamp);
    assert img[0..] == img && img[..0] == Zeros(0);
  }

  lemma Quadruple(n: nat)
    ensures (2048 * n) % 512 == 0
  {
    assert 2048 * n == 512 * (4 * n);
  }

  lemma IsoIsLarge(files: seq<CloudInitFile>)
    ensures IsoVolume.TotalSectors(files) >= 19
  {
  }

  lemma IsoShape(files: seq<CloudInitFile>, date: seq<byte>, now: seq<byte>)
    requires Ready(Iso9660(date, now), files)
    ensures var img := ImageOf(Iso9660(date, now), files);
      && 32768 < |img| == 2048 * IsoVolume.TotalSectors(files) && |img| % 512 == 0
      && img[..32768] == Zeros(32768) && img[32768..] == IsoVolume.IsoBody(files, date, now)
  {
    hide IsoVolume.IsoBody, IsoVolume.TotalSectors;
    IsoIsLarge(files);
    Quadruple(IsoVolume.TotalSectors(files));
    var z, body := Zeros(32768), IsoVolume.IsoBody(files, date, now);
    assert (z + body)[..32768] == z && (z + body)[32768..] == body;
  }

  lemma ImageShape(fs: FileSystem, files: seq<CloudInitFile>)
    requires Ready(fs, files)
    ensures var img := ImageOf(fs, files);
      && Unwritten(fs) < |img| && |img| % 512 == 0
      && img[..Unwritten(fs)] == Zeros(Unwritten(fs))
  {
    hide ImageOf, Zeros, FatVolume.GeometryOf, IsoVolume.TotalSectors, FatVolume.BaseSectors, FatVolume.NamesHaveSixBytes, FatVolume.FatImage, IsoVolume.IsoBody;
    match fs
    case Vfat(stamp) => VfatShape(files, stamp);
    case Iso9660(date, now) => IsoShape(files, date, now);
  }

  /** Runs the handler of the file system: a size query without a file, the image with one. */
  method RunHandler(fs: FileSystem, fh: SparseFile?, files: seq<CloudInitFile>, offset: nat) returns (r: Result<nat, WriteError>)
    requires Ready(fs, files)
    modifies if fh == null then {} else {fh}
    ensures r.Ok? ==> r.value == |ImageOf(fs, files)| && Unwritten(fs) <= r.value
    ensures fh != null && r.Ok? ==>
      && fh.bytes == Overlay(old(fh.bytes), offset + Unwritten(fs), ImageOf(fs, files)[Unwritten(fs)..])
      && TilesSince(old(fh.extents), fh.extents, offset + Unwritten(fs), offset + r.value)
  {
    hide ImageOf, FatVolume.GeometryOf, IsoVolume.TotalSectors, Overlay, TilesSince, FatVolume.FatImage, IsoVolume.IsoBody,
         FatVolume.Fits, IsoWriter.DirectoryPanics;
    match fs {
      case Vfat(stamp) =>
        VfatShape(files, stamp);
        r := FatWriter.WriteVfat(fh, files, offset, stamp);
      case Iso9660(date, now) =>
        IsoShape(files, date, now);
        r := IsoWriter.WriteIso(fh, files, offset, date, now);
    }
  }

  // ----- writeVHDX ---------------------------------------------------------------------------

  /** The file after the writes `ws`, in order. */
  function Applied(f: seq<byte>, ws: seq<Write>): seq<byte> {
    if ws == [] then f else Overlay(Applied(f, ws[..|ws| - 1]), ws[|ws| - 1].off, ws[|ws| - 1].data)
  }

  lemma {:induction false} AppliedStep(f: seq<byte>, ws: seq<Write>, w: Write)
    ensures Applied(f, ws + [w]) == Overlay(Applied(f, ws), w.off, w.data)
  {
    assert (ws + [w])[..|ws|] == ws;
  }

  function Extents(ws: seq<Write>): (es: seq<Extent>)
    ensures |es| == |ws|
  {
    if ws == [] then [] else Extents(ws[..|ws| - 1]) + [Extent(ws[|ws| - 1].off, |ws[|ws| - 1].data|)]
  }

  /** Performs write `k` of the list `ws`. */
  method PutAt(fh: SparseFile, w: Write, ghost was: seq<byte>, ghost es: seq<Extent>, ghost ws: seq<Write>, ghost k: nat)
    returns (ok: bool)
    requires k < |ws| && w == ws[k]
    requires fh.bytes == Applied(was, ws[..k]) && fh.extents == es + Extents(ws[..k])
    modifies fh
    ensures ok ==> fh.bytes == Applied(was, ws[..k + 1]) && fh.extents == es + Extents(ws[..k + 1])
  {
    hide Overlay;
    AppliedStep(was, ws[..k], w);
    assert ws[..k + 1] == ws[..k] + [w] && ws[..k + 1][..k] == ws[..k];
    var n;
    n, ok := fh.WriteAt(w.data, w.off);
  }

  lemma TheWrites(size: nat, ids: Guids, crc: Crc)
    ensures var ws := ContainerWrites(size, ids, crc);
      && ws[..0] == [] && ws[..8] == ws
      && ws[0] == Write(0, Identifier())
      && ws[1] == Write(64 * KiB, Sealed(HeaderFields(1, ids.file1, ids.data1), 4096, crc)[..256])
      && ws[2] == Write(128 * KiB, Sealed(HeaderFields(2, ids.file2, ids.data2), 4096, crc)[..256])
      && ws[3] == Write(192 * KiB, Sealed(RegionFields(), 65536, crc)[..256])
      && ws[4] == Write(256 * KiB, Sealed(RegionFields(), 65536, crc)[..256])
      && ws[5] == Write(2 * MiB, Bat(size))
      && ws[6] == Write(3 * MiB, MetadataTable())
      && ws[7] == Write(3 * MiB + 64 * KiB, MetadataValues(size, ids.disk))
  {
    hide Identifier, HeaderFields, RegionFields, Sealed, Bat, MetadataTable, MetadataValues;
  }

  method WriteContainer(fh: SparseFile, size: nat, ids: Guids, crc: Crc) returns (ok: bool)
    modifies fh
    ensures ok ==> fh.bytes == Applied(old(fh.bytes), ContainerWrites(size, ids, crc))
    ensures ok ==> fh.extents == old(fh.extents) + Extents(ContainerWrites(size, ids, crc))
  {
    hide *;
    ghost var was, es, ws := fh.bytes, fh.extents, ContainerWrites(size, ids, crc);
    NoWrites(was, es);
    TheWrites(size, ids, crc);
    var sector := MakeIdentifier();
    ok := PutAt(fh, Write(0, sector[..]), was, es, ws, 0);
    if !ok { return; }
    sector := MakeHeader(1, ids.file1, ids.data1, crc);
    ok := PutAt(fh, Write(64 * KiB, sector[..256]), was, es, ws, 1);
    if !ok { return; }
    sector := MakeHeader(2, ids.file2, ids.data2, crc);
    ok := PutAt(fh, Write(128 * KiB, sector[..256]), was, es, ws, 2);
    if !ok { return; }
    sector := MakeRegion(crc);
    ok := PutAt(fh, Write(192 * KiB, sector[..256]), was, es, ws, 3);
    if !ok { return; }
    sector := MakeRegion(crc);
    ok := PutAt(fh, Write(256 * KiB, sector[..256]), was, es, ws, 4);
    if !ok { return; }
    sector := MakeBat(size);
    ok := PutAt(fh, Write(2 * MiB, sector[..]), was, es, ws, 5);
    if !ok { return; }
    sector := MakeMetadataTable();
    ok := PutAt(fh, Write(3 * MiB, sector[..]), was, es, ws, 6);
    if !ok { return; }
    sector := MakeMetadataValues(size, ids.disk);
    ok := PutAt(fh, Write(3 * MiB + 64 * KiB, sector[..]), was, es, ws, 7);
  }

  lemma {:induction false} NoWrites(was: seq<byte>, es: seq<Extent>)
    ensures Applied(was, []) == was && es + Extents([]) == es
  {
  }

  /** The image as one write. */
  function ImageWrite(fs: FileSystem, files: seq<CloudInitFile>): Write
    requires Ready(fs, files)
  {
    ImageShape(fs, files);
    Write(4 * MiB + Unwritten(fs), ImageOf(fs, files)[Unwritten(fs)..])
  }

  function VhdxWrites(fs: FileSystem, files: seq<CloudInitFile>, ids: Guids, crc: Crc): (ws: seq<Write>)
    requires Ready(fs, files)
    ensures |ws| == 10
  {
    ContainerWrites(|ImageOf(fs, files)|, ids, crc) + [ImageWrite(fs, files)] + [PadWrite()]
  }

  lemma Rounded(n: nat)
    requires n > 0 && n % 512 == 0
    ensures (TruncDiv(n - 1, 512) + 1) * 512 == n
  {
  }

  lemma PadIsShort(n: nat)
    requires n > 0
    ensures (TruncDiv(n - 1, MiB) + 1) * MiB > 256
  {
  }

  /**
   * Writes the container around the image of the files. All writes before the
   * last one are the container's and the ones that tile the image; the last
   * one is the pad.
   */
  method WriteVhdx(fh: SparseFile, fs: FileSystem, files: seq<CloudInitFile>, ids: Guids, crc: Crc) returns (r: Result<(), WriteError>)
    requires Ready(fs, files)
    modifies fh
    ensures r.Ok? ==> fh.bytes == Applied(old(fh.bytes), VhdxWrites(fs, files, ids, crc))
    ensures r.Ok? ==>
      && |fh.extents| > 0 && fh.extents[|fh.extents| - 1] == Extent(PadWrite().off, 256)
      && TilesSince(old(fh.extents) + Extents(ContainerWrites(|ImageOf(fs, files)|, ids, crc)), fh.extents[..|fh.extents| - 1],
                    ImageWrite(fs, files).off, 4 * MiB + |ImageOf(fs, files)|)
  {
    hide Overlay, Applied, Extents, TilesSince, ContainerWrites, ImageOf, Ready, TruncDiv;
    ghost var was, es := fh.bytes, fh.extents;
    var query := RunHandler(fs, null, files, 0);
    if query.Err? {
      return Err(query.error);
    }
    ImageShape(fs, files);
    Rounded(query.value);
    var size := (TruncDiv(query.value - 1, 512) + 1) * 512;
    ghost var ws := ContainerWrites(size, ids, crc);
    var ok := WriteContainer(fh, size, ids, crc);
    if !ok {
      return Err(ShortWrite);
    }
    var image := RunHandler(fs, fh, files, 4 * MiB);
    if image.Err? {
      return Err(image.error);
    }
    AppliedStep(was, ws, ImageWrite(fs, files));
    PadIsShort(image.value);
    var padSize := (TruncDiv(image.value - 1, MiB) + 1) * MiB;
    if padSize > 256 {
      padSize := 256;
    }
    var padOff := MiB - padSize;
    AppliedStep(was, ws + [ImageWrite(fs, files)], PadWrite());
    var n;
    n, ok := fh.WriteAt(Zeros(padSize), 4 * MiB + padOff);
    if !ok {
      return Err(ShortWrite);
    }
    r := Ok(());
  }
}

// writeVFAT: sizes the volume, then writes the boot sector, the table, the
// root directory and the contents one after the other.
module FatWriter {
  import opened Arith
  import opened Bytes
  import opened Wrappers
  import opened CloudInit
  import opened SparseFiles
  import opened FatTable
  import opened FatDirectory
  import opened FatVolume

  // ----- counting -----------------------------------------------------------------

  /** Bytes of the root directory, and sectors of everything but the table. */
  method CountSectors(files: seq<CloudInitFile>) returns (dirents: nat, lastSector: nat)
    ensures dirents == 512 * RootSectors(files) && lastSector == BaseSectors(files)
  {
    dirents, lastSector := 1, 1;
    for i := 0 to |files|
      invariant dirents == EntriesTo(files, i) && lastSector == 1 + SectorsTo(files, i)
    {
      UnitsByDivision(|files[i].contents|, 512);
      UnitsByDivision(|files[i].filename|, 13);
      var fsz := TruncDiv(|files[i].contents| - 1, 512) + 1;
      lastSector := lastSector + fsz;
      var nsz := TruncDiv(|files[i].filename| - 1, 13) + 1 + 1;
      dirents := dirents + nsz;
    }
    UnitsByDivision(dirents * 32, 512);
    dirents := (TruncDiv(dirents * 32 - 1, 512) + 1) * 512;
    lastSector := lastSector + dirents / 512;
  }

  // ----- boot sector -----------------------------------------------------------------

  lemma Regroup(a: seq<byte>, b: seq<byte>, c: seq<byte>, d: seq<byte>, e: seq<byte>, f: seq<byte>)
    ensures a + b + c + d + e + f == a + (b + c + d + e + f)
  {
  }

  lemma RegroupMiddle(a: seq<byte>)
    ensures a + LeBytes(1, 2) + LeBytes(1, 2) + LeBytes(0, 4) + Zeros(6) + [0x29]
              + LeBytes(0x00C1_DA7A, 4) + Padded(Ascii("cidata"), 11)
         == a + BootMiddle()
  {
    hide LeBytes, Padded, Ascii, Zeros;
    var m := LeBytes(1, 2) + LeBytes(1, 2) + LeBytes(0, 4) + Zeros(6) + [0x29];
    var x, y := LeBytes(0x00C1_DA7A, 4), Padded(Ascii("cidata"), 11);
    Regroup(a, LeBytes(1, 2), LeBytes(1, 2), LeBytes(0, 4), Zeros(6), [0x29]);
    Associate3(a, m, x, y);
  }

  method MakeBootSector(g: Geometry) returns (sector: array<byte>)
    ensures fresh(sector) && sector[..] == BootSector(g)
  {
    sector := new byte[512](_ => 0);
    ghost var z := sector[..];
    assert z == Zeros(512);
    ghost var done := [0xEB, 0x3C, 0x90];
    PutBytes(sector, 0, [0xEB, 0x3C, 0x90]);
    PutBytes(sector, 3, Padded(Ascii("MSWIN4.1"), 8));
    SpliceTwice(z, 0, done, Padded(Ascii("MSWIN4.1"), 8));
    done := done + Padded(Ascii("MSWIN4.1"), 8);
    PutBytes(sector, 11, LeBytes(512, 2));
    SpliceTwice(z, 0, done, LeBytes(512, 2));
    done := done + LeBytes(512, 2);
    PutBytes(sector, 13, [1]);
    SpliceTwice(z, 0, done, [1]);
    done := done + [1];
    PutBytes(sector, 14, LeBytes(1, 2));
    SpliceTwice(z, 0, done, LeBytes(1, 2));
    done := done + LeBytes(1, 2);
    PutBytes(sector, 16, [1]);
    SpliceTwice(z, 0, done, [1]);
    done := BootHead();
    PutBootGeometry(sector, g, z);
    done := done + LeBytes(g.rootSectors * 16, 2) + LeBytes(g.totalSectors, 2) + [0xF8] + LeBytes(g.fatSectors, 2);
    PutBootRest(sector, TypeText(g.width), z, done);
    assert sector[..] == BootSector(g);
  }

  method PutBootGeometry(sector: array<byte>, g: Geometry, ghost z: seq<byte>)
    requires sector.Length == 512 == |z| && sector[..] == Splice(z, 0, BootHead())
    modifies sector
    ensures sector[..] == Splice(z, 0, BootHead() + LeBytes(g.rootSectors * 16, 2) + LeBytes(g.totalSectors, 2)
                                       + [0xF8] + LeBytes(g.fatSectors, 2))
  {
    var root, total, fats := LeBytes(g.rootSectors * 16, 2), LeBytes(g.totalSectors, 2), LeBytes(g.fatSectors, 2);
    PutBytes(sector, 17, root);
    SpliceTwice(z, 0, BootHead(), root);
    PutBytes(sector, 19, total);
    SpliceTwice(z, 0, BootHead() + root, total);
    PutBytes(sector, 21, [0xF8]);
    SpliceTwice(z, 0, BootHead() + root + total, [0xF8]);
    PutBytes(sector, 22, fats);
    SpliceTwice(z, 0, BootHead() + root + total + [0xF8], fats);
  }

  method PutBootMiddle(sector: array<byte>, ghost z: seq<byte>, ghost done: seq<byte>)
    requires sector.Length == 512 && z == Zeros(512) && |done| == 24
    requires sector[..] == Splice(z, 0, done)
    modifies sector
    ensures sector[..] == Splice(z, 0, done + BootMiddle())
  {
    var one, hidden, serial, volume := LeBytes(1, 2), LeBytes(0, 4), LeBytes(0x00C1_DA7A, 4), Padded(Ascii("cidata"), 11);
    PutBytes(sector, 24, one);
    SpliceTwice(z, 0, done, one);
    PutBytes(sector, 26, one);
    SpliceTwice(z, 0, done + one, one);
    PutBytes(sector, 28, hidden);
    SpliceTwice(z, 0, done + one + one, hidden);
    PutBytes(sector, 38, [0x29]);
    SpliceGap(z, 0, done + one + one + hidden, 6, [0x29]);
    PutBytes(sector, 39, serial);
    SpliceTwice(z, 0, done + one + one + hidden + Zeros(6) + [0x29], serial);
    PutBytes(sector, 43, volume);
    SpliceTwice(z, 0, done + one + one + hidden + Zeros(6) + [0x29] + serial, volume);
    RegroupMiddle(done);
  }

  method PutBootRest(sector: array<byte>, text: seq<byte>, ghost z: seq<byte>, ghost done: seq<byte>)
    requires sector.Length == 512 && z == Zeros(512) && |done| == 24 && |text| == 8
    requires sector[..] == Splice(z, 0, done)
    modifies sector
    ensures sector[..] == done + BootMiddle() + text + Zeros(450)
  {
    PutBootMiddle(sector, z, done);
    PutBytes(sector, 54, text);
    SpliceTwice(z, 0, done + BootMiddle(), text);
    SpliceZeros(done + BootMiddle() + text, 512);
  }

  // ----- table -------------------------------------------------------------------------

  /** The two reserved entries: the table's identifier and an end mark. */
  method PutReserved(sector: array<byte>, fatSize: nat) returns (fatOff: nat)
    requires 8 <= fatSize <= 32 && Room(2, fatSize, sector.Length)
    requires sector[..] == Zeros(sector.Length)
    modifies sector
    ensures fatOff == 2 && Holds(sector[..], [0xFFFF_FFF8, 0xFFFF_FFFF], fatSize)
  {
    LeNumZeros(sector.Length);
    RoomForFewer(1, 2, fatSize, sector.Length);
    ghost var none: seq<nat> := [];
    assert fatSize * |none| == 0;
    fatOff := PutNext(sector, 0, 0xFFFF_FFF8, fatSize, none);
    assert none + [0xFFFF_FFF8] == [0xFFFF_FFF8];
    fatOff := PutNext(sector, fatOff, 0xFFFF_FFFF, fatSize, [0xFFFF_FFF8]);
    assert [0xFFFF_FFF8] + [0xFFFF_FFFF] == [0xFFFF_FFF8, 0xFFFF_FFFF];
  }

  /** The chains of all files, one after the other. */
  method PutChains(sector: array<byte>, files: seq<CloudInitFile>, fatSize: nat) returns (starts: seq<nat>)
    requires 8 <= fatSize <= 32 && DataSectors(files) < 65525
    requires Room(StartOf(files, |files|), fatSize, sector.Length)
    requires Holds(sector[..], TableTo(files, 0), fatSize)
    modifies sector
    ensures Holds(sector[..], TableTo(files, |files|), fatSize)
    ensures |starts| == |files| && forall k :: 0 <= k < |files| ==> starts[k] == StartOf(files, k)
  {
    starts := [];
    var fatOff: nat := 2;
    for i := 0 to |files|
      invariant fatOff == StartOf(files, i)
      invariant Holds(sector[..], TableTo(files, i), fatSize)
      invariant |starts| == i && forall k :: 0 <= k < i ==> starts[k] == StartOf(files, k)
    {
      starts := starts + [fatOff];
      fatOff := PutChainOf(sector, fatOff, files, i, fatSize);
    }
  }

  method PutChainOf(sector: array<byte>, fatOff: nat, files: seq<CloudInitFile>, i: nat, fatSize: nat) returns (next: nat)
    requires i < |files| && 8 <= fatSize <= 32 && DataSectors(files) < 65525
    requires Room(StartOf(files, |files|), fatSize, sector.Length)
    requires fatOff == StartOf(files, i) && Holds(sector[..], TableTo(files, i), fatSize)
    modifies sector
    ensures next == StartOf(files, i + 1)
    ensures Holds(sector[..], TableTo(files, i + 1), fatSize)
  {
    hide Holds, Room, Units, Low, Shl;
    FileFits(files, i);
    SectorsMono(files, i + 1, |files|);
    RoomForFewer(StartOf(files, i + 1), StartOf(files, |files|), fatSize, sector.Length);
    next := PutFatChain(sector, fatOff, 512, |files[i].contents| % 0x1_0000_0000, fatSize, TableTo(files, i));
    assert TableTo(files, i) + Chain(fatOff, FileSectors(files[i])) == TableTo(files, i + 1);
  }

  lemma {:induction false} SectorsMono(files: seq<CloudInitFile>, j: nat, k: nat)
    requires j <= k <= |files|
    ensures SectorsTo(files, j) <= SectorsTo(files, k)
    decreases k - j
  {
    if j < k {
      SectorsMono(files, j, k - 1);
    }
  }

  /** Lengths of files that fit the volume are below 2^32. */
  lemma FileFits(files: seq<CloudInitFile>, i: nat)
    requires i < |files| && DataSectors(files) < 65525
    ensures FileSectors(files[i]) < 65525
    ensures |files[i].contents| % 0x1_0000_0000 == |files[i].contents| < 0x1_0000_0000
  {
    SectorsMono(files, i + 1, |files|);
    UnitsCover(|files[i].contents|, 512);
  }

  method MakeTable(files: seq<CloudInitFile>, g: Geometry) returns (sector: array<byte>, starts: seq<nat>)
    requires g == GeometryOf(files) && Fits(files)
    ensures fresh(sector) && sector[..] == TableBytes(files, g)
    ensures |starts| == |files| && forall k :: 0 <= k < |files| ==> starts[k] == StartOf(files, k)
  {
    hide Holds, Digits, LeNum, GeometryOf, Room;
    TableHasRoom(files);
    sector := new byte[512 * g.fatSectors](_ => 0);
    assert sector[..] == Zeros(sector.Length);
    RoomForFewer(2, 2 + DataSectors(files), g.width, sector.Length);
    var fatOff := PutReserved(sector, g.width);
    assert TableTo(files, 0) == [0xFFFF_FFF8, 0xFFFF_FFFF];
    starts := PutChains(sector, files, g.width);
    LeBytesOfNum(sector[..]);
  }

  /** The table is large enough for an entry of every cluster the files use. */
  lemma TableHasRoom(files: seq<CloudInitFile>)
    requires Fits(files)
    ensures var g := GeometryOf(files);
      && 8 <= g.width <= 32 && g.totalSectors < 65525
      && 2 + DataSectors(files) < g.totalSectors
      && Room(2 + DataSectors(files), g.width, 512 * g.fatSectors)
  {
    var g := GeometryOf(files);
    LeastTableIsLeast(BaseSectors(files));
    assert Covers(BaseSectors(files), g.fatSectors);
    TableBitsByWidth(g.totalSectors);
    MulMono(2 + DataSectors(files), g.totalSectors, g.width);
    MulMono(g.width, 16, g.totalSectors);
  }

  // ----- root directory -----------------------------------------------------------------

  /** One more file: its entries go where the clear tail begins. */
  method PutFile(sector: array<byte>, curOff: nat, files: seq<CloudInitFile>, i: nat, start: nat, stamp: seq<byte>)
    returns (next: nat)
    requires i < |files| && NamesHaveSixBytes(files) && |stamp| == 4 && DataSectors(files) < 65525
    requires start == StartOf(files, i) && curOff == 32 * EntriesTo(files, i)
    requires 32 * EntriesTo(files, i + 1) <= sector.Length
    requires sector[..] == DirentsTo(files, i, stamp) + Zeros(sector.Length - curOff)
    modifies sector
    ensures next == 32 * EntriesTo(files, i + 1)
    ensures sector[..] == DirentsTo(files, i + 1, stamp) + Zeros(sector.Length - next)
  {
    hide FileEntries, Splice;
    FileFits(files, i);
    var flen := |files[i].contents| % 0x1_0000_0000;
    ghost var piece := FileEntries(files[i].filename, start, flen, stamp);
    TailClear(DirentsTo(files, i, stamp), sector.Length - curOff, piece);
    next := PutVfatDirent(sector, curOff, files[i].filename, start, flen, stamp);
  }

  lemma {:induction false} EntriesMono(files: seq<CloudInitFile>, j: nat, k: nat)
    requires j <= k <= |files|
    ensures EntriesTo(files, j) <= EntriesTo(files, k)
    decreases k - j
  {
    if j < k {
      EntriesMono(files, j, k - 1);
    }
  }

  method MakeRoot(files: seq<CloudInitFile>, starts: seq<nat>, dirents: nat, stamp: seq<byte>) returns (sector: array<byte>)
    requires NamesHaveSixBytes(files) && |stamp| == 4 && DataSectors(files) < 65525
    requires dirents == 512 * RootSectors(files)
    requires |starts| == |files| && forall k :: 0 <= k < |files| ==> starts[k] == StartOf(files, k)
    ensures fresh(sector) && sector[..] == RootBytes(files, stamp)
  {
    hide VolumeEntry, FileEntries, FileEntryCount, NamesHaveSixBytes;
    sector := new byte[dirents](_ => 0);
    assert sector[..] == [] + Zeros(dirents);
    assert RootTail(files) >= 0;
    EntriesMono(files, 0, |files|);
    TailClear([], dirents, DirentsTo(files, 0, stamp));
    var curOff := PutDirent(sector, 0, Ascii("CIDATA"), 0x08, stamp);
    assert [] + DirentsTo(files, 0, stamp) == DirentsTo(files, 0, stamp);
    for i := 0 to |files|
      invariant curOff == 32 * EntriesTo(files, i) <= dirents
      invariant sector[..] == DirentsTo(files, i, stamp) + Zeros(dirents - curOff)
    {
      EntriesMono(files, i + 1, |files|);
      curOff := PutFile(sector, curOff, files, i, starts[i], stamp);
    }
  }

  // ----- writeVFAT -----------------------------------------------------------------------

  method PadContents(f: CloudInitFile) returns (contents: seq<byte>)
    ensures contents == PaddedContents(f)
  {
    UnitsByDivision(|f.contents|, 512);
    UnitsCover(|f.contents|, 512);
    var paddedLen := (TruncDiv(|f.contents| - 1, 512) + 1) * 512;
    contents := f.contents + Zeros(paddedLen - |f.contents|);
  }

  lemma DataStep(files: seq<CloudInitFile>, i: nat, done: seq<byte>)
    requires i < |files|
    ensures done + DataTo(files, i) + PaddedContents(files[i]) == done + DataTo(files, i + 1)
    ensures 512 * SectorsTo(files, i + 1) == 512 * SectorsTo(files, i) + |PaddedContents(files[i])|
  {
    assert done + (DataTo(files, i) + PaddedContents(files[i])) == done + DataTo(files, i) + PaddedContents(files[i]);
  }

  /** The contents, each padded to whole sectors. */
  method WriteContents(fh: SparseFile, files: seq<CloudInitFile>, offset: nat, ghost old_: seq<byte>, ghost start: nat,
                       ghost done: seq<byte>, ghost es: seq<Extent>) returns (ok: bool)
    requires offset == start + |done| && fh.bytes == Overlay(old_, start, done)
    requires TilesSince(es, fh.extents, start, offset)
    modifies fh
    ensures ok ==> fh.bytes == Overlay(old_, start, done + DataTo(files, |files|))
    ensures ok ==> TilesSince(es, fh.extents, start, offset + 512 * DataSectors(files))
  {
    var off := offset;
    assert done + DataTo(files, 0) == done && SectorsTo(files, 0) == 0;
    hide *;
    for i := 0 to |files|
      invariant off == offset + 512 * SectorsTo(files, i)
      invariant fh.bytes == Overlay(old_, start, done + DataTo(files, i))
      invariant TilesSince(es, fh.extents, start, off)
    {
      var contents := PadContents(files[i]);
      DataStep(files, i, done);
      var next;
      next, ok := Append(fh, contents, off, old_, start, done + DataTo(files, i), es);
      if !ok {
        return;
      }
      off := off + |contents|;
    }
    DataTotal(files);
    ok := true;
  }

  lemma {:induction false} DataTotal(files: seq<CloudInitFile>)
    ensures DataSectors(files) == SectorsTo(files, |files|)
  {
  }

  /**
   * Writes the files as a FAT volume at `offset` and returns its size; with
   * no file to write to, only computes the size.
   */
  method WriteVfat(fh: SparseFile?, files: seq<CloudInitFile>, offset: nat, stamp: seq<byte>)
    returns (r: Result<nat, WriteError>)
    requires |stamp| == 4 && BaseSectors(files) < 0xFFFF_FFFF
    requires fh != null ==> NamesHaveSixBytes(files)
    modifies if fh == null then {} else {fh}
    ensures r == Err(NeedsFat32) <==> !Fits(files)
    ensures fh == null && Fits(files) ==> r.Ok?
    ensures r.Ok? ==> r.value == 512 * GeometryOf(files).totalSectors
    ensures fh != null && r == Err(NeedsFat32) ==> fh.bytes == old(fh.bytes)
    ensures fh != null && r.Ok? ==>
      fh.bytes == Overlay(old(fh.bytes), offset, FatImage(files, stamp))
    ensures fh != null && r.Ok? ==> TilesSince(old(fh.extents), fh.extents, offset, offset + r.value)
  {
    hide Overlay, TilesSince, BootSector, TableBytes, RootBytes, DataTo, LeastTable, SectorsTo, RootSectors, Width;
    var dirents, base := CountSectors(files);
    var sizes := SizeTable(base);
    if sizes.None? {
      return Err(NeedsFat32);
    }
    var (fatSectorCount, lastSector, fatSize) := sizes.value;
    if fh == null {
      return Ok(512 * lastSector);
    }
    TableHasRoom(files);
    var g := Geometry(dirents / 512, fatSectorCount, lastSector, fatSize);
    ghost var was, es := fh.bytes, fh.extents;
    ghost var boot, table, root := BootSector(g), TableBytes(files, g), RootBytes(files, stamp);
    assert g == GeometryOf(files);

    var sector := MakeBootSector(g);
    NothingYet(was, es, offset);
    assert [] + boot == boot;
    var off, ok := Append(fh, sector[..], offset, was, offset, [], es);
    if !ok {
      return Err(ShortWrite);
    }
    var starts;
    sector, starts := MakeTable(files, g);
    off, ok := Append(fh, sector[..], off, was, offset, boot, es);
    if !ok {
      return Err(ShortWrite);
    }
    sector := MakeRoot(files, starts, dirents, stamp);
    off, ok := Append(fh, sector[..], off, was, offset, boot + table, es);
    if !ok {
      return Err(ShortWrite);
    }
    ok := WriteContents(fh, files, off, was, offset, boot + table + root, es);
    if !ok {
      return Err(ShortWrite);
    }
    r := Ok(512 * lastSector);
  }
}

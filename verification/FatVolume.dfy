// The layout of the FAT volume: sizes, the fixed point that sizes the table,
// and the bytes of the whole image.
module FatVolume {
  import opened Arith
  import opened Bytes
  import opened Wrappers
  import opened CloudInit
  import FatTable
  import FatDirectory

  // ----- sizes ------------------------------------------------------------------

  function FileSectors(f: CloudInitFile): (n: nat)
    ensures n >= 1
  {
    Units(|f.contents|, 512)
  }

  /** Sectors the contents of the first `k` files take; every file takes at least one. */
  function SectorsTo(files: seq<CloudInitFile>, k: nat): (n: nat)
    requires k <= |files|
    ensures n >= k
  {
    if k == 0 then 0 else SectorsTo(files, k - 1) + FileSectors(files[k - 1])
  }

  function DataSectors(files: seq<CloudInitFile>): nat {
    SectorsTo(files, |files|)
  }

  /** First cluster of file `k`; clusters are numbered from 2. */
  function StartOf(files: seq<CloudInitFile>, k: nat): nat
    requires k <= |files|
  {
    2 + SectorsTo(files, k)
  }

  /** Directory entries a name takes: the long name slots and a short entry. */
  function FileEntryCount(f: CloudInitFile): nat {
    Units(|f.filename|, 13) + 1
  }

  /** Directory entries of the volume and of the first `k` files. */
  function EntriesTo(files: seq<CloudInitFile>, k: nat): (n: nat)
    requires k <= |files|
    ensures n >= 1
  {
    if k == 0 then 1 else EntriesTo(files, k - 1) + FileEntryCount(files[k - 1])
  }

  /** Sectors of the root directory; the volume entry comes first. */
  function RootSectors(files: seq<CloudInitFile>): (n: nat)
    ensures n >= 1
  {
    Units(EntriesTo(files, |files|) * 32, 512)
  }

  /** Everything but the table: boot sector, root directory, contents. */
  function BaseSectors(files: seq<CloudInitFile>): nat {
    1 + DataSectors(files) + RootSectors(files)
  }

  function Width(total: nat): nat {
    if total >= 4086 then 16 else 12
  }

  /** Bits of a table with an entry for every one of `total` sectors. */
  function TableBits(total: nat): nat {
    if total >= 4086 then 16 * total else 12 * total
  }

  lemma TableBitsByWidth(total: nat)
    ensures TableBits(total) == Width(total) * total
  {
  }

  /** A table of `f` sectors has room for an entry for each of the `base` other sectors and its own. */
  predicate Covers(base: nat, f: nat) {
    TableBits(base + f) <= 4096 * f
  }

  lemma CoversInTime(base: nat)
    requires base >= 1
    ensures Covers(base, base + 16)
  {
    assert TableBits(2 * base + 16) <= 16 * (2 * base + 16);
  }

  function LeastTableFrom(base: nat, f: nat): nat
    requires base >= 1 && 1 <= f <= base + 16
    decreases base + 16 - f
  {
    if Covers(base, f) then f
    else
      CoversInTime(base);
      LeastTableFrom(base, f + 1)
  }

  /** The least size of a table that covers `base` other sectors and itself. */
  function LeastTable(base: nat): nat
    requires base >= 1
  {
    LeastTableFrom(base, 1)
  }

  lemma {:induction false} LeastTableFromIsLeast(base: nat, f: nat)
    requires base >= 1 && 1 <= f <= base + 16
    ensures f <= LeastTableFrom(base, f) && Covers(base, LeastTableFrom(base, f))
    ensures forall g :: f <= g < LeastTableFrom(base, f) ==> !Covers(base, g)
    decreases base + 16 - f
  {
    if !Covers(base, f) {
      CoversInTime(base);
      LeastTableFromIsLeast(base, f + 1);
    }
  }

  lemma LeastTableIsLeast(base: nat)
    requires base >= 1
    ensures 1 <= LeastTable(base) && Covers(base, LeastTable(base))
    ensures forall g :: 1 <= g < LeastTable(base) ==> !Covers(base, g)
  {
    LeastTableFromIsLeast(base, 1);
  }

  /** In entries of the width that each size has. */
  lemma NoneSmaller(base: nat)
    requires base >= 1
    ensures Width(base + LeastTable(base)) * (base + LeastTable(base)) <= 4096 * LeastTable(base)
    ensures forall g :: 1 <= g < LeastTable(base) ==> 4096 * g < Width(base + g) * (base + g)
  {
    LeastTableIsLeast(base);
    TableBitsByWidth(base + LeastTable(base));
    forall g | 1 <= g < LeastTable(base)
      ensures 4096 * g < Width(base + g) * (base + g)
    {
      assert !Covers(base, g);
      TableBitsByWidth(base + g);
    }
  }

  datatype Geometry = Geometry(rootSectors: nat, fatSectors: nat, totalSectors: nat, width: nat)

  /** No volume is written when it would need 32-bit entries. */
  predicate Fits(files: seq<CloudInitFile>) {
    BaseSectors(files) + LeastTable(BaseSectors(files)) < 65525
  }

  function GeometryOf(files: seq<CloudInitFile>): (g: Geometry) {
    var base := BaseSectors(files);
    var fats := LeastTable(base);
    Geometry(RootSectors(files), fats, base + fats, Width(base + fats))
  }

  /** Size in bits to bytes to sectors, rounding up: the least count whose sectors hold the bits. */
  method TableSectors(fatSize: nat, lastSector: nat) returns (count: nat)
    requires lastSector >= 1 && fatSize >= 1
    ensures 4096 * (count - 1) < fatSize * lastSector <= 4096 * count
  {
    assert fatSize * lastSector >= 1;
    var fat512 := (fatSize * lastSector - 1) / 8 + 1;
    count := (fat512 - 1) / 512 + 1;
  }

  /**
   * The loop that sizes the table. It jumps from each size to the size that
   * the total then needs, and stops at the least fixed point; it gives up
   * exactly when that least fixed point reaches 65525 sectors.
   */
  method SizeTable(base: nat) returns (r: Option<(nat, nat, nat)>)
    requires 1 <= base < 0xFFFF_FFFF
    ensures r.Some? <==> base + LeastTable(base) < 65525
    ensures r.Some? ==> r.value == (LeastTable(base), base + LeastTable(base), Width(base + LeastTable(base)))
    ensures r.Some? ==> var (f, total, width) := r.value;
      && 1 <= f && total == base + f < 65525
      && width == (if total >= 4086 then 16 else 12) && width * total <= 4096 * f
    ensures r.Some? ==> forall g :: 1 <= g < r.value.0 ==> 4096 * g < Width(base + g) * (base + g)
    ensures r.None? ==> forall g :: 1 <= g < 65525 - base ==> 4096 * g < Width(base + g) * (base + g)
  {
    LeastTableIsLeast(base);
    NoneSmaller(base);
    ghost var least := LeastTable(base);
    var lastSector := base;
    var fatSize := 12;
    var fatSectorCount := 0;
    var extraSectors := 1;
    while extraSectors > fatSectorCount
      invariant 0 <= fatSectorCount <= least && extraSectors <= least
      invariant lastSector == base + fatSectorCount
      invariant fatSectorCount == 0 ==> fatSize == 12 && extraSectors == 1
      invariant fatSectorCount > 0 ==> fatSize == Width(lastSector) && TableBits(lastSector) <= 4096 * extraSectors
      invariant fatSectorCount > 0 ==> lastSector < 65525
      decreases least - fatSectorCount
    {
      lastSector := lastSector + (extraSectors - fatSectorCount);
      fatSectorCount := extraSectors;
      if lastSector >= 4086 {
        fatSize := 16;
      }
      if lastSector >= 65525 {
        return None;
      }
      extraSectors := TableSectors(fatSize, lastSector);
      TableBitsByWidth(lastSector);
      assert TableBits(lastSector) <= TableBits(base + least) <= 4096 * least;
    }
    assert Covers(base, fatSectorCount);
    r := Some((fatSectorCount, lastSector, fatSize));
  }

  // ----- the image ----------------------------------------------------------------

  function BootHead(): (s: seq<byte>)
    ensures |s| == 17
  {
    [0xEB, 0x3C, 0x90] + Padded(Ascii("MSWIN4.1"), 8) + LeBytes(512, 2) + [1] + LeBytes(1, 2) + [1]
  }

  function BootMiddle(): (s: seq<byte>)
    ensures |s| == 30
  {
    LeBytes(1, 2) + LeBytes(1, 2) + LeBytes(0, 4) + Zeros(6) + [0x29]
      + LeBytes(0x00C1_DA7A, 4) + Padded(Ascii("cidata"), 11)
  }

  function TypeText(width: nat): (s: seq<byte>)
    ensures |s| == 8
  {
    Padded(if width == 16 then Ascii("FAT16") else Ascii("FAT12"), 8)
  }

  function BootSector(g: Geometry): (s: seq<byte>)
    ensures |s| == 512
  {
    BootHead() + LeBytes(g.rootSectors * 16, 2) + LeBytes(g.totalSectors, 2) + [0xF8]
      + LeBytes(g.fatSectors, 2) + BootMiddle() + TypeText(g.width) + Zeros(450)
  }

  /** The chains of the first `k` files, one after the other. */
  function ChainsTo(files: seq<CloudInitFile>, k: nat): (es: seq<nat>)
    requires k <= |files|
    ensures |es| == SectorsTo(files, k)
  {
    if k == 0 then []
    else ChainsTo(files, k - 1) + FatTable.Chain(StartOf(files, k - 1), FileSectors(files[k - 1]))
  }

  /** The table up to file `k`: the identifier, an end mark, the chains. */
  function TableTo(files: seq<CloudInitFile>, k: nat): (es: seq<nat>)
    requires k <= |files|
    ensures |es| == StartOf(files, k)
  {
    [0xFFFF_FFF8, 0xFFFF_FFFF] + ChainsTo(files, k)
  }

  function TableBytes(files: seq<CloudInitFile>, g: Geometry): (s: seq<byte>)
    ensures |s| == 512 * g.fatSectors
  {
    LeBytes(FatTable.Digits(TableTo(files, |files|), g.width), 512 * g.fatSectors)
  }

  predicate NamesHaveSixBytes(files: seq<CloudInitFile>) {
    forall i :: 0 <= i < |files| ==> |files[i].filename| >= 6
  }

  /** The directory entries of the volume and of the first `k` files. */
  function DirentsTo(files: seq<CloudInitFile>, k: nat, stamp: seq<byte>): (s: seq<byte>)
    requires k <= |files| && NamesHaveSixBytes(files) && |stamp| == 4
    ensures |s| == 32 * EntriesTo(files, k)
  {
    if k == 0 then FatDirectory.VolumeEntry(Ascii("CIDATA"), 0x08, stamp)
    else
      DirentsTo(files, k - 1, stamp)
      + FatDirectory.FileEntries(files[k - 1].filename, StartOf(files, k - 1), |files[k - 1].contents|, stamp)
  }

  /** Clear bytes after the last entry of the root directory. */
  function RootTail(files: seq<CloudInitFile>): (n: nat)
    ensures 32 * EntriesTo(files, |files|) + n == 512 * RootSectors(files)
  {
    UnitsCover(EntriesTo(files, |files|) * 32, 512);
    512 * RootSectors(files) - 32 * EntriesTo(files, |files|)
  }

  function RootBytes(files: seq<CloudInitFile>, stamp: seq<byte>): (s: seq<byte>)
    requires NamesHaveSixBytes(files) && |stamp| == 4
    ensures |s| == 512 * RootSectors(files)
  {
    DirentsTo(files, |files|, stamp) + Zeros(RootTail(files))
  }

  /** Contents padded with zeros to whole sectors. */
  function PaddedContents(f: CloudInitFile): (s: seq<byte>)
    ensures |s| == 512 * FileSectors(f)
    ensures |f.contents| <= |s| && s[..|f.contents|] == f.contents
  {
    UnitsCover(|f.contents|, 512);
    f.contents + Zeros(512 * FileSectors(f) - |f.contents|)
  }

  /** The padded contents of the first `k` files. */
  function DataTo(files: seq<CloudInitFile>, k: nat): (s: seq<byte>)
    requires k <= |files|
    ensures |s| == 512 * SectorsTo(files, k)
  {
    if k == 0 then [] else DataTo(files, k - 1) + PaddedContents(files[k - 1])
  }

  function FatImage(files: seq<CloudInitFile>, stamp: seq<byte>): (s: seq<byte>)
    requires NamesHaveSixBytes(files) && |stamp| == 4
    ensures |s| == 512 * GeometryOf(files).totalSectors
  {
    var g := GeometryOf(files);
    BootSector(g) + TableBytes(files, g) + RootBytes(files, stamp) + DataTo(files, |files|)
  }
}

// Further properties of the written FAT volume: exactly when it reads back,
// how the chains share out the clusters, and where the recorded type departs
// from the specification's cluster count rule.
module FatProperties {
  import opened Arith
  import opened Bytes
  import opened Wrappers
  import opened CloudInit
  import opened FatChecksum
  import opened FatDirectory
  import opened FatDirectoryReader
  import opened FatVolume
  import opened FatWriter
  import opened FatReader
  import opened FatRoundTrip

  // ----- when the volume reads back -----------------------------------------------------------

  /** Entries of a directory that can stand for a file: no slots, no volume names. */
  function FileEntriesIn(dir: seq<byte>): nat {
    if |dir| < 32 then 0
    else (if dir[11] % 64 != 0x0F && dir[11] / 8 % 2 == 0 then 1 else 0) + FileEntriesIn(dir[32..])
  }

  lemma {:induction false} AtMostFileEntries(dir: seq<byte>, p: Pending)
    requires ParseDir(dir, p).Some?
    ensures |ParseDir(dir, p).value| <= FileEntriesIn(dir)
    decreases |dir|
  {
    hide TakeSlot, EntryName, Le;
    if |dir| >= 32 && dir[0] != 0 {
      var e, rest := dir[..32], dir[32..];
      if e[0] == 0xE5 {
        AtMostFileEntries(rest, NoName);
      } else if e[11] % 64 == 0x0F {
        AtMostFileEntries(rest, TakeSlot(e, p).value);
      } else {
        AtMostFileEntries(rest, NoName);
      }
    }
  }

  lemma {:induction false} EntriesInParts(a: seq<byte>, b: seq<byte>)
    requires |a| % 32 == 0
    ensures FileEntriesIn(a + b) == FileEntriesIn(a) + FileEntriesIn(b)
    decreases |a|
  {
    if a == [] {
      assert a + b == b;
    } else {
      assert (a + b)[32..] == a[32..] + b;
      EntriesInParts(a[32..], b);
    }
  }

  lemma {:induction false} NoFileInSlots(name: seq<byte>, nameseq: nat, n: nat, sum: byte)
    ensures FileEntriesIn(Slots(name, nameseq, n, sum)) == 0
    decreases nameseq
  {
    if nameseq > 0 {
      NoFileInSlots(name, nameseq - 1, n, sum);
      EntriesInParts(Slot(name, nameseq, n, sum), Slots(name, nameseq - 1, n, sum));
      OneEntry(Slot(name, nameseq, n, sum));
    }
  }

  lemma {:induction false} OneEntry(e: seq<byte>)
    requires |e| == 32
    ensures FileEntriesIn(e) == if e[11] % 64 != 0x0F && e[11] / 8 % 2 == 0 then 1 else 0
  {
    assert e[32..] == [];
  }

  lemma OneFileInEntries(name: seq<byte>, start: nat, flen: nat, stamp: seq<byte>)
    requires |name| >= 6 && |stamp| == 4
    ensures FileEntriesIn(FileEntries(name, start, flen, stamp)) == 1
  {
    hide Slots, ShortEntry, Units, NameSum, Padded, ShortName, FileEntriesIn;
    var n, sum := Units(|name|, 13), NameSum(Padded(ShortName(name), 11));
    NoFileInSlots(name, n, n, sum);
    EntriesInParts(Slots(name, n, n, sum), ShortEntry(name, start, flen, stamp));
    ShortEntryPieces(name, start, flen, stamp);
    OneEntry(ShortEntry(name, start, flen, stamp));
  }

  lemma VolumeIsNoFile(stamp: seq<byte>)
    requires |stamp| == 4
    ensures FileEntriesIn(VolumeEntry(Ascii("CIDATA"), 0x08, stamp)) == 0
  {
    var e := VolumeEntry(Ascii("CIDATA"), 0x08, stamp);
    assert e[11] == 0x08;
    OneEntry(e);
  }

  lemma {:induction false} FilesInDirents(files: seq<CloudInitFile>, k: nat, stamp: seq<byte>)
    requires k <= |files| && NamesHaveSixBytes(files) && |stamp| == 4
    ensures FileEntriesIn(DirentsTo(files, k, stamp)) == k
  {
    hide FileEntries, VolumeEntry, FileEntriesIn;
    if k == 0 {
      VolumeIsNoFile(stamp);
    } else {
      var piece := FileEntries(files[k - 1].filename, StartOf(files, k - 1), |files[k - 1].contents|, stamp);
      FilesInDirents(files, k - 1, stamp);
      OneMoreFile(files, k, stamp);
      EntriesInParts(DirentsTo(files, k - 1, stamp), piece);
    }
  }

  lemma OneMoreFile(files: seq<CloudInitFile>, k: nat, stamp: seq<byte>)
    requires 0 < k <= |files| && NamesHaveSixBytes(files) && |stamp| == 4
    ensures FileEntriesIn(FileEntries(files[k - 1].filename, StartOf(files, k - 1), |files[k - 1].contents|, stamp)) == 1
  {
    hide FileEntries, FileEntriesIn;
    OneFileInEntries(files[k - 1].filename, StartOf(files, k - 1), |files[k - 1].contents|, stamp);
  }

  /** A directory cut short before the last file's entries shows fewer files. */
  lemma {:induction false} CutDirectory(files: seq<CloudInitFile>, stamp: seq<byte>, entries: nat, p: Pending)
    requires files != [] && NamesHaveSixBytes(files) && |stamp| == 4
    requires entries <= EntriesTo(files, |files| - 1)
    ensures 32 * entries <= |RootBytes(files, stamp)|
    ensures var r := ParseDir(RootBytes(files, stamp)[..32 * entries], p); r.Some? ==> |r.value| < |files|
  {
    hide ParseDir, FileEntriesIn, FileEntries, NamesHaveSixBytes, Zeros, RootSectors;
    var n := |files| - 1;
    var before := DirentsTo(files, n, stamp);
    var cut := RootBytes(files, stamp)[..32 * entries];
    assert cut == before[..32 * entries];
    assert before == cut + before[32 * entries..];
    EntriesInParts(cut, before[32 * entries..]);
    FilesInDirents(files, n, stamp);
    if ParseDir(cut, p).Some? {
      AtMostFileEntries(cut, p);
    }
  }

  lemma {:induction false} AsManyFiles(img: seq<byte>, l: Layout, fat: seq<byte>, es: seq<DirEntry>)
    requires l.sectorSize > 0 && ReadFiles(img, l, fat, es).Some?
    ensures |ReadFiles(img, l, fat, es).value| == |es|
  {
    hide ReadFile;
    if es != [] {
      AsManyFiles(img, l, fat, es[1..]);
    }
  }

  /** A recorded entry count that lost its high bits is below the entries of all files but the last. */
  lemma {:induction false} LostEntries(files: seq<CloudInitFile>)
    requires forall i :: 0 <= i < |files| ==> ValidName(files[i].filename)
    requires RootSectors(files) * 16 >= 0x1_0000
    ensures files != [] && RootSectors(files) * 16 % 0x1_0000 <= EntriesTo(files, |files| - 1)
  {
    hide Units, ValidName;
    RootIsTight(EntriesTo(files, |files|));
    if files == [] {
      NoFilesNoRoot(files);
    } else {
      NameIsShort(files[|files| - 1]);
    }
  }

  lemma {:induction false} RootIsTight(entries: nat)
    requires entries > 0
    ensures Units(entries * 32, 512) * 16 <= entries + 15
  {
    UnitsCover(entries * 32, 512);
  }

  lemma NoFilesNoRoot(files: seq<CloudInitFile>)
    requires files == []
    ensures RootSectors(files) == 1
  {
  }

  lemma NameIsShort(f: CloudInitFile)
    requires ValidName(f.filename)
    ensures FileEntryCount(f) <= 21
  {
    UnitsCover(|f.filename|, 13);
  }

  lemma LayoutCut(g: Geometry, rest: seq<byte>)
    requires g.totalSectors < 0x1_0000 && g.fatSectors < 0x1_0000 && (g.width == 12 || g.width == 16)
    ensures var l := ReadLayout(BootSector(g) + rest);
      && l.Some? && l.value == LayoutOf(g).(rootEntries := g.rootSectors * 16 % 0x1_0000)
  {
    hide BootSector, Le;
    var img := BootSector(g) + rest;
    BootPieces(g, rest);
    HeadRead(img);
    LowHalf(g.rootSectors * 16);
    LeIs(img, 17, g.rootSectors * 16);
    U16Read(img, 19, g.totalSectors);
    U16Read(img, 22, g.fatSectors);
    TypeTexts();
  }

  lemma {:induction false} LeIs(img: seq<byte>, off: nat, v: nat)
    requires off + 2 <= |img| && img[off..off + 2] == LeBytes(v, 2)
    ensures Le(img, off, 2) == LeNum(LeBytes(v, 2))
  {
  }

  lemma CutRegions(img: seq<byte>, l: Layout, root: seq<byte>, fats: nat, n: nat)
    requires l.sectorSize == 512 && l.reserved == 1 && l.tables == 1 && l.tableSectors == fats
    requires ReadLayout(img) == Some(l)
    requires 512 + 512 * fats + |root| <= |img| && img[512 + 512 * fats..512 + 512 * fats + |root|] == root
    requires 32 * l.rootEntries <= |root|
    requires var r := ParseDir(root[..32 * l.rootEntries], NoName); r.Some? ==> |r.value| < n
    ensures var v := ReadVolume(img); v.Some? ==> |v.value| < n
  {
    hide ReadLayout, ParseDir, ReadFiles;
    var at, size := 512 + 512 * fats, 32 * l.rootEntries;
    assert l.TableStart() == 512 && l.TableSize() == 512 * fats && l.RootStart() == at && l.RootSize() == size;
    assert img[at..at + size] == img[at..at + |root|][..size];
    var es := ParseDir(root[..size], NoName);
    var fat := img[512..512 + 512 * fats];
    if es.Some? && ReadFiles(img, l, fat, es.value).Some? {
      AsManyFiles(img, l, fat, es.value);
    }
  }

  lemma CutVolume(files: seq<CloudInitFile>, stamp: seq<byte>)
    requires Fits(files) && |stamp| == 4 && NamesHaveSixBytes(files)
    requires forall i :: 0 <= i < |files| ==> ValidName(files[i].filename)
    requires RootSectors(files) * 16 >= 0x1_0000
    ensures ReadVolume(FatImage(files, stamp)) != Some(files)
  {
    hide FatImage, BootSector, TableBytes, RootBytes, DataTo, ReadVolume, ReadLayout, ParseDir, EntriesTo, ValidName, LeastTable, Width;
    var g, img := GeometryOf(files), FatImage(files, stamp);
    ClustersBelowReserved(files);
    ImageRegions(files, stamp);
    ImageFromBoot(files, stamp);
    LayoutCut(g, TableBytes(files, g) + RootBytes(files, stamp) + DataTo(files, |files|));
    LostEntries(files);
    var l := LayoutOf(g).(rootEntries := g.rootSectors * 16 % 0x1_0000);
    CutDirectory(files, stamp, l.rootEntries, NoName);
    CutRegions(img, l, RootBytes(files, stamp), g.fatSectors, |files|);
  }

  lemma {:induction false} ImageFromBoot(files: seq<CloudInitFile>, stamp: seq<byte>)
    requires |stamp| == 4 && NamesHaveSixBytes(files)
    ensures var g := GeometryOf(files);
      FatImage(files, stamp) == BootSector(g) + (TableBytes(files, g) + RootBytes(files, stamp) + DataTo(files, |files|))
  {
    hide BootSector, TableBytes, RootBytes, DataTo, GeometryOf;
    var g := GeometryOf(files);
    Associate3(BootSector(g), TableBytes(files, g), RootBytes(files, stamp), DataTo(files, |files|));
  }

  /**
   * A volume with valid names reads back exactly when its count of root
   * entries fits the 16 bits the boot sector has for it.
   */
  lemma ReadsBackExactly(files: seq<CloudInitFile>, stamp: seq<byte>)
    requires Fits(files) && |stamp| == 4
    requires forall i :: 0 <= i < |files| ==> ValidName(files[i].filename)
    ensures NamesHaveSixBytes(files)
    ensures ReadVolume(FatImage(files, stamp)) == Some(files) <==> RootSectors(files) * 16 < 0x1_0000
  {
    hide FatImage, ReadVolume, Fits, RootSectors;
    assert NamesHaveSixBytes(files);
    if RootSectors(files) * 16 < 0x1_0000 {
      WrittenVolumeReads(files, stamp);
    } else {
      CutVolume(files, stamp);
    }
  }

  // ----- chains ------------------------------------------------------------------------------

  /** The file a cluster belongs to. */
  function OwnerOf(files: seq<CloudInitFile>, c: nat, k: nat): nat
    requires k <= |files| && 2 <= c < StartOf(files, k)
  {
    if StartOf(files, k - 1) <= c then k - 1 else OwnerOf(files, c, k - 1)
  }

  lemma {:induction false} OwnerIsRight(files: seq<CloudInitFile>, c: nat, k: nat)
    requires k <= |files| && 2 <= c < StartOf(files, k)
    ensures OwnerOf(files, c, k) < k
    ensures StartOf(files, OwnerOf(files, c, k)) <= c < StartOf(files, OwnerOf(files, c, k) + 1)
  {
    hide FileSectors;
    if StartOf(files, k - 1) > c {
      OwnerIsRight(files, c, k - 1);
    }
  }

  /**
   * The chains share out the clusters 2 to 1 + the data sectors: every one of
   * them is on the chain of exactly one file, and each chain is the run of
   * consecutive clusters from the file's start, as many as its contents need.
   */
  lemma {:induction false} ChainsPartition(files: seq<CloudInitFile>, c: nat)
    requires Fits(files) && 2 <= c < 2 + DataSectors(files)
    ensures var g := GeometryOf(files); var k := OwnerOf(files, c, |files|);
      && k < |files|
      && (forall j :: 0 <= j < |files| ==>
        FollowChain(TableBytes(files, g), g.width, StartOf(files, j), g.totalSectors)
        == Some(Range(StartOf(files, j), Units(|files[j].contents|, 512))))
      && c in Range(StartOf(files, k), FileSectors(files[k]))
      && (forall j :: 0 <= j < |files| && c in Range(StartOf(files, j), FileSectors(files[j])) ==> j == k)
  {
    hide FollowChain, TableBytes, GeometryOf, Fits, OwnerOf;
    var g, k := GeometryOf(files), OwnerOf(files, c, |files|);
    OwnerIsRight(files, c, |files|);
    assert Range(StartOf(files, k), FileSectors(files[k]))[c - StartOf(files, k)] == c;
    forall j | 0 <= j < |files|
      ensures FollowChain(TableBytes(files, g), g.width, StartOf(files, j), g.totalSectors)
           == Some(Range(StartOf(files, j), Units(|files[j].contents|, 512)))
      ensures c in Range(StartOf(files, j), FileSectors(files[j])) ==> j == k
    {
      ChainOfFile(files, j);
      if j < k {
        SectorsMono(files, j + 1, k);
      } else if k < j {
        SectorsMono(files, k + 1, j);
      }
    }
  }

  // ----- the type rule -----------------------------------------------------------------------

  /** The width the specification gives to a volume by its count of clusters. */
  function WidthByClusters(clusters: nat): nat {
    if clusters < 4085 then 12 else if clusters < 65525 then 16 else 32
  }

  /**
   * The recorded type agrees with the specification's cluster count except for
   * volumes of at least 4086 sectors of which fewer than 4085 hold contents.
   */
  lemma TypeRuleWindow(files: seq<CloudInitFile>)
    requires Fits(files)
    ensures GeometryOf(files).width != WidthByClusters(DataSectors(files))
       <==> GeometryOf(files).totalSectors >= 4086 && DataSectors(files) < 4085
  {
    ClustersBelowReserved(files);
  }
}

// Reading back a written volume: the reader of the FAT specification finds
// exactly the files that were written, with their names and contents.
module FatRoundTrip {
  import opened Arith
  import opened Bytes
  import opened Wrappers
  import opened CloudInit
  import opened FatTable
  import opened FatDirectory
  import opened FatDirectoryReader
  import opened FatVolume
  import opened FatWriter
  import opened FatReader

  /** The names the volume can carry, and a root directory its entry count can describe. */
  predicate Storable(files: seq<CloudInitFile>) {
    && (forall i :: 0 <= i < |files| ==> ValidName(files[i].filename))
    && RootSectors(files) * 16 < 0x1_0000
    && Fits(files)
  }

  // ----- layout ---------------------------------------------------------------------------

  function LayoutOf(g: Geometry): Layout {
    Layout(512, 1, 1, 1, g.rootSectors * 16, g.totalSectors, g.fatSectors, g.width)
  }

  lemma BootSplit(h: seq<byte>, r: seq<byte>, t: seq<byte>, e: seq<byte>, f: seq<byte>, m: seq<byte>, x: seq<byte>, z: seq<byte>)
    requires |h| == 17 && |r| == 2 && |t| == 2 && |e| == 1 && |f| == 2 && |m| == 30 && |x| == 8
    ensures var s := h + r + t + e + f + m + x + z;
      s[..17] == h && s[17..19] == r && s[19..21] == t && s[22..24] == f && s[54..62] == x
  {
    var s := h + r + t + e + f + m + x + z;
    assert s[..17] == h;
    assert s[17..19] == r;
    assert s[19..21] == t;
    assert s[22..24] == f;
    assert s[54..62] == x;
  }

  /** The geometry fields of the boot sector. */
  lemma BootPieces(g: Geometry, rest: seq<byte>)
    ensures var img := BootSector(g) + rest;
      && |img| >= 512 && img[..17] == BootHead()
      && img[17..19] == LeBytes(g.rootSectors * 16, 2) && img[19..21] == LeBytes(g.totalSectors, 2)
      && img[22..24] == LeBytes(g.fatSectors, 2) && img[54..62] == TypeText(g.width)
  {
    var r, t, f := LeBytes(g.rootSectors * 16, 2), LeBytes(g.totalSectors, 2), LeBytes(g.fatSectors, 2);
    BootSplit(BootHead(), r, t, [0xF8], f, BootMiddle(), TypeText(g.width), Zeros(450));
    var img := BootSector(g) + rest;
    Inside(img, 0, 512, BootSector(g), 0, 17);
    Inside(img, 0, 512, BootSector(g), 17, 19);
    Inside(img, 0, 512, BootSector(g), 19, 21);
    Inside(img, 0, 512, BootSector(g), 22, 24);
    Inside(img, 0, 512, BootSector(g), 54, 62);
  }

  lemma HeadFields()
    ensures var h := BootHead();
      h[11..13] == LeBytes(512, 2) && h[13] == 1 && h[14..16] == LeBytes(1, 2) && h[16] == 1
  {
    var a, b := [0xEB, 0x3C, 0x90] + Padded(Ascii("MSWIN4.1"), 8), LeBytes(512, 2);
    var h := BootHead();
    assert h == a + b + ([1] + LeBytes(1, 2) + [1]);
    PieceAt(a, b, [1] + LeBytes(1, 2) + [1], 11, 2);
    assert h == a + b + [1] + LeBytes(1, 2) + [1];
    PieceAt(a + b + [1], LeBytes(1, 2), [1], 14, 2);
  }

  lemma TypeTexts()
    ensures TypeText(16) == Ascii("FAT16   ") && TypeText(12) == Ascii("FAT12   ")
    ensures Ascii("FAT16   ") != Ascii("FAT12   ")
  {
    assert Ascii("FAT16   ")[3] != Ascii("FAT12   ")[3] || Ascii("FAT16   ")[4] != Ascii("FAT12   ")[4];
  }

  lemma HeadRead(img: seq<byte>)
    requires |img| >= 17 && img[..17] == BootHead()
    ensures Le(img, 11, 2) == 512 && img[13] == 1 && Le(img, 14, 2) == 1 && img[16] == 1
  {
    hide BootHead, LeBytes, LeNum;
    HeadFields();
    Inside(img, 0, 17, BootHead(), 11, 13);
    Inside(img, 0, 17, BootHead(), 14, 16);
    assert img[13] == img[..17][13] && img[16] == img[..17][16];
    U16Read(img, 11, 512);
    U16Read(img, 14, 1);
  }

  lemma {:induction false} U16Read(img: seq<byte>, off: nat, v: nat)
    requires v < 0x1_0000 && off + 2 <= |img| && img[off..off + 2] == LeBytes(v, 2)
    ensures Le(img, off, 2) == v
  {
    FieldSizes();
    FieldRoundTrip(v, 2);
  }

  lemma LayoutRead(g: Geometry, rest: seq<byte>)
    requires g.rootSectors * 16 < 0x1_0000 && g.totalSectors < 0x1_0000 && g.fatSectors < 0x1_0000
    requires g.width == 12 || g.width == 16
    ensures ReadLayout(BootSector(g) + rest) == Some(LayoutOf(g))
  {
    var img := BootSector(g) + rest;
    BootPieces(g, rest);
    HeadRead(img);
    U16Read(img, 17, g.rootSectors * 16);
    U16Read(img, 19, g.totalSectors);
    U16Read(img, 22, g.fatSectors);
    TypeTexts();
  }

  // ----- directory ------------------------------------------------------------------------

  /** The directory entries of the first `k` files as they are read. */
  function EntryList(files: seq<CloudInitFile>, k: nat): (es: seq<DirEntry>)
    requires k <= |files|
    ensures |es| == k
    ensures forall i :: 0 <= i < k ==>
      es[i] == DirEntry(files[i].filename, StartOf(files, i), |files[i].contents|)
  {
    if k == 0 then []
    else EntryList(files, k - 1) + [DirEntry(files[k - 1].filename, StartOf(files, k - 1), |files[k - 1].contents|)]
  }

  lemma {:induction false} DirentsRead(files: seq<CloudInitFile>, k: nat, stamp: seq<byte>, rest: seq<byte>)
    requires k <= |files| && |stamp| == 4 && DataSectors(files) < 65525
    requires NamesHaveSixBytes(files) && forall i :: 0 <= i < |files| ==> ValidName(files[i].filename)
    requires ParseDir(rest, NoName).Some?
    ensures ParseDir(DirentsTo(files, k, stamp) + rest, NoName)
         == Some(EntryList(files, k) + ParseDir(rest, NoName).value)
  {
    hide ParseDir, FileEntries, FileSectors, Units, Le, VolumeEntry, EntriesTo;
    if k == 0 {
      ParseVolumeEntry(Ascii("CIDATA"), stamp, rest);
      assert EntryList(files, 0) + ParseDir(rest, NoName).value == ParseDir(rest, NoName).value;
    } else {
      var f, start := files[k - 1], StartOf(files, k - 1);
      var piece := FileEntries(f.filename, start, |f.contents|, stamp);
      FileFits(files, k - 1);
      SectorsMono(files, k - 1, |files|);
      ParseFileEntries(f.filename, start, |f.contents|, stamp, rest);
      Associate(DirentsTo(files, k - 1, stamp), piece, rest);
      DirentsRead(files, k - 1, stamp, piece + rest);
      EntryListStep(EntryList(files, k - 1), DirEntry(f.filename, start, |f.contents|), ParseDir(rest, NoName).value);
    }
  }

  lemma EntryListStep(a: seq<DirEntry>, e: DirEntry, b: seq<DirEntry>)
    ensures a + ([e] + b) == a + [e] + b
  {
  }

  lemma {:induction false} RootRead(files: seq<CloudInitFile>, stamp: seq<byte>)
    requires NamesHaveSixBytes(files) && Storable(files) && |stamp| == 4 && DataSectors(files) < 65525
    ensures ParseDir(RootBytes(files, stamp), NoName) == Some(EntryList(files, |files|))
  {
    hide ParseDir, DirentsTo, RootTail, ValidName;
    ParseClear(RootTail(files), NoName);
    DirentsRead(files, |files|, stamp, Zeros(RootTail(files)));
    assert EntryList(files, |files|) + [] == EntryList(files, |files|);
  }

  // ----- chains ---------------------------------------------------------------------------

  /** Where a file's chain stands in the table. */
  lemma {:induction false} ChainInTable(files: seq<CloudInitFile>, k: nat, n: nat, j: nat)
    requires k < n <= |files| && j < FileSectors(files[k])
    ensures StartOf(files, k) + j < |TableTo(files, n)|
    ensures TableTo(files, n)[StartOf(files, k) + j] == Chain(StartOf(files, k), FileSectors(files[k]))[j]
    decreases n
  {
    if n == k + 1 {
      assert TableTo(files, n) == TableTo(files, k) + Chain(StartOf(files, k), FileSectors(files[k]));
    } else {
      ChainInTable(files, k, n - 1, j);
      assert TableTo(files, n)
          == TableTo(files, n - 1) + Chain(StartOf(files, n - 1), FileSectors(files[n - 1]));
    }
  }

  /** No cluster number of a volume that fits comes near the reserved values of its width. */
  lemma ClustersBelowReserved(files: seq<CloudInitFile>)
    requires Fits(files)
    ensures var g := GeometryOf(files);
      && (g.width == 12 || g.width == 16)
      && 2 + DataSectors(files) < g.totalSectors < 65525
      && 2 + DataSectors(files) < if g.width == 12 then 0xFF0 else 0xFFF0
  {
    var g := GeometryOf(files);
    LeastTableIsLeast(BaseSectors(files));
    assert Covers(BaseSectors(files), g.fatSectors);
    assert g.totalSectors == 1 + DataSectors(files) + RootSectors(files) + g.fatSectors;
  }

  lemma TableSizes(files: seq<CloudInitFile>)
    requires Fits(files)
    ensures var g := GeometryOf(files);
      |TableTo(files, |files|)| * g.width <= 8 * |TableBytes(files, g)|
      && LeNum(TableBytes(files, g)) == Digits(TableTo(files, |files|), g.width)
  {
    hide Digits, TableTo, Shl, GeometryOf, Fits, LeNum, LeBytes;
    var g := GeometryOf(files);
    TableHasRoom(files);
    DigitsBound(TableTo(files, |files|), g.width);
    ShlGrows(g.width * |TableTo(files, |files|)|, 8 * |TableBytes(files, g)|);
    FieldRoundTrip(Digits(TableTo(files, |files|), g.width), 512 * g.fatSectors);
  }

  lemma {:induction false} DigitsBound(es: seq<nat>, w: nat)
    ensures Digits(es, w) < Shl(1, w * |es|)
  {
    if es == [] {
      assert w * |es| == 0;
    } else {
      DigitsBound(es[1..], w);
      LowBound(es[0], w);
      var m := |es| - 1;
      assert w * |es| == w * m + w;
      ShlMono(Digits(es[1..], w) + 1, Shl(1, w * m), w);
      ShlAdd(Digits(es[1..], w), 1, w);
      ShlShl(1, w * m, w);
    }
  }

  lemma {:induction false} LowSmall(v: nat, w: nat)
    requires v < Shl(1, w)
    ensures Low(v, w) == v
  {
    ShlZero(w);
    LowShrOfSum(v, 0, w);
  }

  lemma {:induction false} LinkBits(v: nat, w: nat)
    requires w == 12 || w == 16
    requires v < if w == 12 then 0xFF0 else 0xFFF0
    ensures Low(v, w) == v && !IsEnd(w, v)
  {
    FieldSizes();
    ByteBits(0);
    ShlShl(1, 8, 4);
    assert Shl(256, 1) == 512 && Shl(256, 2) == 1024 && Shl(256, 3) == 2048 && Shl(256, 4) == 4096;
    LowSmall(v, w);
  }

  lemma {:induction false} EndBits(w: nat)
    requires w == 12 || w == 16
    ensures IsEnd(w, Low(0xFFFF_FFFF, w))
  {
    Pow2Small();
    ShiftsArePowers(0xFFFF_FFFF, 12);
    ShiftsArePowers(0xFFFF_FFFF, 16);
  }

  function Range(a: nat, n: nat): (s: seq<nat>)
    ensures |s| == n
    ensures forall i :: 0 <= i < n ==> s[i] == a + i
  {
    seq(n, i requires i >= 0 => a + i)
  }

  lemma EntryDecoded(files: seq<CloudInitFile>, k: nat, j: nat)
    requires Fits(files) && k < |files| && j < FileSectors(files[k])
    ensures var g := GeometryOf(files);
      FatEntry(TableBytes(files, g), g.width, StartOf(files, k) + j)
      == Some(Low(Chain(StartOf(files, k), FileSectors(files[k]))[j], g.width))
  {
    var g := GeometryOf(files);
    ClustersBelowReserved(files);
    TableSizes(files);
    ChainInTable(files, k, |files|, j);
    DecoderReadsEntries(TableBytes(files, g), TableTo(files, |files|), g.width, StartOf(files, k) + j);
  }

  lemma ClusterInRange(files: seq<CloudInitFile>, k: nat, j: nat)
    requires Fits(files) && k < |files| && j < FileSectors(files[k])
    ensures var w := GeometryOf(files).width;
      (w == 12 || w == 16) && 2 <= StartOf(files, k) + j < StartOf(files, k) + j + 1 < if w == 12 then 0xFF0 else 0xFFF0
  {
    ClustersBelowReserved(files);
    SectorsMono(files, k + 1, |files|);
  }

  /** The entry of a file's cluster `j`, as the standard's decoder reads it. */
  lemma LinkRead(files: seq<CloudInitFile>, k: nat, j: nat)
    requires Fits(files) && k < |files| && j < FileSectors(files[k])
    ensures var g := GeometryOf(files); var c := StartOf(files, k) + j;
      && (g.width == 12 || g.width == 16) && !IsReserved(g.width, c)
      && var v := FatEntry(TableBytes(files, g), g.width, c);
      v.Some? && if j + 1 < FileSectors(files[k]) then v.value == c + 1 && !IsEnd(g.width, v.value) else IsEnd(g.width, v.value)
  {
    var w, c := GeometryOf(files).width, StartOf(files, k) + j;
    EntryDecoded(files, k, j);
    ClusterInRange(files, k, j);
    if j + 1 < FileSectors(files[k]) {
      LinkBits(c + 1, w);
    } else {
      EndBits(w);
    }
  }

  /** The reader walks a file's clusters in order, from any of them to the end mark. */
  lemma {:induction false} ChainRead(files: seq<CloudInitFile>, k: nat, j: nat, fuel: nat)
    requires Fits(files) && k < |files| && j < FileSectors(files[k])
    requires fuel >= FileSectors(files[k]) - j
    ensures var g := GeometryOf(files);
      FollowChain(TableBytes(files, g), g.width, StartOf(files, k) + j, fuel)
      == Some(Range(StartOf(files, k) + j, FileSectors(files[k]) - j))
    decreases FileSectors(files[k]) - j
  {
    hide TableBytes, GeometryOf, FatEntry, StartOf, FileSectors;
    var c, n := StartOf(files, k) + j, FileSectors(files[k]);
    LinkRead(files, k, j);
    if j + 1 < n {
      ChainRead(files, k, j + 1, fuel - 1);
      assert Range(c, n - j) == [c] + Range(c + 1, n - (j + 1));
    } else {
      assert Range(c, n - j) == [c];
    }
  }

  // ----- contents -------------------------------------------------------------------------

  lemma {:induction false} DataOfFile(files: seq<CloudInitFile>, k: nat, n: nat)
    requires k < n <= |files|
    ensures SectorsTo(files, k + 1) <= SectorsTo(files, n)
    ensures DataTo(files, n)[512 * SectorsTo(files, k)..512 * SectorsTo(files, k + 1)] == PaddedContents(files[k])
    decreases n
  {
    if n > k + 1 {
      DataOfFile(files, k, n - 1);
      SectorsMono(files, k, k + 1);
      Prefix(DataTo(files, n - 1), PaddedContents(files[n - 1]), 512 * SectorsTo(files, k), 512 * SectorsTo(files, k + 1));
    }
  }

  /** Clusters in a row are one stretch of the image. */
  lemma {:induction false} ClustersInRow(img: seq<byte>, data: nat, a: nat, n: nat)
    requires a >= 2 && data + (a - 2 + n) * 512 <= |img|
    ensures ReadClusters(img, data, 512, Range(a, n)) == Some(img[data + (a - 2) * 512..data + (a - 2 + n) * 512])
    decreases n
  {
    if n == 0 {
      assert Range(a, n) == [] && img[data + (a - 2) * 512..data + (a - 2 + n) * 512] == [];
    } else {
      ClustersInRow(img, data, a + 1, n - 1);
      assert Range(a, n)[1..] == Range(a + 1, n - 1) && Range(a, n)[0] == a;
      Joined(img, data + (a - 2) * 512, data + (a - 1) * 512, data + (a - 2 + n) * 512);
    }
  }

  lemma Joined(s: seq<byte>, i: nat, j: nat, k: nat)
    requires i <= j <= k <= |s|
    ensures s[i..j] + s[j..k] == s[i..k]
  {
  }

  // ----- the image ------------------------------------------------------------------------

  lemma FourRegions(b: seq<byte>, t: seq<byte>, r: seq<byte>, d: seq<byte>)
    ensures var s := b + t + r + d;
      && s[|b|..|b| + |t|] == t
      && s[|b| + |t|..|b| + |t| + |r|] == r
      && s[|b| + |t| + |r|..] == d
  {
  }

  lemma {:induction false} ImageRegions(files: seq<CloudInitFile>, stamp: seq<byte>)
    requires NamesHaveSixBytes(files) && |stamp| == 4
    ensures var g := GeometryOf(files); var img := FatImage(files, stamp);
      var t, r := 512 * g.fatSectors, 512 * g.rootSectors;
      && |img| == 512 + t + r + 512 * DataSectors(files)
      && img[512..512 + t] == TableBytes(files, g)
      && img[512 + t..512 + t + r] == RootBytes(files, stamp)
      && img[512 + t + r..] == DataTo(files, |files|)
  {
    var g := GeometryOf(files);
    FourRegions(BootSector(g), TableBytes(files, g), RootBytes(files, stamp), DataTo(files, |files|));
  }

  lemma DataStartOf(g: Geometry)
    ensures LayoutOf(g).DataStart() == 512 + 512 * g.fatSectors + 512 * g.rootSectors
  {
    assert (g.rootSectors * 512 + 511) / 512 == g.rootSectors;
  }

  /** The data area of the image holds the padded contents at the file's clusters. */
  lemma ContentsInImage(files: seq<CloudInitFile>, stamp: seq<byte>, k: nat)
    requires NamesHaveSixBytes(files) && |stamp| == 4 && k < |files|
    ensures var g := GeometryOf(files); var img := FatImage(files, stamp);
      var data := 512 + 512 * g.fatSectors + 512 * g.rootSectors;
      && data + 512 * SectorsTo(files, k + 1) <= |img|
      && SectorsTo(files, k) <= SectorsTo(files, k + 1)
      && img[data + 512 * SectorsTo(files, k)..data + 512 * SectorsTo(files, k + 1)] == PaddedContents(files[k])
  {
    hide FatImage, GeometryOf, DataTo, PaddedContents, SectorsTo, RootBytes, TableBytes, BootSector;
    var g, img := GeometryOf(files), FatImage(files, stamp);
    var data := 512 + 512 * g.fatSectors + 512 * g.rootSectors;
    ImageRegions(files, stamp);
    DataOfFile(files, k, |files|);
    SectorsMono(files, k, k + 1);
    Shifted(img, data, 512 * SectorsTo(files, k), 512 * SectorsTo(files, k + 1));
  }

  lemma {:induction false} FileFromParts(img: seq<byte>, g: Geometry, fat: seq<byte>, f: CloudInitFile, c: nat)
    requires FollowChain(fat, g.width, c, g.totalSectors) == Some(Range(c, FileSectors(f)))
    requires ReadClusters(img, 512 + 512 * g.fatSectors + 512 * g.rootSectors, 512, Range(c, FileSectors(f)))
          == Some(PaddedContents(f))
    ensures ReadFile(img, LayoutOf(g), fat, DirEntry(f.filename, c, |f.contents|)) == Some(f)
  {
    DataStartOf(g);
    assert CloudInitFile(f.filename, PaddedContents(f)[..|f.contents|]) == f;
  }

  lemma ClustersOfFile(files: seq<CloudInitFile>, stamp: seq<byte>, k: nat)
    requires NamesHaveSixBytes(files) && |stamp| == 4 && k < |files|
    ensures var g := GeometryOf(files);
      ReadClusters(FatImage(files, stamp), 512 + 512 * g.fatSectors + 512 * g.rootSectors, 512,
                   Range(StartOf(files, k), FileSectors(files[k]))) == Some(PaddedContents(files[k]))
  {
    hide FatImage, GeometryOf, ReadClusters, PaddedContents, DataTo;
    var g := GeometryOf(files);
    ContentsInImage(files, stamp, k);
    ClustersInRow(FatImage(files, stamp), 512 + 512 * g.fatSectors + 512 * g.rootSectors,
                  StartOf(files, k), FileSectors(files[k]));
  }

  lemma ChainOfFile(files: seq<CloudInitFile>, k: nat)
    requires Fits(files) && k < |files|
    ensures var g := GeometryOf(files);
      FollowChain(TableBytes(files, g), g.width, StartOf(files, k), g.totalSectors)
      == Some(Range(StartOf(files, k), FileSectors(files[k])))
  {
    hide FollowChain, TableBytes, GeometryOf;
    ClustersBelowReserved(files);
    SectorsMono(files, k + 1, |files|);
    ChainRead(files, k, 0, GeometryOf(files).totalSectors);
  }

  lemma FileRead(files: seq<CloudInitFile>, stamp: seq<byte>, k: nat)
    requires Fits(files) && |stamp| == 4 && k < |files| && NamesHaveSixBytes(files)
    ensures var g := GeometryOf(files);
      ReadFile(FatImage(files, stamp), LayoutOf(g), TableBytes(files, g),
               DirEntry(files[k].filename, StartOf(files, k), |files[k].contents|))
      == Some(files[k])
  {
    hide *;
    var g := GeometryOf(files);
    ChainOfFile(files, k);
    ClustersOfFile(files, stamp, k);
    FileFromParts(FatImage(files, stamp), g, TableBytes(files, g), files[k], StartOf(files, k));
  }

  lemma {:induction false} FilesRead(img: seq<byte>, l: Layout, fat: seq<byte>, es: seq<DirEntry>, files: seq<CloudInitFile>)
    requires l.sectorSize > 0 && |es| == |files|
    requires forall k :: 0 <= k < |files| ==> ReadFile(img, l, fat, es[k]) == Some(files[k])
    ensures ReadFiles(img, l, fat, es) == Some(files)
  {
    if files != [] {
      FilesRead(img, l, fat, es[1..], files[1..]);
      assert files == [files[0]] + files[1..];
    }
  }

  lemma {:induction false} AllFilesRead(files: seq<CloudInitFile>, stamp: seq<byte>)
    requires Fits(files) && |stamp| == 4 && NamesHaveSixBytes(files)
    ensures var g := GeometryOf(files);
      ReadFiles(FatImage(files, stamp), LayoutOf(g), TableBytes(files, g), EntryList(files, |files|)) == Some(files)
  {
    var g, img, es := GeometryOf(files), FatImage(files, stamp), EntryList(files, |files|);
    var fat := TableBytes(files, g);
    forall k | 0 <= k < |files|
      ensures ReadFile(img, LayoutOf(g), fat, es[k]) == Some(files[k])
    {
      FileRead(files, stamp, k);
    }
    FilesRead(img, LayoutOf(g), fat, es, files);
  }

  /**
   * What is written reads back: on every list of files with storable names
   * that fits, the reader returns the same names and contents in order.
   */
  lemma WrittenVolumeReads(files: seq<CloudInitFile>, stamp: seq<byte>)
    requires Storable(files) && |stamp| == 4
    ensures NamesHaveSixBytes(files)
    ensures ReadVolume(FatImage(files, stamp)) == Some(files)
  {
    hide FatImage, GeometryOf, TableBytes, RootBytes, ReadRegions, ReadFiles, ReadLayout, ParseDir;
    var g, img := GeometryOf(files), FatImage(files, stamp);
    ClustersBelowReserved(files);
    ImageRegions(files, stamp);
    ImageLayout(files, stamp);
    RootRead(files, stamp);
    AllFilesRead(files, stamp);
    LayoutRegions(g);
    RegionsFromParts(img, LayoutOf(g), TableBytes(files, g), RootBytes(files, stamp), EntryList(files, |files|), files);
  }

  lemma ImageLayout(files: seq<CloudInitFile>, stamp: seq<byte>)
    requires Storable(files) && |stamp| == 4 && NamesHaveSixBytes(files)
    ensures ReadLayout(FatImage(files, stamp)) == Some(LayoutOf(GeometryOf(files)))
  {
    var g := GeometryOf(files);
    ClustersBelowReserved(files);
    Associate3(BootSector(g), TableBytes(files, g), RootBytes(files, stamp), DataTo(files, |files|));
    LayoutRead(g, TableBytes(files, g) + RootBytes(files, stamp) + DataTo(files, |files|));
  }

  lemma LayoutRegions(g: Geometry)
    ensures var l := LayoutOf(g);
      && l.TableStart() == 512 && l.TableSize() == 512 * g.fatSectors
      && l.RootStart() == 512 + 512 * g.fatSectors && l.RootSize() == 512 * g.rootSectors
  {
  }

  lemma {:induction false} RegionsFromParts(img: seq<byte>, l: Layout, fat: seq<byte>, root: seq<byte>, es: seq<DirEntry>, files: seq<CloudInitFile>)
    requires l.sectorSize > 0 && 512 + |fat| + |root| <= |img|
    requires img[512..512 + |fat|] == fat && img[512 + |fat|..512 + |fat| + |root|] == root
    requires ParseDir(root, NoName) == Some(es) && ReadFiles(img, l, fat, es) == Some(files)
    ensures ReadRegions(img, l, 512, |fat|, 512 + |fat|, |root|) == Some(files)
  {
  }

}

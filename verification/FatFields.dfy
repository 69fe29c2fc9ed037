// What the bytes of a written FAT volume are, field by field, and how its
// sizes follow from the files. The reader needs only some of these fields;
// other readers may use the rest.
module FatFields {
  import opened Arith
  import opened Bytes
  import opened CloudInit
  import opened Wrappers
  import opened FatChecksum
  import opened FatDirectory
  import opened FatVolume
  import FatTable
  import FatWriter
  import FatReader
  import FatRoundTrip

  // ----- sizes ------------------------------------------------------------------

  /**
   * Clusters are numbered from 2, file by file, as many as the contents need;
   * the directory has an entry for the volume, and for each file one for each
   * 13 characters of its name and one more; 16 entries are a sector. The total
   * is the boot sector, the table, the directory and the clusters.
   */
  lemma {:induction false} Sizes(files: seq<CloudInitFile>)
    ensures StartOf(files, 0) == 2 && EntriesTo(files, 0) == 1
    ensures forall k :: 0 <= k < |files| ==>
      && Needs(|files[k].contents|, 512, StartOf(files, k + 1) - StartOf(files, k))
      && Needs(|files[k].filename|, 13, EntriesTo(files, k + 1) - EntriesTo(files, k) - 1)
    ensures var g := GeometryOf(files);
      && Needs(EntriesTo(files, |files|), 16, g.rootSectors)
      && g.totalSectors == 1 + g.fatSectors + g.rootSectors + StartOf(files, |files|) - 2
      && g.width == (if g.totalSectors >= 4086 then 16 else 12)
      && g.width * g.totalSectors <= 4096 * g.fatSectors
  {
    hide Units, LeastTable;
    forall k | 0 <= k < |files|
      ensures Needs(|files[k].contents|, 512, StartOf(files, k + 1) - StartOf(files, k))
      ensures Needs(|files[k].filename|, 13, EntriesTo(files, k + 1) - EntriesTo(files, k) - 1)
    {
      UnitsNeeded(|files[k].contents|, 512);
      UnitsNeeded(|files[k].filename|, 13);
    }
    UnitsNeeded(EntriesTo(files, |files|) * 32, 512);
    NoneSmaller(BaseSectors(files));
  }

  // ----- boot sector ------------------------------------------------------------

  lemma BootHeadBytes()
    ensures BootHead() == [0xEB, 0x3C, 0x90] + Ascii("MSWIN4.1") + [0, 2, 1, 1, 0, 1]
  {
    TwoBytes(512);
    TwoBytes(1);
    assert Padded(Ascii("MSWIN4.1"), 8) == Ascii("MSWIN4.1");
  }

  lemma BootMiddleBytes()
    ensures BootMiddle() == [1, 0, 1, 0] + Zeros(10) + [0x29, 0x7A, 0xDA, 0xC1, 0x00] + Ascii("cidata     ")
  {
    TwoBytes(1);
    FourBytes(0);
    FourBytes(0x00C1_DA7A);
    assert Padded(Ascii("cidata"), 11) == Ascii("cidata     ");
  }

  lemma BootParts(h: seq<byte>, r: seq<byte>, t: seq<byte>, e: seq<byte>, f: seq<byte>, m: seq<byte>, x: seq<byte>, z: seq<byte>)
    requires |h| == 17 && |r| == 2 && |t| == 2 && |e| == 1 && |f| == 2 && |m| == 30 && |x| == 8 && |z| == 450
    ensures var s := h + r + t + e + f + m + x + z;
      && s[..17] == h && s[17..19] == r && s[19..21] == t && s[21..22] == e && s[22..24] == f
      && s[24..54] == m && s[54..62] == x && s[62..512] == z
  {
    var s := h + r + t + e + f + m + x + z;
    assert s[..17] == h;
    assert s[17..19] == r;
    assert s[19..21] == t;
    assert s[21..22] == e;
    assert s[22..24] == f;
    assert s[24..54] == m;
    assert s[54..62] == x;
    assert s[62..512] == z;
  }

  /** Every byte of the boot sector. */
  lemma BootBytes(g: Geometry)
    requires g.width == 12 || g.width == 16
    ensures var s, roots := BootSector(g), 16 * g.rootSectors;
      && s[..17] == [0xEB, 0x3C, 0x90] + Ascii("MSWIN4.1") + [0, 2, 1, 1, 0, 1]
      && s[17..19] == [roots % 256, roots / 256 % 256]
      && s[19..21] == [g.totalSectors % 256, g.totalSectors / 256 % 256]
      && s[21..22] == [0xF8]
      && s[22..24] == [g.fatSectors % 256, g.fatSectors / 256 % 256]
      && s[24..54] == [1, 0, 1, 0] + Zeros(10) + [0x29, 0x7A, 0xDA, 0xC1, 0x00] + Ascii("cidata     ")
      && s[54..62] == (if g.width == 16 then Ascii("FAT16   ") else Ascii("FAT12   "))
      && s[62..512] == Zeros(450)
  {
    hide LeBytes, Ascii, BootHead, BootMiddle;
    BootHeadBytes();
    BootMiddleBytes();
    TypeTexts();
    TwoBytes(g.rootSectors * 16);
    TwoBytes(g.totalSectors);
    TwoBytes(g.fatSectors);
    BootParts(BootHead(), LeBytes(g.rootSectors * 16, 2), LeBytes(g.totalSectors, 2), [0xF8], LeBytes(g.fatSectors, 2),
              BootMiddle(), TypeText(g.width), Zeros(450));
  }

  lemma TypeTexts()
    ensures TypeText(16) == Ascii("FAT16   ") && TypeText(12) == Ascii("FAT12   ")
  {
  }

  // ----- directory entries ------------------------------------------------------

  /** The short name as it is stored: upper case, and shortened to six characters and "~1" if it has more than eight. */
  lemma StoredName(name: seq<byte>, i: nat)
    requires |name| >= 6 && i < 11
    ensures Padded(ShortName(name), 11)[i] ==
      if |name| > 8 && i == 6 then '~' as int
      else if |name| > 8 && i == 7 then '1' as int
      else if i >= 8 || i >= |name| then ' ' as int
      else if 'a' as int <= name[i] <= 'z' as int then name[i] - 'a' as int + 'A' as int
      else name[i]
  {
  }

  /** The slots of a name are numbered downwards. */
  lemma {:induction false} SlotInSlots(name: seq<byte>, k: nat, n: nat, sum: byte, j: nat)
    requires j < k
    ensures Slots(name, k, n, sum)[32 * j..32 * j + 32] == Slot(name, k - j, n, sum)
  {
    hide Slot;
    var slot, rest := Slot(name, k, n, sum), Slots(name, k - 1, n, sum);
    if j > 0 {
      SlotInSlots(name, k - 1, n, sum, j - 1);
      assert (slot + rest)[32..] == rest;
      Shifted(slot + rest, 32, 32 * (j - 1), 32 * (j - 1) + 32);
    }
  }

  /** The number of a slot, with bit 6 set on the last one of the name, which comes first. */
  lemma {:induction false} OrdinalOf(m: nat, n: nat)
    requires 1 <= m <= n < 64
    ensures Ordinal(m, n) == if m == n then 64 + m else m
  {
    hide BitOr, Shl;
    SixBits();
    BitOrZero(m);
    BitOrDisjoint(m, 1, 6);
    BitOrCommutes(0x40, m);
  }

  lemma {:induction false} SixBits()
    ensures Shl(1, 6) == 64
  {
    assert Shl(1, 3) == 8 && Shl(8, 3) == 64;
    ShlShl(1, 3, 3);
  }

  /** The offsets of the low bytes of a slot's 13 characters. */
  const PLACES: seq<nat> := [1, 3, 5, 7, 9, 14, 16, 18, 20, 22, 24, 28, 30]

  lemma PlaceOf(i: nat)
    requires i < 32
    ensures CharIndex(i) == 13 <==> i !in PLACES
    ensures CharIndex(i) < 13 ==> PLACES[CharIndex(i)] == i
  {
  }

  /** Every byte of a slot: number, attribute 0x0F, checksum, the 13 characters, and zeros in all other places and after the name. */
  lemma SlotBytes(name: seq<byte>, m: nat, n: nat, sum: byte, i: nat)
    requires 1 <= m <= n < 64 && i < 32
    ensures var s := Slot(name, m, n, sum);
      && (i == 0 ==> s[i] == if m == n then 64 + m else m)
      && (i == 11 ==> s[i] == 0x0F)
      && (i == 13 ==> s[i] == sum)
      && (i !in PLACES && i != 0 && i != 11 && i != 13 ==> s[i] == 0)
      && forall k :: 0 <= k < 13 && PLACES[k] == i ==>
           s[i] == if 13 * (m - 1) + k < |name| then name[13 * (m - 1) + k] else 0
  {
    hide Ordinal;
    OrdinalOf(m, n);
    PlaceOf(i);
  }

  lemma EntryParts(a: seq<byte>, z: seq<byte>, b: seq<byte>, y: seq<byte>, c: seq<byte>, d: seq<byte>, e: seq<byte>, f: seq<byte>)
    requires |a| == 11 && |z| == 3 && |b| == 4 && |y| == 2 && |c| == 2 && |d| == 4 && |e| == 2 && |f| == 4
    ensures var s := a + z + b + y + c + d + e + f;
      && s[..11] == a && s[11..14] == z && s[14..18] == b && s[18..20] == y && s[20..22] == c
      && s[22..26] == d && s[26..28] == e && s[28..32] == f
  {
    var s := a + z + b + y + c + d + e + f;
    assert s[..11] == a;
    assert s[11..14] == z;
    assert s[14..18] == b;
    assert s[18..20] == y;
    assert s[20..22] == c;
    assert s[22..26] == d;
    assert s[26..28] == e;
    assert s[28..32] == f;
  }

  /** Every byte of a short entry. */
  lemma ShortEntryBytes(name: seq<byte>, start: nat, flen: nat, stamp: seq<byte>)
    requires |name| >= 6 && |stamp| == 4
    ensures var s := ShortEntry(name, start, flen, stamp);
      && s[..11] == Padded(ShortName(name), 11) && s[11..14] == [0, 0, 0] && s[14..18] == stamp && s[18..20] == [0, 0]
      && s[20..22] == [start / 0x1_0000 % 256, start / 0x100_0000 % 256]
      && s[22..26] == stamp
      && s[26..28] == [start % 256, start / 256 % 256]
      && s[28..32] == [flen % 256, flen / 256 % 256, flen / 0x1_0000 % 256, flen / 0x100_0000 % 256]
  {
    hide LeBytes, ShortName;
    TwoBytes(start / 0x1_0000);
    TwoBytes(start);
    FourBytes(flen);
    assert start / 0x1_0000 / 256 == start / 0x100_0000;
    EntryParts(Padded(ShortName(name), 11), Zeros(3), stamp, Zeros(2), LeBytes(start / 0x1_0000, 2), stamp, LeBytes(start, 2), LeBytes(flen, 4));
  }

  /**
   * The entries of a file: as many slots as its name needs, numbered
   * downwards, each with the checksum of the short name that follows them.
   */
  lemma {:induction false} FileEntryParts(name: seq<byte>, start: nat, flen: nat, stamp: seq<byte>, j: nat)
    requires |name| >= 6 && |stamp| == 4
    ensures var n := Units(|name|, 13);
      var s := FileEntries(name, start, flen, stamp);
      && Needs(|name|, 13, n) && |s| == 32 * n + 32
      && s[32 * n..] == ShortEntry(name, start, flen, stamp)
      && (j < n ==> s[32 * j..32 * j + 32] == Slot(name, n - j, n, NameSum(s[32 * n..32 * n + 11])))
      && (j < n ==> s[32 * j + 13] == NameSum(s[32 * n..32 * n + 11]))
  {
    hide Slot, SlotByte, ShortEntry, ShortName, NameSum, Units;
    var n := Units(|name|, 13);
    UnitsNeeded(|name|, 13);
    var stored := Padded(ShortName(name), 11);
    var slots, entry := Slots(name, n, n, NameSum(stored)), ShortEntry(name, start, flen, stamp);
    var s := FileEntries(name, start, flen, stamp);
    assert s == slots + entry && s[32 * n..] == entry;
    ShortEntryBytes(name, start, flen, stamp);
    assert s[32 * n..32 * n + 11] == entry[..11] == stored;
    if j < n {
      SlotInSlots(name, n, n, NameSum(stored), j);
      assert s[32 * j..32 * j + 32] == slots[32 * j..32 * j + 32];
      ChecksumPlace(name, n - j, n, NameSum(stored));
      assert s[32 * j + 13] == s[32 * j..32 * j + 32][13];
    }
  }

  lemma ChecksumPlace(name: seq<byte>, m: nat, n: nat, sum: byte)
    requires m >= 1
    ensures Slot(name, m, n, sum)[13] == sum
  {
  }

  /** Every byte of the volume's entry. */
  lemma VolumeEntryBytes(stamp: seq<byte>)
    requires |stamp| == 4
    ensures var s := VolumeEntry(Ascii("CIDATA"), 0x08, stamp);
      && s[..11] == Ascii("CIDATA     ") && s[11..14] == [8, 0, 0] && s[14..18] == stamp && s[18..22] == [0, 0, 0, 0]
      && s[22..26] == stamp && s[26..32] == [0, 0, 0, 0, 0, 0]
  {
    var s := VolumeEntry(Ascii("CIDATA"), 0x08, stamp);
    assert s[..11] == Ascii("CIDATA     ");
    assert s[14..18] == stamp;
    assert s[22..26] == stamp;
  }

  // ----- table ------------------------------------------------------------------

  /** The mark of the given width that has all bits set. */
  function AllOnes(w: nat): nat {
    if w == 12 then 0xFFF else 0xFFFF
  }

  lemma {:induction false} LowMarks(w: nat)
    requires w == 12 || w == 16
    ensures Low(0xFFFF_FFF8, w) == AllOnes(w) - 7 && Low(0xFFFF_FFFF, w) == AllOnes(w) && Low(0, w) == 0
  {
    hide Low, Shl, Shr, Pow2;
    Pow2Small();
    ShiftsArePowers(0xFFFF_FFF8, w);
    ShiftsArePowers(0xFFFF_FFFF, w);
    ShiftsArePowers(0, w);
  }

  /** Free entries after the last one add nothing to the table. */
  lemma {:induction false} DigitsOfFree(es: seq<nat>, w: nat, n: nat)
    ensures FatTable.Digits(es + seq(n, _ => 0), w) == FatTable.Digits(es, w)
  {
    if n == 0 {
      assert es + seq(n, _ => 0) == es;
    } else {
      DigitsOfFree(es, w, n - 1);
      assert es + seq(n, _ => 0) == es + seq(n - 1, _ => 0) + [0];
      FatTable.DigitsAppend(es + seq(n - 1, _ => 0), 0, w);
      ShlZero(w * |es + seq(n - 1, _ => 0)|);
      LowZero(w);
    }
  }

  lemma {:induction false} LowZero(w: nat)
    ensures Low(0, w) == 0
  {
    if w > 0 {
      LowZero(w - 1);
    }
  }

  /** The first two entries are the media byte with all higher bits set and all ones; those after the last file's are free. */
  lemma {:induction false} OtherEntries(files: seq<CloudInitFile>, c: nat)
    requires Fits(files) && (c < 2 || StartOf(files, |files|) <= c)
    requires (c + 1) * GeometryOf(files).width <= 8 * |TableBytes(files, GeometryOf(files))|
    ensures var g := GeometryOf(files);
      FatTable.FatEntry(TableBytes(files, g), g.width, c)
      == Some(if c == 0 then AllOnes(g.width) - 7 else if c == 1 then AllOnes(g.width) else 0)
  {
    hide FatTable.Digits, FatTable.FatEntry, GeometryOf, TableBytes, ChainsTo, Fits, Low, AllOnes, SectorsTo;
    var g, es := GeometryOf(files), TableTo(files, |files|);
    FatRoundTrip.ClustersBelowReserved(files);
    FatRoundTrip.TableSizes(files);
    LowMarks(g.width);
    if c < 2 {
      FatTable.DecoderReadsEntries(TableBytes(files, g), es, g.width, c);
    } else {
      var n := c + 1 - |es|;
      DigitsOfFree(es, g.width, n);
      FatTable.DecoderReadsEntries(TableBytes(files, g), es + seq(n, _ => 0), g.width, c);
    }
  }

  /** Each cluster of a file but the last has the number of the next one, the last has all ones. */
  lemma {:induction false} ChainEntries(files: seq<CloudInitFile>, k: nat, c: nat)
    requires Fits(files) && k < |files| && StartOf(files, k) <= c < StartOf(files, k + 1)
    ensures var g := GeometryOf(files);
      FatTable.FatEntry(TableBytes(files, g), g.width, c)
      == Some(if c + 1 < StartOf(files, k + 1) then c + 1 else AllOnes(g.width))
  {
    hide FatTable.FatEntry, GeometryOf, TableBytes, Fits, Low, AllOnes, FileSectors;
    var g, j := GeometryOf(files), c - StartOf(files, k);
    FatRoundTrip.ClusterInRange(files, k, j);
    FatRoundTrip.EntryDecoded(files, k, j);
    if c + 1 < StartOf(files, k + 1) {
      FatRoundTrip.LinkBits(c + 1, g.width);
    } else {
      LowMarks(g.width);
    }
  }

  // ----- the image --------------------------------------------------------------

  lemma {:induction false} EntriesInDirents(files: seq<CloudInitFile>, stamp: seq<byte>, k: nat, n: nat)
    requires k < n <= |files| && NamesHaveSixBytes(files) && |stamp| == 4
    ensures EntriesTo(files, k) <= EntriesTo(files, k + 1) <= EntriesTo(files, n)
    ensures DirentsTo(files, n, stamp)[32 * EntriesTo(files, k)..32 * EntriesTo(files, k + 1)]
         == FileEntries(files[k].filename, StartOf(files, k), |files[k].contents|, stamp)
    decreases n
  {
    hide FileEntries, FileEntryCount, VolumeEntry;
    if n > k + 1 {
      EntriesInDirents(files, stamp, k, n - 1);
      Prefix(DirentsTo(files, n - 1, stamp), FileEntries(files[n - 1].filename, StartOf(files, n - 1), |files[n - 1].contents|, stamp),
             32 * EntriesTo(files, k), 32 * EntriesTo(files, k + 1));
    }
  }

  lemma {:induction false} VolumeInDirents(files: seq<CloudInitFile>, stamp: seq<byte>, n: nat)
    requires n <= |files| && NamesHaveSixBytes(files) && |stamp| == 4
    ensures DirentsTo(files, n, stamp)[..32] == VolumeEntry(Ascii("CIDATA"), 0x08, stamp)
  {
    hide FileEntries, FileEntryCount, VolumeEntry;
    if n > 0 {
      VolumeInDirents(files, stamp, n - 1);
      Prefix(DirentsTo(files, n - 1, stamp), FileEntries(files[n - 1].filename, StartOf(files, n - 1), |files[n - 1].contents|, stamp), 0, 32);
    }
  }

  /** The root directory starts with the volume's entry, and ends with zeros after the last file's entries. */
  lemma {:induction false} RootEnds(files: seq<CloudInitFile>, stamp: seq<byte>)
    requires NamesHaveSixBytes(files) && |stamp| == 4
    ensures var s := RootBytes(files, stamp);
      && 32 <= 32 * EntriesTo(files, |files|) <= |s|
      && s[..32] == VolumeEntry(Ascii("CIDATA"), 0x08, stamp)
      && forall i :: 32 * EntriesTo(files, |files|) <= i < |s| ==> s[i] == 0
  {
    hide VolumeEntry, DirentsTo, EntriesTo, RootTail;
    var d, z := DirentsTo(files, |files|, stamp), Zeros(RootTail(files));
    VolumeInDirents(files, stamp, |files|);
    Prefix(d, z, 0, 32);
  }

  /** The entries of each file follow those of the files before it. */
  lemma {:induction false} EntriesStand(files: seq<CloudInitFile>, stamp: seq<byte>, k: nat)
    requires NamesHaveSixBytes(files) && |stamp| == 4 && k < |files|
    ensures EntriesTo(files, k) <= EntriesTo(files, k + 1) <= EntriesTo(files, |files|)
    ensures 32 * EntriesTo(files, |files|) <= |RootBytes(files, stamp)|
    ensures RootBytes(files, stamp)[32 * EntriesTo(files, k)..32 * EntriesTo(files, k + 1)]
         == FileEntries(files[k].filename, StartOf(files, k), |files[k].contents|, stamp)
  {
    hide FileEntries, DirentsTo, EntriesTo, StartOf, RootTail;
    EntriesInDirents(files, stamp, k, |files|);
    Prefix(DirentsTo(files, |files|, stamp), Zeros(RootTail(files)), 32 * EntriesTo(files, k), 32 * EntriesTo(files, k + 1));
  }

  /** Where cluster `c` is in the image. */
  function ClusterAt(g: Geometry, c: nat): nat
    requires c >= 2
  {
    512 * (1 + g.fatSectors + g.rootSectors + c - 2)
  }

  /** The image: boot sector, table, root directory, and at the clusters of each file its contents and zeros. */
  lemma {:induction false} ImageParts(files: seq<CloudInitFile>, stamp: seq<byte>)
    requires NamesHaveSixBytes(files) && |stamp| == 4
    ensures var g := GeometryOf(files); var img := FatImage(files, stamp); var root := 512 * (1 + g.fatSectors);
      && |img| == 512 * g.totalSectors == ClusterAt(g, StartOf(files, |files|))
      && img[..512] == BootSector(g) && img[512..root] == TableBytes(files, g)
      && img[root..ClusterAt(g, 2)] == RootBytes(files, stamp)
  {
    hide BootSector, TableBytes, RootBytes, DataTo, LeastTable;
    var g := GeometryOf(files);
    FatRoundTrip.ImageRegions(files, stamp);
    var b, rest := BootSector(g), TableBytes(files, g) + RootBytes(files, stamp) + DataTo(files, |files|);
    assert FatImage(files, stamp) == b + rest;
    assert (b + rest)[..512] == b;
  }

  lemma {:induction false} ContentsStand(files: seq<CloudInitFile>, stamp: seq<byte>, k: nat)
    requires NamesHaveSixBytes(files) && |stamp| == 4 && k < |files|
    ensures var img := FatImage(files, stamp);
      var from, to := ClusterAt(GeometryOf(files), StartOf(files, k)), ClusterAt(GeometryOf(files), StartOf(files, k + 1));
      && from + |files[k].contents| <= to <= |img|
      && img[from..from + |files[k].contents|] == files[k].contents
      && forall i :: from + |files[k].contents| <= i < to ==> img[i] == 0
  {
    hide FatImage, GeometryOf, Units;
    FatRoundTrip.ContentsInImage(files, stamp, k);
    PaddedPart(FatImage(files, stamp), ClusterAt(GeometryOf(files), StartOf(files, k)), ClusterAt(GeometryOf(files), StartOf(files, k + 1)),
               files[k].contents, 512 * FileSectors(files[k]) - |files[k].contents|);
  }
}

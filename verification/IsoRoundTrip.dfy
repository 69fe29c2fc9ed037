// Reading back a written ISO 9660 volume.
module IsoRoundTrip {
  import opened Arith
  import opened Bytes
  import opened Wrappers
  import opened CloudInit
  import opened IsoVolume
  import opened IsoReader

  /** Names that a record's length byte can carry, numbers that fit 32 bits. */
  predicate Storable(files: seq<CloudInitFile>) {
    && TotalSectors(files) < 0x1_0000_0000
    && forall i :: 0 <= i < |files| ==> |files[i].filename| <= 218 && |files[i].contents| < 0x1_0000_0000
  }

  /** The first `k` files as a reader names them: with the version number. */
  function Named(files: seq<CloudInitFile>, k: nat): (s: seq<CloudInitFile>)
    requires k <= |files|
    ensures |s| == k
    ensures forall i :: 0 <= i < k ==> s[i] == CloudInitFile(Ident(files[i]), files[i].contents)
  {
    seq(k, i requires 0 <= i < k => CloudInitFile(Ident(files[i]), files[i].contents))
  }

  // ----- records ----------------------------------------------------------------------------

  /** Both byte orders agree and give the number back. */
  lemma {:induction false} BothRead(s: seq<byte>, off: nat, v: nat, n: nat)
    requires off + 2 * n <= |s| && s[off..off + 2 * n] == Both(v, n) && v < Shl(1, 8 * n)
    ensures ReadBoth(s, off, n) == Some(v)
  {
    var w := s[off..off + 2 * n];
    assert s[off..off + n] == w[..n] == LeBytes(v, n);
    assert s[off + n..off + n + n] == w[n..] == BeBytes(v, n);
    FieldRoundTrip(v, n);
  }

  lemma HeadSplit(a: byte, z1: seq<byte>, l: seq<byte>, n: seq<byte>, d: seq<byte>, z2: seq<byte>, f: byte, z3: seq<byte>, b: seq<byte>, i: byte)
    requires |z1| == 1 && |l| == 8 && |n| == 8 && |d| == 6 && |z2| == 1 && |z3| == 2 && |b| == 4
    ensures var h := [a] + z1 + l + n + d + z2 + [f] + z3 + b + [i];
      && h[0] == a && h[2..10] == l && h[10..18] == n && h[25] == f && h[32] == i
  {
    var h := [a] + z1 + l + n + d + z2 + [f] + z3 + b + [i];
    assert h[2..10] == l;
    assert h[10..18] == n;
  }

  lemma HeadFields(location: nat, length: nat, date: seq<byte>, flags: byte, identLen: nat)
    requires |date| == 6 && identLen <= 220
    ensures var h := RecordHead(location, length, date, flags, identLen);
      && h[0] == RecordLength(identLen) && h[2..10] == Both(location, 4) && h[10..18] == Both(length, 4)
      && h[25] == flags && h[32] == identLen
  {
    hide Both;
    HeadSplit(RecordLength(identLen) % 256, Zeros(1), Both(location, 4), Both(length, 4), date, Zeros(1), flags,
              Zeros(2), Both(1, 2), identLen % 256);
  }

  lemma RecordRead(dir: seq<byte>, at: nat, location: nat, length: nat, date: seq<byte>, flags: byte, ident: seq<byte>)
    requires |date| == 6 && |ident| <= 220 && location < 0x1_0000_0000 && length < 0x1_0000_0000
    requires at + RecordLength(|ident|) <= |dir|
    requires dir[at..at + 33 + |ident|] == RecordHead(location, length, date, flags, |ident|) + ident
    ensures ReadRecord(dir, at) == Some(FileRecord(RecordLength(|ident|), location, length, flags, ident))
  {
    hide Both, RecordHead;
    var head := RecordHead(location, length, date, flags, |ident|);
    HeadFields(location, length, date, flags, |ident|);
    assert dir[at..at + 33] == dir[at..at + 33 + |ident|][..33] == head;
    assert dir[at + 33..at + 33 + |ident|] == dir[at..at + 33 + |ident|][33..] == ident;
    Inside(dir, at, at + 33, head, 2, 10);
    Inside(dir, at, at + 33, head, 10, 18);
    assert dir[at + 0] == head[0] && dir[at + 25] == head[25] && dir[at + 32] == head[32];
    FieldSizes();
    BothRead(dir, at + 2, location, 4);
    BothRead(dir, at + 10, length, 4);
  }

  lemma WholeRecordRead(dir: seq<byte>, at: nat, location: nat, length: nat, date: seq<byte>, flags: byte, ident: seq<byte>)
    requires |date| == 6 && |ident| <= 220 && location < 0x1_0000_0000 && length < 0x1_0000_0000
    requires at + RecordLength(|ident|) <= |dir|
    requires dir[at..at + RecordLength(|ident|)] == Record(location, length, date, flags, ident)
    ensures ReadRecord(dir, at) == Some(FileRecord(RecordLength(|ident|), location, length, flags, ident))
    ensures dir[at] != 0
  {
    hide RecordHead, ReadRecord;
    var rec, n := Record(location, length, date, flags, ident), 33 + |ident|;
    assert dir[at..at + n] == rec[..n];
    assert rec[..n] == RecordHead(location, length, date, flags, |ident|) + ident;
    RecordRead(dir, at, location, length, date, flags, ident);
    HeadFields(location, length, date, flags, |ident|);
    assert dir[at] == rec[..n][0];
  }

  // ----- directory --------------------------------------------------------------------------

  lemma {:induction false} RecordInDirectory(files: seq<CloudInitFile>, k: nat, n: nat, date: seq<byte>)
    requires k < n <= |files| && |date| == 6
    ensures RecordAt(files, k + 1) <= RecordAt(files, n)
    ensures DirectoryTo(files, n, date)[RecordAt(files, k)..RecordAt(files, k + 1)]
         == Record(SectorOf(files, k), |files[k].contents|, date, 0, Ident(files[k]))
    decreases n
  {
    hide Record, RecordLength;
    if n > k + 1 {
      RecordInDirectory(files, k, n - 1, date);
      Prefix(DirectoryTo(files, n - 1, date),
           Record(SectorOf(files, n - 1), |files[n - 1].contents|, date, 0, Ident(files[n - 1])),
           RecordAt(files, k), RecordAt(files, k + 1));
    }
  }

  lemma {:induction false} OwnRecords(files: seq<CloudInitFile>, n: nat, date: seq<byte>)
    requires n <= |files| && |date| == 6
    ensures DirectoryTo(files, n, date)[0..36] == Record(18, 2048, date, 2, [0])
    ensures DirectoryTo(files, n, date)[36..72] == Record(18, 2048, date, 2, [1])
  {
    hide Record;
    if n > 0 {
      OwnRecords(files, n - 1, date);
      Prefix(DirectoryTo(files, n - 1, date), Record(SectorOf(files, n - 1), |files[n - 1].contents|, date, 0, Ident(files[n - 1])), 0, 36);
      Prefix(DirectoryTo(files, n - 1, date), Record(SectorOf(files, n - 1), |files[n - 1].contents|, date, 0, Ident(files[n - 1])), 36, 72);
    }
  }

  /** The record of file `k` in the directory sector. */
  lemma SectorRecord(files: seq<CloudInitFile>, k: nat, date: seq<byte>)
    requires Storable(files) && |date| == 6 && k < Fitted(files)
    ensures RecordAt(files, k + 1) <= 2048
    ensures var dir := DirectorySector(files, date); var n := RecordLength(|Ident(files[k])|);
      && RecordAt(files, k) + n == RecordAt(files, k + 1) && dir[RecordAt(files, k)] != 0
      && ReadRecord(dir, RecordAt(files, k))
         == Some(FileRecord(n, SectorOf(files, k), |files[k].contents|, 0, Ident(files[k])))
  {
    hide ReadRecord, Record, RecordLength, FittedFrom;
    FittedFits(files, 0);
    RecordInDirectory(files, k, Fitted(files), date);
    Prefix(DirectoryTo(files, Fitted(files), date), Zeros(2048 - RecordAt(files, Fitted(files))),
         RecordAt(files, k), RecordAt(files, k + 1));
    SectorMono(files, k, |files|);
    WholeRecordRead(DirectorySector(files, date), RecordAt(files, k), SectorOf(files, k), |files[k].contents|, date, 0, Ident(files[k]));
  }

  lemma {:induction false} SectorMono(files: seq<CloudInitFile>, j: nat, k: nat)
    requires j <= k <= |files|
    ensures SectorOf(files, j) <= SectorOf(files, k)
    decreases k - j
  {
    if j < k {
      SectorMono(files, j, k - 1);
    }
  }

  /** Every file's contents stand in the image from the file's first sector on. */
  ghost predicate ContentsAt(img: seq<byte>, files: seq<CloudInitFile>) {
    forall i :: 0 <= i < |files| ==> ContentAt(img, files[i].contents, SectorOf(files, i) * 2048)
  }

  predicate ContentAt(img: seq<byte>, contents: seq<byte>, at: nat) {
    at + |contents| <= |img| && img[at..at + |contents|] == contents
  }

  lemma FileStep(img: seq<byte>, dir: seq<byte>, at: nat, r: FileRecord, contents: seq<byte>, more: seq<CloudInitFile>)
    requires at < |dir| && dir[at] != 0 && ReadRecord(dir, at) == Some(r) && r.flags == 0
    requires r.size == |contents| && ContentAt(img, contents, r.location * 2048)
    requires ReadDirectory(img, dir, at + r.length) == Some(more)
    ensures ReadDirectory(img, dir, at) == Some([CloudInitFile(r.ident, contents)] + more)
  {
    hide ReadRecord;
  }

  lemma DirectoryStep(img: seq<byte>, dir: seq<byte>, at: nat, r: FileRecord, more: seq<CloudInitFile>)
    requires at < |dir| && dir[at] != 0 && ReadRecord(dir, at) == Some(r) && r.flags == 2
    requires ReadDirectory(img, dir, at + r.length) == Some(more)
    ensures ReadDirectory(img, dir, at) == Some(more)
  {
    hide ReadRecord;
  }

  /** From the record of file `k` on, the reader finds the files whose records fit. */
  lemma {:induction false} FilesRead(img: seq<byte>, files: seq<CloudInitFile>, k: nat, date: seq<byte>)
    requires Storable(files) && |date| == 6 && k <= Fitted(files)
    requires ContentsAt(img, files)
    ensures ReadDirectory(img, DirectorySector(files, date), RecordAt(files, k)) == Some(Named(files, Fitted(files))[k..])
    decreases |files| - k
  {
    hide *;
    var f := Fitted(files);
    if k == f {
      DirectoryEnd(img, files, date);
    } else {
      SectorRecord(files, k, date);
      FilesRead(img, files, k + 1, date);
      ContentsOf(img, files, k);
      var n := RecordLength(|Ident(files[k])|);
      FileStep(img, DirectorySector(files, date), RecordAt(files, k),
               FileRecord(n, SectorOf(files, k), |files[k].contents|, 0, Ident(files[k])), files[k].contents,
               Named(files, f)[k + 1..]);
      assert Named(files, f)[k..] == [Named(files, f)[k]] + Named(files, f)[k + 1..];
    }
  }

  lemma {:induction false} ContentsOf(img: seq<byte>, files: seq<CloudInitFile>, k: nat)
    requires ContentsAt(img, files) && k < |files|
    ensures ContentAt(img, files[k].contents, SectorOf(files, k) * 2048)
  {
  }

  lemma {:induction false} DirectoryEnd(img: seq<byte>, files: seq<CloudInitFile>, date: seq<byte>)
    requires |date| == 6
    ensures ReadDirectory(img, DirectorySector(files, date), RecordAt(files, Fitted(files))) == Some([])
    ensures Named(files, Fitted(files))[Fitted(files)..] == []
  {
    hide DirectoryTo;
    FittedFits(files, 0);
    var dir, at := DirectorySector(files, date), RecordAt(files, Fitted(files));
    if at < 2048 {
      assert dir[at] == 0;
      assert (at / 2048 + 1) * 2048 == 2048;
    }
  }

  /** The first two records of the sector: the directory itself and its parent. */
  lemma OwnRecordsRead(files: seq<CloudInitFile>, date: seq<byte>)
    requires |date| == 6
    ensures var dir := DirectorySector(files, date);
      && dir[0] != 0 && ReadRecord(dir, 0) == Some(FileRecord(36, 18, 2048, 2, [0]))
      && dir[36] != 0 && ReadRecord(dir, 36) == Some(FileRecord(36, 18, 2048, 2, [1]))
  {
    hide Record, ReadRecord, DirectoryTo, FittedFrom, Zeros;
    var dir := DirectorySector(files, date);
    FittedFits(files, 0);
    RecordAtMono(files, 0, Fitted(files));
    OwnRecords(files, Fitted(files), date);
    Prefix(DirectoryTo(files, Fitted(files), date), Zeros(2048 - RecordAt(files, Fitted(files))), 0, 36);
    Prefix(DirectoryTo(files, Fitted(files), date), Zeros(2048 - RecordAt(files, Fitted(files))), 36, 72);
    WholeRecordRead(dir, 0, 18, 2048, date, 2, [0]);
    WholeRecordRead(dir, 36, 18, 2048, date, 2, [1]);
  }

  lemma {:induction false} DirectoryRead(img: seq<byte>, files: seq<CloudInitFile>, date: seq<byte>)
    requires Storable(files) && |date| == 6 && ContentsAt(img, files)
    ensures ReadDirectory(img, DirectorySector(files, date), 0) == Some(Named(files, Fitted(files)))
  {
    hide DirectorySector, ReadRecord, ReadDirectory, Storable, Named, FittedFrom, ContentsAt;
    OwnRecordsRead(files, date);
    FilesRead(img, files, 0, date);
    DirectoryStep(img, DirectorySector(files, date), 36, FileRecord(36, 18, 2048, 2, [1]), Named(files, Fitted(files))[0..]);
    DirectoryStep(img, DirectorySector(files, date), 0, FileRecord(36, 18, 2048, 2, [0]), Named(files, Fitted(files))[0..]);
    assert Named(files, Fitted(files))[0..] == Named(files, Fitted(files));
  }

  // ----- the image --------------------------------------------------------------------------

  lemma FiveRegions(z: seq<byte>, p: seq<byte>, t: seq<byte>, d: seq<byte>, c: seq<byte>)
    ensures var s := z + (p + t + d + c);
      && s[|z|..|z| + |p|] == p
      && s[|z| + |p|..|z| + |p| + |t|] == t
      && s[|z| + |p| + |t|..|z| + |p| + |t| + |d|] == d
      && s[|z| + |p| + |t| + |d|..] == c
  {
  }

  lemma {:induction false} ImageRegions(files: seq<CloudInitFile>, date: seq<byte>, now: seq<byte>)
    requires |date| == 6 && |now| == 16
    ensures var img := IsoImage(files, date, now);
      && |img| >= 38912
      && img[32768..34816] == PrimaryDescriptor(TotalSectors(files), date, now)
      && img[34816..36864] == Terminator()
      && img[36864..38912] == DirectorySector(files, date)
      && img[38912..] == DataTo(files, |files|)
  {
    hide PrimaryDescriptor, Terminator, DirectorySector, DataTo, Zeros;
    FiveRegions(Zeros(32768), PrimaryDescriptor(TotalSectors(files), date, now), Terminator(),
                DirectorySector(files, date), DataTo(files, |files|));
  }

  lemma {:induction false} DataOfFile(files: seq<CloudInitFile>, k: nat, n: nat)
    requires k < n <= |files|
    ensures SectorOf(files, k + 1) <= SectorOf(files, n)
    ensures DataTo(files, n)[2048 * (SectorOf(files, k) - 19)..2048 * (SectorOf(files, k + 1) - 19)] == PaddedContents(files[k])
    decreases n
  {
    hide PaddedContents, FileSectors;
    if n > k + 1 {
      DataOfFile(files, k, n - 1);
      SectorMono(files, k, k + 1);
      Prefix(DataTo(files, n - 1), PaddedContents(files[n - 1]), 2048 * (SectorOf(files, k) - 19), 2048 * (SectorOf(files, k + 1) - 19));
    }
  }

  lemma {:induction false} ExtentOfFile(img: seq<byte>, files: seq<CloudInitFile>, k: nat)
    requires k < |files| && |img| >= 38912 && img[38912..] == DataTo(files, |files|)
    ensures ContentAt(img, files[k].contents, SectorOf(files, k) * 2048)
  {
    hide DataTo, PaddedContents, FileSectors;
    DataOfFile(files, k, |files|);
    var a, n := 2048 * (SectorOf(files, k) - 19), |files[k].contents|;
    Stretch(img, DataTo(files, |files|), 38912, a, n, |PaddedContents(files[k])|, PaddedContents(files[k]));
  }

  lemma Stretch(s: seq<byte>, d: seq<byte>, at: nat, a: nat, n: nat, m: nat, p: seq<byte>)
    requires at <= |s| && s[at..] == d && n <= m == |p| && a + m <= |d| && d[a..a + m] == p
    ensures s[at + a..at + a + n] == p[..n]
  {
    assert forall i :: 0 <= i < |d| ==> s[at + i] == s[at..][i];
    assert s[at + a..at + a + n] == d[a..a + n];
    assert d[a..a + n] == d[a..a + m][..n];
  }

  lemma DescriptorPieces(total: nat)
    ensures var h := DescriptorHead(total);
      h[0] == 1 && h[1..6] == Ascii("CD001") && h[128..132] == Both(2048, 2)
  {
    hide Both, Padded, Ascii, Zeros;
    var h, id := DescriptorHead(total), Ascii("CD001");
    var rest := Zeros(1) + [1] + Padded(Ascii("LINUX"), 32) + Padded(Ascii("cidata"), 32) + Zeros(8)
      + Both(total, 4) + Zeros(32) + Both(1, 2) + Both(1, 2) + Both(2048, 2) + Zeros(24);
    assert h == [1] + id + rest;
    PieceAt([1], id, rest, 1, 5);
    var a := [1] + id + Zeros(1) + [1] + Padded(Ascii("LINUX"), 32) + Padded(Ascii("cidata"), 32) + Zeros(8)
      + Both(total, 4) + Zeros(32) + Both(1, 2) + Both(1, 2);
    PieceAt(a, Both(2048, 2), Zeros(24), 128, 4);
  }

  /** The descriptor's fields and its root record. */
  lemma DescriptorRead(img: seq<byte>, total: nat, date: seq<byte>, now: seq<byte>)
    requires |date| == 6 && |now| == 16 && |img| >= 38912
    requires img[32768..34816] == PrimaryDescriptor(total, date, now)
    ensures img[32768] == 1 && img[32769..32774] == Ascii("CD001")
    ensures ReadBoth(img, 32768 + 128, 2) == Some(2048)
    ensures ReadRecord(img, 32768 + 156) == Some(FileRecord(36, 18, 2048, 2, [0]))
  {
    hide DescriptorHead, DescriptorTail, Both, ReadBoth, ReadRecord, RecordHead;
    var h, r := DescriptorHead(total), RootRecord(date);
    var p := PrimaryDescriptor(total, date, now);
    DescriptorPieces(total);
    assert p[..156] == h;
    assert p[156..190] == r;
    assert img[32768..32768 + 156] == p[..156];
    Inside(img, 32768, 32768 + |h|, h, 1, 6);
    Inside(img, 32768, 32768 + |h|, h, 128, 132);
    assert img[32768 + 0] == h[0];
    FieldSizes();
    BothRead(img, 32768 + 128, 2048, 2);
    assert img[32768 + 156..32768 + 156 + 34] == p[156..190];
    assert Record(18, 2048, date, 2, [0])[..34] == RecordHead(18, 2048, date, 2, 1) + [0];
    RecordRead(img, 32768 + 156, 18, 2048, date, 2, [0]);
  }

  lemma {:induction false} AllContents(img: seq<byte>, files: seq<CloudInitFile>)
    requires |img| >= 38912 && img[38912..] == DataTo(files, |files|)
    ensures ContentsAt(img, files)
  {
    hide DataTo, ContentAt;
    forall i | 0 <= i < |files|
      ensures ContentAt(img, files[i].contents, SectorOf(files, i) * 2048)
    {
      ExtentOfFile(img, files, i);
    }
  }

  lemma {:induction false} RootFromParts(img: seq<byte>, dir: seq<byte>, fs: seq<CloudInitFile>)
    requires |img| >= 38912 && img[36864..38912] == dir
    requires img[32768] == 1 && img[32769..32774] == Ascii("CD001")
    requires ReadBoth(img, 32768 + 128, 2) == Some(2048)
    requires ReadRecord(img, 32768 + 156) == Some(FileRecord(36, 18, 2048, 2, [0]))
    requires ReadDirectory(img, dir, 0) == Some(fs)
    ensures ReadIso(img) == Some(fs)
  {
    hide ReadBoth, ReadRecord, ReadDirectory, Ascii;
  }

  /**
   * The reader recovers exactly the files whose records fit the directory
   * sector, each under its name with ";1" and with its contents.
   */
  lemma WrittenVolumeReads(files: seq<CloudInitFile>, date: seq<byte>, now: seq<byte>)
    requires Storable(files) && |date| == 6 && |now| == 16
    ensures ReadIso(IsoImage(files, date, now)) == Some(Named(files, Fitted(files)))
    ensures ReadIso(IsoImage(files, date, now)) == Some(Named(files, |files|)) <==> DirectoryFits(files)
  {
    hide *;
    var img := IsoImage(files, date, now);
    ImageRegions(files, date, now);
    DescriptorRead(img, TotalSectors(files), date, now);
    AllContents(img, files);
    DirectoryRead(img, files, date);
    RootFromParts(img, DirectorySector(files, date), Named(files, Fitted(files)));
    AllFitted(files);
  }

  lemma AllFitted(files: seq<CloudInitFile>)
    ensures Fitted(files) == |files| <==> DirectoryFits(files)
  {
    FittedFits(files, 0);
  }
}

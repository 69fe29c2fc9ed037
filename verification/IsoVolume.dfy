// The layout of the ISO 9660 volume: directory records, descriptors, sizes.
module IsoVolume {
  import opened Arith
  import opened Bytes
  import opened CloudInit

  /** A number in both byte orders, little-endian first (ECMA-119 sections 7.2.3 and 7.3.3). */
  function Both(v: nat, n: nat): (s: seq<byte>)
    ensures |s| == 2 * n
  {
    LeBytes(v, n) + BeBytes(v, n)
  }

  /** Length of the record of an identifier: even, and with at least one byte of padding. */
  function RecordLength(identLen: nat): (n: nat)
    ensures n % 2 == 0 && 34 + identLen <= n <= 35 + identLen
  {
    if (33 + identLen) % 2 == 0 then 35 + identLen else 34 + identLen
  }

  /** The part of a record before its identifier. */
  function RecordHead(location: nat, length: nat, date: seq<byte>, flags: byte, identLen: nat): (s: seq<byte>)
    requires |date| == 6
    ensures |s| == 33
  {
    [RecordLength(identLen) % 256] + Zeros(1) + Both(location, 4) + Both(length, 4) + date
      + Zeros(1) + [flags] + Zeros(2) + Both(1, 2) + [identLen % 256]
  }

  function Record(location: nat, length: nat, date: seq<byte>, flags: byte, ident: seq<byte>): (s: seq<byte>)
    requires |date| == 6
    ensures |s| == RecordLength(|ident|)
  {
    RecordHead(location, length, date, flags, |ident|) + ident + Zeros(RecordLength(|ident|) - 33 - |ident|)
  }

  // ----- sizes ------------------------------------------------------------------------------

  function FileSectors(f: CloudInitFile): (n: nat)
    ensures n >= 1
  {
    Units(|f.contents|, 2048)
  }

  /** First sector of file `k`; the contents start after the directory, in sector 19. */
  function SectorOf(files: seq<CloudInitFile>, k: nat): (n: nat)
    requires k <= |files|
    ensures n >= 19
  {
    if k == 0 then 19 else SectorOf(files, k - 1) + FileSectors(files[k - 1])
  }

  function TotalSectors(files: seq<CloudInitFile>): nat {
    SectorOf(files, |files|)
  }

  /** The identifier of a file: its name and version 1. */
  function Ident(f: CloudInitFile): (s: seq<byte>)
    ensures |s| == |f.filename| + 2
  {
    f.filename + Ascii(";1")
  }

  /** Where the record of file `k` starts in the directory; two records of 36 bytes come first. */
  function RecordAt(files: seq<CloudInitFile>, k: nat): (n: nat)
    requires k <= |files|
    ensures n >= 72
  {
    if k == 0 then 72 else RecordAt(files, k - 1) + RecordLength(|files[k - 1].filename| + 2)
  }

  /** The records of all files fit one sector. */
  predicate DirectoryFits(files: seq<CloudInitFile>) {
    RecordAt(files, |files|) <= 2048
  }

  /** How many records, from the first on, fit one sector. */
  function FittedFrom(files: seq<CloudInitFile>, k: nat): (n: nat)
    requires k <= |files|
    ensures k <= n <= |files|
    decreases |files| - k
  {
    if k == |files| || RecordAt(files, k + 1) > 2048 then k else FittedFrom(files, k + 1)
  }

  function Fitted(files: seq<CloudInitFile>): (n: nat)
    ensures n <= |files|
  {
    FittedFrom(files, 0)
  }

  // ----- bytes ------------------------------------------------------------------------------

  function DirectoryTo(files: seq<CloudInitFile>, k: nat, date: seq<byte>): (s: seq<byte>)
    requires k <= |files| && |date| == 6
    ensures |s| == RecordAt(files, k)
  {
    if k == 0 then Record(18, 2048, date, 2, [0]) + Record(18, 2048, date, 2, [1])
    else
      DirectoryTo(files, k - 1, date)
      + Record(SectorOf(files, k - 1), |files[k - 1].contents|, date, 0, Ident(files[k - 1]))
  }

  lemma {:induction false} FittedFits(files: seq<CloudInitFile>, k: nat)
    requires k <= |files| && RecordAt(files, k) <= 2048
    ensures RecordAt(files, FittedFrom(files, k)) <= 2048
    ensures DirectoryFits(files) <==> FittedFrom(files, k) == |files|
    decreases |files| - k
  {
    if k < |files| {
      if RecordAt(files, k + 1) <= 2048 {
        FittedFits(files, k + 1);
      } else {
        RecordAtMono(files, k + 1, |files|);
      }
    }
  }

  lemma {:induction false} RecordAtMono(files: seq<CloudInitFile>, j: nat, k: nat)
    requires j <= k <= |files|
    ensures RecordAt(files, j) <= RecordAt(files, k)
    decreases k - j
  {
    if j < k {
      RecordAtMono(files, j, k - 1);
    }
  }

  /** The directory sector: the records that fit, then zeros. */
  function DirectorySector(files: seq<CloudInitFile>, date: seq<byte>): (s: seq<byte>)
    requires |date| == 6
    ensures |s| == 2048
  {
    FittedFits(files, 0);
    DirectoryTo(files, Fitted(files), date) + Zeros(2048 - RecordAt(files, Fitted(files)))
  }

  /** The primary descriptor up to the root record. */
  function DescriptorHead(total: nat): (s: seq<byte>)
    ensures |s| == 156
  {
    [1] + Ascii("CD001") + Zeros(1) + [1] + Padded(Ascii("LINUX"), 32) + Padded(Ascii("cidata"), 32) + Zeros(8)
      + Both(total, 4) + Zeros(32) + Both(1, 2) + Both(1, 2) + Both(2048, 2) + Zeros(24)
  }

  /** The primary descriptor after the root record: identifiers, dates, version. */
  function DescriptorTail(now: seq<byte>): (s: seq<byte>)
    requires |now| == 16
    ensures |s| == 692
  {
    Padded([], 128) + Padded([], 128) + Padded([], 128) + Padded(Ascii("cluster-api-provider-scvmm"), 128)
      + Padded([], 38) + Padded([], 36) + Padded([], 37)
      + (now + [0]) + (now + [0]) + (Ascii("0000000000000000") + [0]) + (now + [0]) + [1]
  }

  function RootRecord(date: seq<byte>): (s: seq<byte>)
    requires |date| == 6
    ensures |s| == 34
  {
    Record(18, 2048, date, 2, [0])[..34]
  }

  function PrimaryDescriptor(total: nat, date: seq<byte>, now: seq<byte>): (s: seq<byte>)
    requires |date| == 6 && |now| == 16
    ensures |s| == 2048
  {
    DescriptorHead(total) + RootRecord(date) + DescriptorTail(now) + Zeros(1166)
  }

  function Terminator(): (s: seq<byte>)
    ensures |s| == 2048
  {
    [255] + Ascii("CD001") + [1] + Zeros(2041)
  }

  function PaddedContents(f: CloudInitFile): (s: seq<byte>)
    ensures |s| == 2048 * FileSectors(f)
    ensures |f.contents| <= |s| && s[..|f.contents|] == f.contents
  {
    UnitsCover(|f.contents|, 2048);
    f.contents + Zeros(2048 * FileSectors(f) - |f.contents|)
  }

  function DataTo(files: seq<CloudInitFile>, k: nat): (s: seq<byte>)
    requires k <= |files|
    ensures |s| == 2048 * (SectorOf(files, k) - 19)
  {
    if k == 0 then [] else DataTo(files, k - 1) + PaddedContents(files[k - 1])
  }

  /** Everything that is written: sectors 16 to the last one. */
  function IsoBody(files: seq<CloudInitFile>, date: seq<byte>, now: seq<byte>): (s: seq<byte>)
    requires |date| == 6 && |now| == 16
    ensures |s| == 2048 * (TotalSectors(files) - 16)
  {
    PrimaryDescriptor(TotalSectors(files), date, now) + Terminator() + DirectorySector(files, date)
      + DataTo(files, |files|)
  }

  /** The volume: 16 clear sectors, then what is written. */
  function IsoImage(files: seq<CloudInitFile>, date: seq<byte>, now: seq<byte>): (s: seq<byte>)
    requires |date| == 6 && |now| == 16
    ensures |s| == 2048 * TotalSectors(files)
  {
    Zeros(32768) + IsoBody(files, date, now)
  }
}

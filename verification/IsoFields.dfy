// What the bytes of a written ISO 9660 volume are, field by field, and how its
// sizes follow from the files. The reader needs only some of these fields;
// other readers may use the rest.
module IsoFields {
  import opened Arith
  import opened Bytes
  import opened CloudInit
  import opened IsoVolume
  import IsoRoundTrip
  import IsoWriter

  // ----- numbers ----------------------------------------------------------------------------

  lemma {:induction false} BothTwo(v: nat)
    ensures Both(v, 2) == [v % 256, v / 256 % 256, v / 256 % 256, v % 256]
  {
    hide LeBytes, BeBytes;
    TwoBytes(v);
    BeBytesBackwards(v, 2, 0);
    BeBytesBackwards(v, 2, 1);
  }

  lemma {:induction false} BothFour(v: nat)
    ensures var a, b, c, d := v % 256, v / 256 % 256, v / 0x1_0000 % 256, v / 0x100_0000 % 256;
      Both(v, 4) == [a, b, c, d, d, c, b, a]
  {
    hide LeBytes, BeBytes;
    FourBytes(v);
    BeBytesBackwards(v, 4, 0);
    BeBytesBackwards(v, 4, 1);
    BeBytesBackwards(v, 4, 2);
    BeBytesBackwards(v, 4, 3);
  }

  // ----- records ----------------------------------------------------------------------------

  lemma HeadParts(a: seq<byte>, l: seq<byte>, n: seq<byte>, d: seq<byte>, f: seq<byte>, b: seq<byte>, i: seq<byte>)
    requires |a| == 1 && |l| == 8 && |n| == 8 && |d| == 6 && |f| == 1 && |b| == 4 && |i| == 1
    ensures var h := a + Zeros(1) + l + n + d + Zeros(1) + f + Zeros(2) + b + i;
      && h[0..1] == a && h[1] == 0 && h[2..10] == l && h[10..18] == n && h[18..24] == d && h[24] == 0
      && h[25..26] == f && h[26] == 0 && h[27] == 0 && h[28..32] == b && h[32..33] == i
  {
    var h := a + Zeros(1) + l + n + d + Zeros(1) + f + Zeros(2) + b + i;
    assert h[0..1] == a;
    assert h[2..10] == l;
    assert h[10..18] == n;
    assert h[18..24] == d;
    assert h[25..26] == f;
    assert h[28..32] == b;
    assert h[32..33] == i;
  }

  /** Every byte of a record before its identifier. */
  lemma HeadBytes(location: nat, length: nat, date: seq<byte>, flags: byte, identLen: nat)
    requires |date| == 6
    ensures var h := RecordHead(location, length, date, flags, identLen);
      && h[0] == RecordLength(identLen) % 256 && h[1] == 0
      && h[2..10] == Both(location, 4) && h[10..18] == Both(length, 4) && h[18..24] == date
      && h[24] == 0 && h[25] == flags && h[26] == 0 && h[27] == 0
      && h[28..32] == [1, 0, 0, 1] && h[32] == identLen % 256
  {
    hide Both;
    BothTwo(1);
    HeadParts([RecordLength(identLen) % 256], Both(location, 4), Both(length, 4), date, [flags], Both(1, 2), [identLen % 256]);
  }

  /** A record is its head, the identifier, and one or two zeros that make its length even. */
  lemma RecordBytes(location: nat, length: nat, date: seq<byte>, flags: byte, ident: seq<byte>)
    requires |date| == 6
    ensures var r, n := Record(location, length, date, flags, ident), 33 + |ident|;
      && |r| % 2 == 0 && n + 1 <= |r| <= n + 2
      && r[..33] == RecordHead(location, length, date, flags, |ident|) && r[33..n] == ident
      && forall i :: n <= i < |r| ==> r[i] == 0
  {
    hide RecordHead;
    var h, z := RecordHead(location, length, date, flags, |ident|), Zeros(RecordLength(|ident|) - 33 - |ident|);
    assert (h + ident + z)[..33] == h;
    assert (h + ident + z)[33..33 + |ident|] == ident;
  }

  // ----- descriptors ------------------------------------------------------------------------

  lemma DescriptorParts(a: seq<byte>, b: seq<byte>, c: seq<byte>, t: seq<byte>, d: seq<byte>, e: seq<byte>, f: seq<byte>)
    requires |a| == 8 && |b| == 32 && |c| == 32 && |t| == 8 && |d| == 4 && |e| == 4 && |f| == 4
    ensures var h := a + b + c + Zeros(8) + t + Zeros(32) + d + e + f + Zeros(24);
      && h[..8] == a && h[8..40] == b && h[40..72] == c && h[72..80] == Zeros(8) && h[80..88] == t && h[88..120] == Zeros(32)
      && h[120..124] == d && h[124..128] == e && h[128..132] == f && h[132..156] == Zeros(24)
  {
    var h := a + b + c + Zeros(8) + t + Zeros(32) + d + e + f + Zeros(24);
    assert h[..8] == a;
    assert h[8..40] == b;
    assert h[40..72] == c;
    assert h[72..80] == Zeros(8);
    assert h[80..88] == t;
    assert h[88..120] == Zeros(32);
    assert h[120..124] == d;
    assert h[124..128] == e;
    assert h[128..132] == f;
    assert h[132..156] == Zeros(24);
  }

  /** Every byte of the primary descriptor before the root record. The version is at offset 7. */
  lemma DescriptorHeadBytes(total: nat)
    ensures var h := DescriptorHead(total);
      && h[..8] == [1] + Ascii("CD001") + [0, 1]
      && h[8..40] == Ascii("LINUX                           ")
      && h[40..72] == Ascii("cidata                          ")
      && h[72..80] == Zeros(8) && h[80..88] == Both(total, 4) && h[88..120] == Zeros(32)
      && h[120..124] == [1, 0, 0, 1] && h[124..128] == [1, 0, 0, 1] && h[128..132] == [0, 8, 8, 0] && h[132..156] == Zeros(24)
  {
    hide Both, Ascii, Padded;
    BothTwo(1);
    BothTwo(2048);
    assert Padded(Ascii("LINUX"), 32) == Ascii("LINUX                           ");
    assert Padded(Ascii("cidata"), 32) == Ascii("cidata                          ");
    var a := [1] + Ascii("CD001") + [0, 1];
    assert [1] + Ascii("CD001") + Zeros(1) + [1] == a;
    DescriptorParts(a, Padded(Ascii("LINUX"), 32), Padded(Ascii("cidata"), 32), Both(total, 4), Both(1, 2), Both(1, 2), Both(2048, 2));
  }

  lemma TailParts(a: seq<byte>, b: seq<byte>, c: seq<byte>, d: seq<byte>, e: seq<byte>, f: seq<byte>, g: seq<byte>,
                  p: seq<byte>, q: seq<byte>, r: seq<byte>, s: seq<byte>)
    requires |a| == |b| == |c| == |d| == 128 && |e| == 38 && |f| == 36 && |g| == 37 && |p| == |q| == |r| == |s| == 17
    ensures var t := a + b + c + d + e + f + g + p + q + r + s + [1];
      && t[..384] == a + b + c && t[384..512] == d && t[512..623] == e + f + g
      && t[623..640] == p && t[640..657] == q && t[657..674] == r && t[674..691] == s && t[691] == 1
  {
    var t := a + b + c + d + e + f + g + p + q + r + s + [1];
    assert t[..384] == a + b + c;
    assert t[384..512] == d;
    assert t[512..623] == e + f + g;
    assert t[623..640] == p;
    assert t[640..657] == q;
    assert t[657..674] == r;
    assert t[674..691] == s;
  }

  /** Every byte of the primary descriptor after the root record: texts padded with spaces, dates ended by zero. */
  lemma DescriptorTailBytes(now: seq<byte>)
    requires |now| == 16
    ensures var t := DescriptorTail(now);
      && (forall i :: 0 <= i < 384 ==> t[i] == ' ' as int)
      && t[384..410] == Ascii("cluster-api-provider-scvmm")
      && (forall i :: 410 <= i < 623 ==> t[i] == ' ' as int)
      && t[623..640] == now + [0] && t[640..657] == now + [0]
      && t[657..674] == Ascii("0000000000000000") + [0] && t[674..691] == now + [0] && t[691] == 1
  {
    hide Ascii;
    var blank, app, none := Padded([], 128), Padded(Ascii("cluster-api-provider-scvmm"), 128), Ascii("0000000000000000") + [0];
    var t := DescriptorTail(now);
    TailParts(blank, blank, blank, app, Padded([], 38), Padded([], 36), Padded([], 37), now + [0], now + [0], none, now + [0]);
    forall i | 0 <= i < 384
      ensures t[i] == ' ' as int
    {
      assert t[i] == t[..384][i];
    }
    forall i | 384 <= i < 623
      ensures t[i] == if i < 410 then Ascii("cluster-api-provider-scvmm")[i - 384] else ' ' as int
    {
      if i < 512 {
        assert t[i] == t[384..512][i - 384];
      } else {
        assert t[i] == t[512..623][i - 512];
      }
    }
  }

  /** The primary descriptor: its head, the root record without its padding, its tail, and zeros. */
  lemma PrimaryParts(total: nat, date: seq<byte>, now: seq<byte>)
    requires |date| == 6 && |now| == 16
    ensures var p := PrimaryDescriptor(total, date, now);
      && p[..156] == DescriptorHead(total)
      && p[156..189] == RecordHead(18, 2048, date, 2, 1) && p[189] == 0
      && p[190..882] == DescriptorTail(now) && p[882..2048] == Zeros(1166)
  {
    hide DescriptorHead, DescriptorTail, RecordHead, Record;
    RecordBytes(18, 2048, date, 2, [0]);
    var rec := Record(18, 2048, date, 2, [0]);
    var h, r, t := DescriptorHead(total), RootRecord(date), DescriptorTail(now);
    var p := h + r + t + Zeros(1166);
    assert p[..156] == h;
    assert p[156..189] == r[..33] == rec[..33];
    assert p[189] == r[33] == rec[33..34][0];
    assert p[190..882] == t;
    assert p[882..2048] == Zeros(1166);
  }

  lemma TerminatorBytes()
    ensures Terminator() == [255] + Ascii("CD001") + [1] + Zeros(2041)
  {
  }

  // ----- sizes ------------------------------------------------------------------------------

  /**
   * The contents start at sector 19 and take as many sectors as they need,
   * file by file. The records follow the two of 36 bytes, each with two bytes
   * more in its identifier than its name has; those in the directory are the
   * first ones that fit it.
   */
  lemma {:induction false} Sizes(files: seq<CloudInitFile>)
    ensures SectorOf(files, 0) == 19 && TotalSectors(files) == SectorOf(files, |files|)
    ensures RecordAt(files, 0) == 72
    ensures forall k :: 0 <= k < |files| ==>
      && Needs(|files[k].contents|, 2048, SectorOf(files, k + 1) - SectorOf(files, k))
      && RecordAt(files, k + 1) == RecordAt(files, k) + RecordLength(|files[k].filename| + 2)
    ensures Fitted(files) <= |files| && RecordAt(files, Fitted(files)) <= 2048
    ensures Fitted(files) < |files| ==> RecordAt(files, Fitted(files) + 1) > 2048
  {
    hide Units, RecordLength, FittedFrom;
    forall k | 0 <= k < |files|
      ensures Needs(|files[k].contents|, 2048, SectorOf(files, k + 1) - SectorOf(files, k))
    {
      UnitsNeeded(|files[k].contents|, 2048);
    }
    FittedFits(files, 0);
    IsoWriter.FittedBoundary(files, 0);
  }

  // ----- the image --------------------------------------------------------------------------

  /** The directory: its own record, its parent's, those of the files that fit, and zeros. */
  lemma {:induction false} DirectoryParts(files: seq<CloudInitFile>, date: seq<byte>)
    requires |date| == 6
    ensures var s := DirectorySector(files, date);
      && s[0..36] == Record(18, 2048, date, 2, [0]) && s[36..72] == Record(18, 2048, date, 2, [1])
      && RecordAt(files, Fitted(files)) <= 2048
      && forall i :: RecordAt(files, Fitted(files)) <= i < 2048 ==> s[i] == 0
  {
    hide Record, FittedFrom, DirectoryTo;
    FittedFits(files, 0);
    var d, n := DirectoryTo(files, Fitted(files), date), 2048 - RecordAt(files, Fitted(files));
    IsoRoundTrip.OwnRecords(files, Fitted(files), date);
    Prefix(d, Zeros(n), 0, 36);
    Prefix(d, Zeros(n), 36, 72);
  }

  lemma {:induction false} RecordStands(files: seq<CloudInitFile>, date: seq<byte>, k: nat)
    requires |date| == 6 && k < Fitted(files)
    ensures RecordAt(files, k) <= RecordAt(files, k + 1) <= 2048
    ensures DirectorySector(files, date)[RecordAt(files, k)..RecordAt(files, k + 1)]
         == Record(SectorOf(files, k), |files[k].contents|, date, 0, files[k].filename + [';' as int, '1' as int])
  {
    hide Record, FittedFrom, DirectoryTo, RecordLength, SectorOf;
    FittedFits(files, 0);
    RecordAtMono(files, k, k + 1);
    IsoRoundTrip.RecordInDirectory(files, k, Fitted(files), date);
    Prefix(DirectoryTo(files, Fitted(files), date), Zeros(2048 - RecordAt(files, Fitted(files))), RecordAt(files, k), RecordAt(files, k + 1));
    assert Ident(files[k]) == files[k].filename + [';' as int, '1' as int];
  }

  /** The image: sixteen clear sectors, two descriptors, the directory, and from the sector of each file on its contents and zeros. */
  lemma {:induction false} ImageParts(files: seq<CloudInitFile>, date: seq<byte>, now: seq<byte>)
    requires |date| == 6 && |now| == 16
    ensures var img := IsoImage(files, date, now);
      && |img| == 2048 * TotalSectors(files) >= 19 * 2048
      && img[..16 * 2048] == Zeros(16 * 2048)
      && img[16 * 2048..17 * 2048] == PrimaryDescriptor(TotalSectors(files), date, now)
      && img[17 * 2048..18 * 2048] == Terminator()
      && img[18 * 2048..19 * 2048] == DirectorySector(files, date)
  {
    hide PrimaryDescriptor, Terminator, DirectorySector, DataTo, SectorOf;
    IsoRoundTrip.ImageRegions(files, date, now);
    IsoWriter.DataStart(files, []);
    assert (Zeros(32768) + IsoBody(files, date, now))[..32768] == Zeros(32768);
  }

  lemma {:induction false} ContentsStand(files: seq<CloudInitFile>, date: seq<byte>, now: seq<byte>, k: nat)
    requires |date| == 6 && |now| == 16 && k < |files|
    ensures var img := IsoImage(files, date, now); var from, to := 2048 * SectorOf(files, k), 2048 * SectorOf(files, k + 1);
      && from + |files[k].contents| <= to <= |img|
      && img[from..from + |files[k].contents|] == files[k].contents
      && forall i :: from + |files[k].contents| <= i < to ==> img[i] == 0
  {
    hide IsoImage, DataTo, SectorOf, Units;
    IsoRoundTrip.ImageRegions(files, date, now);
    IsoRoundTrip.DataOfFile(files, k, |files|);
    IsoRoundTrip.SectorMono(files, k, k + 1);
    var img := IsoImage(files, date, now);
    var from, to := 2048 * SectorOf(files, k), 2048 * SectorOf(files, k + 1);
    Shifted(img, 38912, from - 38912, to - 38912);
    PaddedPart(img, from, to, files[k].contents, 2048 * FileSectors(files[k]) - |files[k].contents|);
  }
}

// writeISO9660: the descriptors, the directory sector and the contents.
module IsoWriter {
  import opened Arith
  import opened Bytes
  import opened Wrappers
  import opened CloudInit
  import opened SparseFiles
  import opened IsoVolume

  lemma {:induction false} OrOne(x: nat)
    ensures BitOr(x, 1) == if x % 2 == 0 then x + 1 else x
  {
    BitOrCommutes(x / 2, 0);
    BitOrZero(x / 2);
  }

  method PutU16(sector: array<byte>, off: nat, v: nat)
    requires off + 4 <= sector.Length
    modifies sector
    ensures sector[..] == Splice(old(sector[..]), off, Both(v, 2))
  {
    PutBytes(sector, off, LeBytes(v, 2));
    PutBytes(sector, off + 2, BeBytes(v, 2));
    SpliceTwice(old(sector[..]), off, LeBytes(v, 2), BeBytes(v, 2));
  }

  method PutU32(sector: array<byte>, off: nat, v: nat)
    requires off + 8 <= sector.Length
    modifies sector
    ensures sector[..] == Splice(old(sector[..]), off, Both(v, 4))
  {
    PutBytes(sector, off, LeBytes(v, 4));
    PutBytes(sector, off + 4, BeBytes(v, 4));
    SpliceTwice(old(sector[..]), off, LeBytes(v, 4), BeBytes(v, 4));
  }

  method PutRecordStart(sector: array<byte>, offset: nat, first: byte, location: nat, length: nat, date: seq<byte>)
    requires |date| == 6 && ClearRange(sector[..], offset, 33)
    modifies sector
    ensures sector[..] == Splice(old(sector[..]), offset, [first] + Zeros(1) + Both(location, 4) + Both(length, 4) + date)
  {
    hide Both, Splice;
    ghost var s := sector[..];
    PutBytes(sector, offset, [first]);
    PutU32(sector, offset + 2, location);
    SpliceGap(s, offset, [first], 1, Both(location, 4));
    PutU32(sector, offset + 10, length);
    SpliceTwice(s, offset, [first] + Zeros(1) + Both(location, 4), Both(length, 4));
    PutBytes(sector, offset + 18, date);
    SpliceTwice(s, offset, [first] + Zeros(1) + Both(location, 4) + Both(length, 4), date);
  }

  method PutRecordHead(sector: array<byte>, offset: nat, totlen: nat, location: nat, length: nat, date: seq<byte>, flags: byte, identLen: nat)
    requires |date| == 6 && ClearRange(sector[..], offset, 33) && totlen == RecordLength(identLen)
    modifies sector
    ensures sector[..] == Splice(old(sector[..]), offset, RecordHead(location, length, date, flags, identLen))
  {
    hide Both, Splice;
    ghost var s := sector[..];
    ghost var d := [totlen % 256] + Zeros(1) + Both(location, 4) + Both(length, 4) + date;
    PutRecordStart(sector, offset, totlen % 256, location, length, date);
    PutBytes(sector, offset + 25, [flags]);
    SpliceGap(s, offset, d, 1, [flags]);
    PutU16(sector, offset + 28, 1);
    SpliceGap(s, offset, d + Zeros(1) + [flags], 2, Both(1, 2));
    PutBytes(sector, offset + 32, [identLen % 256]);
    SpliceTwice(s, offset, d + Zeros(1) + [flags] + Zeros(2) + Both(1, 2), [identLen % 256]);
  }

  /** Writes a record at `offset`; -1 and nothing written when the sector has no room for it. */
  method PutDirent(sector: array<byte>, offset: int, location: nat, length: nat, date: seq<byte>, flags: byte, ident: seq<byte>)
    returns (next: int)
    requires |date| == 6 && sector.Length == 2048
    requires offset + RecordLength(|ident|) <= 2048 ==> 0 <= offset && ClearRange(sector[..], offset, RecordLength(|ident|))
    modifies sector
    ensures offset + RecordLength(|ident|) > 2048 ==> next == -1 && sector[..] == old(sector[..])
    ensures offset + RecordLength(|ident|) <= 2048 ==>
      && next == offset + RecordLength(|ident|)
      && sector[..] == Splice(old(sector[..]), offset, Record(location, length, date, flags, ident))
  {
    hide RecordHead;
    OrOne(33 + |ident|);
    var totlen := BitOr(33 + |ident|, 1) + 1;
    if offset + totlen > 2048 {
      return -1;
    }
    ghost var s, head := sector[..], RecordHead(location, length, date, flags, |ident|);
    PutRecordHead(sector, offset, totlen, location, length, date, flags, |ident|);
    PutBytes(sector, offset + 33, ident);
    SpliceTwice(s, offset, head, ident);
    SpliceRest(s, offset, head + ident, totlen - 33 - |ident|);
    next := offset + totlen;
  }

  // ----- descriptors ------------------------------------------------------------------------

  method PutIdentifiers(sector: array<byte>, ghost z: seq<byte>)
    requires z == Zeros(2048) && sector[..] == z
    modifies sector
    ensures sector[..] == Splice(z, 0, [1] + Ascii("CD001") + Zeros(1) + [1] + Padded(Ascii("LINUX"), 32) + Padded(Ascii("cidata"), 32))
  {
    hide Padded, Ascii, Splice, Zeros;
    var id, system, volume := Ascii("CD001"), Padded(Ascii("LINUX"), 32), Padded(Ascii("cidata"), 32);
    ghost var d := [1] + id + Zeros(1) + [1];
    PutBytes(sector, 0, [1]);
    PutBytes(sector, 1, id);
    SpliceTwice(z, 0, [1], id);
    PutBytes(sector, 7, [1]);
    SpliceGap(z, 0, [1] + id, 1, [1]);
    PutBytes(sector, 8, system);
    SpliceTwice(z, 0, d, system);
    PutBytes(sector, 40, volume);
    SpliceTwice(z, 0, d + system, volume);
  }

  method PutDescriptorHead(sector: array<byte>, total: nat)
    requires sector[..] == Zeros(2048)
    modifies sector
    ensures sector[..] == Splice(Zeros(2048), 0, DescriptorHead(total))
  {
    hide Both, Padded, Ascii, Splice;
    ghost var z := Zeros(2048);
    ghost var d := [1] + Ascii("CD001") + Zeros(1) + [1] + Padded(Ascii("LINUX"), 32) + Padded(Ascii("cidata"), 32);
    PutIdentifiers(sector, z);
    PutU32(sector, 80, total);
    SpliceGap(z, 0, d, 8, Both(total, 4));
    PutU16(sector, 120, 1);
    SpliceGap(z, 0, d + Zeros(8) + Both(total, 4), 32, Both(1, 2));
    d := d + Zeros(8) + Both(total, 4) + Zeros(32) + Both(1, 2);
    PutU16(sector, 124, 1);
    SpliceTwice(z, 0, d, Both(1, 2));
    PutU16(sector, 128, 2048);
    SpliceTwice(z, 0, d + Both(1, 2), Both(2048, 2));
    SpliceRest(z, 0, d + Both(1, 2) + Both(2048, 2), 24);
  }

  method PutDescriptorTail(sector: array<byte>, now: seq<byte>, ghost s: seq<byte>)
    requires |now| == 16 && sector.Length == 2048 == |s| && sector[..] == s
    requires forall i :: 192 <= i < 2048 ==> s[i] == 0
    modifies sector
    ensures sector[..] == Splice(s, 190, DescriptorTail(now))
  {
    hide Padded, Ascii;
    var blank, app := Padded([], 128), Padded(Ascii("cluster-api-provider-scvmm"), 128);
    var copyright, abstr, biblio := Padded([], 38), Padded([], 36), Padded([], 37);
    var date, none := now + [0], Ascii("0000000000000000") + [0];
    ghost var d := blank;
    PutBytes(sector, 190, blank);
    PutBytes(sector, 318, blank);
    SpliceTwice(s, 190, d, blank);
    d := d + blank;
    PutBytes(sector, 446, blank);
    SpliceTwice(s, 190, d, blank);
    d := d + blank;
    PutBytes(sector, 574, app);
    SpliceTwice(s, 190, d, app);
    d := d + app;
    PutBytes(sector, 702, copyright);
    SpliceTwice(s, 190, d, copyright);
    d := d + copyright;
    PutBytes(sector, 740, abstr);
    SpliceTwice(s, 190, d, abstr);
    d := d + abstr;
    PutBytes(sector, 776, biblio);
    SpliceTwice(s, 190, d, biblio);
    d := d + biblio;
    PutBytes(sector, 813, date);
    SpliceTwice(s, 190, d, date);
    d := d + date;
    PutBytes(sector, 830, date);
    SpliceTwice(s, 190, d, date);
    d := d + date;
    PutBytes(sector, 847, none);
    SpliceTwice(s, 190, d, none);
    d := d + none;
    PutBytes(sector, 864, date);
    SpliceTwice(s, 190, d, date);
    d := d + date;
    PutBytes(sector, 881, [1]);
    SpliceTwice(s, 190, d, [1]);
  }

  /** The volume set name overwrites the padding at the end of the root record. */
  lemma RootRecordKept(head: seq<byte>, rec: seq<byte>, tail: seq<byte>)
    requires |head| == 156 && |rec| == 36 && |tail| == 692
    ensures Splice(Splice(Splice(Zeros(2048), 0, head), 156, rec), 190, tail) == head + rec[..34] + tail + Zeros(1166)
  {
  }

  method PutPrimaryDescriptor(sector: array<byte>, total: nat, date: seq<byte>, now: seq<byte>)
    requires |date| == 6 && |now| == 16 && sector[..] == Zeros(2048)
    modifies sector
    ensures sector[..] == PrimaryDescriptor(total, date, now)
  {
    hide DescriptorHead, DescriptorTail, Record;
    PutDescriptorHead(sector, total);
    ghost var rec := Record(18, 2048, date, 2, [0]);
    var next := PutDirent(sector, 156, 18, 2048, date, 2, [0]);
    PutDescriptorTail(sector, now, sector[..]);
    RootRecordKept(DescriptorHead(total), rec, DescriptorTail(now));
  }

  method PutTerminator(sector: array<byte>)
    requires sector[..] == Zeros(2048)
    modifies sector
    ensures sector[..] == Terminator()
  {
    hide Ascii;
    ghost var z, d := Zeros(2048), [255];
    PutBytes(sector, 0, [255]);
    PutBytes(sector, 1, Ascii("CD001"));
    SpliceTwice(z, 0, d, Ascii("CD001"));
    PutBytes(sector, 6, [1]);
    SpliceTwice(z, 0, d + Ascii("CD001"), [1]);
    SpliceZeros(d + Ascii("CD001") + [1], 2048);
  }

  method ClearSector(sector: array<byte>)
    requires sector.Length == 2048
    modifies sector
    ensures sector[..] == Zeros(2048)
  {
    for i := 0 to 2048
      invariant forall j :: 0 <= j < i ==> sector[j] == 0
    {
      sector[i] := 0;
    }
  }

  // ----- directory --------------------------------------------------------------------------

  /** A record after the first one without room: the source slices at offset -1. */
  ghost predicate DirectoryPanics(files: seq<CloudInitFile>) {
    exists k :: Fitted(files) < k < |files| && RecordLength(|files[k].filename| + 2) <= 2049
  }

  lemma {:induction false} FittedBoundary(files: seq<CloudInitFile>, k: nat)
    requires k <= |files| && RecordAt(files, k) <= 2048
    ensures FittedFrom(files, k) < |files| ==> RecordAt(files, FittedFrom(files, k) + 1) > 2048
    decreases |files| - k
  {
    if k < |files| && RecordAt(files, k + 1) <= 2048 {
      FittedBoundary(files, k + 1);
    }
  }

  /** Whether the sector after `i` files is what the source has at that point. */
  ghost predicate DirectoryState(s: seq<byte>, curOff: int, files: seq<CloudInitFile>, i: nat, date: seq<byte>)
    requires i <= |files| && |date| == 6
  {
    if i <= Fitted(files)
    then curOff == RecordAt(files, i) <= 2048 && s == DirectoryTo(files, i, date) + Zeros(2048 - curOff)
    else curOff == -1 && s == DirectorySector(files, date)
  }

  method PutFileRecord(sector: array<byte>, curOff: int, files: seq<CloudInitFile>, i: nat, fileSector: nat, date: seq<byte>)
    returns (next: int)
    requires i < |files| && |date| == 6 && sector.Length == 2048 && fileSector == SectorOf(files, i)
    requires DirectoryState(sector[..], curOff, files, i, date)
    requires curOff == -1 ==> RecordLength(|files[i].filename| + 2) > 2049
    modifies sector
    ensures DirectoryState(sector[..], next, files, i + 1, date)
  {
    hide Record, Splice, RecordLength, FileSectors, Units, FittedFrom, Zeros;
    ghost var rec := Record(fileSector, |files[i].contents|, date, 0, Ident(files[i]));
    FittedBoundary(files, 0);
    if i < Fitted(files) {
      FittedFits(files, 0);
      RecordAtMono(files, i + 1, Fitted(files));
      TailClear(DirectoryTo(files, i, date), 2048 - curOff, rec);
    }
    next := PutDirent(sector, curOff, fileSector, |files[i].contents|, date, 0, files[i].filename + Ascii(";1"));
  }

  method PutDirectory(sector: array<byte>, files: seq<CloudInitFile>, date: seq<byte>) returns (ok: bool)
    requires |date| == 6 && sector[..] == Zeros(2048)
    modifies sector
    ensures ok <==> !DirectoryPanics(files)
    ensures ok ==> sector[..] == DirectorySector(files, date)
  {
    hide Record, DirectorySector, FittedFrom;
    TailClear([], 2048, Record(18, 2048, date, 2, [0]));
    TailClear(Record(18, 2048, date, 2, [0]), 2012, Record(18, 2048, date, 2, [1]));
    var curOff := PutDirent(sector, 0, 18, 2048, date, 2, [0]);
    curOff := PutDirent(sector, curOff, 18, 2048, date, 2, [1]);
    assert sector[..] == DirectoryTo(files, 0, date) + Zeros(2048 - 72);
    var fileSector := 19;
    for i := 0 to |files|
      invariant fileSector == SectorOf(files, i)
      invariant DirectoryState(sector[..], curOff, files, i, date)
      invariant forall k :: Fitted(files) < k < i ==> RecordLength(|files[k].filename| + 2) > 2049
    {
      if curOff < 0 && curOff + RecordLength(|files[i].filename| + 2) <= 2048 {
        assert Fitted(files) < i;
        return false;
      }
      curOff := PutFileRecord(sector, curOff, files, i, fileSector, date);
      UnitsByDivision(|files[i].contents|, 2048);
      fileSector := fileSector + TruncDiv(|files[i].contents| - 1, 2048) + 1;
    }
    DirectoryDone(sector[..], curOff, files, date);
    ok := true;
  }

  lemma DirectoryDone(s: seq<byte>, curOff: int, files: seq<CloudInitFile>, date: seq<byte>)
    requires |date| == 6 && DirectoryState(s, curOff, files, |files|, date)
    ensures s == DirectorySector(files, date)
  {
  }

  // ----- writeISO9660 -----------------------------------------------------------------------

  method PadContents(f: CloudInitFile) returns (contents: seq<byte>)
    ensures contents == PaddedContents(f)
  {
    UnitsByDivision(|f.contents|, 2048);
    UnitsCover(|f.contents|, 2048);
    var paddedLen := (TruncDiv(|f.contents| - 1, 2048) + 1) * 2048;
    contents := f.contents + Zeros(paddedLen - |f.contents|);
  }

  lemma DataStep(files: seq<CloudInitFile>, i: nat, done: seq<byte>)
    requires i < |files|
    ensures done + DataTo(files, i) + PaddedContents(files[i]) == done + DataTo(files, i + 1)
    ensures 2048 * SectorOf(files, i + 1) == 2048 * SectorOf(files, i) + |PaddedContents(files[i])|
  {
    assert done + (DataTo(files, i) + PaddedContents(files[i])) == done + DataTo(files, i) + PaddedContents(files[i]);
  }

  lemma {:induction false} DataStart(files: seq<CloudInitFile>, done: seq<byte>)
    ensures done + DataTo(files, 0) == done && SectorOf(files, 0) == 19 && TotalSectors(files) == SectorOf(files, |files|)
  {
  }

  method WriteContents(fh: SparseFile, files: seq<CloudInitFile>, offset: nat, ghost old_: seq<byte>, ghost start: nat,
                       ghost done: seq<byte>, ghost es: seq<Extent>) returns (ok: bool)
    requires offset == start + |done| && fh.bytes == Overlay(old_, start, done)
    requires TilesSince(es, fh.extents, start, offset)
    modifies fh
    ensures ok ==> fh.bytes == Overlay(old_, start, done + DataTo(files, |files|))
    ensures ok ==> TilesSince(es, fh.extents, start, offset + 2048 * (TotalSectors(files) - 19))
  {
    hide *;
    var off := offset;
    DataStart(files, done);
    for i := 0 to |files|
      invariant off == offset + 2048 * (SectorOf(files, i) - 19)
      invariant fh.bytes == Overlay(old_, start, done + DataTo(files, i))
      invariant TilesSince(es, fh.extents, start, off)
    {
      var contents := PadContents(files[i]);
      DataStep(files, i, done);
      var next;
      next, ok := Append(fh, contents, off, old_, start, done + DataTo(files, i), es);
      if !ok {
        return;
      }
      off := off + |contents|;
    }
    ok := true;
  }

  method CountSectors(files: seq<CloudInitFile>) returns (lastSector: nat)
    ensures lastSector == TotalSectors(files)
  {
    lastSector := 19;
    for i := 0 to |files|
      invariant lastSector == SectorOf(files, i)
    {
      UnitsByDivision(|files[i].contents|, 2048);
      lastSector := lastSector + (TruncDiv(|files[i].contents| - 1, 2048) + 1);
    }
  }

  /**
   * Writes the files as an ISO 9660 volume at `offset` and returns its size;
   * with no file to write to, only computes the size. The first 16 sectors of
   * the volume are left alone.
   */
  method WriteIso(fh: SparseFile?, files: seq<CloudInitFile>, offset: nat, date: seq<byte>, now: seq<byte>)
    returns (r: Result<nat, WriteError>)
    requires |date| == 6 && |now| == 16
    modifies if fh == null then {} else {fh}
    ensures fh == null ==> r.Ok?
    ensures r.Ok? ==> r.value == 2048 * TotalSectors(files)
    ensures r == Err(SliceOutOfRange) ==> DirectoryPanics(files)
    ensures fh != null && DirectoryPanics(files) ==> r.Err?
    ensures fh != null && r.Ok? ==>
      fh.bytes == Overlay(old(fh.bytes), offset + 32768, IsoBody(files, date, now))
    ensures fh != null && r.Ok? ==> TilesSince(old(fh.extents), fh.extents, offset + 32768, offset + r.value)
  {
    hide Overlay, TilesSince, PrimaryDescriptor, Terminator, DirectorySector, DataTo, DirectoryPanics;
    var lastSector := CountSectors(files);
    if fh == null {
      return Ok(2048 * lastSector);
    }
    ghost var was, es, start := fh.bytes, fh.extents, offset + 32768;
    ghost var primary, terminator, directory :=
      PrimaryDescriptor(lastSector, date, now), Terminator(), DirectorySector(files, date);
    var sector := new byte[2048](_ => 0);
    assert sector[..] == Zeros(2048);
    PutPrimaryDescriptor(sector, lastSector, date, now);
    NothingYet(was, es, start);
    assert [] + primary == primary;
    var off, ok := Append(fh, sector[..], offset + 16 * 2048, was, start, [], es);
    if !ok {
      return Err(ShortWrite);
    }
    ClearSector(sector);
    PutTerminator(sector);
    off, ok := Append(fh, sector[..], off, was, start, primary, es);
    if !ok {
      return Err(ShortWrite);
    }
    ClearSector(sector);
    ok := PutDirectory(sector, files, date);
    if !ok {
      return Err(SliceOutOfRange);
    }
    off, ok := Append(fh, sector[..], off, was, start, primary + terminator, es);
    if !ok {
      return Err(ShortWrite);
    }
    ok := WriteContents(fh, files, off, was, start, primary + terminator + directory, es);
    if !ok {
      return Err(ShortWrite);
    }
    r := Ok(2048 * lastSector);
  }
}

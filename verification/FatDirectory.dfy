// Directory entries of a FAT volume: the entries the writer produces for a
// volume name and for a file, and the methods that put them into a sector.
module FatDirectory {
  import opened Arith
  import opened Bytes
  import opened FatChecksum

  /** A file name of ASCII characters, none of them NUL, that has room for a short name. */
  predicate ValidName(name: seq<byte>) {
    6 <= |name| <= 255 && forall i :: 0 <= i < |name| ==> 1 <= name[i] < 128
  }

  // ----- what is written ------------------------------------------------------

  function Upper(c: byte): byte {
    if 0x61 <= c <= 0x7A then c - 0x20 else c
  }

  function UpperAll(s: seq<byte>): (r: seq<byte>)
    ensures |r| == |s|
  {
    seq(|s|, i requires 0 <= i < |s| => Upper(s[i]))
  }

  function ShortName(name: seq<byte>): (r: seq<byte>)
    requires |name| >= 6
    ensures 6 <= |r| <= 8 && r[0] == Upper(name[0])
  {
    if |name| <= 8 then UpperAll(name) else UpperAll(name[..6] + Ascii("~1"))
  }

  /** Which of a slot's 13 characters has its low byte at `i`; 13 if none. */
  function CharIndex(i: nat): nat {
    if 1 <= i <= 9 && i % 2 == 1 then (i - 1) / 2
    else if 14 <= i <= 24 && i % 2 == 0 then 5 + (i - 14) / 2
    else if 28 <= i <= 30 && i % 2 == 0 then 11 + (i - 28) / 2
    else 13
  }

  /** The ordinal byte of long name slot `nameseq` out of `n`. */
  function Ordinal(nameseq: nat, n: nat): byte {
    BitOrByte(if nameseq == n then 0x40 else 0, nameseq % 256)
  }

  function BitOrByte(a: byte, b: byte): byte {
    ByteBits(0);
    BitOrBound(a, b, 8);
    BitOr(a, b)
  }

  function SlotByte(name: seq<byte>, nameseq: nat, n: nat, sum: byte, i: nat): byte
    requires nameseq >= 1
  {
    if i == 0 then Ordinal(nameseq, n)
    else if i == 11 then 0x0F
    else if i == 13 then sum
    else if CharIndex(i) < 13 && 13 * (nameseq - 1) + CharIndex(i) < |name|
    then name[13 * (nameseq - 1) + CharIndex(i)]
    else 0
  }

  /** Long name slot `nameseq` of `n`. */
  function Slot(name: seq<byte>, nameseq: nat, n: nat, sum: byte): (s: seq<byte>)
    requires nameseq >= 1
    ensures |s| == 32
    ensures forall i :: 0 <= i < 32 ==> s[i] == SlotByte(name, nameseq, n, sum, i)
  {
    seq(32, i requires 0 <= i < 32 => SlotByte(name, nameseq, n, sum, i))
  }

  /** The slots `nameseq` down to 1. */
  function Slots(name: seq<byte>, nameseq: nat, n: nat, sum: byte): (s: seq<byte>)
    ensures |s| == 32 * nameseq
  {
    if nameseq == 0 then [] else Slot(name, nameseq, n, sum) + Slots(name, nameseq - 1, n, sum)
  }

  function ShortEntry(name: seq<byte>, start: nat, flen: nat, stamp: seq<byte>): (s: seq<byte>)
    requires |name| >= 6 && |stamp| == 4
    ensures |s| == 32
  {
    Padded(ShortName(name), 11) + Zeros(3) + stamp + Zeros(2) + LeBytes(start / 0x1_0000, 2)
      + stamp + LeBytes(start, 2) + LeBytes(flen, 4)
  }

  /** All directory entries of one file. */
  function FileEntries(name: seq<byte>, start: nat, flen: nat, stamp: seq<byte>): (s: seq<byte>)
    requires |name| >= 6 && |stamp| == 4
    ensures |s| == 32 * (Units(|name|, 13) + 1)
  {
    var n := Units(|name|, 13);
    Slots(name, n, n, NameSum(Padded(ShortName(name), 11))) + ShortEntry(name, start, flen, stamp)
  }

  function VolumeEntry(volume: seq<byte>, attributes: byte, stamp: seq<byte>): (s: seq<byte>)
    requires |stamp| == 4
    ensures |s| == 32
  {
    Padded(volume, 11) + [attributes] + Zeros(2) + stamp + Zeros(4) + stamp + Zeros(6)
  }

  // ----- the writers ------------------------------------------------------------

  /** `t` is `s` with characters of the name, from `from` on, at every second byte from `base` on. */
  predicate HasChars(s: seq<byte>, t: seq<byte>, base: nat, name: seq<byte>, from: nat, count: nat) {
    && |t| == |s|
    && forall j :: 0 <= j < |s| ==>
      t[j] == if base <= j < base + 2 * count && (j - base) % 2 == 0 && from + (j - base) / 2 < |name|
              then name[from + (j - base) / 2] else s[j]
  }

  /** Puts up to `count` characters of the name. */
  method PutChars(sector: array<byte>, base: nat, name: seq<byte>, from: nat, count: nat)
    requires base + 2 * count <= sector.Length
    modifies sector
    ensures HasChars(old(sector[..]), sector[..], base, name, from, count)
  {
    var i := 0;
    while i < count && from + i < |name|
      invariant 0 <= i <= count
      invariant forall j :: 0 <= j < sector.Length ==>
        sector[j] == if base <= j < base + 2 * i && (j - base) % 2 == 0 && from + (j - base) / 2 < |name|
                     then name[from + (j - base) / 2] else old(sector[j])
    {
      sector[base + 2 * i] := name[from + i];
      i := i + 1;
    }
  }

  method PutSlot(sector: array<byte>, offset: nat, name: seq<byte>, nameseq: nat, n: nat, first: byte, sum: byte)
    requires nameseq >= 1 && first == if nameseq == n then 0x40 else 0
    requires ClearRange(sector[..], offset, 32)
    modifies sector
    ensures sector[..] == Splice(old(sector[..]), offset, Slot(name, nameseq, n, sum))
  {
    hide Slot, SlotByte, BitOrByte, Splice, HasChars;
    ghost var s := sector[..];
    sector[offset] := BitOrByte(first, nameseq % 256);
    ghost var s0 := sector[..];
    PutChars(sector, offset + 1, name, 13 * (nameseq - 1), 5);
    ghost var s1 := sector[..];
    PutChars(sector, offset + 14, name, 13 * (nameseq - 1) + 5, 6);
    ghost var s2 := sector[..];
    PutChars(sector, offset + 28, name, 13 * (nameseq - 1) + 11, 2);
    ghost var s3 := sector[..];
    sector[offset + 11] := 0x0F;
    sector[offset + 13] := sum;
    SlotWritten(s, s0, s1, s2, s3, sector[..], offset, name, nameseq, n, sum);
  }

  /** The states of the sector while a slot is written: the ordinal, three runs of characters, the attribute and the checksum. */
  predicate SlotStates(s: seq<byte>, s0: seq<byte>, s1: seq<byte>, s2: seq<byte>, s3: seq<byte>, t: seq<byte>,
                       offset: nat, name: seq<byte>, nameseq: nat, n: nat, sum: byte)
    requires nameseq >= 1 && offset + 32 <= |s|
  {
    && |s0| == |s| && s0[offset] == Ordinal(nameseq, n) && (forall j :: 0 <= j < |s| && j != offset ==> s0[j] == s[j])
    && HasChars(s0, s1, offset + 1, name, 13 * (nameseq - 1), 5)
    && HasChars(s1, s2, offset + 14, name, 13 * (nameseq - 1) + 5, 6)
    && HasChars(s2, s3, offset + 28, name, 13 * (nameseq - 1) + 11, 2)
    && |t| == |s| && t[offset + 11] == 0x0F && t[offset + 13] == sum
    && forall j :: 0 <= j < |s| && j != offset + 11 && j != offset + 13 ==> t[j] == s3[j]
  }

  lemma SlotByteWritten(s: seq<byte>, s0: seq<byte>, s1: seq<byte>, s2: seq<byte>, s3: seq<byte>, t: seq<byte>,
                        offset: nat, name: seq<byte>, nameseq: nat, n: nat, sum: byte, i: nat)
    requires nameseq >= 1 && ClearRange(s, offset, 32) && i < 32
    requires SlotStates(s, s0, s1, s2, s3, t, offset, name, nameseq, n, sum)
    ensures t[offset + i] == SlotByte(name, nameseq, n, sum, i)
  {
    hide Ordinal;
    var j := offset + i;
    assert s0[j] == if i == 0 then Ordinal(nameseq, n) else 0;
    assert i < 1 || i > 10 ==> s1[j] == s0[j];
    assert i < 14 || i > 25 ==> s2[j] == s1[j];
    assert i < 28 ==> s3[j] == s2[j];
  }

  lemma SlotWritten(s: seq<byte>, s0: seq<byte>, s1: seq<byte>, s2: seq<byte>, s3: seq<byte>, t: seq<byte>,
                    offset: nat, name: seq<byte>, nameseq: nat, n: nat, sum: byte)
    requires nameseq >= 1 && ClearRange(s, offset, 32)
    requires SlotStates(s, s0, s1, s2, s3, t, offset, name, nameseq, n, sum)
    ensures t == Splice(s, offset, Slot(name, nameseq, n, sum))
  {
    hide Ordinal, SlotByte, Slot;
    forall j | 0 <= j < |s|
      ensures t[j] == Splice(s, offset, Slot(name, nameseq, n, sum))[j]
    {
      if offset <= j < offset + 32 {
        SlotByteWritten(s, s0, s1, s2, s3, t, offset, name, nameseq, n, sum, j - offset);
      } else {
        assert s0[j] == s1[j] == s2[j] == s3[j];
      }
    }
  }

  /** The sum is turned with shifts. */
  method NameChecksum(shortname: seq<byte>) returns (sum: byte)
    ensures sum == NameSum(Padded(shortname, 11))
  {
    hide Rotated;
    sum := 0;
    ghost var stored := Padded(shortname, 11);
    for i := 0 to 11
      invariant sum == NameSum(stored[..i])
    {
      var chr := 0x20;
      if i < |shortname| {
        chr := shortname[i];
      }
      SumStep(stored, i);
      sum := (sum as int % 2 * 128 + sum as int / 2 + chr as int) % 256;
    }
    assert stored[..11] == stored;
  }

  lemma SlotsStep(s: seq<byte>, offset: nat, done: seq<byte>, name: seq<byte>, nameseq: nat, n: nat, sum: byte)
    requires nameseq > 0 && ClearRange(s, offset, |done| + 32 * nameseq)
    ensures ClearRange(Splice(s, offset, done), offset + |done|, 32)
    ensures Splice(Splice(s, offset, done), offset + |done|, Slot(name, nameseq, n, sum))
         == Splice(s, offset, done + Slot(name, nameseq, n, sum))
    ensures done + Slots(name, nameseq, n, sum)
         == done + Slot(name, nameseq, n, sum) + Slots(name, nameseq - 1, n, sum)
  {
    var slot, rest := Slot(name, nameseq, n, sum), Slots(name, nameseq - 1, n, sum);
    ClearAfter(s, offset, done, 32);
    SpliceTwice(s, offset, done, slot);
    assert done + (slot + rest) == (done + slot) + rest;
  }

  /** Writes the long name slots, the last one of the name first. */
  method PutSlots(sector: array<byte>, offset: nat, name: seq<byte>, n: nat, sum: byte) returns (off: nat)
    requires ClearRange(sector[..], offset, 32 * n)
    modifies sector
    ensures off == offset + 32 * n
    ensures sector[..] == Splice(old(sector[..]), offset, Slots(name, n, n, sum))
  {
    ghost var s := sector[..];
    ghost var done: seq<byte> := [];
    SpliceNothing(s, offset);
    off := offset;
    var first := 0x40;
    var nameseq := n;
    while nameseq > 0
      invariant 0 <= nameseq <= n && off == offset + 32 * (n - nameseq)
      invariant nameseq > 0 ==> first == if nameseq == n then 0x40 else 0
      invariant |done| == off - offset
      invariant done + Slots(name, nameseq, n, sum) == Slots(name, n, n, sum)
      invariant sector[..] == Splice(s, offset, done)
    {
      SlotsStep(s, offset, done, name, nameseq, n, sum);
      PutSlot(sector, off, name, nameseq, n, first, sum);
      done := done + Slot(name, nameseq, n, sum);
      off := off + 32;
      first := 0;
      nameseq := nameseq - 1;
    }
    assert done + [] == done;
  }

  method PutVfatDirent(sector: array<byte>, offset: nat, name: seq<byte>, start: nat, flen: nat, stamp: seq<byte>)
    returns (next: nat)
    requires |name| >= 6 && |stamp| == 4
    requires ClearRange(sector[..], offset, 32 * (Units(|name|, 13) + 1))
    modifies sector
    ensures next == offset + 32 * (Units(|name|, 13) + 1)
    ensures sector[..] == Splice(old(sector[..]), offset, FileEntries(name, start, flen, stamp))
  {
    hide Slots, ShortEntry, Splice, ShortName, NameSum, Padded, Units, TruncDiv;
    ghost var s := sector[..];
    UnitsByDivision(|name|, 13);
    var n := TruncDiv(|name| - 1, 13) + 1;
    var sum := NameChecksum(ShortName(name));
    var off := PutSlots(sector, offset, name, n, sum);
    ClearAfter(s, offset, Slots(name, n, n, sum), 32);
    PutShortEntry(sector, off, name, start, flen, stamp);
    SpliceTwice(s, offset, Slots(name, n, n, sum), ShortEntry(name, start, flen, stamp));
    next := off + 32;
  }

  method PutShortEntry(sector: array<byte>, offset: nat, name: seq<byte>, start: nat, flen: nat, stamp: seq<byte>)
    requires |name| >= 6 && |stamp| == 4
    requires ClearRange(sector[..], offset, 32)
    modifies sector
    ensures sector[..] == Splice(old(sector[..]), offset, ShortEntry(name, start, flen, stamp))
  {
    ghost var s := sector[..];
    var short := Padded(ShortName(name), 11);
    var hi, lo, size := LeBytes(start / 0x1_0000, 2), LeBytes(start, 2), LeBytes(flen, 4);
    PutBytes(sector, offset, short);
    PutBytes(sector, offset + 14, stamp);
    SpliceGap(s, offset, short, 3, stamp);
    PutBytes(sector, offset + 20, hi);
    SpliceGap(s, offset, short + Zeros(3) + stamp, 2, hi);
    PutBytes(sector, offset + 22, stamp);
    SpliceTwice(s, offset, short + Zeros(3) + stamp + Zeros(2) + hi, stamp);
    PutBytes(sector, offset + 26, lo);
    SpliceTwice(s, offset, short + Zeros(3) + stamp + Zeros(2) + hi + stamp, lo);
    PutBytes(sector, offset + 28, size);
    SpliceTwice(s, offset, short + Zeros(3) + stamp + Zeros(2) + hi + stamp + lo, size);
  }

  method PutDirent(sector: array<byte>, offset: nat, volume: seq<byte>, attributes: byte, stamp: seq<byte>)
    returns (next: nat)
    requires |stamp| == 4
    requires ClearRange(sector[..], offset, 32)
    modifies sector
    ensures next == offset + 32
    ensures sector[..] == Splice(old(sector[..]), offset, VolumeEntry(volume, attributes, stamp))
  {
    ghost var s := sector[..];
    var name := Padded(volume, 11);
    PutBytes(sector, offset, name);
    PutBytes(sector, offset + 11, [attributes]);
    SpliceTwice(s, offset, name, [attributes]);
    PutBytes(sector, offset + 14, stamp);
    SpliceGap(s, offset, name + [attributes], 2, stamp);
    PutBytes(sector, offset + 22, stamp);
    SpliceGap(s, offset, name + [attributes] + Zeros(2) + stamp, 4, stamp);
    SpliceRest(s, offset, name + [attributes] + Zeros(2) + stamp + Zeros(4) + stamp, 6);
    next := offset + 32;
  }
}

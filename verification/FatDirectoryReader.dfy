// A reader of a FAT root directory, written from the FAT specification
// (revision 1.03, section "FAT Long Directory Entries"): slots carry an
// ordinal, a checksum of the short name that follows, and 13 UTF-16 units.
module FatDirectoryReader {
  import opened Arith
  import opened Bytes
  import opened Wrappers
  import opened FatChecksum
  import opened FatDirectory

  datatype DirEntry = DirEntry(name: seq<byte>, cluster: nat, size: nat)

  /** A long name being collected: the ordinal read last, the checksum, the characters so far. */
  datatype Pending = NoName | LongName(ordinal: nat, sum: byte, chars: seq<byte>)

  /** Where the low byte of a slot's character `k` is. */
  function CharAt(k: nat): nat {
    if k < 5 then 1 + 2 * k else if k < 11 then 14 + 2 * (k - 5) else 28 + 2 * (k - 11)
  }

  /** The characters of a slot from `k` on, if they are all single bytes. */
  function SlotChars(e: seq<byte>, k: nat): Option<seq<byte>>
    requires |e| == 32 && k <= 13
    decreases 13 - k
  {
    if k == 13 then Some([])
    else if e[CharAt(k) + 1] != 0 then None
    else
      match SlotChars(e, k + 1)
      case None => None
      case Some(cs) => Some([e[CharAt(k)]] + cs)
  }

  function TakeSlot(e: seq<byte>, p: Pending): Option<Pending>
    requires |e| == 32
  {
    match SlotChars(e, 0)
    case None => None
    case Some(chars) =>
      if 0x41 <= e[0] < 0x80 then Some(LongName(e[0] - 0x40, e[13], chars))
      else if p.LongName? && 1 <= e[0] && p.ordinal == e[0] as int + 1 && p.sum == e[13]
      then Some(LongName(e[0], p.sum, chars + p.chars))
      else None
  }

  function UntilNul(chars: seq<byte>): seq<byte> {
    if chars == [] || chars[0] == 0 then [] else [chars[0]] + UntilNul(chars[1..])
  }

  /** The name of a short entry: the complete long name before it, or its own 11 bytes. */
  function EntryName(e: seq<byte>, p: Pending): Option<seq<byte>>
    requires |e| == 32
  {
    if p.NoName? then Some(e[..11])
    else if p.ordinal == 1 && p.sum == NameSum(e[..11]) then Some(UntilNul(p.chars))
    else None
  }

  /** The files of a root directory in order; None when it is malformed. */
  function ParseDir(dir: seq<byte>, p: Pending): Option<seq<DirEntry>>
    decreases |dir|
  {
    if |dir| < 32 || dir[0] == 0 then Some([])
    else
      var e, rest := dir[..32], dir[32..];
      if e[0] == 0xE5 then ParseDir(rest, NoName)
      else if e[11] % 64 == 0x0F then
        match TakeSlot(e, p)
        case None => None
        case Some(q) => ParseDir(rest, q)
      else if e[11] / 8 % 2 == 1 then ParseDir(rest, NoName)
      else
        match EntryName(e, p)
        case None => None
        case Some(name) =>
          match ParseDir(rest, NoName)
          case None => None
          case Some(es) => Some([DirEntry(name, Le(e, 26, 2) + 0x1_0000 * Le(e, 20, 2), Le(e, 28, 4))] + es)
  }

  // ----- reading back what was written -------------------------------------------

  /** The 13 characters a slot carries: the name's, then NULs. */
  function Chunk(name: seq<byte>, nameseq: nat): (s: seq<byte>)
    requires nameseq >= 1
    ensures |s| == 13
  {
    seq(13, k => if 13 * (nameseq - 1) + k < |name| && k >= 0 then name[13 * (nameseq - 1) + k] else 0)
  }

  /** The characters of the slots `nameseq`+1 to `n`. */
  function ChunksFrom(name: seq<byte>, nameseq: nat, n: nat): (s: seq<byte>)
    requires nameseq <= n
    ensures |s| == 13 * (n - nameseq)
    ensures forall k :: 0 <= k < |s| ==> s[k] == if 13 * nameseq + k < |name| then name[13 * nameseq + k] else 0
    decreases n - nameseq
  {
    if nameseq == n then [] else Chunk(name, nameseq + 1) + ChunksFrom(name, nameseq + 1, n)
  }

  lemma SlotCharBytes(name: seq<byte>, nameseq: nat, n: nat, sum: byte, k: nat)
    requires nameseq >= 1 && k < 13
    ensures Slot(name, nameseq, n, sum)[CharAt(k)] == Chunk(name, nameseq)[k]
    ensures Slot(name, nameseq, n, sum)[CharAt(k) + 1] == 0
  {
    assert CharIndex(CharAt(k)) == k && CharIndex(CharAt(k) + 1) == 13;
  }

  lemma {:induction false} SlotCharsOfSlot(name: seq<byte>, nameseq: nat, n: nat, sum: byte, k: nat)
    requires nameseq >= 1 && k <= 13
    ensures SlotChars(Slot(name, nameseq, n, sum), k) == Some(Chunk(name, nameseq)[k..])
    decreases 13 - k
  {
    var chunk := Chunk(name, nameseq);
    if k == 13 {
      assert chunk[k..] == [];
    } else {
      SlotCharsOfSlot(name, nameseq, n, sum, k + 1);
      SlotCharBytes(name, nameseq, n, sum, k);
      assert chunk[k..] == [chunk[k]] + chunk[k + 1..];
    }
  }

  lemma OrdinalByte(nameseq: nat, n: nat)
    requires 1 <= nameseq <= n <= 20
    ensures Ordinal(nameseq, n) == if nameseq == n then 0x40 + nameseq else nameseq
  {
    if nameseq == n {
      assert Shl(1, 3) == 8 && Shl(8, 3) == 64;
      ShlShl(1, 3, 3);
      BitOrDisjoint(nameseq, 1, 6);
      BitOrCommutes(0x40, nameseq);
    } else {
      BitOrZero(nameseq);
    }
  }

  /** Reading a written slot continues the name it belongs to. */
  lemma TakeWrittenSlot(name: seq<byte>, nameseq: nat, n: nat, sum: byte, p: Pending)
    requires 1 <= nameseq <= n <= 20
    requires nameseq < n ==> p == LongName(nameseq + 1, sum, ChunksFrom(name, nameseq, n))
    ensures TakeSlot(Slot(name, nameseq, n, sum), p)
         == Some(LongName(nameseq, sum, ChunksFrom(name, nameseq - 1, n)))
  {
    hide Slot, SlotByte, SlotChars, Chunk, Ordinal, CharIndex;
    SlotMarks(name, nameseq, n, sum);
    SlotCharsOfSlot(name, nameseq, n, sum, 0);
    assert Chunk(name, nameseq)[0..] == Chunk(name, nameseq);
    assert Chunk(name, nameseq) + [] == Chunk(name, nameseq);
  }

  /** The bytes of a written slot that tell what it is. */
  lemma SlotMarks(name: seq<byte>, nameseq: nat, n: nat, sum: byte)
    requires 1 <= nameseq <= n <= 20
    ensures var e := Slot(name, nameseq, n, sum);
      e[0] == (if nameseq == n then 0x40 + nameseq else nameseq) && e[11] == 0x0F && e[13] == sum
  {
    hide Ordinal, CharIndex;
    OrdinalByte(nameseq, n);
  }

  lemma SlotsFront(name: seq<byte>, nameseq: nat, n: nat, sum: byte, rest: seq<byte>)
    requires nameseq >= 1
    ensures Slots(name, nameseq, n, sum) + rest == Slot(name, nameseq, n, sum) + (Slots(name, nameseq - 1, n, sum) + rest)
    ensures Slots(name, 0, n, sum) + rest == rest
  {
    hide Slot;
  }

  lemma {:induction false} ParseSlots(name: seq<byte>, nameseq: nat, n: nat, sum: byte, rest: seq<byte>, p: Pending)
    requires 1 <= nameseq <= n <= 20
    requires nameseq < n ==> p == LongName(nameseq + 1, sum, ChunksFrom(name, nameseq, n))
    ensures ParseDir(Slots(name, nameseq, n, sum) + rest, p)
         == ParseDir(rest, LongName(1, sum, ChunksFrom(name, 0, n)))
    decreases nameseq
  {
    hide *;
    var slot, more := Slot(name, nameseq, n, sum), Slots(name, nameseq - 1, n, sum) + rest;
    var q := LongName(nameseq, sum, ChunksFrom(name, nameseq - 1, n));
    SlotsFront(name, nameseq, n, sum, rest);
    TakeWrittenSlot(name, nameseq, n, sum, p);
    SlotMarks(name, nameseq, n, sum);
    ParseSlot(slot, more, p, q);
    if nameseq > 1 {
      ParseSlots(name, nameseq - 1, n, sum, rest, q);
    }
  }

  lemma {:induction false} ParseSlot(slot: seq<byte>, more: seq<byte>, p: Pending, q: Pending)
    requires |slot| == 32 && slot[0] != 0 && slot[0] != 0xE5 && slot[11] == 0x0F
    requires TakeSlot(slot, p) == Some(q)
    ensures ParseDir(slot + more, p) == ParseDir(more, q)
  {
    assert (slot + more)[..32] == slot && (slot + more)[32..] == more;
  }

  lemma {:induction false} UntilNulOfName(name: seq<byte>, chars: seq<byte>)
    requires forall i :: 0 <= i < |name| ==> name[i] != 0
    requires |name| <= |chars| && chars[..|name|] == name
    requires forall i :: |name| <= i < |chars| ==> chars[i] == 0
    ensures UntilNul(chars) == name
  {
    if name != [] {
      assert chars[0] == name[0];
      UntilNulOfName(name[1..], chars[1..]);
      assert name == [name[0]] + name[1..];
    }
  }

  lemma {:induction false} ShortEntryPieces(name: seq<byte>, start: nat, flen: nat, stamp: seq<byte>)
    requires |name| >= 6 && |stamp| == 4
    ensures var e := ShortEntry(name, start, flen, stamp);
      && e[..11] == Padded(ShortName(name), 11) && e[11] == 0
      && e[20..22] == LeBytes(start / 0x1_0000, 2)
      && e[26..28] == LeBytes(start, 2)
      && e[28..32] == LeBytes(flen, 4)
  {
    var stored := Padded(ShortName(name), 11);
    var hi, lo, size := LeBytes(start / 0x1_0000, 2), LeBytes(start, 2), LeBytes(flen, 4);
    var a := stored + Zeros(3) + stamp + Zeros(2);
    var e := ShortEntry(name, start, flen, stamp);
    assert e == a + hi + stamp + lo + size;
    assert e == a + hi + (stamp + lo + size);
    PieceAt(a, hi, stamp + lo + size, 20, 2);
    PieceAt(a + hi + stamp, lo, size, 26, 2);
    assert e == a + hi + stamp + lo + size + [];
    PieceAt(a + hi + stamp + lo, size, [], 28, 4);
    assert e == stored + Zeros(3) + (stamp + Zeros(2) + hi + stamp + lo + size);
    assert e[..11] == stored;
  }

  lemma ShortEntryFields(name: seq<byte>, start: nat, flen: nat, stamp: seq<byte>)
    requires ValidName(name) && |stamp| == 4 && start < 0x1_0000_0000 && flen < 0x1_0000_0000
    ensures var e := ShortEntry(name, start, flen, stamp);
      && e[0] != 0 && e[0] != 0xE5 && e[11] == 0
      && e[..11] == Padded(ShortName(name), 11)
      && Le(e, 26, 2) + 0x1_0000 * Le(e, 20, 2) == start && Le(e, 28, 4) == flen
  {
    var e := ShortEntry(name, start, flen, stamp);
    ShortEntryPieces(name, start, flen, stamp);
    assert e[0] == e[..11][0] == Upper(name[0]);
    FieldSizes();
    FieldRoundTrip(start / 0x1_0000, 2);
    FieldRoundTrip(flen, 4);
    LowHalf(start);
  }

  lemma {:induction false} LowHalf(start: nat)
    ensures LeNum(LeBytes(start, 2)) == start % 0x1_0000
  {
    LeNumOfBytes(start, 2);
    Pow2Small();
    ShiftsArePowers(start, 16);
  }

  /**
   * The entries written for one file read back as one entry with the file's
   * long name, first cluster and length, whatever follows them.
   */
  lemma {:induction false} ParseFileEntries(name: seq<byte>, start: nat, flen: nat, stamp: seq<byte>, rest: seq<byte>)
    requires ValidName(name) && |stamp| == 4 && start < 0x1_0000_0000 && flen < 0x1_0000_0000
    requires ParseDir(rest, NoName).Some?
    ensures ParseDir(FileEntries(name, start, flen, stamp) + rest, NoName)
         == Some([DirEntry(name, start, flen)] + ParseDir(rest, NoName).value)
  {
    hide Slots, ShortEntry, ParseDir, NameSum, UntilNul, ChunksFrom, ShortName, Padded, Le, Units;
    var n := Units(|name|, 13);
    var sum := NameSum(Padded(ShortName(name), 11));
    var slots, entry := Slots(name, n, n, sum), ShortEntry(name, start, flen, stamp);
    UnitsCover(|name|, 13);
    Associate(slots, entry, rest);
    ParseSlots(name, n, n, sum, entry + rest, NoName);
    ShortEntryFields(name, start, flen, stamp);
    LongNameComplete(name);
    ParseShort(entry, rest, LongName(1, sum, ChunksFrom(name, 0, n)), name);
  }

  lemma {:induction false} LongNameComplete(name: seq<byte>)
    requires forall i :: 0 <= i < |name| ==> name[i] != 0
    ensures UntilNul(ChunksFrom(name, 0, Units(|name|, 13))) == name
  {
    UnitsCover(|name|, 13);
    var chars := ChunksFrom(name, 0, Units(|name|, 13));
    assert chars[..|name|] == name;
    UntilNulOfName(name, chars);
  }

  lemma {:induction false} ParseShort(e: seq<byte>, rest: seq<byte>, p: Pending, name: seq<byte>)
    requires |e| == 32 && e[0] != 0 && e[0] != 0xE5 && e[11] == 0
    requires EntryName(e, p) == Some(name)
    requires ParseDir(rest, NoName).Some?
    ensures ParseDir(e + rest, p)
         == Some([DirEntry(name, Le(e, 26, 2) + 0x1_0000 * Le(e, 20, 2), Le(e, 28, 4))] + ParseDir(rest, NoName).value)
  {
    assert (e + rest)[..32] == e && (e + rest)[32..] == rest;
  }

  lemma {:induction false} ParseVolumeEntry(volume: seq<byte>, stamp: seq<byte>, rest: seq<byte>)
    requires |stamp| == 4 && |volume| > 0 && volume[0] != 0 && volume[0] != 0xE5
    ensures ParseDir(VolumeEntry(volume, 0x08, stamp) + rest, NoName) == ParseDir(rest, NoName)
  {
    var e := VolumeEntry(volume, 0x08, stamp);
    assert e[0] == Padded(volume, 11)[0] && e[11] == 0x08;
    assert (e + rest)[..32] == e && (e + rest)[32..] == rest;
  }

  /** A clear area holds no files. */
  lemma {:induction false} ParseClear(n: nat, p: Pending)
    ensures ParseDir(Zeros(n), p) == Some([])
  {
  }
}

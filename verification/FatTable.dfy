// The file allocation table: entries packed bit by bit into a byte buffer,
// and the decoder of the FAT specification (revision 1.03, section
// "FAT Type Determination", the code that reads the entry of cluster N).
module FatTable {
  import opened Arith
  import opened Bytes
  import opened Wrappers

  // ----- the table as a number ----------------------------------------------

  /** The entries as the digits of one number in base 2^w, entry 0 lowest. */
  function Digits(es: seq<nat>, w: nat): nat {
    if es == [] then 0 else Low(es[0], w) + Shl(Digits(es[1..], w), w)
  }

  /** Every bit of `s` from position `bit` on is clear. */
  ghost predicate ClearFrom(s: seq<byte>, bit: nat) {
    && (forall i :: bit / 8 < i < |s| ==> s[i] == 0)
    && (bit / 8 < |s| ==> s[bit / 8] < Shl(1, bit % 8))
  }

  /** The buffer holds exactly the entries `es`, packed at `w` bits. */
  ghost predicate Holds(s: seq<byte>, es: seq<nat>, w: nat) {
    LeNum(s) == Digits(es, w) && ClearFrom(s, w * |es|)
  }

  lemma ShiftInto(d: nat, x: nat, w: nat, m: nat)
    ensures Shl(d + Shl(x, w * m), w) == Shl(d, w) + Shl(x, w * (m + 1))
  {
    hide *;
    ShlAdd(d, Shl(x, w * m), w);
    ShlShl(x, w * m, w);
    assert w * (m + 1) == w * m + w;
  }

  lemma {:induction false} DigitsAppend(es: seq<nat>, e: nat, w: nat)
    ensures Digits(es + [e], w) == Digits(es, w) + Shl(Low(e, w), w * |es|)
  {
    if es == [] {
      assert (es + [e])[1..] == [] && w * |es| == 0;
      ShlZero(w);
    } else {
      DigitsAppend(es[1..], e, w);
      assert (es + [e])[1..] == es[1..] + [e];
      ShiftInto(Digits(es[1..], w), Low(e, w), w, |es| - 1);
    }
  }

  /** Digit `k` of the number is entry `k`, cut to the entry width. */
  lemma {:induction false} DigitAt(es: seq<nat>, w: nat, k: nat)
    requires k < |es|
    ensures Low(Shr(Digits(es, w), w * k), w) == Low(es[k], w)
    decreases k
  {
    LowBound(es[0], w);
    LowShrOfSum(Low(es[0], w), Digits(es[1..], w), w);
    if k == 0 {
      assert w * k == 0;
    } else {
      DigitAt(es[1..], w, k - 1);
      LowSplit(Digits(es, w), w, w * (k - 1));
      assert w * k == w + w * (k - 1);
    }
  }

  /** Taking the low `k` bits off a `t`-bit value placed at bit `p`. */
  lemma PackStep(e: nat, t: nat, k: nat, p: nat)
    requires k <= t
    ensures Shl(Low(e, t), p) == Shl(Low(e, k), p) + Shl(Low(Shr(e, k), t - k), p + k)
  {
    LowSplit(e, k, t - k);
    var hi := Low(Shr(e, k), t - k);
    ShlAdd(Low(e, k), Shl(hi, k), p);
    ShlShl(hi, k, p);
  }

  // ----- putFATEnt ------------------------------------------------------------

  /** Stores a byte of a clear position: the number gains that byte's weight. */
  method PutByte(sector: array<byte>, i: nat, v: byte)
    requires i < sector.Length
    modifies sector
    ensures sector[..] == old(sector[..])[i := v]
    ensures LeNum(sector[..]) == LeNum(old(sector[..])) + Shl(v - old(sector[i]), 8 * i)
  {
    LeNumUpdate(sector[..], i, v);
    sector[i] := v;
    assert sector[..] == old(sector[..])[i := v];
  }

  /** Packs the low `bits` bits of `entry` from a byte boundary on. */
  method PutAligned(sector: array<byte>, at: nat, entry: nat, bits: nat)
    requires 8 * at + bits <= 8 * sector.Length
    requires forall i :: at <= i < sector.Length ==> sector[i] == 0
    modifies sector
    ensures LeNum(sector[..]) == LeNum(old(sector[..])) + Shl(Low(entry, bits), 8 * at)
    ensures ClearFrom(sector[..], 8 * at + bits)
  {
    var byteoff, bitstodo, e := at, bits, entry;
    while bitstodo >= 8
      invariant 8 * byteoff + bitstodo == 8 * at + bits && 0 <= bitstodo
      invariant forall i :: byteoff <= i < sector.Length ==> sector[i] == 0
      invariant LeNum(sector[..]) + Shl(Low(e, bitstodo), 8 * byteoff)
             == LeNum(old(sector[..])) + Shl(Low(entry, bits), 8 * at)
    {
      PackStep(e, bitstodo, 8, 8 * byteoff);
      ByteBits(e);
      PutByte(sector, byteoff, e % 256);
      byteoff := byteoff + 1;
      e := Shr(e, 8);
      bitstodo := bitstodo - 8;
    }
    if bitstodo > 0 {
      LastByte(e, bitstodo);
      PutByte(sector, byteoff, Low(e, bitstodo));
    } else {
      ShlZero(8 * byteoff);
    }
  }

  /**
   * Packs the low `width` bits of `entry` at bit position `pos`: first the
   * free high bits of a shared byte, then the bytes that follow.
   */
  method PutBits(sector: array<byte>, pos: nat, entry: nat, width: nat)
    requires 8 <= width <= 32 && pos + width <= 8 * sector.Length
    requires ClearFrom(sector[..], pos)
    modifies sector
    ensures LeNum(sector[..]) == LeNum(old(sector[..])) + Shl(Low(entry, width), pos)
    ensures ClearFrom(sector[..], pos + width)
  {
    hide Low, Shr, LeNum, BitOr;
    var byteoff, bitoff := pos / 8, pos % 8;
    if bitoff > 0 {
      var low := Shl(Low(entry, 8 - bitoff), bitoff);
      FirstByte(sector[byteoff], entry, bitoff);
      PackStep(entry, width, 8 - bitoff, pos);
      ShlShl(Low(entry, 8 - bitoff), bitoff, 8 * byteoff);
      PutByte(sector, byteoff, BitOr(sector[byteoff], low));
      PutAligned(sector, byteoff + 1, Shr(entry, 8 - bitoff), width - (8 - bitoff));
    } else {
      PutAligned(sector, byteoff, entry, width);
    }
  }

  /**
   * Writes one table entry of `fatsize` bits at entry index `offset`. The
   * buffer, read as one little-endian number, gains the entry as its digit.
   */
  method PutFatEnt(sector: array<byte>, offset: nat, entry: nat, fatsize: nat) returns (next: nat)
    requires 8 <= fatsize <= 32 && entry < 0x1_0000_0000
    requires offset * fatsize < 0x1_0000_0000
    requires (offset + 1) * fatsize <= 8 * sector.Length
    requires ClearFrom(sector[..], fatsize * offset)
    modifies sector
    ensures next == offset + 1
    ensures LeNum(sector[..]) == LeNum(old(sector[..])) + Shl(Low(entry, fatsize), fatsize * offset)
    ensures ClearFrom(sector[..], fatsize * (offset + 1))
  {
    assert fatsize * offset + fatsize == fatsize * (offset + 1) == (offset + 1) * fatsize;
    PutBits(sector, offset * fatsize, entry, fatsize);
    next := offset + 1;
  }

  lemma {:induction false} LastByte(e: nat, k: nat)
    requires k < 8
    ensures Low(e, k) < Shl(1, k) && Low(e, k) < 256
  {
    LowBound(e, k);
    ByteBits(0);
    ShlGrows(k, 8);
  }

  /** The first, shared byte of an entry: the or is a sum and still a byte. */
  lemma FirstByte(b: byte, e: nat, bitoff: nat)
    requires 0 < bitoff < 8 && b < Shl(1, bitoff)
    ensures BitOr(b, Shl(Low(e, 8 - bitoff), bitoff)) == b + Shl(Low(e, 8 - bitoff), bitoff) < 256
  {
    var x := Low(e, 8 - bitoff);
    BitOrDisjoint(b, x, bitoff);
    LowBound(e, 8 - bitoff);
    ShlMono(x, Shl(1, 8 - bitoff) - 1, bitoff);
    ShlAdd(Shl(1, 8 - bitoff), -1, bitoff);
    ShlAdd(1, -1, bitoff);
    ShlZero(bitoff);
    ShlShl(1, 8 - bitoff, bitoff);
    ShlEight(1);
  }

  /** Entries of a chain of `n` clusters from `start`: links, then an end mark. */
  function Chain(start: nat, n: nat): (es: seq<nat>)
    ensures |es| == n
    ensures forall k :: 0 <= k < n ==> es[k] == if k + 1 < n then start + k + 1 else 0xFFFF_FFFF
  {
    seq(n, k requires 0 <= k < n => if k + 1 < n then start + k + 1 else 0xFFFF_FFFF)
  }

  /** A table of `n` entries of `w` bits fits a buffer of `len` bytes and 32-bit bit positions. */
  predicate Room(n: nat, w: nat, len: nat) {
    n * w <= 8 * len && n * w < 0x1_0000_0000
  }

  lemma RoomForFewer(m: nat, n: nat, w: nat, len: nat)
    requires m <= n && Room(n, w, len)
    ensures Room(m, w, len)
  {
    MulMono(m, n, w);
  }

  /** Writes the entry that comes next after the entries `es`. */
  method PutNext(sector: array<byte>, offset: nat, entry: nat, fatsize: nat, ghost es: seq<nat>) returns (next: nat)
    requires 8 <= fatsize <= 32 && entry < 0x1_0000_0000
    requires offset == |es| && Holds(sector[..], es, fatsize)
    requires Room(offset + 1, fatsize, sector.Length)
    modifies sector
    ensures next == offset + 1
    ensures Holds(sector[..], es + [entry], fatsize)
  {
    RoomForFewer(offset, offset + 1, fatsize, sector.Length);
    DigitsAppend(es, entry, fatsize);
    next := PutFatEnt(sector, offset, entry, fatsize);
  }

  lemma RoomIsSmall(n: nat, w: nat, len: nat)
    requires 1 <= w && Room(n, w, len)
    ensures n < 0x1_0000_0000
  {
    MulMono(1, w, n);
  }

  /** Appends the chain of a file of `flen` bytes after the entries `es`. */
  method PutFatChain(sector: array<byte>, offset: nat, sectorSize: nat, flen: nat, fatsize: nat, ghost es: seq<nat>)
    returns (next: nat)
    requires 8 <= fatsize <= 32 && 0 < sectorSize
    requires offset == |es| && Holds(sector[..], es, fatsize)
    requires Room(offset + Units(flen, sectorSize), fatsize, sector.Length)
    modifies sector
    ensures next == offset + Units(flen, sectorSize)
    ensures Holds(sector[..], es + Chain(offset, Units(flen, sectorSize)), fatsize)
  {
    var off, left := offset, flen;
    ghost var total := Units(flen, sectorSize);
    ghost var done := 0;
    ghost var sofar := es;
    RoomIsSmall(offset + total, fatsize, sector.Length);
    while left > sectorSize
      invariant 0 <= left && off == offset + done && done + Units(left, sectorSize) == total
      invariant sofar == es + Chain(offset, total)[..done]
      invariant Holds(sector[..], sofar, fatsize)
      decreases left
    {
      RoomForFewer(off + 1, offset + total, fatsize, sector.Length);
      off := PutNext(sector, off, off + 1, fatsize, sofar);
      assert Chain(offset, total)[..done + 1] == Chain(offset, total)[..done] + [offset + done + 1];
      sofar := sofar + [offset + done + 1];
      left := left - sectorSize;
      done := done + 1;
    }
    next := PutNext(sector, off, 0xFFFF_FFFF, fatsize, sofar);
    assert sofar + [0xFFFF_FFFF] == es + Chain(offset, total);
  }

  // ----- the decoder of the standard ---------------------------------------------

  /** The entry of cluster `n`, read the way the FAT specification prescribes. */
  function FatEntry(fat: seq<byte>, w: nat, n: nat): Option<nat> {
    if w == 12 then
      var o := n + n / 2;
      if o + 1 >= |fat| then None
      else
        var word: nat := fat[o] as int + 256 * fat[o + 1] as int;
        Some(if n % 2 == 1 then word / 16 else word % 4096)
    else if w == 16 then
      var o := 2 * n;
      if o + 1 >= |fat| then None
      else Some(fat[o] as int + 256 * fat[o + 1] as int)
    else None
  }

  /** The two bytes at `o` are the 16 bits of the number from bit 8*o on. */
  lemma WordAt(fat: seq<byte>, o: nat)
    requires o + 1 < |fat|
    ensures Shr(LeNum(fat), 8 * o) % 65536 == fat[o] as int + 256 * fat[o + 1] as int
  {
    LeNumDrop(fat, o);
    LeNumTwo(fat[o..]);
  }

  lemma {:induction false} LowTwelve(x: nat)
    ensures Low(x, 12) == (x % 65536) % 4096
  {
    hide *;
    Pow2Small();
    ShiftsArePowers(x, 12);
    assert x == 65536 * (x / 65536) + x % 65536;
  }

  lemma {:induction false} LowTwelveOdd(x: nat)
    ensures Low(Shr(x, 4), 12) == (x % 65536) / 16
  {
    hide *;
    Pow2Small();
    ShiftsArePowers(x, 4);
    ShiftsArePowers(x / 16, 12);
    var q, r := x / 65536, x % 65536;
    assert x == 65536 * q + r;
    assert x / 16 == 4096 * q + r / 16;
  }

  lemma {:induction false} Decode16(fat: seq<byte>, n: nat)
    requires (n + 1) * 16 <= 8 * |fat|
    ensures FatEntry(fat, 16, n) == Some(Low(Shr(LeNum(fat), 16 * n), 16))
  {
    WordAt(fat, 2 * n);
    Pow2Small();
    assert 8 * (2 * n) == 16 * n;
    ShiftsArePowers(Shr(LeNum(fat), 16 * n), 16);
  }

  lemma {:induction false} Decode12(fat: seq<byte>, n: nat)
    requires (n + 1) * 12 <= 8 * |fat|
    ensures FatEntry(fat, 12, n) == Some(Low(Shr(LeNum(fat), 12 * n), 12))
  {
    hide Low, Shr, LeNum;
    var o := n + n / 2;
    WordAt(fat, o);
    if n % 2 == 0 {
      assert 8 * o == 12 * n;
      LowTwelve(Shr(LeNum(fat), 12 * n));
    } else {
      assert 12 * n == 8 * o + 4;
      LowSplit(LeNum(fat), 8 * o, 4);
      LowTwelveOdd(Shr(LeNum(fat), 8 * o));
    }
  }

  lemma {:induction false} DecodesDigit12(fat: seq<byte>, es: seq<nat>, n: nat)
    requires LeNum(fat) == Digits(es, 12)
    requires n < |es| && (n + 1) * 12 <= 8 * |fat|
    ensures FatEntry(fat, 12, n) == Some(Low(es[n], 12))
  {
    DigitAt(es, 12, n);
    Decode12(fat, n);
  }

  lemma {:induction false} DecodesDigit16(fat: seq<byte>, es: seq<nat>, n: nat)
    requires LeNum(fat) == Digits(es, 16)
    requires n < |es| && (n + 1) * 16 <= 8 * |fat|
    ensures FatEntry(fat, 16, n) == Some(Low(es[n], 16))
  {
    DigitAt(es, 16, n);
    Decode16(fat, n);
  }

  /**
   * At 12 and 16 bits the standard's decoder reads back every entry of the
   * packed table, cut to the entry width.
   */
  lemma {:induction false} DecoderReadsEntries(fat: seq<byte>, es: seq<nat>, w: nat, n: nat)
    requires w == 12 || w == 16
    requires LeNum(fat) == Digits(es, w)
    requires n < |es| && |es| * w <= 8 * |fat|
    ensures FatEntry(fat, w, n) == Some(Low(es[n], w))
  {
    MulMono(n + 1, |es|, w);
    if w == 12 {
      DecodesDigit12(fat, es, n);
    } else {
      DecodesDigit16(fat, es, n);
    }
  }
}

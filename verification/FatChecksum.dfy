// The checksum of a short name, which every slot of its long name carries, as
// the FAT specification (revision 1.03, section "FAT Long Directory Entries")
// has it: before each byte of the name is added, the sum is rotated right by
// one bit. It is defined here bit by bit, for the reader; the writer shifts.
module FatChecksum {
  import opened Arith
  import opened Bytes

  /** Bit `i` of a number, the lowest first. */
  function Bit(x: nat, i: nat): (b: nat)
    ensures b <= 1
  {
    if i == 0 then x % 2 else Bit(x / 2, i - 1)
  }

  /** The number with the bits `bits`, the lowest first. */
  function Number(bits: seq<nat>): nat {
    if bits == [] then 0 else bits[0] + 2 * Number(bits[1..])
  }

  lemma {:induction false} NumberBits(bits: seq<nat>)
    requires forall i :: 0 <= i < |bits| ==> bits[i] <= 1
    ensures Number(bits) < Shl(1, |bits|)
    ensures forall i :: 0 <= i < |bits| ==> Bit(Number(bits), i) == bits[i]
  {
    if bits != [] {
      NumberBits(bits[1..]);
      forall i | 0 <= i < |bits|
        ensures Bit(Number(bits), i) == bits[i]
      {
        assert Number(bits) % 2 == bits[0] && Number(bits) / 2 == Number(bits[1..]);
        if i > 0 {
          assert bits[i] == bits[1..][i - 1];
        }
      }
    }
  }

  /** `r` has the bits of `x` one place down, the lowest at the top. */
  predicate IsRotation(x: nat, r: nat) {
    forall i :: 0 <= i < 8 ==> Bit(r, i) == Bit(x, (i + 1) % 8)
  }

  /** The byte rotated right by one bit. */
  function Rotated(x: byte): (r: byte)
    ensures IsRotation(x, r)
  {
    var bits := seq(8, i requires 0 <= i < 8 => Bit(x, (i + 1) % 8));
    NumberBits(bits);
    ByteBits(0);
    Number(bits)
  }

  /** The checksum of a stored name. */
  function NameSum(stored: seq<byte>): byte {
    if stored == [] then 0
    else (Rotated(NameSum(stored[..|stored| - 1])) + stored[|stored| - 1]) % 256
  }

  // ----- rotating by shifts -------------------------------------------------------------------

  /** Numbers below bit `k` with the same bits are the same. */
  lemma {:induction false} SameBits(x: nat, y: nat, k: nat)
    requires x < Shl(1, k) && y < Shl(1, k)
    requires forall i :: 0 <= i < k ==> Bit(x, i) == Bit(y, i)
    ensures x == y
  {
    if k > 0 {
      assert Bit(x, 0) == Bit(y, 0);
      forall i | 0 <= i < k - 1
        ensures Bit(x / 2, i) == Bit(y / 2, i)
      {
        assert Bit(x, i + 1) == Bit(y, i + 1);
      }
      SameBits(x / 2, y / 2, k - 1);
    }
  }

  /** A bit put above the lowest `k` leaves them alone. */
  lemma {:induction false} BitsOfSum(x: nat, b: nat, k: nat, i: nat)
    requires x < Shl(1, k) && b <= 1 && i <= k
    ensures Bit(x + Shl(b, k), i) == if i == k then b else Bit(x, i)
  {
    if k > 0 {
      HalveShl(x, b, k);
      if i > 0 {
        BitsOfSum(x / 2, b, k - 1, i - 1);
      }
    }
  }

  /** Rotating is what the writer computes with shifts. */
  lemma {:induction false} RotatedByShifts(x: byte)
    ensures Rotated(x) == x % 2 * 128 + x / 2
  {
    var b := x % 2;
    SevenBits(b);
    SevenBits(1);
    ByteBits(0);
    forall i | 0 <= i < 8
      ensures Bit(x / 2 + Shl(b, 7), i) == Bit(Rotated(x), i)
    {
      BitsOfSum(x / 2, b, 7, i);
      assert Bit(x, (i + 1) % 8) == if i == 7 then b else Bit(x / 2, i);
    }
    SameBits(x / 2 + Shl(b, 7), Rotated(x), 8);
  }

  lemma {:induction false} SevenBits(b: nat)
    ensures Shl(b, 7) == 128 * b
  {
    ShlEight(b);
  }

  // ----- what the sum is ----------------------------------------------------------------------

  /**
   * The sums before and after each byte of the name, from zero to the
   * checksum: what a byte was added to is the rotation of the sum before it.
   */
  lemma {:induction false} SumByBits(stored: seq<byte>) returns (sums: seq<byte>)
    ensures |sums| == |stored| + 1 && sums[0] == 0 && sums[|stored|] == NameSum(stored)
    ensures forall i :: 0 <= i < |stored| ==> IsRotation(sums[i], (sums[i + 1] as int - stored[i] as int) % 256)
  {
    hide Bit, Rotated, IsRotation;
    sums := [0];
    if stored != [] {
      var n := |stored| - 1;
      var front := SumByBits(stored[..n]);
      var r := Rotated(front[n]);
      sums := front + [NameSum(stored)];
      assert (sums[n + 1] as int - stored[n] as int) % 256 == r as int;
    }
  }

  /** The checksum for "USER-D~1", the short name of "user-data". */
  lemma {:induction false} UserDataSum()
    ensures NameSum(Ascii("USER-D~1   ")) == 0xB0
  {
    hide NameSum;
    var s: seq<byte> := Ascii("USER-D~1   ");
    SumStep(s, 0);
    assert NameSum(s[..1]) == 0x55;
    SumStep(s, 1);
    assert NameSum(s[..2]) == 0xFD;
    SumStep(s, 2);
    assert NameSum(s[..3]) == 0x43;
    SumStep(s, 3);
    assert NameSum(s[..4]) == 0xF3;
    SumStep(s, 4);
    assert NameSum(s[..5]) == 0x26;
    SumStep(s, 5);
    assert NameSum(s[..6]) == 0x57;
    SumStep(s, 6);
    assert NameSum(s[..7]) == 0x29;
    SumStep(s, 7);
    assert NameSum(s[..8]) == 0xC5;
    SumStep(s, 8);
    assert NameSum(s[..9]) == 0x02;
    SumStep(s, 9);
    assert NameSum(s[..10]) == 0x21;
    SumStep(s, 10);
    assert NameSum(s[..11]) == 0xB0;
    assert s[..11] == s;
  }

  lemma {:induction false} SumStep(s: seq<byte>, n: nat)
    requires n < |s|
    ensures n == 0 ==> NameSum(s[..0]) == 0
    ensures NameSum(s[..n + 1]) == (NameSum(s[..n]) % 2 * 128 + NameSum(s[..n]) / 2 + s[n]) % 256
  {
    assert s[..n + 1][..n] == s[..n];
    RotatedByShifts(NameSum(s[..n]));
  }
}

// Byte sequences and the fixed-width little- and big-endian numbers in them.
module Bytes {
  import opened Arith

  type byte = x: int | 0 <= x < 256

  function Zeros(n: nat): (s: seq<byte>)
    ensures |s| == n
    ensures forall i :: 0 <= i < n ==> s[i] == 0
  {
    seq(n, _ => 0)
  }

  function Ascii(text: string): (s: seq<byte>)
    ensures |s| == |text|
    ensures forall i :: 0 <= i < |s| ==> s[i] == text[i] as int % 256
  {
    seq(|text|, i requires 0 <= i < |text| => text[i] as int % 256)
  }

  /** `text` cut or padded with spaces to `n` bytes. */
  function Padded(text: seq<byte>, n: nat): (s: seq<byte>)
    ensures |s| == n
    ensures forall i :: 0 <= i < n ==> s[i] == if i < |text| then text[i] else 0x20
  {
    seq(n, i requires 0 <= i < n => if i < |text| then text[i] else 0x20)
  }

  /** `s` with the bytes from `off` on replaced by `p`. */
  function Splice(s: seq<byte>, off: nat, p: seq<byte>): (r: seq<byte>)
    requires off + |p| <= |s|
    ensures |r| == |s|
    ensures forall i :: 0 <= i < |s| ==> r[i] == if off <= i < off + |p| then p[i - off] else s[i]
  {
    s[..off] + p + s[off + |p|..]
  }

  /** The number whose little-endian bytes are `s`. */
  function LeNum(s: seq<byte>): nat {
    if s == [] then 0 else s[0] + 256 * LeNum(s[1..])
  }

  /** The `n` low bytes of `v`, least significant first. */
  function LeBytes(v: nat, n: nat): (s: seq<byte>)
    ensures |s| == n
  {
    if n == 0 then [] else [v % 256] + LeBytes(v / 256, n - 1)
  }

  /** The number whose big-endian bytes are `s`. */
  function BeNum(s: seq<byte>): nat {
    if s == [] then 0 else BeNum(s[..|s| - 1]) * 256 + s[|s| - 1]
  }

  /** The `n` low bytes of `v`, most significant first. */
  function BeBytes(v: nat, n: nat): (s: seq<byte>)
    ensures |s| == n
  {
    if n == 0 then [] else BeBytes(v / 256, n - 1) + [v % 256]
  }

  lemma {:induction false} TwoBytes(v: nat)
    ensures LeBytes(v, 2) == [v % 256, v / 256 % 256]
  {
    assert LeBytes(v / 256, 1) == [v / 256 % 256] + LeBytes(v / 256 / 256, 0);
  }

  lemma {:induction false} FourBytes(v: nat)
    ensures LeBytes(v, 4) == [v % 256, v / 256 % 256, v / 0x1_0000 % 256, v / 0x100_0000 % 256]
  {
    TwoBytes(v / 0x1_0000);
    assert v / 256 / 256 == v / 0x1_0000 && v / 0x1_0000 / 256 == v / 0x100_0000;
    assert LeBytes(v, 4) == [v % 256] + ([v / 256 % 256] + LeBytes(v / 256 / 256, 2));
  }

  lemma {:induction false} EightBytes(v: nat)
    ensures LeBytes(v, 8) == LeBytes(v, 4) + LeBytes(v / 0x1_0000_0000, 4)
  {
    ByteStep(v, 8);
    ByteStep(v / 256, 7);
    ByteStep(v / 256 / 256, 6);
    ByteStep(v / 256 / 256 / 256, 5);
    FourBytes(v);
    hide *;
    Quotients(v);
  }

  lemma Quotients(v: nat)
    ensures v / 256 / 256 == v / 0x1_0000 && v / 256 / 256 / 256 == v / 0x100_0000
    ensures v / 256 / 256 / 256 / 256 == v / 0x1_0000_0000
  {
  }

  lemma {:induction false} ByteStep(v: nat, n: nat)
    requires n > 0
    ensures LeBytes(v, n) == [v % 256] + LeBytes(v / 256, n - 1)
  {
  }

  /** The bytes of a number in big-endian order are those in little-endian order, backwards. */
  lemma {:induction false} BeBytesBackwards(v: nat, n: nat, i: nat)
    requires i < n
    ensures BeBytes(v, n)[i] == LeBytes(v, n)[n - 1 - i]
  {
    if i < n - 1 {
      BeBytesBackwards(v / 256, n - 1, i);
    }
  }

  lemma {:induction false} LowOfByte(v: nat, n: nat)
    requires n > 0
    ensures Low(v, 8 * n) == v % 256 + 256 * Low(v / 256, 8 * (n - 1))
  {
    hide *;
    LowSplit(v, 8, 8 * (n - 1));
    ByteBits(v);
    ShlEight(Low(v / 256, 8 * (n - 1)));
  }

  lemma {:induction false} LeNumOfBytes(v: nat, n: nat)
    ensures LeNum(LeBytes(v, n)) == Low(v, 8 * n)
  {
    if n > 0 {
      LeNumOfBytes(v / 256, n - 1);
      LowOfByte(v, n);
      assert LeBytes(v, n)[1..] == LeBytes(v / 256, n - 1);
    }
  }

  lemma {:induction false} BeNumOfBytes(v: nat, n: nat)
    ensures BeNum(BeBytes(v, n)) == Low(v, 8 * n)
  {
    if n > 0 {
      BeNumOfBytes(v / 256, n - 1);
      LowOfByte(v, n);
      assert BeBytes(v, n)[..n - 1] == BeBytes(v / 256, n - 1);
    }
  }

  lemma {:induction false} LeBytesOfNum(s: seq<byte>)
    ensures LeBytes(LeNum(s), |s|) == s
  {
    if s != [] {
      LeBytesOfNum(s[1..]);
      assert LeNum(s) % 256 == s[0] && LeNum(s) / 256 == LeNum(s[1..]);
    }
  }

  /** Fixed-width fields read back what was put, as long as it fits. */
  lemma {:induction false} FieldRoundTrip(v: nat, n: nat)
    requires v < Shl(1, 8 * n)
    ensures LeNum(LeBytes(v, n)) == v && BeNum(BeBytes(v, n)) == v
  {
    LeNumOfBytes(v, n);
    BeNumOfBytes(v, n);
    LowShrOfSum(v, 0, 8 * n);
    ShlZero(8 * n);
  }

  lemma {:induction false} ShlZero(k: nat)
    ensures Shl(0, k) == 0
  {
    if k > 0 {
      ShlZero(k - 1);
    }
  }

  lemma FieldSizes()
    ensures Shl(1, 16) == 0x1_0000 && Shl(1, 32) == 0x1_0000_0000 && Shl(1, 64) == 0x1_0000_0000_0000_0000
  {
    ShlEight(1);
    ShlShl(1, 8, 8);
    ShlEight(256);
    ShlShl(1, 16, 8);
    ShlEight(0x1_0000);
    ShlShl(1, 24, 8);
    ShlEight(0x100_0000);
    ShlShl(1, 32, 8);
    ShlEight(0x1_0000_0000);
    ShlShl(1, 40, 8);
    ShlEight(0x100_0000_0000);
    ShlShl(1, 48, 8);
    ShlEight(0x1_0000_0000_0000);
    ShlShl(1, 56, 8);
    ShlEight(0x100_0000_0000_0000);
  }

  lemma {:induction false} LeNumZeros(n: nat)
    ensures LeNum(Zeros(n)) == 0
  {
    if n > 0 {
      LeNumZeros(n - 1);
      assert Zeros(n)[1..] == Zeros(n - 1);
    }
  }

  lemma {:induction false} LeNumConcat(a: seq<byte>, b: seq<byte>)
    ensures LeNum(a + b) == LeNum(a) + Shl(LeNum(b), 8 * |a|)
  {
    if a == [] {
      assert a + b == b;
    } else {
      LeNumConcat(a[1..], b);
      assert (a + b)[1..] == a[1..] + b;
      ShlShl(LeNum(b), 8 * (|a| - 1), 8);
      ShlEight(Shl(LeNum(b), 8 * (|a| - 1)));
    }
  }

  lemma {:induction false} LeNumBound(s: seq<byte>)
    ensures LeNum(s) < Shl(1, 8 * |s|)
  {
    if s != [] {
      LeNumBound(s[1..]);
      ShlShl(1, 8 * (|s| - 1), 8);
      ShlEight(Shl(1, 8 * (|s| - 1)));
    }
  }

  /** Storing one byte changes the number by that byte's weight. */
  lemma {:induction false} LeNumUpdate(s: seq<byte>, i: nat, v: byte)
    requires i < |s|
    ensures LeNum(s[i := v]) == LeNum(s) + Shl(v - s[i], 8 * i)
  {
    if i == 0 {
      assert s[0 := v][1..] == s[1..];
    } else {
      LeNumUpdate(s[1..], i - 1, v);
      assert s[i := v][1..] == s[1..][i - 1 := v];
      ShlShl(v - s[i], 8 * (i - 1), 8);
      ShlEight(Shl(v - s[i], 8 * (i - 1)));
    }
  }

  /** The bytes from `k` on, as a number, are the high part of the whole number. */
  lemma {:induction false} LeNumDrop(s: seq<byte>, k: nat)
    requires k <= |s|
    ensures Shr(LeNum(s), 8 * k) == LeNum(s[k..])
  {
    hide *;
    var a, b := s[..k], s[k..];
    assert s == a + b;
    LeNumConcat(a, b);
    LeNumBound(a);
    LowShrOfSum(LeNum(a), LeNum(b), 8 * k);
  }

  lemma {:induction false} LeNumTwo(s: seq<byte>)
    requires |s| >= 2
    ensures LeNum(s) % 65536 == s[0] as int + 256 * s[1] as int
  {
    var r := LeNum(s[2..]);
    assert LeNum(s[1..]) == s[1..][0] + 256 * LeNum(s[1..][1..]);
    assert s[1..][1..] == s[2..];
  }

  /** The little-endian field of `n` bytes at `off`. */
  function Le(s: seq<byte>, off: nat, n: nat): nat
    requires off + n <= |s|
  {
    LeNum(s[off..off + n])
  }

  /** The big-endian field of `n` bytes at `off`. */
  function Be(s: seq<byte>, off: nat, n: nat): nat
    requires off + n <= |s|
  {
    BeNum(s[off..off + n])
  }

  /** Copies `p` into the buffer at `off`. */
  method PutBytes(sector: array<byte>, off: nat, p: seq<byte>)
    requires off + |p| <= sector.Length
    modifies sector
    ensures sector[..] == Splice(old(sector[..]), off, p)
  {
    for i := 0 to |p|
      invariant forall j :: 0 <= j < sector.Length ==>
        sector[j] == if off <= j < off + i then p[j - off] else old(sector[j])
    {
      sector[off + i] := p[i];
    }
    assert sector[..] == Splice(old(sector[..]), off, p);
  }

  ghost predicate ClearRange(s: seq<byte>, off: nat, n: nat) {
    off + n <= |s| && forall i :: off <= i < off + n ==> s[i] == 0
  }

  lemma ClearAfter(s: seq<byte>, off: nat, p: seq<byte>, k: nat)
    requires ClearRange(s, off, |p| + k)
    ensures ClearRange(Splice(s, off, p), off + |p|, k)
  {
  }

  lemma SpliceNothing(s: seq<byte>, off: nat)
    requires off <= |s|
    ensures Splice(s, off, []) == s
  {
  }

  /** Two splices that touch are one splice of both pieces. */
  lemma SpliceTwice(s: seq<byte>, off: nat, p: seq<byte>, q: seq<byte>)
    requires off + |p| + |q| <= |s|
    ensures Splice(Splice(s, off, p), off + |p|, q) == Splice(s, off, p + q)
  {
  }

  /** Bytes skipped over in a clear area count as zeros that were put. */
  lemma SpliceGap(s: seq<byte>, off: nat, p: seq<byte>, k: nat, q: seq<byte>)
    requires off + |p| + k + |q| <= |s| && ClearRange(s, off + |p|, k)
    ensures Splice(Splice(s, off, p), off + |p| + k, q) == Splice(s, off, p + Zeros(k) + q)
  {
  }

  lemma SpliceRest(s: seq<byte>, off: nat, p: seq<byte>, k: nat)
    requires off + |p| + k <= |s| && ClearRange(s, off + |p|, k)
    ensures Splice(s, off, p) == Splice(s, off, p + Zeros(k))
  {
  }

  lemma SpliceZeros(p: seq<byte>, n: nat)
    requires |p| <= n
    ensures Splice(Zeros(n), 0, p) == p + Zeros(n - |p|)
  {
  }

  /** What is put at the start of a clear tail extends what stands before it. */
  lemma TailClear(done: seq<byte>, n: nat, p: seq<byte>)
    requires |p| <= n
    ensures ClearRange(done + Zeros(n), |done|, |p|)
    ensures Splice(done + Zeros(n), |done|, p) == done + p + Zeros(n - |p|)
  {
  }

  /** Splices elsewhere leave a window alone; a splice there replaces it. */
  lemma WindowOfSplice(s: seq<byte>, off: nat, p: seq<byte>, a: nat, b: nat)
    requires off + |p| <= |s| && a <= b <= |s|
    ensures b <= off || off + |p| <= a ==> Splice(s, off, p)[a..b] == s[a..b]
    ensures a == off && b == off + |p| ==> Splice(s, off, p)[a..b] == p
  {
    var r := Splice(s, off, p);
    if b <= off || off + |p| <= a {
      assert r[a..b] == s[a..b];
    }
    if a == off && b == off + |p| {
      assert r[a..b] == p;
    }
  }

  // ----- parts of sequences -------------------------------------------------------------------

  lemma Associate(a: seq<byte>, b: seq<byte>, c: seq<byte>)
    ensures a + b + c == a + (b + c)
  {
  }

  lemma Associate3(a: seq<byte>, b: seq<byte>, c: seq<byte>, d: seq<byte>)
    ensures a + b + c + d == a + (b + c + d)
  {
  }

  /** A part between two others, by its place. */
  lemma PieceAt(a: seq<byte>, b: seq<byte>, c: seq<byte>, i: nat, n: nat)
    requires i == |a| && n == |b|
    ensures |a + b + c| >= i + n && (a + b + c)[i..i + n] == b
  {
  }

  /** What follows leaves a part of the front alone. */
  lemma Prefix(a: seq<byte>, b: seq<byte>, i: nat, j: nat)
    requires i <= j <= |a|
    ensures (a + b)[i..j] == a[i..j]
  {
  }

  /** A part of a part. */
  lemma Inside(s: seq<byte>, i: nat, j: nat, e: seq<byte>, a: nat, b: nat)
    requires i <= j <= |s| && s[i..j] == e && a <= b <= |e|
    ensures s[i + a..i + b] == e[a..b]
  {
    assert forall k :: 0 <= k < |e| ==> s[i..j][k] == s[i + k];
    assert s[i + a..i + b] == e[a..b];
  }

  /** A part of what follows. */
  lemma Shifted(s: seq<byte>, d: nat, i: nat, j: nat)
    requires i <= j && d + j <= |s|
    ensures s[d..][i..j] == s[d + i..d + j]
  {
  }

  /** Padded contents: the contents, then zeros. */
  lemma PaddedPart(s: seq<byte>, from: nat, to: nat, c: seq<byte>, n: nat)
    requires from <= to <= |s| && s[from..to] == c + Zeros(n)
    ensures from + |c| + n == to && s[from..from + |c|] == c
    ensures forall i :: from + |c| <= i < to ==> s[i] == 0
  {
    var p := c + Zeros(n);
    assert |s[from..to]| == |p|;
    Inside(s, from, to, p, 0, |c|);
    assert p[..|c|] == c;
    forall i | from + |c| <= i < to
      ensures s[i] == 0
    {
      assert s[i] == s[from..to][i - from];
    }
  }
}

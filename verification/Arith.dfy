// Integer arithmetic used by the disk image writers: bit shifts and masks, the
// truncating division of the source language, and quotient/remainder facts.
module Arith {

  function Pow2(n: nat): (p: nat)
    ensures p >= 1
  {
    if n == 0 then 1 else 2 * Pow2(n - 1)
  }

  lemma MulMono(a: int, b: int, w: int)
    requires a <= b && 0 <= w
    ensures a * w <= b * w
  {
  }

  lemma MulGap(d: int, k: int)
    requires 0 < d
    ensures k > 0 ==> d * k >= d
    ensures k < 0 ==> d * k <= -d
  {
  }

  /** A quotient and remainder that fit are the quotient and remainder. */
  lemma DivModUnique(x: int, d: int, q: int, r: int)
    requires 0 < d && 0 <= r < d && x == d * q + r
    ensures x / d == q && x % d == r
  {
    var q', r' := x / d, x % d;
    assert x == d * q' + r' && 0 <= r' < d;
    var k := q - q';
    assert d * k == d * q - d * q';
    MulGap(d, k);
  }

  lemma MulAssoc(a: int, b: int, c: int)
    ensures a * (b * c) == (a * b) * c
  {
  }

  lemma MulDistributes(a: int, b: int, c: int)
    ensures a * (b + c) == a * b + a * c
  {
  }

  lemma SplitSum(a: nat, b: nat, q2: nat, r2: nat, q: nat, r: nat, e: nat)
    requires 0 < a && 0 < b && r < a && r2 < b
    requires q == b * q2 + r2 && e == a * q + r
    ensures 0 < a * b && 0 <= a * r2 + r < a * b
    ensures e == (a * b) * q2 + (a * r2 + r)
  {
    MulDistributes(a, b * q2, r2);
    MulAssoc(a, b, q2);
    MulMono(r2, b - 1, a);
    MulDistributes(a, b, -1);
  }

  /** The low digits of a number split into its lowest digit and the low digits of the rest. */
  lemma ModSplit(e: nat, a: nat, b: nat)
    requires 0 < a && 0 < b
    ensures 0 < a * b
    ensures e % (a * b) == e % a + a * ((e / a) % b)
    ensures e / (a * b) == (e / a) / b
  {
    var q, r := e / a, e % a;
    SplitSum(a, b, q / b, q % b, q, r, e);
    DivModUnique(e, a * b, q / b, a * (q % b) + r);
  }

  // ----- shifts and masks -----------------------------------------------------

  /** `x` shifted left by `k` bits. */
  function Shl(x: int, k: nat): (y: int)
    ensures x >= 0 ==> y >= x
  {
    if k == 0 then x else 2 * Shl(x, k - 1)
  }

  /** `x` shifted right by `k` bits. */
  function Shr(x: nat, k: nat): nat {
    if k == 0 then x else Shr(x / 2, k - 1)
  }

  /** The low `k` bits of `x`. */
  function Low(x: nat, k: nat): nat {
    if k == 0 then 0 else x % 2 + 2 * Low(x / 2, k - 1)
  }

  lemma {:induction false} ShlAdd(x: int, y: int, k: nat)
    ensures Shl(x + y, k) == Shl(x, k) + Shl(y, k)
  {
    if k > 0 {
      ShlAdd(x, y, k - 1);
    }
  }

  lemma {:induction false} ShlShl(x: int, a: nat, b: nat)
    ensures Shl(Shl(x, a), b) == Shl(x, a + b)
  {
    if b > 0 {
      ShlShl(x, a, b - 1);
      assert Shl(x, a + b) == 2 * Shl(x, a + b - 1);
    }
  }

  lemma {:induction false} ShlMono(x: int, y: int, k: nat)
    requires x <= y
    ensures Shl(x, k) <= Shl(y, k)
  {
    if k > 0 {
      ShlMono(x, y, k - 1);
    }
  }

  lemma {:induction false} ShlGrows(a: nat, b: nat)
    requires a <= b
    ensures Shl(1, a) <= Shl(1, b)
    decreases b - a
  {
    if a < b {
      ShlGrows(a, b - 1);
    }
  }

  lemma {:induction false} LowBound(x: nat, k: nat)
    ensures Low(x, k) < Shl(1, k)
  {
    if k > 0 {
      LowBound(x / 2, k - 1);
    }
  }

  lemma {:induction false} HalveShl(x: nat, y: nat, k: nat)
    requires k > 0
    ensures (x + Shl(y, k)) % 2 == x % 2 && (x + Shl(y, k)) / 2 == x / 2 + Shl(y, k - 1)
  {
    assert Shl(y, k) == 2 * Shl(y, k - 1);
  }

  /** A value below bit `k` and one shifted above it are recovered from their sum. */
  lemma {:induction false} LowShrOfSum(x: nat, y: nat, k: nat)
    requires x < Shl(1, k)
    ensures Low(x + Shl(y, k), k) == x && Shr(x + Shl(y, k), k) == y
  {
    if k > 0 {
      HalveShl(x, y, k);
      LowShrOfSum(x / 2, y, k - 1);
    }
  }

  /** Splitting at bit `a`: the low part, then the low `b` bits of the rest. */
  lemma {:induction false} LowSplit(x: nat, a: nat, b: nat)
    ensures Low(x, a + b) == Low(x, a) + Shl(Low(Shr(x, a), b), a)
    ensures Shr(x, a + b) == Shr(Shr(x, a), b)
  {
    if a > 0 {
      LowSplit(x / 2, a - 1, b);
      assert Low(x, a + b) == x % 2 + 2 * Low(x / 2, a + b - 1);
      assert Shr(x, a + b) == Shr(x / 2, a + b - 1);
    }
  }

  /** Shifts and masks are multiplication, quotient and remainder by a power of two. */
  lemma {:induction false} ShiftsArePowers(x: nat, k: nat)
    ensures Shl(x, k) == x * Pow2(k) && Shr(x, k) == x / Pow2(k) && Low(x, k) == x % Pow2(k)
  {
    hide *;
    ShlIsProduct(x, k);
    ShrIsQuotient(x, k);
  }

  lemma {:induction false} ShlIsProduct(x: int, k: nat)
    ensures Shl(x, k) == x * Pow2(k)
  {
    if k > 0 {
      ShlIsProduct(x, k - 1);
      MulAssoc(2, x, Pow2(k - 1));
      MulAssoc(x, 2, Pow2(k - 1));
    }
  }

  lemma {:induction false} ShrIsQuotient(x: nat, k: nat)
    ensures Shr(x, k) == x / Pow2(k) && Low(x, k) == x % Pow2(k)
  {
    if k > 0 {
      ShrIsQuotient(x / 2, k - 1);
      ModSplit(x, 2, Pow2(k - 1));
    }
  }

  lemma Pow2Small()
    ensures Pow2(1) == 2 && Pow2(2) == 4 && Pow2(3) == 8 && Pow2(4) == 16
    ensures Pow2(5) == 32 && Pow2(6) == 64 && Pow2(7) == 128 && Pow2(8) == 256
    ensures Pow2(12) == 4096 && Pow2(16) == 65536 && Pow2(20) == 0x10_0000
  {
    assert Pow2(9) == 512 && Pow2(10) == 1024 && Pow2(11) == 2048;
    assert Pow2(13) == 8192 && Pow2(14) == 16384 && Pow2(15) == 32768;
    assert Pow2(17) == 131072 && Pow2(18) == 262144 && Pow2(19) == 524288;
  }

  lemma {:induction false} ShlEight(x: int)
    ensures Shl(x, 8) == 256 * x
  {
    assert Shl(x, 1) == 2 * x && Shl(x, 2) == 2 * Shl(x, 1);
    assert Shl(x, 3) == 2 * Shl(x, 2) && Shl(x, 4) == 2 * Shl(x, 3);
    assert Shl(x, 5) == 2 * Shl(x, 4) && Shl(x, 6) == 2 * Shl(x, 5);
    assert Shl(x, 7) == 2 * Shl(x, 6) && Shl(x, 8) == 2 * Shl(x, 7);
  }

  lemma {:induction false} ByteBits(x: nat)
    ensures Low(x, 8) == x % 256 && Shr(x, 8) == x / 256 && Shl(1, 8) == 256
  {
    Pow2Small();
    ShiftsArePowers(x, 8);
    ShlEight(1);
  }

  // ----- bitwise or -----------------------------------------------------------

  function BitOr(a: nat, b: nat): nat
    decreases a + b
  {
    if a == 0 && b == 0 then 0
    else (if a % 2 == 1 || b % 2 == 1 then 1 else 0) + 2 * BitOr(a / 2, b / 2)
  }

  lemma {:induction false} BitOrZero(b: nat)
    ensures BitOr(0, b) == b
  {
    if b > 0 {
      BitOrZero(b / 2);
    }
  }

  /** Numbers that share no bit are added by the bitwise or. */
  lemma {:induction false} BitOrDisjoint(a: nat, b: nat, k: nat)
    requires a < Shl(1, k)
    ensures BitOr(a, Shl(b, k)) == a + Shl(b, k)
  {
    if k == 0 {
      BitOrZero(b);
    } else {
      BitOrDisjoint(a / 2, b, k - 1);
      HalveShl(0, b, k);
    }
  }

  lemma {:induction false} BitOrBound(a: nat, b: nat, k: nat)
    requires a < Shl(1, k) && b < Shl(1, k)
    ensures BitOr(a, b) < Shl(1, k)
    decreases k
  {
    if k > 0 && (a > 0 || b > 0) {
      BitOrBound(a / 2, b / 2, k - 1);
    }
  }

  lemma {:induction false} BitOrCommutes(a: nat, b: nat)
    ensures BitOr(a, b) == BitOr(b, a)
    decreases a + b
  {
    if a > 0 || b > 0 {
      BitOrCommutes(a / 2, b / 2);
    }
  }

  // ----- division ---------------------------------------------------------------

  /** Integer division of the source language: it truncates toward zero. */
  function TruncDiv(a: int, b: int): int
    requires b > 0
  {
    if a >= 0 then a / b else -((-a) / b)
  }

  /** Pieces of at most `size` that `len` items are cut into, and one piece for no items. */
  function Units(len: nat, size: nat): (u: nat)
    requires size > 0
    ensures u >= 1
    decreases len
  {
    if len <= size then 1 else 1 + Units(len - size, size)
  }

  /** The source computes the pieces as `(len-1)/size + 1` with truncating division. */
  lemma {:induction false} UnitsByDivision(len: nat, size: nat)
    requires size > 1
    ensures TruncDiv(len - 1, size) + 1 == Units(len, size)
    decreases len
  {
    if len > size {
      UnitsByDivision(len - size, size);
      DivModUnique(len - 1, size, (len - size - 1) / size + 1, (len - size - 1) % size);
    } else if len > 0 {
      DivModUnique(len - 1, size, 0, len - 1);
    } else {
      DivModUnique(1, size, 0, 1);
    }
  }

  /** All items fit the pieces, and the last piece is not empty unless there are no items. */
  lemma {:induction false} UnitsCover(len: nat, size: nat)
    requires size > 0
    ensures len <= Units(len, size) * size
    ensures len > 0 ==> (Units(len, size) - 1) * size < len
    decreases len
  {
    if len > size {
      UnitsCover(len - size, size);
      assert Units(len, size) * size == Units(len - size, size) * size + size;
      assert (Units(len, size) - 1) * size == (Units(len - size, size) - 1) * size + size;
    }
  }

  /** `n` pieces of `size` hold `len` items, and fewer do not, but there is at least one. */
  predicate Needs(len: nat, size: nat, n: nat) {
    1 <= n && len <= size * n && (n > 1 ==> size * (n - 1) < len)
  }

  lemma {:induction false} UnitsNeeded(len: nat, size: nat)
    requires size > 0
    ensures Needs(len, size, Units(len, size))
  {
    UnitsCover(len, size);
    if len == 0 {
      assert Units(len, size) == 1;
    }
  }
}

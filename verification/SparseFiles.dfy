// A file as a byte sequence that grows on demand, zero where nothing was
// written. WriteAt may fail part way, as io.WriterAt may.
module SparseFiles {
  import opened Bytes

  /** The file `f` after `p` was written at `off`; a gap before `off` reads as zeros. */
  function Overlay(f: seq<byte>, off: nat, p: seq<byte>): (r: seq<byte>)
    ensures p == [] ==> r == f
    ensures p != [] ==> |r| == if |f| < off + |p| then off + |p| else |f|
    ensures p != [] ==> forall i :: 0 <= i < |r| ==>
      r[i] == if off <= i < off + |p| then p[i - off] else if i < |f| then f[i] else 0
  {
    if p == [] then f
    else Splice(if |f| < off + |p| then f + Zeros(off + |p| - |f|) else f, off, p)
  }

  /** `n` bytes of the file from `off` on, zeros past its end. */
  function Window(f: seq<byte>, off: nat, n: nat): (w: seq<byte>)
    ensures |w| == n
    ensures forall i :: 0 <= i < n ==> w[i] == if off + i < |f| then f[off + i] else 0
  {
    seq(n, i requires 0 <= i < n => if off + i < |f| then f[off + i] else 0)
  }

  /** Two writes that touch are one write of both pieces. */
  lemma OverlayTwice(f: seq<byte>, off: nat, p: seq<byte>, q: seq<byte>)
    ensures Overlay(Overlay(f, off, p), off + |p|, q) == Overlay(f, off, p + q)
  {
    if p == [] {
      assert p + q == q;
    } else if q == [] {
      assert p + q == p;
    } else {
      assert Overlay(Overlay(f, off, p), off + |p|, q) == Overlay(f, off, p + q);
    }
  }

  lemma WindowOfOverlay(f: seq<byte>, off: nat, p: seq<byte>, a: nat, n: nat)
    ensures a + n <= off || off + |p| <= a ==> Window(Overlay(f, off, p), a, n) == Window(f, a, n)
    ensures off <= a && a + n <= off + |p| ==> Window(Overlay(f, off, p), a, n) == p[a - off..a - off + n]
  {
    if p != [] {
      if a + n <= off || off + |p| <= a {
        assert Window(Overlay(f, off, p), a, n) == Window(f, a, n);
      }
      if off <= a && a + n <= off + |p| {
        assert Window(Overlay(f, off, p), a, n) == p[a - off..a - off + n];
      }
    } else if off <= a && a + n <= off + |p| {
      assert Window(f, a, n) == [];
    }
  }

  datatype Extent = Extent(off: nat, len: nat)

  /** The writes `es`, in order, cover [from, to) without gap or overlap. */
  ghost predicate Tiles(es: seq<Extent>, from: nat, to: nat) {
    if es == [] then from == to
    else
      var e := es[|es| - 1];
      e.off + e.len == to && Tiles(es[..|es| - 1], from, e.off)
  }

  lemma TilesAppend(es: seq<Extent>, from: nat, to: nat, len: nat)
    requires Tiles(es, from, to)
    ensures Tiles(es + [Extent(to, len)], from, to + len)
  {
    assert (es + [Extent(to, len)])[..|es|] == es;
  }

  /** The log `all` extends `es` by writes that cover [from, to) without gap or overlap. */
  ghost predicate TilesSince(es: seq<Extent>, all: seq<Extent>, from: nat, to: nat) {
    es <= all && Tiles(all[|es|..], from, to)
  }

  lemma TilesSinceAppend(es: seq<Extent>, all: seq<Extent>, from: nat, to: nat, len: nat)
    requires TilesSince(es, all, from, to)
    ensures TilesSince(es, all + [Extent(to, len)], from, to + len)
  {
    TilesAppend(all[|es|..], from, to, len);
    assert (all + [Extent(to, len)])[|es|..] == all[|es|..] + [Extent(to, len)];
  }

  class SparseFile {
    var bytes: seq<byte>
    ghost var extents: seq<Extent>

    constructor ()
      ensures bytes == [] && extents == []
    {
      bytes := [];
      extents := [];
    }

    /** Writes as much of `p` as the medium takes; a short write is an error. */
    method WriteAt(p: seq<byte>, off: nat) returns (n: nat, ok: bool)
      modifies this
      ensures n <= |p| && (ok ==> n == |p|)
      ensures bytes == Overlay(old(bytes), off, p[..n])
      ensures ok ==> bytes == Overlay(old(bytes), off, p)
      ensures extents == old(extents) + [Extent(off, n)]
    {
      ok := *;
      n := |p|;
      if !ok {
        n :| 0 <= n <= |p|;
      }
      assert p[..|p|] == p;
      bytes := Overlay(bytes, off, p[..n]);
      extents := extents + [Extent(off, n)];
    }
  }

  lemma NothingYet(was: seq<byte>, es: seq<Extent>, offset: nat)
    ensures TilesSince(es, es, offset, offset) && Overlay(was, offset, []) == was
  {
    assert es[|es|..] == [];
  }

  /** One write after another: the file gains `p` where the last write ended. */
  method Append(fh: SparseFile, p: seq<byte>, offset: nat, ghost old_: seq<byte>, ghost start: nat,
                ghost done: seq<byte>, ghost es: seq<Extent>) returns (next: nat, ok: bool)
    requires offset == start + |done| && fh.bytes == Overlay(old_, start, done)
    requires TilesSince(es, fh.extents, start, offset)
    modifies fh
    ensures ok ==> next == offset + |p| && fh.bytes == Overlay(old_, start, done + p)
    ensures ok ==> TilesSince(es, fh.extents, start, next)
  {
    hide Overlay, TilesSince;
    TilesSinceAppend(es, fh.extents, start, offset, |p|);
    OverlayTwice(old_, start, done, p);
    var n;
    n, ok := fh.WriteAt(p, offset);
    next := offset + n;
  }
}

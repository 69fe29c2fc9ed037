// A reader of VHDX files after [MS-VHDX], sections 2.2.2 (headers), 2.2.3
// (region tables), 2.5 (block allocation table) and 2.6 (metadata). It checks
// both headers and both region tables, finds the table and the metadata
// through the region table, and translates every block through the table.
module VhdxReader {
  import opened Bytes
  import opened Wrappers
  import opened SparseFiles
  import opened VhdxLayout

  /** The checksum field holds the checksum of the structure with that field clear. */
  predicate SumOk(s: seq<byte>, crc: Crc)
    requires |s| >= 8
  {
    Le(s, 4, 4) == crc(Splice(s, 4, Zeros(4)))
  }

  predicate HeaderOk(h: seq<byte>, crc: Crc)
    requires |h| == 4096
  {
    h[0..4] == Ascii("head") && SumOk(h, crc) && Le(h, 66, 2) == 1
  }

  predicate RegionOk(r: seq<byte>, crc: Crc)
    requires |r| == 65536
  {
    r[0..4] == Ascii("regi") && SumOk(r, crc) && Le(r, 8, 4) <= 2047
  }

  /** Where the region with identifier `guid` is, looking at table entries from `i` on. */
  function FindRegion(r: seq<byte>, guid: Guid, i: nat, count: nat): Option<nat>
    requires |r| == 65536 && count <= 2047 && i <= count
    decreases count - i
  {
    if i == count then None
    else if r[16 + 32 * i..16 + 32 * i + 16] == guid then Some(Le(r, 16 + 32 * i + 16, 8))
    else FindRegion(r, guid, i + 1, count)
  }

  /** Where the item with identifier `guid` is within the metadata region. */
  function FindItem(m: seq<byte>, guid: Guid, i: nat, count: nat): Option<nat>
    requires |m| == 65536 && count <= 2047 && i <= count
    decreases count - i
  {
    if i == count then None
    else if m[32 + 32 * i..32 + 32 * i + 16] == guid then Some(Le(m, 32 + 32 * i + 16, 4))
    else FindItem(m, guid, i + 1, count)
  }

  datatype Disk = Disk(blockSize: nat, size: nat, sectorSize: nat)

  function ReadMetadata(f: seq<byte>, at: nat): Option<Disk> {
    var m := Window(f, at, 65536);
    if m[0..8] != Ascii("metadata") || Le(m, 10, 2) > 2047 then None
    else
      var n := Le(m, 10, 2);
      match (FindItem(m, GuidFileParameters, 0, n), FindItem(m, GuidDiskSize, 0, n), FindItem(m, GuidLogicalSector, 0, n))
      case (Some(p), Some(s), Some(l)) =>
        Some(Disk(LeNum(Window(f, at + p, 4)), LeNum(Window(f, at + s, 8)), LeNum(Window(f, at + l, 4))))
      case _ => None
  }

  /** The bytes of a block with table entry `entry`: not present, zero, or stored. */
  function BlockBytes(f: seq<byte>, entry: nat, blockSize: nat): Option<seq<byte>> {
    if entry % 8 == 6 then Some(Window(f, entry / MiB * MiB, blockSize))
    else if entry % 8 == 0 || entry % 8 == 2 then Some(Zeros(blockSize))
    else None
  }

  /** Blocks `b` to `n`-1; a bitmap entry follows every `chunk` entries of the table. */
  function ReadBlocks(f: seq<byte>, bat: nat, blockSize: nat, chunk: nat, b: nat, n: nat): Option<seq<byte>>
    requires chunk > 0 && b <= n
    decreases n - b
  {
    if b == n then Some([])
    else
      match BlockBytes(f, LeNum(Window(f, bat + 8 * (b + b / chunk), 8)), blockSize)
      case None => None
      case Some(s) =>
        match ReadBlocks(f, bat, blockSize, chunk, b + 1, n)
        case None => None
        case Some(more) => Some(s + more)
  }

  /** The contents of the virtual disk. */
  function ReadDisk(f: seq<byte>, bat: nat, d: Disk): Option<seq<byte>> {
    if d.blockSize == 0 || d.sectorSize == 0 || 0x80_0000 * d.sectorSize / d.blockSize == 0 then None
    else
      var n := (d.size + d.blockSize - 1) / d.blockSize;
      match ReadBlocks(f, bat, d.blockSize, 0x80_0000 * d.sectorSize / d.blockSize, 0, n)
      case None => None
      case Some(s) => if |s| < d.size then None else Some(s[..d.size])
  }

  /** The virtual disk in the file `f`. */
  function ReadVhdx(f: seq<byte>, crc: Crc): Option<seq<byte>> {
    var h1, h2 := Window(f, 64 * KiB, 4096), Window(f, 128 * KiB, 4096);
    var r1, r2 := Window(f, 192 * KiB, 65536), Window(f, 256 * KiB, 65536);
    if Window(f, 0, 8) != Ascii("vhdxfile") then None
    else if !HeaderOk(h1, crc) || !HeaderOk(h2, crc) || !RegionOk(r1, crc) || !RegionOk(r2, crc) then None
    else
      var n := Le(r1, 8, 4);
      match (FindRegion(r1, GuidBat, 0, n), FindRegion(r1, GuidMetadata, 0, n))
      case (Some(bat), Some(meta)) =>
        (match ReadMetadata(f, meta)
         case None => None
         case Some(d) => ReadDisk(f, bat, d))
      case _ => None
  }
}

// The structures of a VHDX file as the writer lays them out: identifier, two
// headers, two region tables, the block allocation table and the metadata.
module VhdxLayout {
  import opened Arith
  import opened Bytes

  const KiB := 1024
  const MiB := 0x10_0000

  type u32 = x: int | 0 <= x < 0x1_0000_0000

  /** The checksum of the format; nothing is assumed about which function it is. */
  type Crc = seq<byte> -> u32

  type Guid = s: seq<byte> | |s| == 16 witness Zeros(16)

  const GuidBat: Guid := [0x66, 0x77, 0xC2, 0x2D, 0x23, 0xF6, 0x00, 0x42, 0x9D, 0x64, 0x11, 0x5E, 0x9B, 0xFD, 0x4A, 0x08]
  const GuidMetadata: Guid := [0x06, 0xA2, 0x7C, 0x8B, 0x90, 0x47, 0x9A, 0x4B, 0xB8, 0xFE, 0x57, 0x5F, 0x05, 0x0F, 0x88, 0x6E]
  const GuidFileParameters: Guid := [0x37, 0x67, 0xA1, 0xCA, 0x36, 0xFA, 0x43, 0x4D, 0xB3, 0xB6, 0x33, 0xF0, 0xAA, 0x44, 0xE7, 0x6B]
  const GuidDiskSize: Guid := [0x24, 0x42, 0xA5, 0x2F, 0x1B, 0xCD, 0x76, 0x48, 0xB2, 0x11, 0x5D, 0xBE, 0xD8, 0x3B, 0xF4, 0xB8]
  const GuidDiskId: Guid := [0xAB, 0x12, 0xCA, 0xBE, 0xE6, 0xB2, 0x23, 0x45, 0x93, 0xEF, 0xC3, 0x09, 0xE0, 0x00, 0xC7, 0x46]
  const GuidLogicalSector: Guid := [0x1D, 0xBF, 0x41, 0x81, 0x6F, 0xA9, 0x09, 0x47, 0xBA, 0x47, 0xF2, 0x33, 0xA8, 0xFA, 0xAB, 0x5F]
  const GuidPhysicalSector: Guid := [0xC7, 0x48, 0xA3, 0xCD, 0x5D, 0x44, 0x71, 0x44, 0x9C, 0xC9, 0xE9, 0x88, 0x52, 0x51, 0xC5, 0x56]

  /** ASCII text in UTF-16, little-endian. */
  function Utf16(text: string): (s: seq<byte>)
    ensures |s| == 2 * |text|
  {
    seq(2 * |text|, i requires 0 <= i < 2 * |text| => if i % 2 == 0 then text[i / 2] as int % 256 else 0)
  }

  function Identifier(): (s: seq<byte>)
    ensures |s| == 256
  {
    Ascii("vhdxfile") + Utf16("cluster-api-provider-scvmm") + Zeros(196)
  }

  /** A header before its checksum is filled in. */
  function HeaderFields(sequence: nat, fileWrite: Guid, dataWrite: Guid): (s: seq<byte>)
    ensures |s| == 80
  {
    Ascii("head") + Zeros(4) + LeBytes(sequence, 8) + fileWrite + dataWrite + Zeros(18)
      + LeBytes(1, 2) + LeBytes(MiB, 4) + LeBytes(MiB, 8)
  }

  /** A structure of `n` bytes with the checksum of itself, taken while bytes 4 to 7 are clear. */
  function Sealed(fields: seq<byte>, n: nat, crc: Crc): (s: seq<byte>)
    requires 8 <= |fields| <= n
    ensures |s| == n
  {
    var clear := fields + Zeros(n - |fields|);
    Splice(clear, 4, LeBytes(crc(clear), 4))
  }

  function RegionEntry(guid: Guid, offMiB: nat, lenMiB: nat): (s: seq<byte>)
    ensures |s| == 32
  {
    guid + LeBytes(offMiB * MiB, 8) + LeBytes(lenMiB * MiB, 4) + Zeros(4)
  }

  function RegionFields(): (s: seq<byte>)
    ensures |s| == 80
  {
    Ascii("regi") + Zeros(4) + LeBytes(2, 4) + Zeros(4) + RegionEntry(GuidBat, 2, 1) + RegionEntry(GuidMetadata, 3, 1)
  }

  function MetadataEntry(guid: Guid, off: nat, length: nat, flags: nat): (s: seq<byte>)
    ensures |s| == 32
  {
    guid + LeBytes(off, 4) + LeBytes(length, 4) + LeBytes(flags, 4) + Zeros(4)
  }

  function MetadataTable(): (s: seq<byte>)
    ensures |s| == 256
  {
    Ascii("metadata") + Zeros(2) + LeBytes(5, 2) + Zeros(20)
      + MetadataEntry(GuidFileParameters, 65536, 8, 4)
      + MetadataEntry(GuidDiskSize, 65544, 8, 6)
      + MetadataEntry(GuidDiskId, 65552, 16, 6)
      + MetadataEntry(GuidLogicalSector, 65568, 4, 6)
      + MetadataEntry(GuidPhysicalSector, 65572, 4, 6)
      + Zeros(64)
  }

  function MetadataValues(size: nat, diskId: Guid): (s: seq<byte>)
    ensures |s| == 256
  {
    LeBytes(MiB, 4) + LeBytes(1, 4) + LeBytes(size, 8) + diskId + LeBytes(512, 4) + LeBytes(512, 4) + Zeros(216)
  }

  /** Blocks of a disk of `size` bytes. */
  function Blocks(size: nat): nat {
    Units(size, MiB)
  }

  /** The entry of block `b`: fully present, stored from 4 MiB on. */
  function BatEntry(b: nat): nat {
    6 + (b + 4) * MiB
  }

  function BatTo(k: nat): (s: seq<byte>)
    ensures |s| == 8 * k
  {
    if k == 0 then [] else BatTo(k - 1) + LeBytes(BatEntry(k - 1), 8)
  }

  function Bat(size: nat): (s: seq<byte>)
    ensures |s| == 8 * (Blocks(size) + 1)
  {
    BatTo(Blocks(size)) + LeBytes(2, 8)
  }

  // ----- the file as a list of writes -------------------------------------------------------

  datatype Write = Write(off: nat, data: seq<byte>)

  datatype Guids = Guids(file1: Guid, data1: Guid, file2: Guid, data2: Guid, disk: Guid)

  /** What is written before the image. */
  function ContainerWrites(size: nat, ids: Guids, crc: Crc): (ws: seq<Write>)
    ensures |ws| == 8
  {
    [Write(0, Identifier()),
     Write(64 * KiB, Sealed(HeaderFields(1, ids.file1, ids.data1), 4096, crc)[..256]),
     Write(128 * KiB, Sealed(HeaderFields(2, ids.file2, ids.data2), 4096, crc)[..256]),
     Write(192 * KiB, Sealed(RegionFields(), 65536, crc)[..256]),
     Write(256 * KiB, Sealed(RegionFields(), 65536, crc)[..256]),
     Write(2 * MiB, Bat(size)),
     Write(3 * MiB, MetadataTable()),
     Write(3 * MiB + 64 * KiB, MetadataValues(size, ids.disk))]
  }

  /** The last write: zeros over the end of the first block. */
  function PadWrite(): Write {
    Write(5 * MiB - 256, Zeros(256))
  }
}

// The images as a whole: what a virtual machine finds on the disk it is given.
module CloudInitImages {
  import opened Bytes
  import opened Wrappers
  import opened CloudInit
  import opened SparseFiles
  import opened VhdxLayout
  import opened VhdxWriter
  import opened VhdxReader
  import opened VhdxRoundTrip
  import FatVolume
  import FatReader
  import FatRoundTrip
  import IsoVolume
  import IsoReader
  import IsoRoundTrip

  lemma SmallImage(n: nat)
    requires n <= MiB - 256
    ensures Blocks(n) <= 4096
  {
  }

  /**
   * A FAT volume of at most 1 MiB less 256 bytes in a container: the disk
   * holds exactly the files that were given.
   */
  lemma VfatContainerCarriesFiles(files: seq<CloudInitFile>, stamp: seq<byte>, ids: Guids, crc: Crc)
    requires FatRoundTrip.Storable(files) && Ready(Vfat(stamp), files)
    requires |ImageOf(Vfat(stamp), files)| <= MiB - 256
    ensures var f := Applied([], VhdxWrites(Vfat(stamp), files, ids, crc));
      && |f| == 5 * MiB
      && ReadVhdx(f, crc).Some? && FatReader.ReadVolume(ReadVhdx(f, crc).value) == Some(files)
  {
    hide FatRoundTrip.Storable, FatVolume.FatImage, FatReader.ReadVolume, ReadVhdx, Applied, VhdxWrites, Blocks, FatVolume.BaseSectors;
    SmallImage(|ImageOf(Vfat(stamp), files)|);
    WrittenContainerReads(Vfat(stamp), files, ids, crc);
    FatRoundTrip.WrittenVolumeReads(files, stamp);
  }

  /** The same for an ISO 9660 volume whose directory fits its sector. */
  lemma IsoContainerCarriesFiles(files: seq<CloudInitFile>, date: seq<byte>, now: seq<byte>, ids: Guids, crc: Crc)
    requires IsoRoundTrip.Storable(files) && IsoVolume.DirectoryFits(files) && Ready(Iso9660(date, now), files)
    requires |ImageOf(Iso9660(date, now), files)| <= MiB - 256
    ensures var f := Applied([], VhdxWrites(Iso9660(date, now), files, ids, crc));
      && |f| == 5 * MiB
      && ReadVhdx(f, crc).Some?
      && IsoReader.ReadIso(ReadVhdx(f, crc).value) == Some(IsoRoundTrip.Named(files, |files|))
  {
    hide IsoRoundTrip.Storable, IsoVolume.IsoImage, IsoReader.ReadIso, ReadVhdx, Applied, VhdxWrites, Blocks, IsoVolume.DirectoryFits, IsoRoundTrip.Named;
    SmallImage(|ImageOf(Iso9660(date, now), files)|);
    WrittenContainerReads(Iso9660(date, now), files, ids, crc);
    IsoRoundTrip.WrittenVolumeReads(files, date, now);
  }

  // ----- disjoint writes ----------------------------------------------------------------------

  /** Every write begins at or after the end of all earlier ones. */
  ghost predicate Ascending(es: seq<Extent>) {
    forall i, j :: 0 <= i < j < |es| ==> es[i].off + es[i].len <= es[j].off
  }

  lemma {:induction false} TilesAscend(es: seq<Extent>, from: nat, to: nat)
    requires Tiles(es, from, to)
    ensures from <= to && Ascending(es)
    ensures forall i :: 0 <= i < |es| ==> from <= es[i].off && es[i].off + es[i].len <= to
  {
    if es != [] {
      TilesAscend(es[..|es| - 1], from, es[|es| - 1].off);
    }
  }

  lemma {:induction false} ExtentsOfWrites(ws: seq<Write>)
    ensures forall j :: 0 <= j < |ws| ==> Extents(ws)[j] == Extent(ws[j].off, |ws[j].data|)
  {
    if ws != [] {
      ExtentsOfWrites(ws[..|ws| - 1]);
    }
  }

  /**
   * Of the writes of a container, all but the last are in ascending order
   * without overlap: the container's structures, then the tiles of the image.
   */
  lemma ContainerWritesAscend(all: seq<Extent>, size: nat, ids: Guids, crc: Crc, from: nat, to: nat)
    requires Blocks(size) <= 4096 && 4 * MiB <= from
    requires TilesSince(Extents(ContainerWrites(size, ids, crc)), all, from, to)
    ensures Ascending(all)
  {
    hide ContainerWrites, Extents, Blocks, ZoneStart, Tiles;
    var ws := ContainerWrites(size, ids, crc);
    var front, tiles := Extents(ws), all[8..];
    ContainerInZones(size, ids, crc);
    ExtentsOfWrites(ws);
    TilesAscend(tiles, from, to);
    LastZone();
    forall i, j | 0 <= i < j < |all|
      ensures all[i].off + all[i].len <= all[j].off
    {
      if j < 8 {
        assert all[i] == front[i] && all[j] == front[j];
        ZonesOrdered(i + 1, j);
      } else if i < 8 {
        assert all[i] == front[i] && all[j] == tiles[j - 8];
        ZonesOrdered(i + 1, 8);
      } else {
        assert all[i] == tiles[i - 8] && all[j] == tiles[j - 8];
      }
    }
  }

  // ----- the file as it is written ------------------------------------------------------------

  /** Files the file system can carry and give back. */
  predicate Deliverable(fs: FileSystem, files: seq<CloudInitFile>) {
    match fs
    case Vfat(_) => FatRoundTrip.Storable(files)
    case Iso9660(_, _) => IsoRoundTrip.Storable(files) && IsoVolume.DirectoryFits(files)
  }

  /** Read as a container, and its disk as a volume, `f` gives the files. */
  predicate GivesFiles(f: seq<byte>, fs: FileSystem, files: seq<CloudInitFile>, crc: Crc) {
    ReadVhdx(f, crc).Some? &&
    match fs
    case Vfat(_) => FatReader.ReadVolume(ReadVhdx(f, crc).value) == Some(files)
    case Iso9660(_, _) => IsoReader.ReadIso(ReadVhdx(f, crc).value) == Some(IsoRoundTrip.Named(files, |files|))
  }

  lemma ContainerGivesFiles(fs: FileSystem, files: seq<CloudInitFile>, ids: Guids, crc: Crc)
    requires Deliverable(fs, files) && Ready(fs, files) && |ImageOf(fs, files)| <= MiB - 256
    ensures var f := Applied([], VhdxWrites(fs, files, ids, crc)); |f| == 5 * MiB && GivesFiles(f, fs, files, crc)
  {
    hide FatRoundTrip.Storable, IsoRoundTrip.Storable, IsoVolume.DirectoryFits, IsoRoundTrip.Named, FatReader.ReadVolume,
         IsoReader.ReadIso, ReadVhdx, Applied, VhdxWrites, ImageOf, Ready;
    match fs
    case Vfat(stamp) => VfatContainerCarriesFiles(files, stamp, ids, crc);
    case Iso9660(date, now) => IsoContainerCarriesFiles(files, date, now, ids, crc);
  }

  /**
   * Writes the files to a new file. If that succeeds, the virtual disk is the
   * image with the pad's bytes cleared, small images give exactly the files
   * back, and no write but the pad overlaps an earlier one.
   */
  method WriteImage(fs: FileSystem, files: seq<CloudInitFile>, ids: Guids, crc: Crc)
    returns (fh: SparseFile, r: Result<(), WriteError>)
    requires Ready(fs, files) && Blocks(|ImageOf(fs, files)|) <= 4096
    ensures fresh(fh)
    ensures r.Ok? ==> ReadVhdx(fh.bytes, crc) == Some(PadCleared(ImageOf(fs, files)))
    ensures r.Ok? && Deliverable(fs, files) && |ImageOf(fs, files)| <= MiB - 256 ==>
      |fh.bytes| == 5 * MiB && GivesFiles(fh.bytes, fs, files, crc)
    ensures r.Ok? ==> fh.extents != [] && Ascending(fh.extents[..|fh.extents| - 1])
  {
    hide ReadVhdx, Applied, VhdxWrites, ImageOf, Ready, Blocks, Deliverable, GivesFiles, Ascending, ContainerWrites, Extents, Tiles,
         PadCleared, ImageWrite;
    fh := new SparseFile();
    r := WriteVhdx(fh, fs, files, ids, crc);
    if r.Ok? {
      WrittenContainerReads(fs, files, ids, crc);
      ImageFollows(fs, files);
      ghost var writes := Extents(ContainerWrites(|ImageOf(fs, files)|, ids, crc));
      assert [] + writes == writes;
      ContainerWritesAscend(fh.extents[..|fh.extents| - 1], |ImageOf(fs, files)|, ids, crc,
                            ImageWrite(fs, files).off, 4 * MiB + |ImageOf(fs, files)|);
      if Deliverable(fs, files) && |ImageOf(fs, files)| <= MiB - 256 {
        ContainerGivesFiles(fs, files, ids, crc);
      }
    }
  }

  lemma ImageFollows(fs: FileSystem, files: seq<CloudInitFile>)
    requires Ready(fs, files)
    ensures ImageWrite(fs, files).off >= 4 * MiB
  {
    hide ImageOf, Ready;
  }
}

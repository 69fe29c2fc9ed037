# A verified model of the SCVMM provider's hard parts

The repository is a Cluster API infrastructure provider for Microsoft System
Center Virtual Machine Manager (SCVMM). This project models four parts of its
controllers in Dafny and proves what they are for.

**Cloud-init images** (`FatTable`, `FatChecksum`, `FatDirectory`, `FatVolume`, `FatWriter`,
`IsoVolume`, `IsoWriter`, `VhdxLayout`, `VhdxWriter`, `SparseFiles`). The
writers pack a FAT12/16 volume, an ISO 9660 volume and a VHDX container by
hand, byte slices in place and writes at file offsets. Each writer is a method
over arrays and a sparse file, and is shown to produce one exact image. For
each format there is a reader written from the format alone
(`FatDirectoryReader`, `FatReader`, `IsoReader`, `VhdxReader`): Microsoft FAT
specification 1.03, sections "FAT Data Structure" and "FAT Long Directory
Entries"; ECMA-119 sections 7.2.3, 7.3.3, 8.4 and 9.1; [MS-VHDX] sections
2.2.2, 2.2.3, 2.5 and 2.6. `FatRoundTrip`, `IsoRoundTrip`, `VhdxRoundTrip` and
`CloudInitImages` prove that reading what was written gives the files back, and
`FatProperties` when exactly it does. A reader does not look at everything:
`FatFields`, `IsoFields` and `VhdxFields` give every byte of the structures, and
the sizes as the least that hold what they must.

**The VM name pool** (`Odometer`, `NameRanges`, `NamePool`,
`NamePoolProperties`, `NamePoolRuns`). `incrementString` is a mixed-radix
odometer; the loop over a range of names ends exactly under a stated condition
and then meets exactly the names it should. One pass of `generateVMName` and
`removeVMNameInPool` is a method on a copy of the pool's status;
`NamePoolRuns` interleaves the passes of all machines, where an update is
accepted only if its copy is current, and proves that no two machines ever
have one name from the pool.

**Persistent disks and machine deletion** (`DiskClaim`, `DiskWorld`,
`DiskSafety`, `DiskExclusion`, `DiskDoubleClaim`, `MachineDeletion`,
`DeletionProgress`).
Which disk a claim takes, what holds in a world of machines, disks and drives
with one step per API update or script call, and how many passes a deletion
needs.

**The WinRM workers** (`ExecHosts`, `WinrmLoop`, `WinrmWorkers`). The choice of
a host, one worker as the loop it is, and any number of workers interleaved.

## What the code does that one might not expect

- A FAT volume whose root directory needs 65536 entries or more is written
  without complaint, but its entry count loses the high bits and it no longer
  reads back (`FatProperties.ReadsBackExactly`).
- The recorded FAT type follows the count of all sectors, the specification's
  rule the count of clusters; `FatProperties.TypeRuleWindow` gives the volumes
  on which they differ.
- The last write of a VHDX container always clears the last 256 bytes of the
  first block of the disk, so a larger image survives exactly when those bytes
  of it are zero (`VhdxRoundTrip.WrittenContainerReads`).
- A file whose ISO 9660 record does not fit the directory sector is dropped
  from the directory, its contents still written
  (`IsoRoundTrip.WrittenVolumeReads`); a later record is then put at offset -1,
  which fails when it is used (`IsoWriter.PutDirectory`). The version byte of
  the primary descriptor is at offset 7, not 6, and the reader does not look at it.
- A range of names whose End is at or above the top string of Start's shape
  is gone through for ever (`NameRanges.LoopEndsExactly`).
- A machine's own name is compared to End with the postfix, the names of the
  range without. Of a range only the last name can escape adoption, and does
  exactly when with its postfix it lies beyond End
  (`NamePoolProperties.AdoptionCoversRange`).
- Two slots of one pool that are open in one pass are given one disk
  (`DiskClaim.SecondSlotGetsSameDisk`), and from there a run can attach it to
  the virtual machines of two machines. With at most one open slot of each
  pool at the start of a pass this never happens, and only then
  (`DiskDoubleClaim.ExclusiveExactly`). Even so a disk never has two machines
  as owners, and no virtual machine is removed with a disk attached
  (`DiskSafety.EveryRunIsSafe`).
- A machine without a name and an id is let go at once, and keeps the disks
  and the pool name it has reserved (`DeletionProgress.DeletionLeaves`).
  Deletion waits for ever for a virtual machine that is neither running nor
  off and has a disk to take off, and for a disk that its slot names and that
  does not exist (`DeletionProgress.DeletionEnds`); the second can come of a
  failed write (`DeletionProgress.LostWriteBlocks`).

## What is assumed of the surroundings

Clock values, UUIDs, the checksum function of VHDX (any function from bytes to
32 bits), the answers of SCVMM, and the outcome of connecting, sending and
reading are parameters. File writes may fail at any point. Over runs: updates
are accepted only from current copies; machine names are not reused; a listing
is at least as fresh as the pool status it is used with; users do not edit VM
names or disk references; a patch after a script call succeeds; an attachment
is visible once its script has returned; the drive at LUN i belongs to slot i;
a disk is matched by the selector of one pool; a persistent disk is deleted
only when no machine owns it; one reconciler works on a
machine at a time and sees its own earlier patches; a provider is not removed
while a connection to it is open. That a disk is of one pool matters to
`DiskExclusion`: with overlapping selectors two open slots of different pools
can be given one disk as well, so that at most one open slot of each pool would
not be enough. `DeletionProgress` further takes it that SCVMM finishes each job
it has accepted between two passes; calls and updates may fail, and disk
objects may come and go.

## Model

| member | source | states |
|---|---|---|
| Arith.UnitsByDivision | internal/controllers/helper_vfat.go:137-143 | Go's truncating `((n-1)/size)+1` is the recursive count of units, one even for an empty file |
| SparseFiles.SparseFile.WriteAt | internal/controllers/helper_vfat.go:238-241 | a write overlays its bytes at its offset on a file that reads zero where nothing was written; a failed write leaves only a prefix |
| SparseFiles.Append | internal/controllers/helper_vfat.go:232-242 | consecutive writes extend one overlay and tile the written interval |
| FatTable.PutFatEnt | internal/controllers/helper_vfat.go:30-56 | for any width from 8 to 32 the table, as one little-endian number, gains the entry modulo 2^width as its next digit; all earlier entries stay |
| FatTable.PutFatChain | internal/controllers/helper_vfat.go:58-64 | a chain adds one link for each sector of the contents, to the next cluster, and an end mark |
| FatTable.DigitAt | internal/controllers/helper_vfat.go:30-56 | every entry of a packed table is still there as the digit at its own bits, whatever was packed after it |
| FatTable.DecoderReadsEntries | internal/controllers/helper_vfat.go:30-56 | the specification's 12 and 16 bit decoders read every entry of the packed table back |
| FatDirectory.NameChecksum | internal/controllers/helper_vfat.go:72-79 | shifts and additions modulo 256 compute the specification's checksum of the stored, space padded 11-byte short name, which is defined by the bits of the sums |
| FatChecksum.RotatedByShifts | internal/controllers/helper_vfat.go:78 | `((sum & 1) << 7) + (sum >> 1)` has bit i+1 of the sum as its bit i, and bit 0 as its bit 7 |
| FatChecksum.SumByBits | internal/controllers/helper_vfat.go:72-79 | there are sums from 0 to the checksum, each the rotation of the one before, bit by bit, plus the next byte modulo 256 |
| FatChecksum.UserDataSum | internal/controllers/helper_vfat.go:72-79 | the checksum of "USER-D~1   " is 0xB0 |
| FatFields.StoredName | internal/controllers/helper_vfat.go:68-71 | each of the 11 stored characters: upper case, six of them and `~1` for names of more than eight, spaces after them |
| FatFields.SlotBytes | internal/controllers/helper_vfat.go:82-98 | every byte of a slot: number with bit 6 on the last, 0x0F, checksum, 13 characters at their places, zero elsewhere and after the name |
| FatFields.FileEntryParts | internal/controllers/helper_vfat.go:66-107 | a file's entries are as many slots as its name needs, numbered downwards, with byte 13 of each the checksum of the 11 bytes stored in the short entry after them |
| FatFields.ShortEntryBytes | internal/controllers/helper_vfat.go:100-105 | every byte of the short entry: name, zeros, both time stamps, the halves of the first cluster, the length |
| FatDirectory.PutVfatDirent | internal/controllers/helper_vfat.go:66-107 | the area of the entry receives exactly the slots in descending order and the short entry, and nothing else changes |
| FatDirectory.PutDirent | internal/controllers/helper_vfat.go:109-115 | the same for the volume name |
| FatFields.VolumeEntryBytes | internal/controllers/helper_vfat.go:109-115 | every byte of the volume's entry |
| FatDirectoryReader.ParseFileEntries | internal/controllers/helper_vfat.go:66-107 | a directory reader that checks order and checksum of the slots gets back the long name, first cluster and length, whatever follows |
| FatVolume.LeastTableIsLeast | internal/controllers/helper_vfat.go:149-166 | a table that covers its own volume exists, and none with fewer sectors does |
| FatVolume.SizeTable | internal/controllers/helper_vfat.go:149-166 | the sizing loop returns the least f for which width * (base + f) <= 4096 * f, with the total base + f below 65525 and the width 16 from a total of 4086 on; it gives up exactly when no f below that limit does |
| FatVolume.TableSectors | internal/controllers/helper_vfat.go:162-165 | rounding bits to bytes and bytes to sectors gives the one count with 4096 * (count - 1) < bits <= 4096 * count |
| FatFields.Sizes | internal/controllers/helper_vfat.go:134-166 | clusters, directory entries, root sectors and the table are each the least that hold contents, names, entries and the volume; the total is their sum and the boot sector |
| FatWriter.CountSectors | internal/controllers/helper_vfat.go:134-147 | the loop counts the root entries and sectors of all files |
| FatWriter.MakeBootSector | internal/controllers/helper_vfat.go:172-190 | the boot sector holds the geometry in its fields and the type string of the chosen width |
| FatFields.BootBytes | internal/controllers/helper_vfat.go:174-190 | every byte of the boot sector |
| FatWriter.MakeTable | internal/controllers/helper_vfat.go:198-209 | the table holds the two reserved entries and the chains of all files in order, and every file gets its start |
| FatFields.ChainEntries | internal/controllers/helper_vfat.go:58-64 | each cluster of a file decodes to the number of the next one, and the last to all ones |
| FatFields.OtherEntries | internal/controllers/helper_vfat.go:203-205 | entries 0 and 1 decode to the media byte below ones and to all ones, and every entry after the last file's is free |
| FatWriter.TableHasRoom | internal/controllers/helper_vfat.go:149-209 | for every list of files that fits, each table entry written is within the table's sectors |
| FatWriter.MakeRoot | internal/controllers/helper_vfat.go:217-224 | the directory writes of all files fit the size computed before |
| FatFields.EntriesStand | internal/controllers/helper_vfat.go:217-224 | the entries of each file stand after those of the files before it |
| FatFields.RootEnds | internal/controllers/helper_vfat.go:217-224 | the root directory starts with the volume's entry and is zero after the last file's entries |
| FatWriter.WriteContents | internal/controllers/helper_vfat.go:232-242 | the contents, each padded to whole sectors, follow one another without gap or overlap |
| FatFields.ContentsStand | internal/controllers/helper_vfat.go:232-242 | from its first cluster on the image has a file's contents, and zeros to the first cluster of the next file |
| FatWriter.WriteVfat | internal/controllers/helper_vfat.go:130-245 | the size with and without a file is the same; the volume is refused exactly when it does not fit FAT16; a successful write leaves exactly the image at the offset, by writes that tile it |
| FatRoundTrip.ClustersBelowReserved | internal/controllers/helper_vfat.go:149-166 | no cluster number comes near the reserved, bad and end values of its width |
| FatRoundTrip.LinkRead | internal/controllers/helper_vfat.go:58-64 | every cluster of a file decodes to the next cluster, and the last one to an end mark |
| FatRoundTrip.ChainRead | internal/controllers/helper_vfat.go:198-209 | following the links from any cluster of a file gives the rest of the file's run of clusters |
| FatRoundTrip.WrittenVolumeReads | internal/controllers/helper_vfat.go:130-245 | for every list of files with storable names that fits, the reader returns the same names and contents in order |
| FatProperties.ReadsBackExactly | internal/controllers/helper_vfat.go:130-245 | a volume with valid names reads back if and only if its root entries fit 16 bits |
| FatProperties.ChainsPartition | internal/controllers/helper_vfat.go:198-209 | the chains share out the data clusters: each is on the chain of exactly one file, and each chain is a run as long as its contents need |
| IsoWriter.PutU16 | internal/controllers/helper_iso9660.go:20-23 | the field holds the value in both byte orders |
| IsoWriter.PutU32 | internal/controllers/helper_iso9660.go:25-28 | the field holds the value in both byte orders |
| IsoWriter.PutDirent | internal/controllers/helper_iso9660.go:47-76 | the record is written where it fits and the next offset returned; otherwise -1 and an unchanged sector |
| IsoFields.HeadBytes | internal/controllers/helper_iso9660.go:47-71 | every byte of a record before its identifier |
| IsoFields.RecordBytes | internal/controllers/helper_iso9660.go:47-76 | a record is its head, its identifier and one or two zeros, of even length |
| IsoWriter.PutPrimaryDescriptor | internal/controllers/helper_iso9660.go:101-123 | the sector holds the descriptor with the total of sectors, the root record and the dates |
| IsoFields.DescriptorHeadBytes | internal/controllers/helper_iso9660.go:101-110 | every byte before the root record, the volume space size among them |
| IsoFields.PrimaryParts | internal/controllers/helper_iso9660.go:101-123 | the root record without its padding stands between head and tail, and zeros after them |
| IsoFields.DescriptorTailBytes | internal/controllers/helper_iso9660.go:112-123 | every byte after the root record: texts in spaces, four dates ended by zero, the version |
| IsoWriter.PutTerminator | internal/controllers/helper_iso9660.go:133-136 | the reused sector holds the terminator alone |
| IsoFields.TerminatorBytes | internal/controllers/helper_iso9660.go:133-136 | every byte of the terminator |
| IsoWriter.PutDirectory | internal/controllers/helper_iso9660.go:146-157 | the directory holds the records up to the first that does not fit; it fails exactly when a later record would then be put at offset -1 |
| IsoFields.RecordStands | internal/controllers/helper_iso9660.go:146-157 | the record of each file that fits stands after the two of the directory and those before it, with its sector, its length and ";1" after its name |
| IsoFields.DirectoryParts | internal/controllers/helper_iso9660.go:146-157 | the directory starts with its own record and its parent's, and is zero after the last that fits |
| IsoFields.Sizes | internal/controllers/helper_iso9660.go:82-90 | sectors are numbered from 19 on, each file having the least that hold its contents; records follow each other until one does not fit 2048 bytes |
| IsoWriter.WriteIso | internal/controllers/helper_iso9660.go:78-175 | the size with and without a file is the same; a successful write leaves exactly the image from sector 16 on, by writes that tile it |
| IsoFields.ContentsStand | internal/controllers/helper_iso9660.go:163-173 | from its sector on the image has a file's contents, and zeros to the sector of the next file |
| IsoRoundTrip.BothRead | internal/controllers/helper_iso9660.go:20-28 | the two halves of a both-endian field agree and give the value back |
| IsoRoundTrip.WrittenVolumeReads | internal/controllers/helper_iso9660.go:78-175 | the reader recovers exactly the files whose records fit, with ";1" and contents; all files if and only if the directory fits its sector |
| VhdxWriter.MakeHeader | internal/controllers/helper_vhdx.go:74-89 | the header holds its fields and the checksum of itself with a cleared checksum field |
| VhdxFields.HeaderBytes | internal/controllers/helper_vhdx.go:74-84 | every byte of a header but its checksum: log length and offset of 1 MiB, version 1 |
| VhdxFields.SealedBytes | internal/controllers/helper_vhdx.go:85-88 | bytes 4 to 7 hold the checksum of the structure with those bytes clear, the others are as they were |
| VhdxWriter.MakeRegion | internal/controllers/helper_vhdx.go:98-111 | the region table holds its two entries and its checksum over 64 KiB |
| VhdxFields.RegionBytes | internal/controllers/helper_vhdx.go:98-105 | every byte of the region table but its checksum, by its two entries |
| VhdxFields.RegionEntryBytes | internal/controllers/helper_vhdx.go:91-96 | every byte of an entry: identifier, offset, length of 1 MiB, not required |
| VhdxFields.BatGuid | internal/controllers/helper_vhdx.go:14 | the block table's identifier is the GUID 2DC27766-F623-4200-9D64-115E9BFD4A08 of the format |
| VhdxFields.MetadataGuid | internal/controllers/helper_vhdx.go:15 | the metadata's identifier is the GUID 8B7CA206-4790-4B9A-B8FE-575F050F886E of the format |
| VhdxWriter.MakeMetadataTable | internal/controllers/helper_vhdx.go:120-136 | the five metadata items at their offsets |
| VhdxFields.TableBytes | internal/controllers/helper_vhdx.go:120-132 | every byte of the metadata table, by its five items |
| VhdxFields.ItemBytes | internal/controllers/helper_vhdx.go:113-118 | every byte of an item: identifier, offset, length, flags |
| VhdxWriter.MakeMetadataValues | internal/controllers/helper_vhdx.go:137-146 | the values of the items |
| VhdxFields.ValueBytes | internal/controllers/helper_vhdx.go:137-144 | every byte of the values |
| VhdxWriter.MakeBat | internal/controllers/helper_vhdx.go:149-162 | one entry for each block of the disk, present and at the next MiB, for any size |
| VhdxFields.BatBytes | internal/controllers/helper_vhdx.go:149-162 | as many entries as MiB are begun, entry b with state 6 at MiB 4 + b, and a zero block at the end |
| VhdxWriter.WriteVhdx | internal/controllers/helper_vhdx.go:164-211 | a successful write is the ten writes of the container, image and pad in order, and all but the pad are the container's or tile the image |
| VhdxFields.Offsets | internal/controllers/helper_vhdx.go:172-205 | the offsets of all structures and of the clear bytes |
| VhdxFields.IdentifierBytes | internal/controllers/helper_vhdx.go:66-72 | every byte of the file identifier |
| VhdxRoundTrip.SealedRead | internal/controllers/helper_vhdx.go:74-111 | a reader that clears the checksum field finds the stored checksum right, for any checksum function |
| VhdxRoundTrip.BlocksRead | internal/controllers/helper_vhdx.go:149-162 | translating sectors through the block table gives the contiguous area of the image |
| VhdxRoundTrip.WrittenContainerReads | internal/controllers/helper_vhdx.go:164-211 | the reader sees the image with the pad's bytes cleared; the image itself if and only if those bytes are zero, and always up to 1 MiB less 256 bytes, where the file ends at 5 MiB |
| CloudInitImages.VfatContainerCarriesFiles | internal/controllers/helper_vhdx.go:164-211 | the disk of a container around a small FAT volume holds exactly the given files |
| CloudInitImages.IsoContainerCarriesFiles | internal/controllers/helper_vhdx.go:164-211 | the same for a small ISO 9660 volume |
| CloudInitImages.ContainerWritesAscend | internal/controllers/helper_vhdx.go:164-211 | all writes of a container but the pad are disjoint, in ascending order |
| CloudInitImages.WriteImage | internal/controllers/helper_vhdx.go:164-211 | a new file written successfully reads as the image with the pad's bytes cleared, gives back the files of a small FAT or ISO 9660 volume, and no write but the pad overlaps an earlier one |
| Odometer.IncrementString | internal/controllers/scvmmmachine_controller.go:1187-1209 | the loop over the runes gives the next string of the odometer |
| Odometer.NextMeans | internal/controllers/scvmmmachine_controller.go:1187-1209 | the last digit or letter that is not the last of its kind goes up by one, everything before it stays, and after it 9, z and Z start over and all else stays |
| Odometer.NextCounts | internal/controllers/scvmmmachine_controller.go:1187-1209 | length and shape stay; the value goes up by one and starts over after the last |
| Odometer.NextAddsOne | internal/controllers/scvmmmachine_controller.go:1187-1209 | the value goes up by one modulo the product of the radices |
| Odometer.NextIsBijective | internal/controllers/scvmmmachine_controller.go:1187-1209 | on the strings of a shape the increment is one-to-one and onto |
| Odometer.WithValueShows | internal/controllers/scvmmmachine_controller.go:1187-1209 | every value below the product of the radices is shown by a string of the shape |
| Odometer.TopShowsMost | internal/controllers/scvmmmachine_controller.go:1187-1209 | the string of nines and zs shows the largest value of its shape |
| Odometer.OrderIsValueOrder | internal/controllers/scvmmmachine_controller.go:1167-1170 | on one shape the order of strings is the order of values |
| Odometer.LessMeans | internal/controllers/scvmmmachine_controller.go:1167-1170 | strings compare by the first place where they differ, a prefix before what it begins |
| NameRanges.LoopEndsExactly | internal/controllers/scvmmmachine_controller.go:1143-1172 | the loop over a range ends if and only if End is empty or below the top string of Start's shape |
| NameRanges.RangeIsCovered | internal/controllers/scvmmmachine_controller.go:1143-1172 | with Start <= End < top the loop meets exactly the strings of Start's shape between them, each once and in increasing order |
| NameRanges.RangeFromAboveEnd | internal/controllers/scvmmmachine_controller.go:1143-1172 | with End < Start it meets Start alone, or, if Start is the top string, Start and then the strings of its shape up to End, each once and in increasing order |
| NameRanges.MeetsWithoutEnd | internal/controllers/scvmmmachine_controller.go:1168 | without an End the loop meets Start alone |
| NamePool.PoolCopy.AdoptNames | internal/controllers/scvmmmachine_controller.go:1130-1141 | the loops over machines and ranges record the adopted names, machine by machine |
| NamePool.PoolCopy.ScanRange | internal/controllers/scvmmmachine_controller.go:1143-1172 | the loop over one range scans exactly its candidates |
| NamePool.PoolCopy.GenerateVMName | internal/controllers/scvmmmachine_controller.go:1107-1183 | an entry of the machine is returned with the copy unchanged; otherwise the copy holds the adopted names, the new entry and the counts, unless a question failed |
| NamePool.PoolCopy.RemoveVMName | internal/controllers/scvmmmachine_controller.go:1211-1249 | exactly the entries of other, listed machines stay; the counts move by the entries of a listed machine |
| NamePoolProperties.AdoptedMeans | internal/controllers/scvmmmachine_controller.go:1130-1141 | an unowned name in a range goes to the first listed machine that has it, and no other entry changes |
| NamePoolProperties.CoversMeans | internal/controllers/scvmmmachine_controller.go:1133-1134 | a name is in a range if it is Start, where End is empty, and otherwise if it is neither below Start nor above End |
| NamePoolProperties.ScanMeans | internal/controllers/scvmmmachine_controller.go:1142-1172 | the first candidate nobody owns and SCVMM does not know is taken; the scan fails exactly when the question about that first open candidate fails; the counts are exact for the status it leaves |
| NamePoolProperties.HandedOutIsFree | internal/controllers/scvmmmachine_controller.go:1107-1183 | a name handed out is name k of range i such that nobody owns it, SCVMM does not know it, and all names of earlier ranges and earlier names of the range are taken; no listed machine has it if it lies in a range; without one every name of every range is taken; the total is the sum of the ranges' names |
| NamePoolProperties.CandidateAt | internal/controllers/scvmmmachine_controller.go:1143-1172 | candidate k of range i, at the position of the sum of the names of earlier ranges plus k, is Start after k increments with the postfix |
| NamePoolProperties.FailsExactly | internal/controllers/scvmmmachine_controller.go:1149-1152 | a pass fails if and only if the question fails for the first name that has no owner and that SCVMM does not know |
| NamePoolProperties.CountsAreExact | internal/controllers/scvmmmachine_controller.go:1161-1166 | used is the number of pairs of a range and a place in it whose name has an owner in the status written, free all others |
| NamePoolProperties.OwnersAfterPass | internal/controllers/scvmmmachine_controller.go:1107-1183 | for every name its owner after a pass: the owner it had, else the first listed machine with that name if it lies in a range, else the machine of the pass for the name handed out, else none |
| NamePoolProperties.SameCopySameName | internal/controllers/scvmmmachine_controller.go:1107-1183 | two machines that work on one copy get one name, so that only the version check keeps them apart |
| NamePoolProperties.AdoptionCoversRange | internal/controllers/scvmmmachine_controller.go:1133-1134 | of the names a range hands out, adoption misses none but the last, and that one exactly when with its postfix it lies beyond End |
| NamePoolProperties.CountsAfterRelease | internal/controllers/scvmmmachine_controller.go:1230-1241 | exact counts are still exact after a release if and only if as many candidates lose their owner as entries are counted; for a listed machine whose names are candidates, each once, that is when no candidate belonged to an unlisted machine |
| NamePoolRuns.StepKeepsInv | internal/controllers/scvmmmachine_controller.go:392-411 | every step of creating, naming, deleting and releasing machines keeps the protocol's invariant over all versions of the pool |
| NamePoolRuns.NamesAreSafe | internal/controllers/scvmmmachine_controller.go:1107-1249 | in every state of every run each machine owns at most one name, a name from the pool is owned until released, and no two machines share one |
| NamePoolRuns.EarlyReturnIsDeterministic | internal/controllers/scvmmmachine_controller.go:1121-1125 | whatever entry of the machine map iteration meets, in whatever version, it is the one name the machine owns now |
| DiskClaim.SetIndexes | internal/controllers/scvmmmachine_controller.go:635-643 | every listed disk gets the number after the last dash of its name, in place |
| DiskClaim.NameGivesIndex | internal/controllers/scvmmmachine_controller.go:635-691 | the name made for an index parses back to that index, up to the largest 64-bit number |
| DiskClaim.IndexMeans | internal/controllers/scvmmmachine_controller.go:635-643 | the decimal number after the last dash, with or without a plus sign; zero without a dash, without digits, with other characters, or above 64 bits |
| DiskClaim.DecimalMeans | internal/controllers/scvmmmachine_controller.go:691 | reading and writing decimal notation, digit by digit |
| DiskClaim.ChooseDisk | internal/controllers/scvmmmachine_controller.go:649-690 | in the fields of the disks: a claimed disk is not being deleted, within the limit, and has no owner but this machine, and none if it is in one of its slots; wherever such a disk is listed, one of no higher index is claimed; otherwise the least positive index not in use is made, or the machine turned away when all places are taken |
| DiskClaim.ClaimPersistentDisk | internal/controllers/scvmmmachine_controller.go:617-690 | the same for a listing in any order, whose indices are those of the names |
| DiskClaim.ChoiceMeans | internal/controllers/scvmmmachine_controller.go:649-690 | the same of any choice: both directions for a claim, the least index not in use for a new disk, all places in use when full |
| DiskClaim.SecondSlotGetsSameDisk | internal/controllers/scvmmmachine_controller.go:558-570 | in a pass nobody interferes with, the next open slot of a pool gets the same disk, unless it was in a slot before, and exactly then not |
| DiskClaim.PoolKeepsItsLimit | internal/controllers/scvmmmachine_controller.go:685-710 | however stale the listings, the disks made for a pool have distinct indices from 1 to the limit, and are no more than the limit |
| DiskExclusion.Claims | internal/controllers/scvmmmachine_controller.go:553-713 | claiming and making disks keeps the invariant: one owner, and one slot of the machine |
| DiskExclusion.StepKeepsInv | internal/controllers/scvmmmachine_controller.go:553-1053 | every step of claiming, attaching, detaching, releasing and removing keeps the invariant |
| DiskSafety.EveryRunIsSafe | internal/controllers/scvmmmachine_controller.go:617-1316 | in every state of every run, whatever slots are open together, a disk has at most one machine as owner, and RemoveVM is sent only for a virtual machine without persistent disks |
| DiskExclusion.DisksAreExclusive | internal/controllers/scvmmmachine_controller.go:553-1053 | in every run whose passes begin with at most one open slot of each pool, an attached disk is owned by its machine, no disk is attached twice, and an owner reference goes only when the disk is attached nowhere |
| DiskDoubleClaim.CarelessPassBreaksExclusion | internal/controllers/scvmmmachine_controller.go:553-570 | from a pass with two open slots of a pool, for whatever disk the pool can still give it or have made, careful steps lead to that disk attached to the virtual machines of two machines |
| DiskDoubleClaim.ExclusiveExactly | internal/controllers/scvmmmachine_controller.go:553-713 | a pass keeps disks to one machine in every careful continuation if and only if it begins with at most one open slot of each pool, unless the pools with several open slots have neither room nor a disk to claim |
| MachineDeletion.DiskByLun | internal/controllers/scvmmmachine_controller.go:543-550 | nothing exactly when no drive has the LUN, and otherwise a drive that has |
| MachineDeletion.Deletion.RemovePersistentDisks | internal/controllers/scvmmmachine_controller.go:997-1053 | the loop releases disks without a drive and stops at the first with one, stopping the machine or taking the drive off, at a disk that does not exist, or at the disk for which a call fails, before or after its effect |
| MachineDeletion.SweptExactly | internal/controllers/scvmmmachine_controller.go:997-1053 | the slots before the one where a sweep ends are clear and their disks released; that one has a drive, no disk or a failing call, with its exact effect; nothing else changes |
| MachineDeletion.DiskRemovedMeans | scripts/RemoveDiskFromVM.ps1:10-21 | a virtual machine that is off loses the drives of the LUN and no other; any other is switched off and keeps all |
| MachineDeletion.WithoutMeans | scripts/RemoveDiskFromVM.ps1:11-16 | drives are taken off one by one, so that the others stay in order |
| MachineDeletion.Deletion.ReconcileDelete | internal/controllers/scvmmmachine_controller.go:1251-1316 | one call is one pass of the deletion, with or without a failing call or update |
| MachineDeletion.PassMeans | internal/controllers/scvmmmachine_controller.go:1251-1316 | when a pass removes the virtual machine, the pool's entry and the finalizer, in both directions |
| DeletionProgress.SweptMeans | internal/controllers/scvmmmachine_controller.go:997-1053 | a sweep clears only slots of existing disks without a drive; if no call fails and all disks exist it clears all slots exactly when no filled slot has a drive |
| DeletionProgress.RunSteps | internal/controllers/scvmmmachine_controller.go:1251-1316 | over passes with any faults and any changes of the disk objects, a rank never rises and falls with every pass without a fault that does not meet a blocked machine |
| DeletionProgress.DeletionEnds | internal/controllers/scvmmmachine_controller.go:1251-1316 | whatever fails and whatever becomes of the disks, the finalizer goes with as many such passes as the rank says; passes alone bring it about if and only if the virtual machine is not one that is neither running nor off with a disk to take off, and no filled slot names a disk that does not exist |
| DeletionProgress.LostWriteBlocks | internal/controllers/scvmmmachine_controller.go:1007-1047 | a machine that could be deleted is blocked for good when its last write fails after a release and the released disk is deleted before the next pass |
| DeletionProgress.DeletionLeaves | internal/controllers/scvmmmachine_controller.go:1251-1316 | however often it failed, at the end the virtual machine, the slots' disks with their owner references, and the pool name are gone; for a machine without name and id everything stays as reserved |
| DeletionProgress.DisksComeOffFirst | internal/controllers/scvmmmachine_controller.go:1276-1316 | when the virtual machine goes, no drive is left for any slot that held a disk at the start |
| ExecHosts.ProviderStatus.SetExecHostStatus | api/v1alpha1/scvmmprovider_types.go:105-118 | the first entry of the host is changed in place, or a new one added at the end |
| ExecHosts.EntriesMean | api/v1alpha1/scvmmprovider_types.go:96-118 | the first entry of a host is shown and replaced; without one nothing is shown and one is added at the end |
| ExecHosts.HealthyMeans | internal/controllers/helper_winrmcommand.go:241-247 | a host is healthy if it has no entry or its first entry says OK |
| ExecHosts.UpdatedShows | api/v1alpha1/scvmmprovider_types.go:96-118 | the host shows the new status from then on, and no other host shows anything new |
| ExecHosts.ProviderStatus.FirstHealthy | internal/controllers/helper_winrmcommand.go:239-247 | the first host that is healthy or unknown, and the first of all if there is none |
| ExecHosts.ProviderStatus.TryHosts | internal/controllers/helper_winrmcommand.go:249-260 | the first host from there on, going round, that connects; all hosts tried show how they did |
| ExecHosts.ShownMeans | internal/controllers/helper_winrmcommand.go:249-260 | after the tries a host shows its own outcome if it was tried, and what it showed before if not |
| ExecHosts.AllAreTried | internal/controllers/helper_winrmcommand.go:250-252 | going round from any host reaches every host |
| ExecHosts.Wraps | internal/controllers/helper_winrmcommand.go:250-252 | the host tried is the one at (i + idx) modulo the number of hosts |
| WinrmLoop.Worker.Execute | internal/controllers/helper_winrmcommand.go:309-352 | exactly one reply; good if and only if the command is sent and some read has stdout with only stderr before it; the connection is kept if and only if the first read has stdout |
| WinrmLoop.Worker.DoWinrmWork | internal/controllers/helper_winrmcommand.go:223-386 | all commands a connection takes are answered once, in order, but for a last one handed back; what is sent after the first comes in time and fits provider and version, and nothing is sent after a command with stderr before its output; what is handed back does not fit, and nothing is left that could be taken |
| WinrmLoop.TakenMeans | internal/controllers/helper_winrmcommand.go:309-385 | which inputs a kept connection takes, in the fields of the commands |
| WinrmLoop.Worker.WinrmWorker | internal/controllers/helper_winrmcommand.go:193-219 | until the channel is closed, every command is answered exactly once, in the order of arrival, if each provider stays while a connection to it is kept |
| WinrmWorkers.StepKeepsInv | internal/controllers/helper_winrmcommand.go:193-395 | every step of any worker and of the surroundings keeps the invariant |
| WinrmWorkers.EveryCommandOnce | internal/controllers/helper_winrmcommand.go:193-395 | over all interleavings a received command is held by exactly one worker and unanswered, or answered exactly once, and never sent twice |
| WinrmWorkers.ConnectionsFit | internal/controllers/helper_winrmcommand.go:361-380 | the connection every command is sent on was taken for that command, opened for its provider, in the version the provider had when it was taken |
| WinrmWorkers.HandedBackIsNext | internal/controllers/helper_winrmcommand.go:196-203 | in every continuation, the next command a worker sends or answers is the one it has been handed back |
| WinrmWorkers.NothingSentAfterStderr | internal/controllers/helper_winrmcommand.go:350-355 | in every continuation, a worker that has read stderr sends no command before a connection has been opened for it anew |

## Corollaries

Consequences of the results above, each a short lemma:
`FatProperties.TypeRuleWindow` (the exact volumes on which the recorded FAT
width departs from the specification's rule, `helper_vfat.go` 155-162),
`NamePoolProperties.SingleNameAdoption` (a range without End adopts its own
name exactly when it has no postfix), `NamePoolProperties.ReleaseUndoesReserve`
(releasing a reserved name leaves the owners as they were),
`DiskClaim.ChoiceIsUnique` (with distinct indices the choice is the only one
that meets its specification), `DiskExclusion.ChosenCanBeClaimed` and
`DiskExclusion.ClaimableIsChosen` (a disk chosen from a listing that shows its
current owners can be claimed, and where a listed one can be, one of no higher
index is chosen) and `DiskExclusion.ReleasedIsDetached` (a released disk is attached nowhere).

## Left out

- FatTable.PutFatEnt: only for a buffer that is clear from the entry's bits on; the source ORs into whatever is there, but only ever goes upwards through a zeroed table.
- FatTable.PutFatChain: as PutFatEnt, and with the number of links written given by the file length.
- FatDirectory.PutVfatDirent: only for names of at least six bytes, since shorter ones are sliced out of range, and for an area that is still zero.
- FatDirectory.PutDirent: only for an area that is still zero.
- IsoWriter.PutDirent: only for an area that is still zero where the record fits.
- FatWriter.WriteVfat: base sectors below 2^32 - 1, so that 32-bit counts do not wrap; stored contents are immutable, so that appending into the spare capacity of a caller's slice is not modelled.
- FatRoundTrip.WrittenVolumeReads: names are byte sequences of 6 to 255 ASCII characters without NUL; others are not decoded by the source's byte-by-byte slots.
- IsoWriter.WriteIso: it is not said which of a failed write and a directory that does not fit is reported when both happen.
- VhdxRoundTrip.WrittenContainerReads: disks of at most 4096 blocks; beyond that the block table lacks the interleaved bitmap entries of the format, and the reader here would not find the blocks.
- NamePool.PoolCopy.GenerateVMName: for ranges whose loop ends; the others never return. SCVMM gives one answer about a name during a pass.
- NamePoolProperties.ScanMeans: for machines and candidates with non-empty names; an empty Start with an empty postfix is excluded.
- DiskClaim.ChooseDisk: for disks sorted by index; ClaimPersistentDisk sorts them, into one of the orders the library's sort may give.
- DiskClaim.SecondSlotGetsSameDisk: for listings without two disks of one index, where the sort would decide.
- DiskDoubleClaim.ExclusiveExactly: a pass whose pools with several open slots all have neither room nor a disk to claim at its start is left out of the exact statement; it skips those slots, and can still be given one disk twice if one is released meanwhile. Room is the number of the pool's disks below its limit.
- DiskWorld: a claim may take any disk the eligibility test admits, not only the lowest, which makes the runs more, not fewer; sizes, paths and hosts of disks, and volumes created for open slots, are not modelled.
- MachineDeletion.Deletion.RemovePersistentDisks: paths and sizes copied from a drive to its disk are not modelled.
- CloudInitImages.WriteImage: disks of at most 4096 blocks, as WrittenContainerReads.
- MachineDeletion.Deletion.ReconcileDelete: IP address claims and conditions are not modelled; that deleting the claims fails counts as failing to write the machine.
- WinrmLoop: what the surroundings do to each command is given beforehand, and reads beyond those given time out.
- WinrmWorkers: a command whose input is empty, which the loop would take for none, is not modelled; neither is the race of several workers on the status of one provider.
- FatFields.SlotBytes: for names of less than 64 slots; a storable name has at most 20.
- VhdxFields.HeaderBytes: for sequence numbers below 256; the writer uses 1 and 2.
- How clock values become the bytes of time stamps and dates: the seconds in a FAT time stamp do not follow the two-second unit of the format.
- The VHD writer, which no allowed device type reaches.
- SMB, WinRM transport, the Kubernetes client, logging, metrics, events, host name templates, JSON and YAML encoding, generated code, cluster and provider reconcilers, IP claims: code of others or easy members.
- The PowerShell scripts, beyond what RemoveVM, RemoveDiskFromVM, CreateVM, ExpandVMDisks and GetVMIDsByName do to the modelled state.
- Namespaces: the disk list is not scoped to one, and one is modelled.

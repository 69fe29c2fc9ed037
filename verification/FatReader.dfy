// A reader of FAT12 and FAT16 volumes after the FAT specification, revision
// 1.03. It takes the layout from the boot sector, walks the root directory
// and follows every file's cluster chain. Nothing in it refers to the writer.
module FatReader {
  import opened Bytes
  import opened Wrappers
  import opened CloudInit
  import opened FatTable
  import opened FatDirectoryReader

  datatype Layout = Layout(
    sectorSize: nat, clusterSectors: nat, reserved: nat, tables: nat,
    rootEntries: nat, totalSectors: nat, tableSectors: nat, width: nat)
  {
    function TableStart(): nat { reserved * sectorSize }
    function TableSize(): nat { tableSectors * sectorSize }
    function RootStart(): nat { (reserved + tables * tableSectors) * sectorSize }
    function RootSize(): nat { rootEntries * 32 }
    function DataStart(): nat
      requires sectorSize > 0
    {
      RootStart() + (RootSize() + sectorSize - 1) / sectorSize * sectorSize
    }
  }

  /** The layout recorded in the boot sector, with the width its type string names. */
  function ReadLayout(img: seq<byte>): Option<Layout> {
    if |img| < 512 then None
    else
      var width := if img[54..62] == Ascii("FAT12   ") then 12 else if img[54..62] == Ascii("FAT16   ") then 16 else 0;
      if Le(img, 11, 2) == 0 || img[13] == 0 || img[16] == 0 || width == 0 then None
      else Some(Layout(Le(img, 11, 2), img[13], Le(img, 14, 2), img[16], Le(img, 17, 2), Le(img, 19, 2), Le(img, 22, 2), width))
  }

  predicate IsEnd(w: nat, v: nat) {
    v >= if w == 12 then 0xFF8 else 0xFFF8
  }

  /** Entries a chain must not contain: free, reserved and bad clusters. */
  predicate IsReserved(w: nat, v: nat) {
    v < 2 || (if w == 12 then 0xFF0 <= v < 0xFF8 else 0xFFF0 <= v < 0xFFF8)
  }

  /** The clusters of the chain that starts at `c`, at most `fuel` of them. */
  function FollowChain(fat: seq<byte>, w: nat, c: nat, fuel: nat): Option<seq<nat>>
    decreases fuel
  {
    if fuel == 0 || IsReserved(w, c) then None
    else
      match FatEntry(fat, w, c)
      case None => None
      case Some(v) =>
        if IsEnd(w, v) then Some([c])
        else
          match FollowChain(fat, w, v, fuel - 1)
          case None => None
          case Some(cs) => Some([c] + cs)
  }

  /** The bytes of the clusters `cs` in order. */
  function ReadClusters(img: seq<byte>, data: nat, size: nat, cs: seq<nat>): Option<seq<byte>> {
    if cs == [] then Some([])
    else if cs[0] < 2 || data + (cs[0] - 1) * size > |img| then None
    else
      match ReadClusters(img, data, size, cs[1..])
      case None => None
      case Some(more) =>
        ClusterInBounds(data, size, cs[0]);
        Some(img[data + (cs[0] - 2) * size..data + (cs[0] - 1) * size] + more)
  }

  lemma ClusterInBounds(data: nat, size: nat, c: nat)
    requires c >= 2
    ensures 0 <= data + (c - 2) * size <= data + (c - 1) * size
  {
    assert (c - 1) * size == (c - 2) * size + size;
  }

  function ReadFile(img: seq<byte>, l: Layout, fat: seq<byte>, e: DirEntry): Option<CloudInitFile>
    requires l.sectorSize > 0
  {
    match FollowChain(fat, l.width, e.cluster, l.totalSectors)
    case None => None
    case Some(cs) =>
      match ReadClusters(img, l.DataStart(), l.clusterSectors * l.sectorSize, cs)
      case None => None
      case Some(s) => if |s| < e.size then None else Some(CloudInitFile(e.name, s[..e.size]))
  }

  function ReadFiles(img: seq<byte>, l: Layout, fat: seq<byte>, es: seq<DirEntry>): Option<seq<CloudInitFile>>
    requires l.sectorSize > 0
  {
    if es == [] then Some([])
    else
      match ReadFile(img, l, fat, es[0])
      case None => None
      case Some(f) =>
        match ReadFiles(img, l, fat, es[1..])
        case None => None
        case Some(fs) => Some([f] + fs)
  }

  /** The files of a volume whose table and root directory are at the given places. */
  function ReadRegions(img: seq<byte>, l: Layout, table: nat, tableSize: nat, root: nat, rootSize: nat): Option<seq<CloudInitFile>>
    requires l.sectorSize > 0
  {
    if table + tableSize > |img| || root + rootSize > |img| then None
    else
      match ParseDir(img[root..root + rootSize], NoName)
      case None => None
      case Some(es) => ReadFiles(img, l, img[table..table + tableSize], es)
  }

  /** The files of a volume, in directory order. */
  function ReadVolume(img: seq<byte>): Option<seq<CloudInitFile>> {
    match ReadLayout(img)
    case None => None
    case Some(l) => ReadRegions(img, l, l.TableStart(), l.TableSize(), l.RootStart(), l.RootSize())
  }
}

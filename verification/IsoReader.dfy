// A reader of ISO 9660 volumes after ECMA-119 (sections 7.2.3, 7.3.3, 8.4 and
// 9.1): the primary descriptor in sector 16 names the root directory, whose
// records name the extents. Numbers recorded in both byte orders must agree.
// The descriptor's version byte is not looked at.
module IsoReader {
  import opened Bytes
  import opened Wrappers
  import opened CloudInit

  /** A number recorded in both byte orders. */
  function ReadBoth(s: seq<byte>, off: nat, n: nat): Option<nat>
    requires off + 2 * n <= |s|
  {
    if Le(s, off, n) == Be(s, off + n, n) then Some(Le(s, off, n)) else None
  }

  datatype FileRecord = FileRecord(length: nat, location: nat, size: nat, flags: byte, ident: seq<byte>)

  /** The directory record at `at`. */
  function ReadRecord(dir: seq<byte>, at: nat): Option<FileRecord> {
    if at + 34 > |dir| then None
    else
      var length, identLen := dir[at], dir[at + 32];
      if at + length > |dir| || 33 + identLen as int > length as int then None
      else
        match ReadBoth(dir, at + 2, 4)
        case None => None
        case Some(location) =>
          match ReadBoth(dir, at + 10, 4)
          case None => None
          case Some(size) =>
            Some(FileRecord(length, location, size, dir[at + 25], dir[at + 33..at + 33 + identLen]))
  }

  function ReadExtent(img: seq<byte>, r: FileRecord): Option<CloudInitFile> {
    if r.location * 2048 + r.size > |img| then None
    else Some(CloudInitFile(r.ident, img[r.location * 2048..r.location * 2048 + r.size]))
  }

  /** The files of a directory from `at` on; records of directories are passed over. */
  function ReadDirectory(img: seq<byte>, dir: seq<byte>, at: nat): Option<seq<CloudInitFile>>
    decreases |dir| - at
  {
    if at >= |dir| then Some([])
    else if dir[at] == 0 then ReadDirectory(img, dir, (at / 2048 + 1) * 2048)
    else
      match ReadRecord(dir, at)
      case None => None
      case Some(r) =>
        match ReadDirectory(img, dir, at + r.length)
        case None => None
        case Some(more) =>
          if r.flags / 2 % 2 == 1 then Some(more)
          else
            match ReadExtent(img, r)
            case None => None
            case Some(f) => Some([f] + more)
  }

  /** The files of a volume. */
  function ReadIso(img: seq<byte>): Option<seq<CloudInitFile>> {
    if |img| < 34816 || img[32768] != 1 || img[32769..32774] != Ascii("CD001") then None
    else
      match ReadBoth(img, 32768 + 128, 2)
      case None => None
      case Some(block) =>
        match ReadRecord(img, 32768 + 156)
        case None => None
        case Some(root) =>
          if block != 2048 || root.flags / 2 % 2 != 1 || root.location * 2048 + root.size > |img| then None
          else ReadDirectory(img, img[root.location * 2048..root.location * 2048 + root.size], 0)
  }
}

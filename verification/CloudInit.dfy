// The files a cloud-init image carries.
module CloudInit {
  import opened Bytes

  datatype CloudInitFile = CloudInitFile(filename: seq<byte>, contents: seq<byte>)

  datatype WriteError = NeedsFat32 | ShortWrite | SliceOutOfRange
}

/** One segment file. */
module LogSegments {
  import opened Bytes
  import opened Options
  import opened Records

  /** The bytes of the file and how many of them are known to be on stable storage. */
  datatype SegmentFile = SegmentFile(data: seq<Byte>, durable: nat)

  /** A file as a process finds it when it opens it. */
  function Found(bytes: seq<Byte>): SegmentFile {
    SegmentFile(bytes, |bytes|)
  }

  function Appended(f: SegmentFile, m: Message): SegmentFile {
    f.(data := f.data + EncodeRecord(m))
  }

  function Synced(f: SegmentFile): SegmentFile {
    f.(durable := |f.data|)
  }

  function Truncated(f: SegmentFile, size: nat): SegmentFile
    requires size <= |f.data|
  {
    SegmentFile(f.data[..size], if f.durable < size then f.durable else size)
  }

  /** LogSegment::append: the length and then the message go to the end of the file. */
  method Append(f: SegmentFile, message: Message) returns (next: SegmentFile, position: nat)
    ensures next == Appended(f, message) && next.data == f.data + (LittleEndian(|message|, 8) + message)
    ensures position == |f.data|
  {
    position := |f.data|;
    Associate(f.data, LittleEndian(|message|, 8), message);
    next := f.(data := f.data + LittleEndian(|message|, 8));
    next := next.(data := next.data + message);
  }

  /** LogSegment::read: nothing when the length or the message is not there in full. */
  method Read(f: SegmentFile, position: nat) returns (r: Option<Message>)
    ensures r == ReadRecord(f.data, position)
  {
    r := None;
    if position <= |f.data| && |f.data| - position >= 8 {
      var length := FromLittleEndian(f.data[position..position + 8]);
      WordSizes();
      if length <= |f.data| - position - 8 {
        r := Some(f.data[position + 8..position + 8 + length]);
      }
    }
  }
}

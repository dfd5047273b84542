/** The write-ahead log of one partition: entries of offset, length and message, and the decoder
    that recovery runs over whatever bytes survived. */
module Wal {
  import opened Bytes
  import opened Options
  import opened Records

  /** The longest message recovery accepts from the write-ahead log. */
  const MAX_WAL_MESSAGE: nat := 16 * 1024 * 1024

  datatype WalEntry = WalEntry(offset: nat, message: Message)

  function EncodeEntry(e: WalEntry): (r: seq<Byte>)
    ensures |r| == 16 + |e.message|
  {
    LittleEndian(e.offset, 8) + LittleEndian(|e.message|, 8) + e.message
  }

  function EncodeEntries(es: seq<WalEntry>): seq<Byte> {
    if |es| == 0 then [] else EncodeEntry(es[0]) + EncodeEntries(es[1..])
  }

  /** One turn of the recovery loop: None where the loop breaks. */
  function ReadEntry(data: seq<Byte>): Option<WalEntry> {
    if |data| < 16 then None
    else
      var offset, length := FromLittleEndian(data[..8]), FromLittleEndian(data[8..16]);
      if length > MAX_WAL_MESSAGE || |data| - 16 < length then None
      else Some(WalEntry(offset, data[16..16 + length]))
  }

  function DecodeWal(data: seq<Byte>): seq<WalEntry> {
    match ReadEntry(data)
    case None => []
    case Some(e) => [e] + DecodeWal(data[16 + |e.message|..])
  }

  /** The entries before the first one that is too long to be read back. */
  function Usable(es: seq<WalEntry>): (r: seq<WalEntry>)
    ensures r <= es
  {
    if |es| == 0 || |es[0].message| > MAX_WAL_MESSAGE then [] else [es[0]] + Usable(es[1..])
  }

  ghost predicate AllFit(es: seq<WalEntry>) {
    forall i :: 0 <= i < |es| ==> |es[i].message| <= MAX_WAL_MESSAGE
  }

  ghost predicate OffsetsFit(es: seq<WalEntry>) {
    forall i :: 0 <= i < |es| ==> es[i].offset < TWO_64
  }

  lemma {:induction false} UsableAll(es: seq<WalEntry>)
    ensures Usable(es) == es <==> AllFit(es)
  {
    if |es| > 0 {
      UsableAll(es[1..]);
      assert es == [es[0]] + es[1..];
      if AllFit(es[1..]) && |es[0].message| <= MAX_WAL_MESSAGE {
        forall i | 0 <= i < |es| ensures |es[i].message| <= MAX_WAL_MESSAGE {
          if i > 0 { assert es[i] == es[1..][i - 1]; }
        }
      }
      if AllFit(es) {
        assert AllFit(es[1..]);
      }
    }
  }

  lemma {:induction false} EncodeEntriesSnoc(es: seq<WalEntry>, e: WalEntry)
    ensures EncodeEntries(es + [e]) == EncodeEntries(es) + EncodeEntry(e)
  {
    if |es| == 0 {
      assert es + [e] == [e];
      assert EncodeEntries([e]) == EncodeEntry(e) + EncodeEntries([]);
    } else {
      EncodeEntriesSnoc(es[1..], e);
      assert (es + [e])[1..] == es[1..] + [e];
      assert (es + [e])[0] == es[0];
      assert EncodeEntry(es[0]) + (EncodeEntries(es[1..]) + EncodeEntry(e)) ==
             (EncodeEntry(es[0]) + EncodeEntries(es[1..])) + EncodeEntry(e);
    }
  }

  lemma ReadEntryHere(e: WalEntry, after: seq<Byte>)
    requires e.offset < TWO_64
    ensures ReadEntry(EncodeEntry(e) + after) == if |e.message| <= MAX_WAL_MESSAGE then Some(e) else None
  {
    var data := EncodeEntry(e) + after;
    WordSizes();
    LittleEndianRoundTrip(e.offset, 8);
    LittleEndianRoundTrip(|e.message|, 8);
    assert data[..8] == LittleEndian(e.offset, 8);
    assert data[8..16] == LittleEndian(|e.message|, 8);
    if |e.message| <= MAX_WAL_MESSAGE {
      assert data[16..16 + |e.message|] == e.message;
    }
  }

  /** Losing a tail of the bytes loses a tail of the entries and changes no other entry. */
  lemma {:induction false} DecodeMonotone(part: seq<Byte>, whole: seq<Byte>)
    requires part <= whole
    ensures DecodeWal(part) <= DecodeWal(whole)
    decreases |part|
  {
    if ReadEntry(part).Some? {
      var e := ReadEntry(part).value;
      assert part[..8] == whole[..8] && part[8..16] == whole[8..16];
      assert part[16..16 + |e.message|] == whole[16..16 + |e.message|];
      DecodeMonotone(part[16 + |e.message|..], whole[16 + |e.message|..]);
    }
  }

  /** How many entries lie wholly inside the first b bytes of the write-ahead log. */
  function CompleteEntries(es: seq<WalEntry>, b: nat): (c: nat)
    ensures c <= |es|
  {
    if |es| == 0 || b < |EncodeEntry(es[0])| then 0
    else 1 + CompleteEntries(es[1..], b - |EncodeEntry(es[0])|)
  }

  lemma TornEntryUnreadable(e: WalEntry, part: seq<Byte>)
    requires part < EncodeEntry(e)
    ensures ReadEntry(part).None?
  {
    if |part| >= 16 {
      WordSizes();
      LittleEndianRoundTrip(|e.message|, 8);
      assert part[8..16] == EncodeEntry(e)[8..16] == LittleEndian(|e.message|, 8);
    }
  }

  lemma DecodeFirst(e: WalEntry, rest: seq<Byte>)
    requires e.offset < TWO_64
    ensures DecodeWal(EncodeEntry(e) + rest) ==
            if |e.message| <= MAX_WAL_MESSAGE then [e] + DecodeWal(rest) else []
  {
    ReadEntryHere(e, rest);
    assert (EncodeEntry(e) + rest)[16 + |e.message|..] == rest;
  }

  lemma OffsetsFitTail(es: seq<WalEntry>)
    requires |es| > 0 && OffsetsFit(es)
    ensures OffsetsFit(es[1..])
  {
    forall i | 0 <= i < |es[1..]| ensures es[1..][i].offset < TWO_64 { assert es[1..][i] == es[i + 1]; }
  }

  /** Decoding any byte prefix of a log written by appends yields the complete entries up to the
      first oversized one. */
  lemma {:induction false} DecodePrefix(es: seq<WalEntry>, b: nat)
    requires OffsetsFit(es)
    requires b <= |EncodeEntries(es)|
    ensures DecodeWal(EncodeEntries(es)[..b]) == Usable(es[..CompleteEntries(es, b)])
  {
    if |es| > 0 {
      var first, rest := EncodeEntry(es[0]), EncodeEntries(es[1..]);
      if b < |first| {
        assert (first + rest)[..b] == first[..b];
        TornEntryUnreadable(es[0], first[..b]);
      } else {
        var d := b - |first|;
        assert (first + rest)[..b] == first + rest[..d];
        DecodeFirst(es[0], rest[..d]);
        OffsetsFitTail(es);
        DecodePrefix(es[1..], d);
        var c := CompleteEntries(es[1..], d);
        assert es[..c + 1][1..] == es[1..][..c];
      }
    }
  }

  lemma {:induction false} AllComplete(es: seq<WalEntry>)
    ensures CompleteEntries(es, |EncodeEntries(es)|) == |es|
  {
    if |es| > 0 {
      AllComplete(es[1..]);
    }
  }

  /** Decoding a log written by appends yields the entries up to the first oversized message. */
  lemma DecodeInvertsWriting(es: seq<WalEntry>)
    requires OffsetsFit(es)
    ensures DecodeWal(EncodeEntries(es)) == Usable(es)
  {
    var b := |EncodeEntries(es)|;
    DecodePrefix(es, b);
    AllComplete(es);
    assert EncodeEntries(es)[..b] == EncodeEntries(es);
    assert es[..|es|] == es;
  }
}

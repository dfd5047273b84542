/** The byte format of a segment file: each record is an eight-byte length in host order
    followed by the message. */
module Records {
  import opened Bytes
  import opened Options

  /** A std::string: its length always fits a 64-bit word. */
  type Message = m: seq<Byte> | |m| < TWO_64

  function EncodeRecord(m: Message): (r: seq<Byte>)
    ensures |r| == 8 + |m|
  {
    LittleEndian(|m|, 8) + m
  }

  function EncodeRecords(rs: seq<Message>): seq<Byte> {
    if |rs| == 0 then [] else EncodeRecords(rs[..|rs| - 1]) + EncodeRecord(rs[|rs| - 1])
  }

  /** Byte position of record i of a segment holding rs. */
  function Position(rs: seq<Message>, i: nat): nat
    requires i <= |rs|
  {
    |EncodeRecords(rs[..i])|
  }

  /** Byte position just past record i. */
  function End(rs: seq<Message>, i: nat): nat
    requires i < |rs|
  {
    Position(rs, i + 1)
  }

  /** LogSegment::read: None where the source throws. */
  function ReadRecord(data: seq<Byte>, pos: nat): (r: Option<Message>)
  {
    if pos > |data| || |data| - pos < 8 then None
    else
      WordSizes();
      var length := FromLittleEndian(data[pos..pos + 8]);
      if length > |data| - pos - 8 then None
      else Some(data[pos + 8..pos + 8 + length])
  }

  /** The records a scan from pos finds before the first failing read. */
  function Scan(data: seq<Byte>, pos: nat): seq<Message>
    decreases |data| - pos
  {
    if pos >= |data| then []
    else match ReadRecord(data, pos)
      case None => []
      case Some(m) => [m] + Scan(data, pos + 8 + |m|)
  }

  lemma {:induction false} EncodeAppend(a: seq<Message>, b: seq<Message>)
    ensures EncodeRecords(a + b) == EncodeRecords(a) + EncodeRecords(b)
  {
    if |b| == 0 {
      assert a + b == a;
    } else {
      var front, last := b[..|b| - 1], b[|b| - 1];
      EncodeAppend(a, front);
      EncodeSnoc(a + front, last);
      assert a + b == (a + front) + [last];
      Associate(EncodeRecords(a), EncodeRecords(front), EncodeRecord(last));
    }
  }

  lemma EncodeSnoc(rs: seq<Message>, m: Message)
    ensures EncodeRecords(rs + [m]) == EncodeRecords(rs) + EncodeRecord(m)
  {
    assert (rs + [m])[..|rs|] == rs;
  }

  lemma EncodeCons(m: Message, rs: seq<Message>)
    ensures EncodeRecords([m] + rs) == EncodeRecord(m) + EncodeRecords(rs)
  {
    EncodeAppend([m], rs);
    EncodeSnoc([], m);
    assert [] + [m] == [m];
  }

  /** The encoding splits at every record. */
  lemma EncodeSplit(rs: seq<Message>, i: nat)
    requires i < |rs|
    ensures EncodeRecords(rs) == EncodeRecords(rs[..i]) + EncodeRecord(rs[i]) + EncodeRecords(rs[i + 1..])
    ensures Position(rs, i + 1) == Position(rs, i) + 8 + |rs[i]|
    ensures Position(rs, i + 1) <= |EncodeRecords(rs)|
  {
    var front, back := rs[..i], rs[i + 1..];
    EncodeSnoc(front, rs[i]);
    EncodeAppend(front + [rs[i]], back);
    assert rs == front + [rs[i]] + back;
    assert rs[..i + 1] == front + [rs[i]];
  }

  /** Positions grow with the record number, by at least the eight length bytes each. */
  lemma {:induction false} PositionMonotone(rs: seq<Message>, i: nat, j: nat)
    requires i <= j <= |rs|
    ensures Position(rs, i) + 8 * (j - i) <= Position(rs, j)
    decreases j
  {
    if i < j {
      PositionMonotone(rs, i, j - 1);
      EncodeSplit(rs, j - 1);
    }
  }

  lemma ReadHere(before: seq<Byte>, m: Message, after: seq<Byte>)
    ensures ReadRecord(before + EncodeRecord(m) + after, |before|) == Some(m)
  {
    var data, pos := before + EncodeRecord(m) + after, |before|;
    WordSizes();
    LittleEndianRoundTrip(|m|, 8);
    assert data[pos..pos + 8 + |m|] == EncodeRecord(m);
    assert data[pos..pos + 8] == data[pos..pos + 8 + |m|][..8] == LittleEndian(|m|, 8);
    assert data[pos + 8..pos + 8 + |m|] == data[pos..pos + 8 + |m|][8..] == m;
  }

  lemma Reassociate(a: seq<Byte>, b: seq<Byte>, c: seq<Byte>, d: seq<Byte>)
    ensures (a + b + c) + d == a + b + (c + d)
  {
  }

  /** Reading at the position of record i returns record i, whatever follows the records. */
  lemma ReadAt(rs: seq<Message>, i: nat, tail: seq<Byte>)
    requires i < |rs|
    ensures ReadRecord(EncodeRecords(rs) + tail, Position(rs, i)) == Some(rs[i])
    ensures Position(rs, i + 1) == Position(rs, i) + 8 + |rs[i]| <= |EncodeRecords(rs)|
  {
    EncodeSplit(rs, i);
    var before, here, after := EncodeRecords(rs[..i]), EncodeRecord(rs[i]), EncodeRecords(rs[i + 1..]);
    ReadHere(before, rs[i], after + tail);
    Reassociate(before, here, after, tail);
  }

  /** A torn record: a strict prefix of an encoding, the most a crash can leave behind. */
  ghost predicate Torn(tail: seq<Byte>, m: Message) {
    tail < EncodeRecord(m)
  }

  lemma TornUnreadable(before: seq<Byte>, tail: seq<Byte>, m: Message)
    requires Torn(tail, m)
    ensures ReadRecord(before + tail, |before|).None?
  {
    if |tail| >= 8 {
      WordSizes();
      LittleEndianRoundTrip(|m|, 8);
      assert (before + tail)[|before|..|before| + 8] == EncodeRecord(m)[..8] == LittleEndian(|m|, 8);
    }
  }

  /** What a successful read says about the bytes. */
  lemma ReadSplits(data: seq<Byte>, pos: nat)
    requires ReadRecord(data, pos).Some?
    ensures var m := ReadRecord(data, pos).value;
            pos + 8 + |m| <= |data| && data[pos..pos + 8 + |m|] == EncodeRecord(m)
  {
    var m := ReadRecord(data, pos).value;
    FromLittleEndianRoundTrip(data[pos..pos + 8]);
    assert data[pos..pos + 8 + |m|] == data[pos..pos + 8] + m;
  }

  /** A read returns a record exactly when its encoding stands at the position. */
  lemma ReadExact(data: seq<Byte>, pos: nat, m: Message)
    ensures ReadRecord(data, pos) == Some(m) <==>
            pos + 8 + |m| <= |data| && data[pos..pos + 8 + |m|] == EncodeRecord(m)
  {
    if ReadRecord(data, pos) == Some(m) {
      ReadSplits(data, pos);
    }
    if pos + 8 + |m| <= |data| && data[pos..pos + 8 + |m|] == EncodeRecord(m) {
      ReadHere(data[..pos], m, data[pos + 8 + |m|..]);
      assert data == data[..pos] + EncodeRecord(m) + data[pos + 8 + |m|..];
    }
  }

  /** Scanning arbitrary bytes accounts for them exactly: the records found, re-encoded, are a
      prefix of the bytes, and past that prefix no further record can be read. */
  lemma {:induction false} ScanAccounts(data: seq<Byte>, pos: nat)
    requires pos <= |data|
    ensures var found := EncodeRecords(Scan(data, pos));
            && found <= data[pos..]
            && (pos + |found| < |data| ==> ReadRecord(data, pos + |found|).None?)
    decreases |data| - pos
  {
    if pos < |data| && ReadRecord(data, pos).Some? {
      var m := ReadRecord(data, pos).value;
      var next := pos + 8 + |m|;
      ReadSplits(data, pos);
      ScanStep(data, pos, m, next);
      ScanAccounts(data, next);
      EncodeCons(m, Scan(data, next));
      PrefixJoins(data, pos, next, EncodeRecord(m), EncodeRecords(Scan(data, next)));
    }
  }

  lemma PrefixJoins(data: seq<Byte>, pos: nat, next: nat, head: seq<Byte>, rest: seq<Byte>)
    requires pos <= next <= |data| && data[pos..next] == head && rest <= data[next..]
    ensures head + rest <= data[pos..] && pos + |head + rest| == next + |rest|
  {
    assert data[pos..] == data[pos..next] + data[next..];
  }

  lemma ScanStep(data: seq<Byte>, pos: nat, m: Message, next: nat)
    requires ReadRecord(data, pos) == Some(m) && next == pos + 8 + |m|
    ensures Scan(data, pos) == [m] + Scan(data, next)
  {
  }

  /** Segment scan inverts segment writing: from the encoding of rs followed by nothing or by a
      torn record, the scan started at record i returns exactly the remaining records. */
  lemma {:induction false} ScanInvertsWriting(rs: seq<Message>, i: nat, tail: seq<Byte>, m: Message)
    requires i <= |rs|
    requires Torn(tail, m)
    ensures Scan(EncodeRecords(rs) + tail, Position(rs, i)) == rs[i..]
    decreases |rs| - i
  {
    if i < |rs| {
      ScanFromRecord(rs, i, tail);
      ScanInvertsWriting(rs, i + 1, tail, m);
      assert rs[i..] == [rs[i]] + rs[i + 1..];
    } else {
      assert rs[..i] == rs;
      TornUnreadable(EncodeRecords(rs), tail, m);
      ScanEnds(EncodeRecords(rs) + tail, Position(rs, i));
    }
  }

  lemma ScanFromRecord(rs: seq<Message>, i: nat, tail: seq<Byte>)
    requires i < |rs|
    ensures var data := EncodeRecords(rs) + tail;
            Scan(data, Position(rs, i)) == [rs[i]] + Scan(data, Position(rs, i + 1))
  {
    ReadAt(rs, i, tail);
    ScanStep(EncodeRecords(rs) + tail, Position(rs, i), rs[i], Position(rs, i + 1));
  }

  lemma ScanEnds(data: seq<Byte>, pos: nat)
    requires ReadRecord(data, pos) == None
    ensures Scan(data, pos) == []
  {
  }
}

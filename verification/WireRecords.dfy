/** The two limits of 16 MiB against each other: what the request parser lets in, and what recovery reads back
    from the write-ahead log. */
module WireRecords {
  import opened Bytes
  import opened Records
  import opened SparseIndex
  import opened Recovery
  import Wal
  import WireFields
  import Protocol
  import RequestCodec

  /** The record is a message of a payload that the request parser accepts. */
  ghost predicate Carries(payload: WireFields.Text, m: Message) {
    exists r :: RequestCodec.IsParse(payload, r) && r.kind != Protocol.ERROR && (m == r.message || m in r.messages)
  }

  lemma AcceptedFits(payload: WireFields.Text, r: Protocol.Request)
    requires RequestCodec.IsParse(payload, r) && r.kind != Protocol.ERROR
    ensures |r.message| <= 16777216 == Wal.MAX_WAL_MESSAGE
    ensures forall m :: m in r.messages ==> |m| <= 16777216
  {
    var fs := Protocol.FieldsOf(r);
    match r.kind {
      case PRODUCE => assert WireFields.FieldFits(fs[2]);
      case REPLICATE => assert WireFields.FieldFits(fs[3]);
      case BATCH_PRODUCE => assert WireFields.FieldFits(fs[2]);
      case BATCH_REPLICATE => assert WireFields.FieldFits(fs[3]);
      case _ => {}
    }
  }

  /** Every record that arrives in a request is one that recovery reads back. */
  lemma CarriedFits(payload: WireFields.Text, m: Message)
    requires Carries(payload, m)
    ensures |m| <= Wal.MAX_WAL_MESSAGE
  {
    var r :| RequestCodec.IsParse(payload, r) && r.kind != Protocol.ERROR && (m == r.message || m in r.messages);
    AcceptedFits(payload, r);
  }

  /** So for a log fed by requests the limit of recovery never bites: whatever a crash leaves, all messages whose
      entries survived in full come back. */
  lemma RequestsRecovered(st: Store, written: seq<Wal.WalEntry>, payloads: seq<WireFields.Text>, cut: Cut, files: Files,
                          wal: seq<Byte>, c: nat)
    requires Inv(st) && WrittenBy(st, written) && SegmentImage(st, cut, files) && WalImage(st, wal)
    requires |payloads| == |written| && forall i :: 0 <= i < |written| ==> Carries(payloads[i], written[i].message)
    requires c == Wal.CompleteEntries(written, |wal|)
    ensures Max(Survivors(files), st.start + c) <= |st.history|
    ensures Flatten(Reopen(files, wal)) == st.history[..Max(Survivors(files), st.start + c)]
  {
    forall i | 0 <= i < c ensures |written[..c][i].message| <= Wal.MAX_WAL_MESSAGE {
      CarriedFits(payloads[i], written[i].message);
    }
    RecoversAllWrittenIffFit(st, written, cut, files, wal, c);
  }

  /** A direct caller can hit it: a message over the limit, appended to an empty log and synced only in the
      write-ahead log, is gone after a crash. */
  lemma OversizedIsLost(m: Message, st: Store)
    requires |m| > Wal.MAX_WAL_MESSAGE
    requires st == Store([[m]], [0], Wal.EncodeEntries([Wal.WalEntry(0, m)]),
             |Wal.EncodeEntries([Wal.WalEntry(0, m)])|, 0, [m])
    ensures Inv(st) && WrittenBy(st, [Wal.WalEntry(0, m)])
    ensures SegmentImage(st, Cut(0, 0), []) && WalImage(st, st.wal)
    ensures Flatten(Reopen([], st.wal)) == [] != st.history
  {
    Wal.DecodeInvertsWriting([Wal.WalEntry(0, m)]);
    assert Wal.DecodeWal(st.wal) == [];
    FlattenOne([m]);
    FlattenOne([]);
    NothingLeft(m, st);
  }

  lemma FlattenOne(rs: seq<Message>)
    ensures Flatten([rs]) == rs
  {
    FlattenSnoc([], rs);
    assert [] + [rs] == [rs];
  }

  /** No byte of the segment was synced, so it may be gone. */
  lemma NothingLeft(m: Message, st: Store)
    requires st.segs == [[m]] && st.durable == [0]
    ensures SegmentImage(st, Cut(0, 0), [])
  {
    assert Encoded([[m]]) == [EncodeRecords([m])];
    assert FirstBytes([EncodeRecords([m])], 0) == [[]];
  }
}

/** The byte layouts, written out: what exactly goes over the wire and into the files, field by field, and within
    which limits the parsers take it. */
module WireLayouts {
  import opened Bytes
  import opened WireFields
  import opened Protocol
  import Frames
  import Records
  import ResponseCodec
  import Wal

  lemma FieldsTwo(a: Field, b: Field)
    ensures EncodeFields([a, b]) == EncodeField(a) + EncodeField(b)
  {
    FieldsOne(a);
    assert [a, b][..1] == [a];
  }

  lemma FieldsOne(a: Field)
    ensures EncodeFields([a]) == EncodeField(a)
  {
    assert [a][..0] == [];
    assert EncodeFields([]) == [];
  }

  lemma FieldsThree(a: Field, b: Field, c: Field)
    ensures EncodeFields([a, b, c]) == EncodeField(a) + EncodeField(b) + EncodeField(c)
  {
    FieldsTwo(a, b);
    assert [a, b, c][..2] == [a, b];
  }

  lemma FieldsFour(a: Field, b: Field, c: Field, d: Field)
    ensures EncodeFields([a, b, c, d]) == EncodeField(a) + EncodeField(b) + EncodeField(c) + EncodeField(d)
  {
    FieldsThree(a, b, c);
    assert [a, b, c, d][..3] == [a, b, c];
  }

  lemma FieldsFive(a: Field, b: Field, c: Field, d: Field, e: Field)
    ensures EncodeFields([a, b, c, d, e])
            == EncodeField(a) + EncodeField(b) + EncodeField(c) + EncodeField(d) + EncodeField(e)
  {
    FieldsFour(a, b, c, d);
    assert [a, b, c, d, e][..4] == [a, b, c, d];
  }

  /** A list of texts is its members, each after its length. */
  lemma TextsLayout(ss: seq<Text>, s: Text)
    ensures EncodeTexts([]) == [] && EncodeTexts(ss + [s]) == EncodeTexts(ss) + (BigEndian(|s|, 4) + s)
  {
    assert (ss + [s])[..|ss|] == ss;
  }

  lemma LongsLayout(ns: seq<nat>, n: nat)
    ensures EncodeLongs([]) == [] && EncodeLongs(ns + [n]) == EncodeLongs(ns) + BigEndian(n, 8)
  {
    assert (ns + [n])[..|ns|] == ns;
  }

  /** Requests that begin with topic and partition. */
  lemma PartitionLayouts(r: Request)
    ensures var topic := BigEndian(|r.topic|, 4) + r.topic;
            var partition := BigEndian(if r.partition < 0 then r.partition + 0x1_0000_0000 else r.partition, 4);
            var message, offset := BigEndian(|r.message|, 4) + r.message, BigEndian(r.fetchOffset, 8);
            var messages := BigEndian(|r.messages|, 4) + EncodeTexts(r.messages);
            && (r.kind == PRODUCE ==> EncodeRequest(r) == [1, 0] + (topic + partition + message + offset))
            && (r.kind == FETCH ==> EncodeRequest(r) == [1, 1] + (topic + partition + offset))
            && (r.kind == REPLICATE ==> EncodeRequest(r) == [1, 2] + (topic + partition + offset + message))
            && (r.kind == COMMIT ==> EncodeRequest(r) == [1, 5] + (topic + partition + offset))
            && (r.kind == BATCH_PRODUCE ==> EncodeRequest(r) == [1, 12] + (topic + partition + messages))
            && (r.kind == BATCH_REPLICATE ==> EncodeRequest(r) == [1, 13] + (topic + partition + offset + messages))
  {
    var topic, partition, offset := Str(r.topic), U32(ToU32(r.partition)), U64(r.fetchOffset);
    match r.kind
    case PRODUCE => FieldsFour(topic, partition, Str(r.message), offset);
    case FETCH | COMMIT => FieldsThree(topic, partition, offset);
    case REPLICATE => FieldsFour(topic, partition, offset, Str(r.message));
    case BATCH_PRODUCE => FieldsThree(topic, partition, Strs(r.messages));
    case BATCH_REPLICATE => FieldsFour(topic, partition, offset, Strs(r.messages));
    case _ =>
  }

  /** Requests between brokers, and those of consumer groups. */
  lemma OtherLayouts(r: Request)
    ensures var topic := BigEndian(|r.topic|, 4) + r.topic;
            var partition := BigEndian(if r.partition < 0 then r.partition + 0x1_0000_0000 else r.partition, 4);
            var broker := BigEndian(if r.brokerId < 0 then r.brokerId + 0x1_0000_0000 else r.brokerId, 4);
            var offset := BigEndian(r.fetchOffset, 8);
            var group, member := BigEndian(|r.groupId|, 4) + r.groupId, BigEndian(|r.memberId|, 4) + r.memberId;
            && (r.kind == ACK ==> EncodeRequest(r) == [1, 3] + (offset + broker + topic + partition))
            && (r.kind == HEARTBEAT ==> EncodeRequest(r) == [1, 4] + broker)
            && (r.kind == METADATA ==> EncodeRequest(r) == [1, 6])
            && (r.kind == JOIN_GROUP ==> EncodeRequest(r) == [1, 7] + (group + member + topic))
            && (r.kind == LEAVE_GROUP ==> EncodeRequest(r) == [1, 8] + (group + member + topic))
            && (r.kind == GROUP_FETCH ==> EncodeRequest(r) == [1, 9] + (group + member + topic + partition + offset))
            && (r.kind == COMMIT_OFFSET ==> EncodeRequest(r) == [1, 10] + (group + member + topic + partition + offset))
            && (r.kind == GROUP_ASSIGNMENT ==> EncodeRequest(r) == [1, 11] + (group + member + topic))
            && (r.kind == ERROR ==> EncodeRequest(r) == [])
  {
    var topic, partition, offset := Str(r.topic), U32(ToU32(r.partition)), U64(r.fetchOffset);
    match r.kind
    case ACK => FieldsFour(offset, U32(ToU32(r.brokerId)), topic, partition);
    case HEARTBEAT => FieldsOne(U32(ToU32(r.brokerId)));
    case JOIN_GROUP | LEAVE_GROUP | GROUP_ASSIGNMENT => FieldsThree(Str(r.groupId), Str(r.memberId), topic);
    case GROUP_FETCH | COMMIT_OFFSET => FieldsFive(Str(r.groupId), Str(r.memberId), topic, partition, offset);
    case _ =>
  }

  /** The limits: 16 MiB for every text a request carries and 10000 messages in a batch. */
  lemma Limits(r: Request)
    ensures var texts := |r.topic| <= 16777216;
            && (r.kind in {PRODUCE, REPLICATE} ==> (InBounds(r) <==> texts && |r.message| <= 16777216))
            && (r.kind in {FETCH, COMMIT, ACK} ==> (InBounds(r) <==> texts))
            && (r.kind in {HEARTBEAT, METADATA} ==> InBounds(r))
            && (r.kind in {BATCH_PRODUCE, BATCH_REPLICATE} ==>
                  (InBounds(r) <==> texts && |r.messages| <= 10000
                                    && forall i :: 0 <= i < |r.messages| ==> |r.messages[i]| <= 16777216))
            && (r.kind in {JOIN_GROUP, LEAVE_GROUP, GROUP_ASSIGNMENT, GROUP_FETCH, COMMIT_OFFSET} ==>
                  (InBounds(r) <==> texts && |r.groupId| <= 16777216 && |r.memberId| <= 16777216))
            && (r.kind == ERROR ==> !InBounds(r))
  {
    LimitsOf(FieldsOf(r));
  }

  /** Short lists fit exactly when each field does. */
  lemma LimitsOf(fs: seq<Field>)
    requires |fs| <= 5
    ensures AllFit(fs) <==> (|fs| > 0 ==> FieldFits(fs[0])) && (|fs| > 1 ==> FieldFits(fs[1]))
                            && (|fs| > 2 ==> FieldFits(fs[2])) && (|fs| > 3 ==> FieldFits(fs[3]))
                            && (|fs| > 4 ==> FieldFits(fs[4]))
  {
  }

  lemma ResponseLayout(r: ResponseCodec.Response)
    ensures ResponseCodec.Serialize(r)
            == [1, if r.success then 1 else 0, if |r.message| == 0 then 0 else 1]
               + (BigEndian(r.appendedOffset, 8) + (BigEndian(|r.message|, 4) + r.message)
                  + (BigEndian(|r.appendedOffsets|, 4) + EncodeLongs(r.appendedOffsets)))
  {
    FieldsThree(U64(r.appendedOffset), Str(r.message), Longs(r.appendedOffsets));
  }

  lemma FrameLayout(payload: Text)
    ensures Frames.Frame(payload) == BigEndian(|payload|, 4) + payload
  {
  }

  /** A segment record: length and message. */
  lemma RecordLayout(m: Records.Message)
    ensures Records.EncodeRecord(m) == LittleEndian(|m|, 8) + m
  {
  }

  /** An entry of the write-ahead log: offset, length and message. */
  lemma EntryLayout(e: Wal.WalEntry)
    ensures Wal.EncodeEntry(e) == LittleEndian(e.offset, 8) + LittleEndian(|e.message|, 8) + e.message
  {
  }
}

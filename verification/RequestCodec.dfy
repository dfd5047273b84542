/** encode_request and parse_request: the parser accepts exactly what the encoder can produce from
    requests within bounds, and returns the request it was produced from. */
module RequestCodec {
  import opened Bytes
  import opened WireFields
  import opened FieldParser
  import opened Protocol

  // ----- the encoder's image

  lemma ShapesMatch(r: Request, q: Request)
    requires r.kind == q.kind
    ensures SameTags(FieldsOf(r), FieldsOf(q))
  {
    FieldsHaveShape(r);
    FieldsHaveShape(q);
  }

  lemma SameHeader(k: Kind, x: Text, l: Kind, y: Text)
    requires k != ERROR && l != ERROR
    requires [VERSION, Code(k)] + x == [VERSION, Code(l)] + y
    ensures k == l && x == y
  {
    var s := [VERSION, Code(k)] + x;
    assert s[1] == Code(k) == Code(l);
    assert x == s[2..] && y == s[2..];
  }

  /** Accepted payloads are prefix-free and name their request: if two encodings of requests within
      bounds begin the same byte string, the requests agree on everything their kind carries and
      neither encoding is longer. */
  lemma EncodingsPrefixFree(r: Request, x: Text, q: Request, y: Text)
    requires InBounds(r) && InBounds(q)
    requires EncodeRequest(r) + x == EncodeRequest(q) + y
    ensures Restrict(r) == Restrict(q) && x == y
  {
    var a, b := EncodeFields(FieldsOf(r)), EncodeFields(FieldsOf(q));
    Associate([VERSION, Code(r.kind)], a, x);
    Associate([VERSION, Code(q.kind)], b, y);
    SameHeader(r.kind, a + x, q.kind, b + y);
    ShapesMatch(r, q);
    UniqueFields(FieldsOf(r), FieldsOf(q), a + x);
    SameFieldsSameRequest(r, q);
    assert x == (a + x)[|a|..] && y == (b + y)[|b|..];
  }

  lemma RestrictKeeps(r: Request)
    ensures Restrict(r).kind == r.kind && FieldsOf(Restrict(r)) == FieldsOf(r)
    ensures EncodeRequest(Restrict(r)) == EncodeRequest(r)
    ensures InBounds(r) <==> InBounds(Restrict(r))
  {
  }

  // ----- the parser

  /** get_u64 into a 64-bit field */
  method NextWord(payload: Text, k: Kind, valid: bool, pos: nat, ghost fs: seq<Field>)
    returns (ok: bool, next: nat, value: Word)
    requires Ready(payload, 2, Shape(k), valid, pos, fs, U64Tag)
    ensures ok ==> valid && Parsed(payload, 2, Shape(k), next, fs + [U64(value)])
    ensures !ok ==> Rejected(payload, 2, Shape(k))
  {
    var n;
    ok, next, n := NextU64(payload, 2, Shape(k), valid, pos, fs);
    value := if ok then n else 0;
  }

  /** get_topic_partition */
  method NextTopicPartition(payload: Text, k: Kind, valid: bool, pos: nat, ghost fs: seq<Field>)
    returns (ok: bool, next: nat, topic: Text, partition: Int32)
    requires Ready(payload, 2, Shape(k), valid, pos, fs, StrTag)
    requires valid ==> |fs| + 1 < |Shape(k)| && Shape(k)[|fs| + 1] == U32Tag
    ensures ok ==> Parsed(payload, 2, Shape(k), next, fs + [Str(topic)] + [U32(ToU32(partition))])
    ensures !ok ==> Rejected(payload, 2, Shape(k))
  {
    var p;
    ok, next, topic := NextString(payload, 2, Shape(k), valid, pos, fs);
    ok, next, p := NextU32(payload, 2, Shape(k), ok, next, fs + [Str(topic)]);
    partition := if ok then FromU32(p) else 0;
  }

  /** The group and the member that open a group request. */
  method NextGroupMember(payload: Text, tags: seq<Tag>) returns (ok: bool, next: nat, group: Text, member: Text)
    requires |payload| >= 2 && |tags| >= 2 && tags[0] == StrTag && tags[1] == StrTag
    ensures ok ==> Parsed(payload, 2, tags, next, [] + [Str(group)] + [Str(member)])
    ensures !ok ==> Rejected(payload, 2, tags)
  {
    StartParsed(payload, tags);
    ok, next, group := NextString(payload, 2, tags, true, 2, []);
    ok, next, member := NextString(payload, 2, tags, ok, next, [] + [Str(group)]);
  }

  method NextOffsetBroker(payload: Text, k: Kind) returns (ok: bool, next: nat, offset: Word, broker: Int32)
    requires |payload| >= 2 && k == ACK
    ensures ok ==> Parsed(payload, 2, Shape(k), next, [] + [U64(offset)] + [U32(ToU32(broker))])
    ensures !ok ==> Rejected(payload, 2, Shape(k))
  {
    var b;
    StartParsed(payload, Shape(k));
    ok, next, offset := NextWord(payload, k, true, 2, []);
    ok, next, b := NextU32(payload, 2, Shape(k), ok, next, [] + [U64(offset)]);
    broker := if ok then FromU32(b) else 0;
  }

  lemma StartParsed(payload: Text, tags: seq<Tag>)
    requires |payload| >= 2
    ensures Parsed(payload, 2, tags, 2, [])
  {
    assert payload[2..2] == [];
  }

  // ----- one parse per layout

  /** The outcome of reading the fields of one kind: a request whose fields were read up to pos, or
      the certainty that no request of that kind encodes to the payload. */
  ghost predicate Outcome(payload: Text, k: Kind, valid: bool, pos: nat, r: Request) {
    && |payload| >= 2
    && (valid ==> r.kind == k && r == Restrict(r) && Parsed(payload, 2, Shape(k), pos, FieldsOf(r)))
    && (!valid ==> Rejected(payload, 2, Shape(k)))
  }

  method ParseProduce(payload: Text, k: Kind) returns (valid: bool, pos: nat, r: Request)
    requires |payload| >= 2 && k == PRODUCE
    ensures Outcome(payload, k, valid, pos, r)
  {
    var topic, partition, message, offset;
    StartParsed(payload, Shape(k));
    valid, pos, topic, partition := NextTopicPartition(payload, k, true, 2, []);
    ghost var fs := [] + [Str(topic)] + [U32(ToU32(partition))];
    valid, pos, message := NextString(payload, 2, Shape(k), valid, pos, fs);
    valid, pos, offset := NextWord(payload, k, valid, pos, fs + [Str(message)]);
    r := BLANK.(kind := k, topic := topic, partition := partition, message := message, fetchOffset := offset);
    assert FieldsOf(r) == fs + [Str(message)] + [U64(offset)];
  }

  method ParseBatchProduce(payload: Text, k: Kind) returns (valid: bool, pos: nat, r: Request)
    requires |payload| >= 2 && k == BATCH_PRODUCE
    ensures Outcome(payload, k, valid, pos, r)
  {
    var topic, partition, messages;
    StartParsed(payload, Shape(k));
    valid, pos, topic, partition := NextTopicPartition(payload, k, true, 2, []);
    ghost var fs := [] + [Str(topic)] + [U32(ToU32(partition))];
    valid, pos, messages := NextStrings(payload, 2, Shape(k), valid, pos, fs);
    r := BLANK.(kind := k, topic := topic, partition := partition, messages := messages);
    assert FieldsOf(r) == fs + [Strs(messages)];
  }

  method ParseBatchReplicate(payload: Text, k: Kind) returns (valid: bool, pos: nat, r: Request)
    requires |payload| >= 2 && k == BATCH_REPLICATE
    ensures Outcome(payload, k, valid, pos, r)
  {
    var topic, partition, offset, messages;
    StartParsed(payload, Shape(k));
    valid, pos, topic, partition := NextTopicPartition(payload, k, true, 2, []);
    ghost var fs := [] + [Str(topic)] + [U32(ToU32(partition))];
    valid, pos, offset := NextWord(payload, k, valid, pos, fs);
    valid, pos, messages := NextStrings(payload, 2, Shape(k), valid, pos, fs + [U64(offset)]);
    r := BLANK.(kind := k, topic := topic, partition := partition, fetchOffset := offset, messages := messages);
    assert FieldsOf(r) == fs + [U64(offset)] + [Strs(messages)];
  }

  method ParseFetch(payload: Text, k: Kind) returns (valid: bool, pos: nat, r: Request)
    requires |payload| >= 2 && k in {FETCH, COMMIT}
    ensures Outcome(payload, k, valid, pos, r)
  {
    var topic, partition, offset;
    StartParsed(payload, Shape(k));
    valid, pos, topic, partition := NextTopicPartition(payload, k, true, 2, []);
    ghost var fs := [] + [Str(topic)] + [U32(ToU32(partition))];
    valid, pos, offset := NextWord(payload, k, valid, pos, fs);
    r := BLANK.(kind := k, topic := topic, partition := partition, fetchOffset := offset);
    assert FieldsOf(r) == fs + [U64(offset)];
  }

  method ParseReplicate(payload: Text, k: Kind) returns (valid: bool, pos: nat, r: Request)
    requires |payload| >= 2 && k == REPLICATE
    ensures Outcome(payload, k, valid, pos, r)
  {
    var topic, partition, offset, message;
    StartParsed(payload, Shape(k));
    valid, pos, topic, partition := NextTopicPartition(payload, k, true, 2, []);
    ghost var fs := [] + [Str(topic)] + [U32(ToU32(partition))];
    valid, pos, offset := NextWord(payload, k, valid, pos, fs);
    valid, pos, message := NextString(payload, 2, Shape(k), valid, pos, fs + [U64(offset)]);
    r := BLANK.(kind := k, topic := topic, partition := partition, fetchOffset := offset, message := message);
    assert FieldsOf(r) == fs + [U64(offset)] + [Str(message)];
  }

  method ParseAck(payload: Text, k: Kind) returns (valid: bool, pos: nat, r: Request)
    requires |payload| >= 2 && k == ACK
    ensures Outcome(payload, k, valid, pos, r)
  {
    var offset, broker, topic, partition;
    valid, pos, offset, broker := NextOffsetBroker(payload, k);
    ghost var fs := [] + [U64(offset)] + [U32(ToU32(broker))];
    valid, pos, topic, partition := NextTopicPartition(payload, k, valid, pos, fs);
    r := BLANK.(kind := k, fetchOffset := offset, brokerId := broker, topic := topic, partition := partition);
    assert FieldsOf(r) == fs + [Str(topic)] + [U32(ToU32(partition))];
  }

  method ParseHeartbeat(payload: Text, k: Kind) returns (valid: bool, pos: nat, r: Request)
    requires |payload| >= 2 && k == HEARTBEAT
    ensures Outcome(payload, k, valid, pos, r)
  {
    var broker;
    StartParsed(payload, Shape(k));
    valid, pos, broker := NextU32(payload, 2, Shape(k), true, 2, []);
    r := BLANK;
    if valid {
      r := BLANK.(kind := k, brokerId := FromU32(broker));
      assert FieldsOf(r) == [] + [U32(broker)];
    }
  }

  method NextThreeStrings(payload: Text) returns (valid: bool, pos: nat, a: Text, b: Text, c: Text)
    requires |payload| >= 2
    ensures valid ==> Parsed(payload, 2, [StrTag, StrTag, StrTag], pos, [] + [Str(a)] + [Str(b)] + [Str(c)])
    ensures !valid ==> Rejected(payload, 2, [StrTag, StrTag, StrTag])
  {
    valid, pos, a, b := NextGroupMember(payload, [StrTag, StrTag, StrTag]);
    valid, pos, c := NextString(payload, 2, [StrTag, StrTag, StrTag], valid, pos, [] + [Str(a)] + [Str(b)]);
  }

  method ParseMembership(payload: Text, k: Kind) returns (valid: bool, pos: nat, r: Request)
    requires |payload| >= 2 && k in {JOIN_GROUP, LEAVE_GROUP, GROUP_ASSIGNMENT}
    ensures Outcome(payload, k, valid, pos, r)
  {
    var group, member, topic;
    valid, pos, group, member, topic := NextThreeStrings(payload);
    r := BLANK.(kind := k, groupId := group, memberId := member, topic := topic);
    assert FieldsOf(r) == [] + [Str(group)] + [Str(member)] + [Str(topic)];
    assert Shape(k) == [StrTag, StrTag, StrTag];
  }

  method NextGroupPartition(payload: Text, k: Kind) returns (valid: bool, pos: nat, a: Text, b: Text, t: Text, p: Int32)
    requires |payload| >= 2 && Shape(k) == [StrTag, StrTag, StrTag, U32Tag, U64Tag]
    ensures valid ==> Parsed(payload, 2, Shape(k), pos, [] + [Str(a)] + [Str(b)] + [Str(t)] + [U32(ToU32(p))])
    ensures !valid ==> Rejected(payload, 2, Shape(k))
  {
    valid, pos, a, b := NextGroupMember(payload, Shape(k));
    valid, pos, t, p := NextTopicPartition(payload, k, valid, pos, [] + [Str(a)] + [Str(b)]);
  }

  method ParseGroupFetch(payload: Text, k: Kind) returns (valid: bool, pos: nat, r: Request)
    requires |payload| >= 2 && k in {GROUP_FETCH, COMMIT_OFFSET}
    ensures Outcome(payload, k, valid, pos, r)
  {
    var group, member, topic, partition, offset;
    assert Shape(k) == [StrTag, StrTag, StrTag, U32Tag, U64Tag];
    valid, pos, group, member, topic, partition := NextGroupPartition(payload, k);
    ghost var gs := [] + [Str(group)] + [Str(member)] + [Str(topic)] + [U32(ToU32(partition))];
    valid, pos, offset := NextWord(payload, k, valid, pos, gs);
    r := BLANK.(kind := k, groupId := group, memberId := member, topic := topic, partition := partition,
                fetchOffset := offset);
    assert FieldsOf(r) == gs + [U64(offset)];
  }

  method ParseFields(payload: Text, k: Kind) returns (valid: bool, pos: nat, r: Request)
    requires |payload| >= 2 && k != ERROR
    ensures Outcome(payload, k, valid, pos, r)
  {
    match k
    case PRODUCE => valid, pos, r := ParseProduce(payload, k);
    case BATCH_PRODUCE => valid, pos, r := ParseBatchProduce(payload, k);
    case BATCH_REPLICATE => valid, pos, r := ParseBatchReplicate(payload, k);
    case FETCH | COMMIT => valid, pos, r := ParseFetch(payload, k);
    case REPLICATE => valid, pos, r := ParseReplicate(payload, k);
    case ACK => valid, pos, r := ParseAck(payload, k);
    case HEARTBEAT => valid, pos, r := ParseHeartbeat(payload, k);
    case METADATA =>
      valid, pos, r := true, 2, BLANK.(kind := k);
      assert payload[2..2] == EncodeFields([]);
    case JOIN_GROUP | LEAVE_GROUP | GROUP_ASSIGNMENT => valid, pos, r := ParseMembership(payload, k);
    case GROUP_FETCH | COMMIT_OFFSET => valid, pos, r := ParseGroupFetch(payload, k);
  }

  lemma AcceptWhole(payload: Text, k: Kind, r: Request)
    requires |payload| >= 2 && payload[0] == VERSION && payload[1] == Code(k)
    requires k != ERROR && Outcome(payload, k, true, |payload|, r)
    ensures InBounds(r) && EncodeRequest(r) == payload
  {
    assert payload == [VERSION, Code(k)] + payload[2..];
  }

  lemma RejectWhole(payload: Text, k: Kind, q: Request)
    requires |payload| >= 2 && payload[1] == Code(k) && k != ERROR && Rejected(payload, 2, Shape(k))
    requires InBounds(q)
    ensures EncodeRequest(q) != payload
  {
    FieldsHaveShape(q);
    EncodedParts(q);
    assert !MakeUp(payload, 2, Shape(k), FieldsOf(q));
  }

  lemma EncodedParts(q: Request)
    requires q.kind != ERROR
    ensures |EncodeRequest(q)| >= 2 && EncodeRequest(q)[1] == Code(q.kind)
    ensures EncodeRequest(q)[2..] == EncodeFields(FieldsOf(q))
  {
  }

  lemma RejectHeader(payload: Text, q: Request)
    requires |payload| < 2 || payload[0] != VERSION || payload[1] > 13
    requires InBounds(q)
    ensures EncodeRequest(q) != payload
  {
    var encoded := EncodeRequest(q);
    assert encoded[0] == VERSION && encoded[1] == Code(q.kind);
  }

  /** The parser inverts the encoder: a payload is accepted exactly when some request within bounds
      encodes to it, the accepted request re-encodes to the payload byte for byte, and it is that
      request restricted to the fields of its kind. */
  ghost predicate IsParse(payload: Text, r: Request) {
    && (r.kind != ERROR ==> InBounds(r) && r == Restrict(r) && EncodeRequest(r) == payload)
    && (r.kind == ERROR ==> forall q :: InBounds(q) ==> EncodeRequest(q) != payload)
  }

  method ParseRequest(payload: Text) returns (r: Request)
    ensures IsParse(payload, r)
  {
    r := BLANK;
    if |payload| < 2 || payload[0] != VERSION || payload[1] > Code(BATCH_REPLICATE) {
      forall q | InBounds(q) ensures EncodeRequest(q) != payload { RejectHeader(payload, q); }
      return;
    }
    var k := KindOf(payload[1]);
    var valid, pos, parsed := ParseFields(payload, k);
    if valid && pos == |payload| {
      r := parsed;
      AcceptWhole(payload, k, r);
    } else {
      if valid {
        FieldsHaveShape(parsed);
        RejectTrailing(payload, 2, Shape(k), pos, FieldsOf(parsed));
      }
      forall q | InBounds(q) ensures EncodeRequest(q) != payload { RejectWhole(payload, k, q); }
    }
  }

  /** Round trip, exactly: parsing the encoding of a request returns it, restricted to the fields of
      its kind, if and only if the request is within bounds; otherwise nothing equal to it comes back. */
  lemma RoundTripIffInBounds(q: Request, r: Request)
    requires q.kind != ERROR && IsParse(EncodeRequest(q), r)
    ensures r == Restrict(q) <==> InBounds(q)
  {
    RestrictKeeps(q);
    if InBounds(q) {
      assert r.kind != ERROR;
      EncodingsPrefixFree(r, [], q, []);
    }
  }

  /** No proper truncation or extension of an accepted payload is accepted. */
  lemma AcceptedPrefixFree(payload: Text, r: Request, more: Text, q: Request)
    requires IsParse(payload, r) && r.kind != ERROR
    requires IsParse(payload + more, q) && q.kind != ERROR
    ensures more == [] && r == q
  {
    assert EncodeRequest(r) + more == EncodeRequest(q) + [];
    EncodingsPrefixFree(r, more, q, []);
  }
}

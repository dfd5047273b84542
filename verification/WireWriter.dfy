/** The put_* encoders and encode_request, which append to an output string. */
module WireWriter {
  import opened Bytes
  import opened WireFields
  import opened Protocol

  /** value >> 8 * n */
  function ShiftBytes(value: nat, n: nat): nat {
    if n == 0 then value else ShiftBytes(value, n - 1) / 256
  }

  /** put_u32 and put_u64: the bytes of the value, most significant first, cut to the width. */
  method PutBytes(out: Text, value: nat, width: nat) returns (r: Text)
    ensures r == out + BigEndian(value, width)
  {
    r := out;
    var i := 0;
    ghost var done: Text := [];
    while i < width
      invariant 0 <= i <= width && r == out + done
      invariant done == BigEndian(ShiftBytes(value, width - i), i)
    {
      var byte := ShiftBytes(value, width - 1 - i) % 256;
      r := r + [byte];
      done := done + [byte];
      i := i + 1;
    }
  }

  /** The output so far is a header and the encoding of the fields fs. */
  ghost predicate Holds(out: Text, k: Kind, fs: seq<Field>) {
    out == Header(k) + EncodeFields(fs)
  }

  lemma HoldsNext(out: Text, k: Kind, fs: seq<Field>, f: Field)
    requires Holds(out, k, fs)
    ensures Holds(out + EncodeField(f), k, fs + [f])
  {
    EncodeFieldsSnoc(fs, f);
    Associate(Header(k), EncodeFields(fs), EncodeField(f));
  }

  method PutU32(out: Text, value: nat, ghost k: Kind, ghost fs: seq<Field>) returns (r: Text)
    requires Holds(out, k, fs)
    ensures Holds(r, k, fs + [U32(value)])
  {
    r := PutBytes(out, value, 4);
    HoldsNext(out, k, fs, U32(value));
  }

  method PutU64(out: Text, value: nat, ghost k: Kind, ghost fs: seq<Field>) returns (r: Text)
    requires Holds(out, k, fs)
    ensures Holds(r, k, fs + [U64(value)])
  {
    r := PutBytes(out, value, 8);
    HoldsNext(out, k, fs, U64(value));
  }

  method PutText(out: Text, value: Text) returns (r: Text)
    ensures r == out + EncodeText(value)
  {
    r := PutBytes(out, |value|, 4);
    Associate(out, BigEndian(|value|, 4), value);
    r := r + value;
  }

  method PutString(out: Text, value: Text, ghost k: Kind, ghost fs: seq<Field>) returns (r: Text)
    requires Holds(out, k, fs)
    ensures Holds(r, k, fs + [Str(value)])
  {
    r := PutText(out, value);
    HoldsNext(out, k, fs, Str(value));
  }

  method PutTopicPartition(out: Text, request: Request, ghost k: Kind, ghost fs: seq<Field>) returns (r: Text)
    requires Holds(out, k, fs)
    ensures Holds(r, k, fs + [Str(request.topic)] + [U32(ToU32(request.partition))])
  {
    r := PutString(out, request.topic, k, fs);
    r := PutU32(r, ToU32(request.partition), k, fs + [Str(request.topic)]);
  }

  lemma TextsNext(values: seq<Text>, i: nat)
    requires i < |values|
    ensures EncodeTexts(values[..i + 1]) == EncodeTexts(values[..i]) + EncodeText(values[i])
  {
    assert values[..i + 1][..i] == values[..i];
  }

  method PutStrings(out: Text, values: seq<Text>, ghost k: Kind, ghost fs: seq<Field>) returns (r: Text)
    requires Holds(out, k, fs)
    ensures Holds(r, k, fs + [Strs(values)])
  {
    ghost var count := BigEndian(|values|, 4);
    r := PutBytes(out, |values|, 4);
    var i := 0;
    while i < |values|
      invariant 0 <= i <= |values|
      invariant r == out + count + EncodeTexts(values[..i])
    {
      Associate(out + count, EncodeTexts(values[..i]), EncodeText(values[i]));
      TextsNext(values, i);
      r := PutText(r, values[i]);
      i := i + 1;
    }
    assert values[..i] == values;
    Associate(out, count, EncodeTexts(values));
    HoldsNext(out, k, fs, Strs(values));
  }

  function Header(k: Kind): Text {
    [VERSION, Code(k)]
  }

  /** Requests that begin with topic and partition. */
  method WritePartitionRequest(start: Text, request: Request) returns (out: Text)
    requires Holds(start, request.kind, [])
    requires request.kind in {PRODUCE, BATCH_PRODUCE, BATCH_REPLICATE, FETCH, COMMIT, REPLICATE}
    ensures Holds(out, request.kind, FieldsOf(request))
  {
    var k := request.kind;
    out := PutTopicPartition(start, request, k, []);
    ghost var fs := [] + [Str(request.topic)] + [U32(ToU32(request.partition))];
    match k {
      case PRODUCE =>
        out := PutString(out, request.message, k, fs);
        out := PutU64(out, request.fetchOffset, k, fs + [Str(request.message)]);
        assert FieldsOf(request) == fs + [Str(request.message)] + [U64(request.fetchOffset)];
      case BATCH_PRODUCE =>
        out := PutStrings(out, request.messages, k, fs);
        assert FieldsOf(request) == fs + [Strs(request.messages)];
      case BATCH_REPLICATE =>
        out := PutU64(out, request.fetchOffset, k, fs);
        out := PutStrings(out, request.messages, k, fs + [U64(request.fetchOffset)]);
        assert FieldsOf(request) == fs + [U64(request.fetchOffset)] + [Strs(request.messages)];
      case FETCH | COMMIT =>
        out := PutU64(out, request.fetchOffset, k, fs);
        assert FieldsOf(request) == fs + [U64(request.fetchOffset)];
      case REPLICATE =>
        out := PutU64(out, request.fetchOffset, k, fs);
        out := PutString(out, request.message, k, fs + [U64(request.fetchOffset)]);
        assert FieldsOf(request) == fs + [U64(request.fetchOffset)] + [Str(request.message)];
    }
  }

  method WriteBrokerRequest(start: Text, request: Request) returns (out: Text)
    requires Holds(start, request.kind, [])
    requires request.kind in {ACK, HEARTBEAT, METADATA}
    ensures Holds(out, request.kind, FieldsOf(request))
  {
    var k := request.kind;
    match k {
      case ACK =>
        out := PutU64(start, request.fetchOffset, k, []);
        out := PutU32(out, ToU32(request.brokerId), k, [] + [U64(request.fetchOffset)]);
        ghost var fs := [] + [U64(request.fetchOffset)] + [U32(ToU32(request.brokerId))];
        out := PutTopicPartition(out, request, k, fs);
        assert FieldsOf(request) == fs + [Str(request.topic)] + [U32(ToU32(request.partition))];
      case HEARTBEAT =>
        out := PutU32(start, ToU32(request.brokerId), k, []);
        assert FieldsOf(request) == [] + [U32(ToU32(request.brokerId))];
      case METADATA =>
        out := start;
    }
  }

  method PutTopicOffset(start: Text, request: Request, k: Kind, ghost fs: seq<Field>) returns (out: Text)
    requires Holds(start, k, fs)
    requires fs == [] + [Str(request.groupId)] + [Str(request.memberId)] && request.kind in {GROUP_FETCH, COMMIT_OFFSET}
    ensures Holds(out, k, FieldsOf(request))
  {
    out := PutTopicPartition(start, request, k, fs);
    out := PutU64(out, request.fetchOffset, k, fs + [Str(request.topic)] + [U32(ToU32(request.partition))]);
    assert FieldsOf(request)
           == fs + [Str(request.topic)] + [U32(ToU32(request.partition))] + [U64(request.fetchOffset)];
  }

  /** Requests that begin with group and member. */
  method WriteGroupRequest(start: Text, request: Request) returns (out: Text)
    requires Holds(start, request.kind, [])
    requires request.kind in {JOIN_GROUP, LEAVE_GROUP, GROUP_ASSIGNMENT, GROUP_FETCH, COMMIT_OFFSET}
    ensures Holds(out, request.kind, FieldsOf(request))
  {
    var k := request.kind;
    out := PutString(start, request.groupId, k, []);
    out := PutString(out, request.memberId, k, [] + [Str(request.groupId)]);
    ghost var fs := [] + [Str(request.groupId)] + [Str(request.memberId)];
    match k {
      case JOIN_GROUP | LEAVE_GROUP | GROUP_ASSIGNMENT =>
        out := PutString(out, request.topic, k, fs);
        assert FieldsOf(request) == fs + [Str(request.topic)];
      case GROUP_FETCH | COMMIT_OFFSET =>
        out := PutTopicOffset(out, request, k, fs);
    }
  }

  /** encode_request: an unknown kind encodes to the empty string. */
  method WriteRequest(request: Request) returns (out: Text)
    ensures out == EncodeRequest(request)
  {
    var start := [VERSION] + [Code(request.kind)];
    assert Holds(start, request.kind, []);
    match request.kind {
      case PRODUCE | BATCH_PRODUCE | BATCH_REPLICATE | FETCH | COMMIT | REPLICATE =>
        out := WritePartitionRequest(start, request);
      case ACK | HEARTBEAT | METADATA =>
        out := WriteBrokerRequest(start, request);
      case JOIN_GROUP | LEAVE_GROUP | GROUP_ASSIGNMENT | GROUP_FETCH | COMMIT_OFFSET =>
        out := WriteGroupRequest(start, request);
      case ERROR =>
        out := [];
    }
  }
}

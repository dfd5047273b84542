/** Requests on the wire: the encoder, the parser, and the correspondence between them. */
module Protocol {
  import opened Bytes
  import opened WireFields
  import opened FieldParser

  type Int32 = x: int | -0x8000_0000 <= x < 0x8000_0000
  type Word = n: nat | n < TWO_64

  const VERSION: Byte := 1

  datatype Kind =
    | PRODUCE | FETCH | REPLICATE | ACK | HEARTBEAT | COMMIT | METADATA | JOIN_GROUP | LEAVE_GROUP
    | GROUP_FETCH | COMMIT_OFFSET | GROUP_ASSIGNMENT | BATCH_PRODUCE | BATCH_REPLICATE | ERROR

  datatype Request = Request(kind: Kind, topic: Text, partition: Int32, message: Text, fetchOffset: Word,
                             brokerId: Int32, groupId: Text, memberId: Text, messages: seq<Text>)

  const BLANK := Request(ERROR, [], 0, [], 0, 0, [], [], [])

  function Code(k: Kind): Byte {
    match k
    case PRODUCE => 0
    case FETCH => 1
    case REPLICATE => 2
    case ACK => 3
    case HEARTBEAT => 4
    case COMMIT => 5
    case METADATA => 6
    case JOIN_GROUP => 7
    case LEAVE_GROUP => 8
    case GROUP_FETCH => 9
    case COMMIT_OFFSET => 10
    case GROUP_ASSIGNMENT => 11
    case BATCH_PRODUCE => 12
    case BATCH_REPLICATE => 13
    case ERROR => 14
  }

  function KindOf(code: Byte): (k: Kind)
    requires code <= 13
    ensures k != ERROR && Code(k) == code
  {
    [PRODUCE, FETCH, REPLICATE, ACK, HEARTBEAT, COMMIT, METADATA, JOIN_GROUP, LEAVE_GROUP,
     GROUP_FETCH, COMMIT_OFFSET, GROUP_ASSIGNMENT, BATCH_PRODUCE, BATCH_REPLICATE][code]
  }

  /** static_cast between int and uint32_t */
  function ToU32(x: Int32): nat {
    if x < 0 then x + 0x1_0000_0000 else x
  }

  function FromU32(n: nat): (x: Int32)
    requires n < TWO_32
    ensures ToU32(x) == n
  {
    if n < TWO_31 then n else n - 0x1_0000_0000
  }

  /** The fields each kind of request carries, in wire order. */
  function FieldsOf(r: Request): seq<Field> {
    match r.kind
    case PRODUCE => [Str(r.topic), U32(ToU32(r.partition)), Str(r.message), U64(r.fetchOffset)]
    case BATCH_PRODUCE => [Str(r.topic), U32(ToU32(r.partition)), Strs(r.messages)]
    case BATCH_REPLICATE => [Str(r.topic), U32(ToU32(r.partition)), U64(r.fetchOffset), Strs(r.messages)]
    case FETCH | COMMIT => [Str(r.topic), U32(ToU32(r.partition)), U64(r.fetchOffset)]
    case REPLICATE => [Str(r.topic), U32(ToU32(r.partition)), U64(r.fetchOffset), Str(r.message)]
    case ACK => [U64(r.fetchOffset), U32(ToU32(r.brokerId)), Str(r.topic), U32(ToU32(r.partition))]
    case HEARTBEAT => [U32(ToU32(r.brokerId))]
    case METADATA => []
    case JOIN_GROUP | LEAVE_GROUP | GROUP_ASSIGNMENT => [Str(r.groupId), Str(r.memberId), Str(r.topic)]
    case GROUP_FETCH | COMMIT_OFFSET =>
      [Str(r.groupId), Str(r.memberId), Str(r.topic), U32(ToU32(r.partition)), U64(r.fetchOffset)]
    case ERROR => []
  }

  function Shape(k: Kind): seq<Tag> {
    match k
    case PRODUCE => [StrTag, U32Tag, StrTag, U64Tag]
    case BATCH_PRODUCE => [StrTag, U32Tag, StrsTag]
    case BATCH_REPLICATE => [StrTag, U32Tag, U64Tag, StrsTag]
    case FETCH | COMMIT => [StrTag, U32Tag, U64Tag]
    case REPLICATE => [StrTag, U32Tag, U64Tag, StrTag]
    case ACK => [U64Tag, U32Tag, StrTag, U32Tag]
    case HEARTBEAT => [U32Tag]
    case METADATA => []
    case JOIN_GROUP | LEAVE_GROUP | GROUP_ASSIGNMENT => [StrTag, StrTag, StrTag]
    case GROUP_FETCH | COMMIT_OFFSET => [StrTag, StrTag, StrTag, U32Tag, U64Tag]
    case ERROR => []
  }

  function EncodeRequest(r: Request): Text {
    if r.kind == ERROR then [] else [VERSION, Code(r.kind)] + EncodeFields(FieldsOf(r))
  }

  /** A request the parser can accept: a real kind, strings and batches within the limits. */
  ghost predicate InBounds(r: Request) {
    r.kind != ERROR && AllFit(FieldsOf(r))
  }

  /** The request with the fields its kind does not carry left blank. */
  function Restrict(r: Request): Request {
    match r.kind
    case PRODUCE => BLANK.(kind := r.kind, topic := r.topic, partition := r.partition, message := r.message,
        fetchOffset := r.fetchOffset)
    case BATCH_PRODUCE => BLANK.(kind := r.kind, topic := r.topic, partition := r.partition, messages := r.messages)
    case BATCH_REPLICATE => BLANK.(kind := r.kind, topic := r.topic, partition := r.partition,
        fetchOffset := r.fetchOffset, messages := r.messages)
    case FETCH | COMMIT =>
        BLANK.(kind := r.kind, topic := r.topic, partition := r.partition, fetchOffset := r.fetchOffset)
    case REPLICATE => BLANK.(kind := r.kind, topic := r.topic, partition := r.partition, fetchOffset := r.fetchOffset,
        message := r.message)
    case ACK => BLANK.(kind := r.kind, fetchOffset := r.fetchOffset, brokerId := r.brokerId, topic := r.topic,
        partition := r.partition)
    case HEARTBEAT => BLANK.(kind := r.kind, brokerId := r.brokerId)
    case METADATA => BLANK.(kind := r.kind)
    case JOIN_GROUP | LEAVE_GROUP | GROUP_ASSIGNMENT =>
        BLANK.(kind := r.kind, groupId := r.groupId, memberId := r.memberId, topic := r.topic)
    case GROUP_FETCH | COMMIT_OFFSET =>
      BLANK.(kind := r.kind, groupId := r.groupId, memberId := r.memberId, topic := r.topic, partition := r.partition,
          fetchOffset := r.fetchOffset)
    case ERROR => BLANK
  }

  // ----- shapes

  lemma FieldsHaveShape(r: Request)
    ensures HasShape(FieldsOf(r), Shape(r.kind))
  {
  }

  lemma SameFieldsSameRequest(r: Request, q: Request)
    requires r.kind == q.kind && FieldsOf(r) == FieldsOf(q)
    ensures Restrict(r) == Restrict(q)
  {
    assert ToU32(r.partition) == ToU32(q.partition) ==> r.partition == q.partition;
    assert ToU32(r.brokerId) == ToU32(q.brokerId) ==> r.brokerId == q.brokerId;
  }
}

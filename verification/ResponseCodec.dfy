/** serialize_response and parse_response. The parser is more liberal than the serialiser: it takes
    any nonzero success byte and ignores the byte after it. */
module ResponseCodec {
  import opened Bytes
  import opened WireFields
  import opened FieldParser
  import opened Protocol
  import RequestCodec

  datatype Response = Response(success: bool, message: Text, appendedOffset: nat, appendedOffsets: seq<nat>)

  /** "malformed_response" */
  const MALFORMED_TEXT: Text :=
    [109, 97, 108, 102, 111, 114, 109, 101, 100, 95, 114, 101, 115, 112, 111, 110, 115, 101]

  const MALFORMED := Response(false, MALFORMED_TEXT, 0xffff_ffff_ffff_ffff, [])

  const SHAPE: seq<Tag> := [U64Tag, StrTag, LongsTag]

  function BodyOf(r: Response): seq<Field> {
    [U64(r.appendedOffset), Str(r.message), Longs(r.appendedOffsets)]
  }

  function SuccessByte(r: Response): Byte {
    if r.success then 1 else 0
  }

  function MessageByte(r: Response): Byte {
    if |r.message| == 0 then 0 else 1
  }

  function Serialize(r: Response): Text {
    [VERSION, SuccessByte(r), MessageByte(r)] + EncodeFields(BodyOf(r))
  }

  ghost predicate Fits(r: Response) {
    AllFit(BodyOf(r))
  }

  /** The payload has the shape of a response: a version, two bytes and the encoding of a body. */
  ghost predicate WellFormed(payload: Text) {
    && |payload| >= 3 && payload[0] == VERSION
    && exists q :: Fits(q) && EncodeFields(BodyOf(q)) == payload[3..]
  }

  /** What parse_response returns: the body it finds, success read off the second byte; or one fixed
      response for everything else. */
  ghost predicate IsParse(payload: Text, r: Response) {
    && (WellFormed(payload) ==>
          Fits(r) && EncodeFields(BodyOf(r)) == payload[3..] && r.success == (payload[1] != 0))
    && (!WellFormed(payload) ==> r == MALFORMED)
  }

  lemma BodyShape(r: Response)
    ensures HasShape(BodyOf(r), SHAPE)
  {
  }

  lemma RejectedIsMalformed(payload: Text)
    requires |payload| >= 3 && Rejected(payload, 3, SHAPE)
    ensures !WellFormed(payload)
  {
    forall q | Fits(q) ensures EncodeFields(BodyOf(q)) != payload[3..] {
      BodyShape(q);
      assert !MakeUp(payload, 3, SHAPE, BodyOf(q));
    }
  }

  method ParseResponse(payload: Text) returns (r: Response)
    ensures IsParse(payload, r)
    ensures !WellFormed(payload) ==> !r.success && r.appendedOffset == TWO_64 - 1 && r.appendedOffsets == []
  {
    if |payload| < 3 || payload[0] != VERSION {
      return MALFORMED;
    }
    var valid, pos, offset, message, offsets;
    assert payload[3..3] == [];
    valid, pos, offset := NextU64(payload, 3, SHAPE, true, 3, []);
    valid, pos, message := NextString(payload, 3, SHAPE, valid, pos, [] + [U64(offset)]);
    valid, pos, offsets := NextLongs(payload, 3, SHAPE, valid, pos, [] + [U64(offset)] + [Str(message)]);
    if valid && pos == |payload| {
      r := Response(payload[1] != 0, message, offset, offsets);
      assert BodyOf(r) == [] + [U64(offset)] + [Str(message)] + [Longs(offsets)];
      assert payload[3..pos] == payload[3..];
    } else {
      if valid {
        RejectTrailing(payload, 3, SHAPE, pos, [] + [U64(offset)] + [Str(message)] + [Longs(offsets)]);
      }
      RejectedIsMalformed(payload);
      r := MALFORMED;
    }
  }

  lemma UniqueBody(r: Response, q: Response, body: Text)
    requires Fits(r) && Fits(q)
    requires EncodeFields(BodyOf(r)) == body && EncodeFields(BodyOf(q)) == body
    ensures r.(success := q.success) == q
  {
    BodyShape(r);
    BodyShape(q);
    UniqueFields(BodyOf(r), BodyOf(q), body);
    assert BodyOf(r)[0] == BodyOf(q)[0] && BodyOf(r)[1] == BodyOf(q)[1] && BodyOf(r)[2] == BodyOf(q)[2];
  }

  lemma SerializedParts(r: Response)
    ensures Serialize(r)[0] == VERSION && Serialize(r)[1] == SuccessByte(r) && Serialize(r)[2] == MessageByte(r)
    ensures Serialize(r)[3..] == EncodeFields(BodyOf(r))
  {
  }

  /** Round trip, exactly: parsing a serialised response returns it if and only if it fits the limits. */
  lemma RoundTripIffFits(r: Response, parsed: Response)
    requires IsParse(Serialize(r), parsed)
    ensures parsed == r <==> Fits(r)
  {
    SerializedParts(r);
    if Fits(r) {
      assert WellFormed(Serialize(r));
      UniqueBody(parsed, r, Serialize(r)[3..]);
    } else if WellFormed(Serialize(r)) {
      assert Fits(parsed);
    } else {
      MalformedFits();
    }
  }

  lemma MalformedFits()
    ensures Fits(MALFORMED)
  {
  }

  /** Re-serialising an accepted payload reproduces it exactly when its two flag bytes are the ones
      the serialiser writes; the parser itself demands neither. */
  lemma ReserializesIffCanonical(payload: Text, r: Response)
    requires WellFormed(payload) && IsParse(payload, r)
    ensures Serialize(r) == payload <==> payload[1] <= 1 && payload[2] == MessageByte(r)
  {
    SerializedParts(r);
    assert payload == [payload[0], payload[1], payload[2]] + payload[3..];
    if payload[1] <= 1 && payload[2] == MessageByte(r) {
      assert payload[1] == SuccessByte(r);
    }
  }

  const EMPTY_SUCCESS := Response(true, [], 0, [])

  lemma ReadAsSuccess(body: Text, q: Response, payload: Text, r: Response)
    requires Fits(q) && q.success && |q.message| == 0 && body == EncodeFields(BodyOf(q))
    requires payload == [VERSION, 2, 0] + body && IsParse(payload, r)
    ensures WellFormed(payload) && r == q
    ensures Serialize(r) != payload && Serialize(r) == payload[1 := 1]
  {
    assert payload[3..] == body;
    UniqueBody(r, q, body);
    SerializedParts(q);
  }

  /** A success byte of 2 is read as success and written back as 1. */
  lemma SuccessByteTwo(payload: Text, r: Response)
    requires payload == [VERSION, 2, 0] + EncodeFields(BodyOf(EMPTY_SUCCESS)) && IsParse(payload, r)
    ensures WellFormed(payload) && r == EMPTY_SUCCESS
    ensures Serialize(r) != payload && Serialize(r) == payload[1 := 1]
  {
    var q := EMPTY_SUCCESS;
    ReadAsSuccess(EncodeFields(BodyOf(q)), q, payload, r);
  }

  /** A plain response never passes for an acknowledgement: whatever response a peer sends back, the
      request parser does not read an ACK out of it. */
  lemma ResponseIsNoAck(r: Response, parsed: Request)
    requires RequestCodec.IsParse(Serialize(r), parsed)
    ensures parsed.kind != ACK
  {
    SerializedParts(r);
    if parsed.kind != ERROR {
      assert EncodeRequest(parsed)[1] == Code(parsed.kind);
    }
  }
}

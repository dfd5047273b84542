/** Length-prefixed frames over a connection that moves bytes in chunks of its own choosing. */
module Frames {
  import opened Bytes
  import opened Options

  type Data = seq<Byte>

  /** wrap_frame: a four-byte length, cut to 32 bits, and the payload. */
  function Frame(payload: Data): Data {
    BigEndian(|payload|, 4) + payload
  }

  datatype Unframed = Unframed(payload: Data, rest: Data)

  /** One frame off the front of a byte stream. */
  function Unframe(stream: Data): Option<Unframed> {
    if |stream| < 4 then None
    else
      var length := FromBigEndian(stream[..4]);
      if |stream| - 4 < length then None
      else Some(Unframed(stream[4..4 + length], stream[4 + length..]))
  }

  function AllFrames(payloads: seq<Data>): Data {
    if |payloads| == 0 then [] else Frame(payloads[0]) + AllFrames(payloads[1..])
  }

  lemma {:induction false} BigEndianCuts(v: nat, k: nat)
    ensures FromBigEndian(BigEndian(v, k)) < Pow256(k)
    ensures v < Pow256(k) <==> FromBigEndian(BigEndian(v, k)) == v
  {
    FromBigEndianRoundTrip(BigEndian(v, k));
    if v < Pow256(k) {
      BigEndianRoundTrip(v, k);
    }
  }

  /** A frame is read back exactly when its payload is shorter than 2^32 bytes. */
  lemma FrameRoundTripIff(payload: Data, rest: Data)
    ensures Unframe(Frame(payload) + rest) == Some(Unframed(payload, rest)) <==> |payload| < TWO_32
  {
    var stream := Frame(payload) + rest;
    WordSizes();
    BigEndianCuts(|payload|, 4);
    assert stream[..4] == BigEndian(|payload|, 4);
    if |payload| < TWO_32 {
      assert stream[4..4 + |payload|] == payload;
      assert stream[4 + |payload|..] == rest;
    }
  }

  /** Reads frames until none is left. */
  function UnframeAll(stream: Data): seq<Data>
    decreases |stream|
  {
    match Unframe(stream)
    case None => []
    case Some(u) => [u.payload] + UnframeAll(u.rest)
  }

  ghost predicate Sendable(payloads: seq<Data>) {
    forall i :: 0 <= i < |payloads| ==> |payloads[i]| < TWO_32
  }

  /** Concatenated frames come back in order, with nothing added and nothing lost. */
  lemma {:induction false} FramesInOrder(payloads: seq<Data>)
    requires Sendable(payloads)
    ensures UnframeAll(AllFrames(payloads)) == payloads
  {
    if |payloads| > 0 {
      FrameRoundTripIff(payloads[0], AllFrames(payloads[1..]));
      assert forall i :: 0 <= i < |payloads[1..]| ==> payloads[1..][i] == payloads[i + 1];
      FramesInOrder(payloads[1..]);
    }
  }

  // ----- the connection

  ghost predicate AllPositive(script: seq<int>) {
    forall i :: 0 <= i < |script| ==> script[i] > 0
  }

  /** A connection with a script of how many bytes each system call moves; a result of zero or less
      is a failure, and so is a call the script has no answer for. */
  class Connection {
    var sent: Data
    var received: Data
    var script: seq<int>

    constructor (incoming: Data, answers: seq<int>)
      ensures sent == [] && received == incoming && script == answers
    {
      sent, received, script := [], incoming, answers;
    }

    /** writev over the given buffers */
    method Writev(buffers: Data) returns (n: int)
      modifies `sent, `script
      ensures n <= |buffers|
      ensures n > 0 ==> sent == old(sent) + buffers[..n]
      ensures n <= 0 ==> sent == old(sent)
      ensures |old(script)| > 0 ==> script == old(script)[1..] && (old(script)[0] > 0 && |buffers| > 0 ==> n > 0)
      ensures |old(script)| == 0 ==> script == [] && n <= 0
    {
      n := -1;
      if |script| > 0 {
        n := if script[0] < |buffers| then script[0] else |buffers|;
        script := script[1..];
      }
      if n > 0 {
        sent := sent + buffers[..n];
      }
    }

    /** recv of at most length bytes; zero at the end of the stream */
    method Recv(length: nat) returns (n: int, data: Data)
      modifies `received, `script
      ensures n <= length && n <= |old(received)|
      ensures n > 0 ==> data == old(received)[..n] && received == old(received)[n..]
      ensures n <= 0 ==> received == old(received)
      ensures |old(script)| > 0 ==>
                script == old(script)[1..] && (old(script)[0] > 0 && length > 0 && |old(received)| > 0 ==> n > 0)
      ensures |old(script)| == 0 ==> script == [] && n <= 0
    {
      n, data := -1, [];
      if |script| > 0 {
        n := if script[0] < length then script[0] else length;
        if n > |received| {
          n := |received|;
        }
        script := script[1..];
      }
      if n > 0 {
        data := received[..n];
        received := received[n..];
      }
    }
  }

  function Joined(buffers: seq<Data>): Data {
    if |buffers| == 0 then [] else buffers[0] + Joined(buffers[1..])
  }

  /** The inner loop of write_frame: drop the buffers already consumed, then cut into the next one. */
  method Consume(buffers: seq<Data>, count: nat) returns (left: seq<Data>)
    requires count <= |Joined(buffers)|
    ensures Joined(left) == Joined(buffers)[count..]
    ensures |left| <= |buffers|
  {
    left := buffers;
    var consumed: nat := count;
    while |left| > 0 && consumed >= |left[0]|
      invariant |left| <= |buffers| && consumed <= |Joined(left)|
      invariant Joined(left)[consumed..] == Joined(buffers)[count..]
      decreases |left|
    {
      DropBuffer(left, consumed);
      consumed := consumed - |left[0]|;
      left := left[1..];
    }
    if |left| > 0 && consumed > 0 {
      CutBuffer(left, consumed);
      left := [left[0][consumed..]] + left[1..];
    }
  }

  lemma DropBuffer(buffers: seq<Data>, consumed: nat)
    requires |buffers| > 0 && |buffers[0]| <= consumed <= |Joined(buffers)|
    ensures consumed - |buffers[0]| <= |Joined(buffers[1..])|
    ensures Joined(buffers)[consumed..] == Joined(buffers[1..])[consumed - |buffers[0]|..]
  {
  }

  lemma CutBuffer(buffers: seq<Data>, consumed: nat)
    requires |buffers| > 0 && consumed < |buffers[0]|
    ensures consumed <= |Joined(buffers)|
    ensures Joined([buffers[0][consumed..]] + buffers[1..]) == Joined(buffers)[consumed..]
  {
    var cut := [buffers[0][consumed..]] + buffers[1..];
    assert cut[1..] == buffers[1..];
  }

  lemma CutFurther(frame: Data, a: nat, b: nat)
    requires a + b <= |frame|
    ensures frame[..a] + frame[a..][..b] == frame[..a + b]
    ensures frame[a..][b..] == frame[a + b..]
  {
  }

  /** Framing survives arbitrary partial writes: on success exactly the frame was emitted, on failure
      a proper prefix of it; and if every call moves at least one byte the loop succeeds. */
  method WriteFrame(c: Connection, payload: Data) returns (ok: bool)
    modifies c
    ensures c.received == old(c.received)
    ensures ok ==> c.sent == old(c.sent) + Frame(payload)
    ensures !ok ==> exists k :: 0 <= k < |Frame(payload)| && c.sent == old(c.sent) + Frame(payload)[..k]
    ensures AllPositive(old(c.script)) && |old(c.script)| >= |Frame(payload)| ==> ok
  {
    var header := BigEndian(|payload|, 4);
    var buffers := if |payload| == 0 then [header] else [header, payload];
    ghost var frame := Frame(payload);
    assert Joined(buffers) == frame by {
      assert Joined([payload]) == payload;
      assert [header, payload][1..] == [payload];
    }
    var total, size := 0, 4 + |payload|;
    assert |frame| == size && frame[0..] == frame;
    ghost var calls := 0;
    while total < size
      invariant 0 <= total <= size == |frame| && c.received == old(c.received)
      invariant Joined(buffers) == frame[total..]
      invariant c.sent == old(c.sent) + frame[..total]
      invariant calls <= total
      invariant |old(c.script)| >= size && AllPositive(old(c.script)) ==> c.script == old(c.script)[calls..]
      decreases size - total
    {
      var sent := c.Writev(Joined(buffers));
      if sent <= 0 {
        return false;
      }
      buffers := Consume(buffers, sent);
      CutFurther(frame, total, sent);
      total := total + sent;
      calls := calls + 1;
    }
    assert frame[..total] == frame;
    ok := true;
  }

  // ----- reading

  /** read_exact: all the bytes asked for, or failure. */
  method ReadExact(c: Connection, length: nat) returns (ok: bool, data: Data, ghost calls: nat)
    modifies c
    ensures c.sent == old(c.sent)
    ensures ok ==> length <= |old(c.received)| && data == old(c.received)[..length]
                   && c.received == old(c.received)[length..]
    ensures AllPositive(old(c.script)) && |old(c.script)| >= length ==>
              (ok <==> length <= |old(c.received)|)
    ensures calls <= |old(c.script)| && c.script == old(c.script)[calls..] && (ok ==> calls <= length)
  {
    data, calls := [], 0;
    var total := 0;
    while total < length
      invariant 0 <= total <= length && total <= |old(c.received)|
      invariant data == old(c.received)[..total] && c.received == old(c.received)[total..]
      invariant calls <= total && calls <= |old(c.script)| && c.script == old(c.script)[calls..]
      invariant c.sent == old(c.sent)
      decreases length - total
    {
      var n, chunk := c.Recv(length - total);
      calls := if calls < |old(c.script)| then calls + 1 else calls;
      if n <= 0 {
        return false, data, calls;
      }
      assert old(c.received)[..total] + old(c.received)[total..][..n] == old(c.received)[..total + n];
      data := data + chunk;
      total := total + n;
    }
    ok := true;
  }

  /** read_frame: under any chunking it takes exactly the next frame off the stream; if every call
      moves at least one byte it fails only when the stream holds no whole frame. */
  method ReadFrame(c: Connection) returns (ok: bool, payload: Data)
    modifies c
    ensures c.sent == old(c.sent)
    ensures ok ==> Unframe(old(c.received)) == Some(Unframed(payload, c.received))
    ensures AllPositive(old(c.script)) && |old(c.script)| >= |old(c.received)| ==>
              (ok <==> Unframe(old(c.received)).Some?)
    ensures AllPositive(old(c.script)) ==> AllPositive(c.script)
    ensures ok ==> |old(c.script)| - |c.script| <= |old(c.received)| - |c.received|
  {
    var header;
    ghost var calls, more;
    payload := [];
    ok, header, calls := ReadExact(c, 4);
    if !ok {
      return;
    }
    var length := FromBigEndian(header);
    if length == 0 {
      assert old(c.received)[4..4] == [];
      return true, [];
    }
    assert AllPositive(old(c.script)) ==> AllPositive(c.script);
    ok, payload, more := ReadExact(c, length);
    if ok {
      assert old(c.received)[4..][..length] == old(c.received)[4..4 + length];
      assert old(c.received)[4..][length..] == old(c.received)[4 + length..];
    }
  }

  /** Reading frame after frame until the stream gives no more. Under any chunking what comes is the payloads in
      order, from the first one on; if every call moves at least one byte, all of them. */
  method ReadFrames(c: Connection, ghost payloads: seq<Data>) returns (got: seq<Data>)
    modifies c
    ensures got <= UnframeAll(old(c.received))
    ensures AllPositive(old(c.script)) && |old(c.script)| >= |old(c.received)| ==> got == UnframeAll(old(c.received))
    ensures Sendable(payloads) && old(c.received) == AllFrames(payloads) ==>
              got <= payloads && (AllPositive(old(c.script)) && |old(c.script)| >= |old(c.received)|
                  ==> got == payloads)
  {
    got := [];
    while true
      invariant got + UnframeAll(c.received) == UnframeAll(old(c.received))
      invariant AllPositive(old(c.script)) ==> AllPositive(c.script)
      invariant |old(c.script)| >= |old(c.received)| ==> |c.script| >= |c.received|
      decreases |c.received|
    {
      var ok, payload := ReadFrame(c);
      if !ok {
        assert got <= UnframeAll(old(c.received));
        break;
      }
      assert got + ([payload] + UnframeAll(c.received)) == got + [payload] + UnframeAll(c.received);
      got := got + [payload];
    }
    if Sendable(payloads) {
      FramesInOrder(payloads);
    }
  }
}

/** The get_* decoders: each reads one field at a position or reports that no acceptable field of
    that kind starts there. */
module WireReader {
  import opened Bytes
  import opened WireFields

  ghost predicate Reads(input: Text, pos: nat, f: Field, next: nat) {
    && pos <= next <= |input|
    && input[pos..next] == EncodeField(f)
    && FieldFits(f)
  }

  /** No acceptable string, list of strings or list of numbers starts at this position. */
  ghost predicate NoText(input: Text, pos: nat)
    requires pos <= |input|
  {
    forall s :: |s| <= MAX_STRING ==> !(EncodeText(s) <= input[pos..])
  }

  ghost predicate NoTexts(input: Text, pos: nat)
    requires pos <= |input|
  {
    forall ss :: |ss| <= MAX_BATCH && TextsFit(ss) ==> !(BigEndian(|ss|, 4) + EncodeTexts(ss) <= input[pos..])
  }

  ghost predicate NoLongs(input: Text, pos: nat)
    requires pos <= |input|
  {
    forall ns :: |ns| <= MAX_BATCH ==> !(BigEndian(|ns|, 4) + EncodeLongs(ns) <= input[pos..])
  }

  lemma ReadsIsPrefix(input: Text, pos: nat, x: Text, next: nat)
    requires pos <= next <= |input| && input[pos..next] == x
    ensures x <= input[pos..]
  {
    assert input[pos..][..next - pos] == input[pos..next];
  }

  /** The loop of get_u32 and get_u64: shift left by eight bits and add the next byte. */
  method GetBytes(input: Text, pos: nat, width: nat) returns (ok: bool, next: nat, value: nat)
    requires pos <= |input|
    ensures ok <==> pos + width <= |input|
    ensures ok ==> next == pos + width && value < Pow256(width) && input[pos..next] == BigEndian(value, width)
  {
    next, value := pos, 0;
    var i := 0;
    while i < width
      invariant 0 <= i <= width && next == pos + i <= |input|
      invariant value == FromBigEndian(input[pos..next])
    {
      if next >= |input| {
        return false, next, value;
      }
      assert input[pos..next + 1][..i] == input[pos..next];
      value := value * 256 + input[next];
      next := next + 1;
      i := i + 1;
    }
    FromBigEndianRoundTrip(input[pos..next]);
    ok := true;
  }

  method GetU32(input: Text, pos: nat) returns (ok: bool, next: nat, value: nat)
    requires pos <= |input|
    ensures ok ==> Reads(input, pos, U32(value), next)
    ensures !ok ==> |input| < pos + 4
  {
    WordSizes();
    ok, next, value := GetBytes(input, pos, 4);
  }

  method GetU64(input: Text, pos: nat) returns (ok: bool, next: nat, value: nat)
    requires pos <= |input|
    ensures ok ==> Reads(input, pos, U64(value), next)
    ensures !ok ==> |input| < pos + 8
  {
    WordSizes();
    ok, next, value := GetBytes(input, pos, 8);
  }

  lemma TextNeedsLength(input: Text, pos: nat, size: nat, s: Text)
    requires pos + 4 <= |input| && size < TWO_32 && input[pos..pos + 4] == BigEndian(size, 4)
    requires |s| <= MAX_STRING && EncodeText(s) <= input[pos..]
    ensures |s| == size && pos + 4 + size <= |input|
  {
    WordSizes();
    DropPrefix(BigEndian(|s|, 4), s, input[pos..]);
    ReadsIsPrefix(input, pos, BigEndian(size, 4), pos + 4);
    UniqueNumber(|s|, size, 4, input[pos..]);
  }

  method GetString(input: Text, pos: nat) returns (ok: bool, next: nat, value: Text)
    requires pos <= |input|
    ensures ok ==> Reads(input, pos, Str(value), next)
    ensures !ok ==> NoText(input, pos)
  {
    value := [];
    var size;
    ok, next, size := GetU32(input, pos);
    if !ok {
      return;
    }
    if size > MAX_STRING || size > |input| - next {
      forall s | |s| <= MAX_STRING && EncodeText(s) <= input[pos..] ensures false {
        TextNeedsLength(input, pos, size, s);
      }
      return false, next, value;
    }
    value := input[next..next + size];
    assert input[pos..next + size] == input[pos..next] + value;
    next := next + size;
  }

  // ----- counted lists

  /** The count in front of a list, read at pos. */
  ghost predicate CountRead(input: Text, pos: nat, count: nat) {
    pos + 4 <= |input| && count < TWO_32 && input[pos..pos + 4] == BigEndian(count, 4)
  }

  lemma CountForced(input: Text, pos: nat, count: nat, n: nat, rest: Text)
    requires CountRead(input, pos, count) && n <= MAX_BATCH
    requires BigEndian(n, 4) + rest <= input[pos..]
    ensures n == count && rest <= input[pos + 4..]
  {
    WordSizes();
    DropPrefix(BigEndian(n, 4), rest, input[pos..]);
    ReadsIsPrefix(input, pos, BigEndian(count, 4), pos + 4);
    UniqueNumber(n, count, 4, input[pos..]);
    assert input[pos..][4..] == input[pos + 4..];
  }

  lemma TooMany(input: Text, pos: nat, count: nat)
    requires CountRead(input, pos, count) && count > MAX_BATCH
    ensures NoTexts(input, pos) && NoLongs(input, pos)
  {
    forall ss | |ss| <= MAX_BATCH && TextsFit(ss)
        && BigEndian(|ss|, 4) + EncodeTexts(ss) <= input[pos..] ensures false {
      CountForced(input, pos, count, |ss|, EncodeTexts(ss));
    }
    forall ns | |ns| <= MAX_BATCH && BigEndian(|ns|, 4) + EncodeLongs(ns) <= input[pos..] ensures false {
      CountForced(input, pos, count, |ns|, EncodeLongs(ns));
    }
  }

  ghost predicate TextsFit(ss: seq<Text>) {
    forall i :: 0 <= i < |ss| ==> |ss[i]| <= MAX_STRING
  }

  lemma {:induction false} TextsPrefix(ss: seq<Text>, k: nat)
    requires k <= |ss|
    ensures EncodeTexts(ss[..k]) <= EncodeTexts(ss)
    ensures k < |ss| ==> EncodeTexts(ss[..k]) + EncodeText(ss[k]) <= EncodeTexts(ss)
    decreases |ss|
  {
    if k < |ss| {
      var front := ss[..|ss| - 1];
      if k < |front| {
        TextsPrefix(front, k);
        assert front[..k] == ss[..k];
      }
    } else {
      assert ss[..k] == ss;
    }
  }

  /** Two lists at the same place, one longer: the longer one continues right after the shorter. */
  lemma TextAfter(ss: seq<Text>, messages: seq<Text>, body: Text)
    requires TextsFit(ss) && TextsFit(messages) && |messages| < |ss|
    requires EncodeTexts(ss) <= body && EncodeTexts(messages) <= body
    ensures EncodeText(ss[|messages|]) <= body[|EncodeTexts(messages)|..]
  {
    var k := |messages|;
    TextsPrefix(ss, k);
    assert ss[..k] == messages by {
      UniqueTexts(ss[..k], messages, body);
    }
    DropPrefix(EncodeTexts(messages), EncodeText(ss[k]), body);
  }

  lemma NextTextThere(input: Text, pos: nat, next: nat, count: nat, messages: seq<Text>, ss: seq<Text>)
    requires CountRead(input, pos, count) && pos + 4 <= next <= |input|
    requires TextsFit(messages) && |messages| < count
    requires input[pos + 4..next] == EncodeTexts(messages)
    requires TextsFit(ss) && |ss| <= MAX_BATCH && BigEndian(|ss|, 4) + EncodeTexts(ss) <= input[pos..]
    ensures |messages| < |ss| && EncodeText(ss[|messages|]) <= input[next..]
  {
    CountForced(input, pos, count, |ss|, EncodeTexts(ss));
    ReadsIsPrefix(input, pos + 4, EncodeTexts(messages), next);
    TextAfter(ss, messages, input[pos + 4..]);
    assert input[pos + 4..][next - pos - 4..] == input[next..];
  }

  /** If reading stopped at message k, no list of count messages starts here. */
  lemma BatchUnreadable(input: Text, pos: nat, next: nat, count: nat, messages: seq<Text>)
    requires CountRead(input, pos, count) && pos + 4 <= next <= |input|
    requires TextsFit(messages) && |messages| < count
    requires input[pos + 4..next] == EncodeTexts(messages)
    requires NoText(input, next)
    ensures NoTexts(input, pos)
  {
    forall ss | |ss| <= MAX_BATCH && TextsFit(ss)
        && BigEndian(|ss|, 4) + EncodeTexts(ss) <= input[pos..] ensures false {
      NextTextThere(input, pos, next, count, messages, ss);
    }
  }

  /** The loop that reads the messages of a batch. */
  method GetStrings(input: Text, pos: nat) returns (ok: bool, next: nat, messages: seq<Text>)
    requires pos <= |input|
    ensures ok ==> Reads(input, pos, Strs(messages), next)
    ensures !ok ==> NoTexts(input, pos)
  {
    messages := [];
    var count;
    ok, next, count := GetU32(input, pos);
    if !ok {
      return;
    }
    if count > MAX_BATCH {
      TooMany(input, pos, count);
      return false, next, messages;
    }
    while |messages| < count
      invariant pos + 4 <= next <= |input| && CountRead(input, pos, count)
      invariant |messages| <= count && TextsFit(messages)
      invariant input[pos + 4..next] == EncodeTexts(messages)
      decreases count - |messages|
    {
      var valid, after, message := GetString(input, next);
      if !valid {
        BatchUnreadable(input, pos, next, count, messages);
        return false, after, messages;
      }
      assert input[pos + 4..after] == input[pos + 4..next] + input[next..after];
      assert (messages + [message])[..|messages|] == messages;
      messages := messages + [message];
      next := after;
    }
    assert input[pos..next] == input[pos..pos + 4] + input[pos + 4..next];
  }

  lemma {:induction false} LongsLength(ns: seq<nat>)
    ensures |EncodeLongs(ns)| == 8 * |ns|
  {
    if |ns| > 0 {
      LongsLength(ns[..|ns| - 1]);
    }
  }

  lemma LongsUnreadable(input: Text, pos: nat, count: nat)
    requires CountRead(input, pos, count) && |input| < pos + 4 + 8 * count
    ensures NoLongs(input, pos)
  {
    forall ns | |ns| <= MAX_BATCH && BigEndian(|ns|, 4) + EncodeLongs(ns) <= input[pos..] ensures false {
      CountForced(input, pos, count, |ns|, EncodeLongs(ns));
      LongsLength(ns);
    }
  }

  /** The loop that reads the offsets of a batch response. */
  method GetLongs(input: Text, pos: nat) returns (ok: bool, next: nat, values: seq<nat>)
    requires pos <= |input|
    ensures ok ==> Reads(input, pos, Longs(values), next)
    ensures !ok ==> NoLongs(input, pos)
  {
    values := [];
    var count;
    ok, next, count := GetU32(input, pos);
    if !ok {
      return;
    }
    if count > MAX_BATCH {
      TooMany(input, pos, count);
      return false, next, values;
    }
    ok, next, values := GetLongItems(input, pos, count);
    assert ok ==> input[pos..next] == input[pos..pos + 4] + input[pos + 4..next];
  }

  method GetLongItems(input: Text, pos: nat, count: nat) returns (ok: bool, next: nat, values: seq<nat>)
    requires CountRead(input, pos, count)
    ensures ok ==> pos + 4 <= next <= |input| && |values| == count && input[pos + 4..next] == EncodeLongs(values)
    ensures ok ==> forall k :: 0 <= k < count ==> values[k] < TWO_64
    ensures !ok ==> NoLongs(input, pos)
  {
    next, values := pos + 4, [];
    var i := 0;
    while i < count
      invariant pos + 4 <= next <= |input|
      invariant i == |values| <= count && forall k :: 0 <= k < i ==> values[k] < TWO_64
      invariant input[pos + 4..next] == EncodeLongs(values)
    {
      var valid, after, value := GetU64(input, next);
      if !valid {
        LongsLength(values);
        LongsUnreadable(input, pos, count);
        return false, after, values;
      }
      assert input[pos + 4..after] == input[pos + 4..next] + input[next..after];
      assert (values + [value])[..|values|] == values;
      values := values + [value];
      next := after;
      i := i + 1;
    }
    ok := true;
  }
}

/** Parsing a list of fields from a position on: the fields read so far are kept together with the
    certainty that nothing else could have been there. */
module FieldParser {
  import opened Bytes
  import opened WireFields
  import opened WireReader

  ghost predicate HasShape(fs: seq<Field>, tags: seq<Tag>) {
    |fs| == |tags| && forall i :: 0 <= i < |fs| ==> TagOf(fs[i]) == tags[i]
  }

  ghost predicate ShapedSoFar(fs: seq<Field>, tags: seq<Tag>) {
    |fs| <= |tags| && forall i :: 0 <= i < |fs| ==> TagOf(fs[i]) == tags[i]
  }

  /** The first fields of a payload, read up to position pos. */
  ghost predicate Parsed(payload: Text, start: nat, tags: seq<Tag>, pos: nat, fs: seq<Field>) {
    && start <= pos <= |payload|
    && payload[start..pos] == EncodeFields(fs)
    && ShapedSoFar(fs, tags)
    && AllFit(fs)
  }

  /** No acceptable fields with these tags make up the payload. */
  ghost predicate Rejected(payload: Text, start: nat, tags: seq<Tag>)
    requires start <= |payload|
  {
    forall gs :: !MakeUp(payload, start, tags, gs)
  }

  /** These fields are an acceptable body for a payload. */
  ghost predicate MakeUp(payload: Text, start: nat, tags: seq<Tag>, gs: seq<Field>)
    requires start <= |payload|
  {
    HasShape(gs, tags) && AllFit(gs) && EncodeFields(gs) == payload[start..]
  }

  /** No acceptable field of this kind starts at pos. */
  ghost predicate NoField(input: Text, pos: nat, tag: Tag)
    requires pos <= |input|
  {
    match tag
    case U32Tag => |input| < pos + 4
    case U64Tag => |input| < pos + 8
    case StrTag => NoText(input, pos)
    case StrsTag => NoTexts(input, pos)
    case LongsTag => NoLongs(input, pos)
  }

  lemma NoFieldStarts(input: Text, pos: nat, f: Field)
    requires pos <= |input| && NoField(input, pos, TagOf(f)) && FieldFits(f)
    ensures !(EncodeField(f) <= input[pos..])
  {
    match f
    case U32(_) =>
    case U64(_) =>
    case Str(s) =>
    case Strs(ss) => assert TextsFit(ss);
    case Longs(_) =>
  }

  lemma {:induction false} FieldsPrefix(gs: seq<Field>, k: nat)
    requires k <= |gs|
    ensures EncodeFields(gs[..k]) <= EncodeFields(gs)
    ensures k < |gs| ==> EncodeFields(gs[..k]) + EncodeField(gs[k]) <= EncodeFields(gs)
    decreases |gs|
  {
    if k < |gs| {
      var front := gs[..|gs| - 1];
      if k < |front| {
        FieldsPrefix(front, k);
        assert front[..k] == gs[..k];
      }
    } else {
      assert gs[..k] == gs;
    }
  }

  lemma ShapePrefix(fs: seq<Field>, gs: seq<Field>, tags: seq<Tag>)
    requires ShapedSoFar(fs, tags) && HasShape(gs, tags) && AllFit(gs)
    ensures SameTags(gs[..|fs|], fs) && AllFit(gs[..|fs|])
  {
  }

  /** The next field of any list that fits the payload starts where the fields read so far end. */
  lemma NextFieldThere(payload: Text, start: nat, tags: seq<Tag>, pos: nat, fs: seq<Field>, gs: seq<Field>)
    requires Parsed(payload, start, tags, pos, fs) && |fs| < |tags|
    requires MakeUp(payload, start, tags, gs)
    ensures EncodeField(gs[|fs|]) <= payload[pos..]
  {
    var n, body := |fs|, payload[start..];
    FieldsPrefix(gs, n);
    ShapePrefix(fs, gs, tags);
    ReadsIsPrefix(payload, start, EncodeFields(fs), pos);
    assert gs[..n] == fs by { UniqueFields(gs[..n], fs, body); }
    DropPrefix(EncodeFields(fs), EncodeField(gs[n]), body);
    assert body[pos - start..] == payload[pos..];
  }

  lemma RejectField(payload: Text, start: nat, tags: seq<Tag>, pos: nat, fs: seq<Field>)
    requires Parsed(payload, start, tags, pos, fs) && |fs| < |tags|
    requires NoField(payload, pos, tags[|fs|])
    ensures Rejected(payload, start, tags)
  {
    forall gs ensures !MakeUp(payload, start, tags, gs) {
      if MakeUp(payload, start, tags, gs) {
        NextFieldThere(payload, start, tags, pos, fs, gs);
        NoFieldStarts(payload, pos, gs[|fs|]);
        assert false;
      }
    }
  }

  lemma RejectTrailing(payload: Text, start: nat, tags: seq<Tag>, pos: nat, fs: seq<Field>)
    requires Parsed(payload, start, tags, pos, fs) && |fs| == |tags| && pos < |payload|
    ensures Rejected(payload, start, tags)
  {
    ReadsIsPrefix(payload, start, EncodeFields(fs), pos);
    forall gs ensures !MakeUp(payload, start, tags, gs) {
      if MakeUp(payload, start, tags, gs) {
        UniqueFields(gs, fs, payload[start..]);
        assert false;
      }
    }
  }

  lemma ParsedNext(payload: Text, start: nat, tags: seq<Tag>, pos: nat, fs: seq<Field>, f: Field, next: nat)
    requires Parsed(payload, start, tags, pos, fs) && |fs| < |tags| && TagOf(f) == tags[|fs|]
    requires Reads(payload, pos, f, next)
    ensures Parsed(payload, start, tags, next, fs + [f])
  {
    BytesNext(payload, start, pos, fs, f, next);
    ShapeSnoc(fs, f, tags);
  }

  lemma BytesNext(payload: Text, start: nat, pos: nat, fs: seq<Field>, f: Field, next: nat)
    requires start <= pos <= next <= |payload|
    requires payload[start..pos] == EncodeFields(fs) && payload[pos..next] == EncodeField(f)
    ensures payload[start..next] == EncodeFields(fs + [f])
  {
    EncodeFieldsSnoc(fs, f);
    SplitSlice(payload, start, pos, next);
  }

  lemma SplitSlice(s: Text, a: nat, b: nat, c: nat)
    requires a <= b <= c <= |s|
    ensures s[a..c] == s[a..b] + s[b..c]
  {
  }

  lemma ShapeSnoc(fs: seq<Field>, f: Field, tags: seq<Tag>)
    requires |fs| < |tags| && ShapedSoFar(fs, tags) && TagOf(f) == tags[|fs|]
    requires AllFit(fs) && FieldFits(f)
    ensures ShapedSoFar(fs + [f], tags) && AllFit(fs + [f])
  {
  }

  // ----- decoding steps

  /** One decoding step of a parse: skipped once an earlier field has failed, as && skips it. */
  ghost predicate Ready(payload: Text, start: nat, tags: seq<Tag>, valid: bool, pos: nat, fs: seq<Field>, tag: Tag) {
    && start <= |payload|
    && (valid ==> Parsed(payload, start, tags, pos, fs) && |fs| < |tags| && tags[|fs|] == tag)
    && (!valid ==> Rejected(payload, start, tags))
  }

  method NextU32(payload: Text, start: nat, tags: seq<Tag>, valid: bool, pos: nat, ghost fs: seq<Field>)
    returns (ok: bool, next: nat, value: nat)
    requires Ready(payload, start, tags, valid, pos, fs, U32Tag)
    ensures ok ==> valid && value < TWO_32 && Parsed(payload, start, tags, next, fs + [U32(value)])
    ensures !ok ==> Rejected(payload, start, tags)
  {
    if !valid {
      return false, pos, 0;
    }
    ok, next, value := GetU32(payload, pos);
    if ok {
      ParsedNext(payload, start, tags, pos, fs, U32(value), next);
    } else {
      RejectField(payload, start, tags, pos, fs);
    }
  }

  method NextU64(payload: Text, start: nat, tags: seq<Tag>, valid: bool, pos: nat, ghost fs: seq<Field>)
    returns (ok: bool, next: nat, value: nat)
    requires Ready(payload, start, tags, valid, pos, fs, U64Tag)
    ensures ok ==> valid && value < TWO_64 && Parsed(payload, start, tags, next, fs + [U64(value)])
    ensures !ok ==> Rejected(payload, start, tags)
  {
    if !valid {
      return false, pos, 0;
    }
    ok, next, value := GetU64(payload, pos);
    if ok {
      ParsedNext(payload, start, tags, pos, fs, U64(value), next);
    } else {
      RejectField(payload, start, tags, pos, fs);
    }
  }

  method NextString(payload: Text, start: nat, tags: seq<Tag>, valid: bool, pos: nat, ghost fs: seq<Field>)
    returns (ok: bool, next: nat, value: Text)
    requires Ready(payload, start, tags, valid, pos, fs, StrTag)
    ensures ok ==> valid && Parsed(payload, start, tags, next, fs + [Str(value)])
    ensures !ok ==> Rejected(payload, start, tags)
  {
    if !valid {
      return false, pos, [];
    }
    ok, next, value := GetString(payload, pos);
    if ok {
      ParsedNext(payload, start, tags, pos, fs, Str(value), next);
    } else {
      RejectField(payload, start, tags, pos, fs);
    }
  }

  method NextStrings(payload: Text, start: nat, tags: seq<Tag>, valid: bool, pos: nat, ghost fs: seq<Field>)
    returns (ok: bool, next: nat, value: seq<Text>)
    requires Ready(payload, start, tags, valid, pos, fs, StrsTag)
    ensures ok ==> valid && Parsed(payload, start, tags, next, fs + [Strs(value)])
    ensures !ok ==> Rejected(payload, start, tags)
  {
    if !valid {
      return false, pos, [];
    }
    ok, next, value := GetStrings(payload, pos);
    if ok {
      ParsedNext(payload, start, tags, pos, fs, Strs(value), next);
    } else {
      RejectField(payload, start, tags, pos, fs);
    }
  }

  method NextLongs(payload: Text, start: nat, tags: seq<Tag>, valid: bool, pos: nat, ghost fs: seq<Field>)
    returns (ok: bool, next: nat, value: seq<nat>)
    requires Ready(payload, start, tags, valid, pos, fs, LongsTag)
    ensures ok ==> valid && Parsed(payload, start, tags, next, fs + [Longs(value)])
    ensures !ok ==> Rejected(payload, start, tags)
  {
    if !valid {
      return false, pos, [];
    }
    ok, next, value := GetLongs(payload, pos);
    if ok {
      ParsedNext(payload, start, tags, pos, fs, Longs(value), next);
    } else {
      RejectField(payload, start, tags, pos, fs);
    }
  }
}

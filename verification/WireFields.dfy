/** The fields that make up protocol payloads: their encoding and its unique decodability. */
module WireFields {
  import opened Bytes

  type Text = seq<Byte>

  /** kMaxStringBytes and kMaxBatchMessages */
  const MAX_STRING: nat := 16 * 1024 * 1024
  const MAX_BATCH: nat := 10000

  datatype Field =
    | U32(n: nat)
    | U64(n: nat)
    | Str(s: Text)
    | Strs(ss: seq<Text>)
    | Longs(ns: seq<nat>)

  datatype Tag = U32Tag | U64Tag | StrTag | StrsTag | LongsTag

  function TagOf(f: Field): Tag {
    match f
    case U32(_) => U32Tag
    case U64(_) => U64Tag
    case Str(_) => StrTag
    case Strs(_) => StrsTag
    case Longs(_) => LongsTag
  }

  /** put_string: the length is cut to 32 bits. */
  function EncodeText(s: Text): Text {
    BigEndian(|s|, 4) + s
  }

  function EncodeTexts(ss: seq<Text>): Text {
    if |ss| == 0 then [] else EncodeTexts(ss[..|ss| - 1]) + EncodeText(ss[|ss| - 1])
  }

  function EncodeLongs(ns: seq<nat>): Text {
    if |ns| == 0 then [] else EncodeLongs(ns[..|ns| - 1]) + BigEndian(ns[|ns| - 1], 8)
  }

  function EncodeField(f: Field): Text {
    match f
    case U32(n) => BigEndian(n, 4)
    case U64(n) => BigEndian(n, 8)
    case Str(s) => EncodeText(s)
    case Strs(ss) => BigEndian(|ss|, 4) + EncodeTexts(ss)
    case Longs(ns) => BigEndian(|ns|, 4) + EncodeLongs(ns)
  }

  function EncodeFields(fs: seq<Field>): Text {
    if |fs| == 0 then [] else EncodeFields(fs[..|fs| - 1]) + EncodeField(fs[|fs| - 1])
  }

  /** What the decoder accepts. */
  ghost predicate FieldFits(f: Field) {
    match f
    case U32(n) => n < TWO_32
    case U64(n) => n < TWO_64
    case Str(s) => |s| <= MAX_STRING
    case Strs(ss) => |ss| <= MAX_BATCH && forall i :: 0 <= i < |ss| ==> |ss[i]| <= MAX_STRING
    case Longs(ns) => |ns| <= MAX_BATCH && forall i :: 0 <= i < |ns| ==> ns[i] < TWO_64
  }

  ghost predicate AllFit(fs: seq<Field>) {
    forall i :: 0 <= i < |fs| ==> FieldFits(fs[i])
  }

  /** Two field lists read by the same code: same number of fields, same kinds. */
  ghost predicate SameTags(fs: seq<Field>, gs: seq<Field>) {
    |fs| == |gs| && forall i :: 0 <= i < |fs| ==> TagOf(fs[i]) == TagOf(gs[i])
  }

  // ----- prefixes

  lemma PrefixOfPrefixes(a: Text, b: Text, whole: Text)
    requires a <= whole && b <= whole && |a| <= |b|
    ensures a <= b
  {
  }

  lemma DropPrefix(a: Text, x: Text, whole: Text)
    requires a + x <= whole
    ensures a <= whole && x <= whole[|a|..]
  {
    assert a == (a + x)[..|a|];
    assert x == (a + x)[|a|..];
  }

  lemma SplitPrefix(a: Text, x: Text, b: Text, y: Text, whole: Text)
    requires a + x <= whole && b + y <= whole && |a| == |b|
    ensures a == b && x <= whole[|a|..] && y <= whole[|a|..]
  {
    DropPrefix(a, x, whole);
    DropPrefix(b, y, whole);
  }

  // ----- unique decodability: at most one value of each kind can be read off a byte string

  lemma UniqueNumber(m: nat, n: nat, k: nat, whole: Text)
    requires m < Pow256(k) && n < Pow256(k)
    requires BigEndian(m, k) <= whole && BigEndian(n, k) <= whole
    ensures m == n
  {
    BigEndianRoundTrip(m, k);
    BigEndianRoundTrip(n, k);
    PrefixOfPrefixes(BigEndian(m, k), BigEndian(n, k), whole);
  }

  lemma UniqueText(s: Text, t: Text, whole: Text)
    requires |s| <= MAX_STRING && |t| <= MAX_STRING
    requires EncodeText(s) <= whole && EncodeText(t) <= whole
    ensures s == t
  {
    WordSizes();
    SplitPrefix(BigEndian(|s|, 4), s, BigEndian(|t|, 4), t, whole);
    UniqueNumber(|s|, |t|, 4, whole);
  }

  lemma UniqueLastText(a: Text, s: Text, t: Text, whole: Text)
    requires |s| <= MAX_STRING && |t| <= MAX_STRING
    requires a + EncodeText(s) <= whole && a + EncodeText(t) <= whole
    ensures s == t
  {
    DropPrefix(a, EncodeText(s), whole);
    DropPrefix(a, EncodeText(t), whole);
    UniqueText(s, t, whole[|a|..]);
  }

  lemma {:induction false} UniqueTexts(ss: seq<Text>, tt: seq<Text>, whole: Text)
    requires |ss| == |tt|
    requires forall i :: 0 <= i < |ss| ==> |ss[i]| <= MAX_STRING && |tt[i]| <= MAX_STRING
    requires EncodeTexts(ss) <= whole && EncodeTexts(tt) <= whole
    ensures ss == tt
  {
    if |ss| > 0 {
      var n := |ss| - 1;
      assert ss[..n] == tt[..n] by {
        DropPrefix(EncodeTexts(ss[..n]), EncodeText(ss[n]), whole);
        DropPrefix(EncodeTexts(tt[..n]), EncodeText(tt[n]), whole);
        UniqueTexts(ss[..n], tt[..n], whole);
      }
      UniqueLastText(EncodeTexts(ss[..n]), ss[n], tt[n], whole);
      assert ss == ss[..n] + [ss[n]] && tt == tt[..n] + [tt[n]];
    }
  }

  lemma {:induction false} UniqueLongs(ms: seq<nat>, ns: seq<nat>, whole: Text)
    requires |ms| == |ns|
    requires forall i :: 0 <= i < |ms| ==> ms[i] < TWO_64 && ns[i] < TWO_64
    requires EncodeLongs(ms) <= whole && EncodeLongs(ns) <= whole
    ensures ms == ns
  {
    if |ms| > 0 {
      var n := |ms| - 1;
      var a, b := EncodeLongs(ms[..n]), EncodeLongs(ns[..n]);
      DropPrefix(a, BigEndian(ms[n], 8), whole);
      DropPrefix(b, BigEndian(ns[n], 8), whole);
      UniqueLongs(ms[..n], ns[..n], whole);
      WordSizes();
      UniqueNumber(ms[n], ns[n], 8, whole[|a|..]);
      assert ms == ms[..n] + [ms[n]] && ns == ns[..n] + [ns[n]];
    }
  }

  lemma UniqueField(f: Field, g: Field, whole: Text)
    requires TagOf(f) == TagOf(g) && FieldFits(f) && FieldFits(g)
    requires EncodeField(f) <= whole && EncodeField(g) <= whole
    ensures f == g
  {
    WordSizes();
    match f
    case U32(n) => UniqueNumber(n, g.n, 4, whole);
    case U64(n) => UniqueNumber(n, g.n, 8, whole);
    case Str(s) => UniqueText(s, g.s, whole);
    case Strs(ss) =>
      SplitPrefix(BigEndian(|ss|, 4), EncodeTexts(ss), BigEndian(|g.ss|, 4), EncodeTexts(g.ss), whole);
      UniqueNumber(|ss|, |g.ss|, 4, whole);
      UniqueTexts(ss, g.ss, whole[4..]);
    case Longs(ns) =>
      SplitPrefix(BigEndian(|ns|, 4), EncodeLongs(ns), BigEndian(|g.ns|, 4), EncodeLongs(g.ns), whole);
      UniqueNumber(|ns|, |g.ns|, 4, whole);
      UniqueLongs(ns, g.ns, whole[4..]);
  }

  lemma SameTagsFront(fs: seq<Field>, gs: seq<Field>)
    requires SameTags(fs, gs) && |fs| > 0 && AllFit(fs) && AllFit(gs)
    ensures SameTags(fs[..|fs| - 1], gs[..|gs| - 1]) && AllFit(fs[..|fs| - 1]) && AllFit(gs[..|gs| - 1])
    ensures TagOf(fs[|fs| - 1]) == TagOf(gs[|gs| - 1]) && FieldFits(fs[|fs| - 1]) && FieldFits(gs[|gs| - 1])
  {
  }

  lemma UniqueLastField(a: Text, f: Field, g: Field, whole: Text)
    requires TagOf(f) == TagOf(g) && FieldFits(f) && FieldFits(g)
    requires a + EncodeField(f) <= whole && a + EncodeField(g) <= whole
    ensures f == g
  {
    DropPrefix(a, EncodeField(f), whole);
    DropPrefix(a, EncodeField(g), whole);
    UniqueField(f, g, whole[|a|..]);
  }

  /** Fields of the same kinds that both begin the same byte string are the same fields. */
  lemma {:induction false} UniqueFields(fs: seq<Field>, gs: seq<Field>, whole: Text)
    requires SameTags(fs, gs) && AllFit(fs) && AllFit(gs)
    requires EncodeFields(fs) <= whole && EncodeFields(gs) <= whole
    ensures fs == gs
  {
    if |fs| > 0 {
      var n := |fs| - 1;
      SameTagsFront(fs, gs);
      FrontBegins(fs, whole);
      FrontBegins(gs, whole);
      UniqueFields(fs[..n], gs[..n], whole);
      UniqueLastField(EncodeFields(fs[..n]), fs[n], gs[n], whole);
      SameFrontAndLast(fs, gs);
    }
  }

  lemma SameFrontAndLast(fs: seq<Field>, gs: seq<Field>)
    requires |fs| == |gs| > 0 && fs[..|fs| - 1] == gs[..|fs| - 1] && fs[|fs| - 1] == gs[|fs| - 1]
    ensures fs == gs
  {
    assert fs == fs[..|fs| - 1] + [fs[|fs| - 1]] && gs == gs[..|fs| - 1] + [gs[|fs| - 1]];
  }

  lemma FrontBegins(fs: seq<Field>, whole: Text)
    requires |fs| > 0 && EncodeFields(fs) <= whole
    ensures EncodeFields(fs[..|fs| - 1]) <= whole
    ensures EncodeFields(fs[..|fs| - 1]) + EncodeField(fs[|fs| - 1]) <= whole
  {
    DropPrefix(EncodeFields(fs[..|fs| - 1]), EncodeField(fs[|fs| - 1]), whole);
  }

  lemma EncodeFieldsSnoc(fs: seq<Field>, f: Field)
    ensures EncodeFields(fs + [f]) == EncodeFields(fs) + EncodeField(f)
  {
    assert (fs + [f])[..|fs|] == fs;
  }
}

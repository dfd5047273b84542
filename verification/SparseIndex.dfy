/** Where records live: segments as lists of records, the logical offsets they induce, and the
    sparse index as a function of the segments. */
module SparseIndex {
  import opened Records

  /** kIndexStride */
  const STRIDE: nat := 64

  type Segments = seq<seq<Message>>

  datatype Entry = Entry(offset: nat, segment: nat, position: nat)

  /** The partition log as one sequence of messages. */
  function Flatten(segs: Segments): seq<Message> {
    if |segs| == 0 then [] else Flatten(segs[..|segs| - 1]) + segs[|segs| - 1]
  }

  /** Offset of the first record of segment s. */
  function Base(segs: Segments, s: nat): nat
    requires s <= |segs|
  {
    |Flatten(segs[..s])|
  }

  /** Logical offset of record i of segment s. */
  function Offset(segs: Segments, s: nat, i: nat): nat
    requires s < |segs|
  {
    Base(segs, s) + i
  }

  /** Record i of segment s is a checkpoint when its offset is on the stride or it opens the segment. */
  predicate OnCheckpoint(base: nat, i: nat) {
    (base + i) % STRIDE == 0 || i == 0
  }

  function SegmentIndex(s: nat, base: nat, rs: seq<Message>): seq<Entry> {
    if |rs| == 0 then []
    else
      var i := |rs| - 1;
      SegmentIndex(s, base, rs[..i]) + if OnCheckpoint(base, i) then [Entry(base + i, s, Position(rs, i))] else []
  }

  function IndexOf(segs: Segments): seq<Entry> {
    if |segs| == 0 then []
    else
      var s := |segs| - 1;
      IndexOf(segs[..s]) + SegmentIndex(s, Base(segs, s), segs[s])
  }

  /** Independent description of one index entry: it names a record that is a checkpoint and the
      byte position of that record. */
  ghost predicate IsCheckpoint(segs: Segments, e: Entry) {
    && e.segment < |segs|
    && var base, rs := Base(segs, e.segment), segs[e.segment];
    && base <= e.offset < base + |rs|
    && OnCheckpoint(base, e.offset - base)
    && e.position == Position(rs, e.offset - base)
  }

  ghost predicate StrictlySorted(index: seq<Entry>) {
    forall i, j :: 0 <= i < j < |index| ==> index[i].offset < index[j].offset
  }

  // ----- offsets and locations

  lemma FlattenSnoc(segs: Segments, rs: seq<Message>)
    ensures Flatten(segs + [rs]) == Flatten(segs) + rs
  {
    assert (segs + [rs])[..|segs|] == segs;
  }

  lemma {:induction false} FlattenAt(segs: Segments, s: nat, i: nat)
    requires s < |segs| && i < |segs[s]|
    ensures Base(segs, s) + i < |Flatten(segs)|
    ensures Flatten(segs)[Base(segs, s) + i] == segs[s][i]
  {
    var n := |segs| - 1;
    if s < n {
      FlattenAt(segs[..n], s, i);
      assert segs[..n][..s] == segs[..s];
    }
  }

  lemma {:induction false} BaseNext(segs: Segments, s: nat, t: nat)
    requires s < t <= |segs|
    ensures Base(segs, s) + |segs[s]| <= Base(segs, t)
    ensures t == s + 1 ==> Base(segs, s) + |segs[s]| == Base(segs, t)
    decreases t
  {
    assert segs[..t][..t - 1] == segs[..t - 1];
    if s < t - 1 {
      BaseNext(segs, s, t - 1);
    }
  }

  /** Every offset below the end of the log lives in some segment... */
  lemma {:induction false} Locate(segs: Segments, o: nat) returns (s: nat, i: nat)
    requires o < |Flatten(segs)|
    ensures s < |segs| && i < |segs[s]| && Offset(segs, s, i) == o
  {
    var n := |segs| - 1;
    if o < |Flatten(segs[..n])| {
      s, i := Locate(segs[..n], o);
      assert segs[..n][..s] == segs[..s];
    } else {
      s, i := n, o - |Flatten(segs[..n])|;
    }
  }

  /** ... and in one segment only. */
  lemma LocatedOnce(segs: Segments, o: nat, s: nat, t: nat)
    requires s < |segs| && Base(segs, s) <= o < Base(segs, s) + |segs[s]|
    requires t < |segs| && Base(segs, t) <= o < Base(segs, t) + |segs[t]|
    ensures s == t
  {
    if s < t { BaseNext(segs, s, t); }
    if t < s { BaseNext(segs, t, s); }
  }

  // ----- the index is exact

  lemma {:induction false} SegmentIndexExact(s: nat, base: nat, rs: seq<Message>, e: Entry)
    ensures e in SegmentIndex(s, base, rs) <==>
            && e.segment == s && base <= e.offset < base + |rs|
            && OnCheckpoint(base, e.offset - base) && e.position == Position(rs, e.offset - base)
  {
    if |rs| > 0 {
      var i := |rs| - 1;
      SegmentIndexExact(s, base, rs[..i], e);
      if base <= e.offset < base + i {
        assert rs[..i][..e.offset - base] == rs[..e.offset - base];
      }
    }
  }

  /** Canonical index: an entry is in the index exactly when it is a checkpoint of the segments. */
  lemma {:induction false} CheckpointsIndexed(segs: Segments, e: Entry)
    ensures e in IndexOf(segs) <==> IsCheckpoint(segs, e)
  {
    if |segs| > 0 {
      var n := |segs| - 1;
      CheckpointsIndexed(segs[..n], e);
      SegmentIndexExact(n, Base(segs, n), segs[n], e);
      if e.segment < n {
        assert segs[..n][..e.segment] == segs[..e.segment];
      }
    }
  }

  /** An entry is in the index exactly when it names a record whose offset is a multiple of 64 or which opens its
      segment, with that record's byte position. */
  lemma IndexExact(segs: Segments, e: Entry)
    ensures e in IndexOf(segs) <==>
            && e.segment < |segs| && Base(segs, e.segment) <= e.offset < Base(segs, e.segment) + |segs[e.segment]|
            && (e.offset % 64 == 0 || e.offset == Base(segs, e.segment))
            && e.position == Position(segs[e.segment], e.offset - Base(segs, e.segment))
  {
    CheckpointsIndexed(segs, e);
  }

  lemma {:induction false} SegmentIndexSorted(s: nat, base: nat, rs: seq<Message>)
    ensures StrictlySorted(SegmentIndex(s, base, rs))
  {
    if |rs| > 0 {
      var front := SegmentIndex(s, base, rs[..|rs| - 1]);
      SegmentIndexSorted(s, base, rs[..|rs| - 1]);
      forall k | 0 <= k < |front| ensures front[k].offset < base + |rs| - 1 {
        SegmentIndexExact(s, base, rs[..|rs| - 1], front[k]);
      }
    }
  }

  /** The index is strictly sorted by offset, so it holds each checkpoint once. */
  lemma {:induction false} IndexSorted(segs: Segments)
    ensures StrictlySorted(IndexOf(segs))
  {
    if |segs| > 0 {
      var n := |segs| - 1;
      var front, back := IndexOf(segs[..n]), SegmentIndex(n, Base(segs, n), segs[n]);
      IndexSorted(segs[..n]);
      SegmentIndexSorted(n, Base(segs, n), segs[n]);
      forall j, k | 0 <= j < |front| && 0 <= k < |back| ensures front[j].offset < back[k].offset {
        CheckpointsIndexed(segs[..n], front[j]);
        SegmentIndexExact(n, Base(segs, n), segs[n], back[k]);
        BaseNext(segs[..n], front[j].segment, n);
        assert segs[..n][..n] == segs[..n];
      }
    }
  }

  // ----- how one append changes the layout

  /** The record goes to the last segment. */
  function AppendRecord(segs: Segments, m: Message): Segments
    requires |segs| > 0
  {
    segs[|segs| - 1 := segs[|segs| - 1] + [m]]
  }

  /** The entry an append pushes, if any: Log::append and Log::recover_wal share this rule. */
  function NewEntries(offset: nat, segment: nat, position: nat): seq<Entry> {
    if offset % STRIDE == 0 || position == 0 then [Entry(offset, segment, position)] else []
  }

  lemma IndexSnoc(front: Segments, last: seq<Message>)
    ensures IndexOf(front + [last]) == IndexOf(front) + SegmentIndex(|front|, |Flatten(front)|, last)
  {
    assert (front + [last])[..|front|] == front;
  }

  lemma SegmentIndexSnoc(s: nat, base: nat, rs: seq<Message>, m: Message)
    ensures SegmentIndex(s, base, rs + [m]) ==
            SegmentIndex(s, base, rs) + NewEntries(base + |rs|, s, |EncodeRecords(rs)|)
  {
    assert (rs + [m])[..|rs|] == rs;
    PositionZero(rs);
  }

  /** An append extends the log by the message and the index by at most one entry. */
  lemma AppendExtends(segs: Segments, m: Message)
    requires |segs| > 0
    ensures Flatten(AppendRecord(segs, m)) == Flatten(segs) + [m]
    ensures IndexOf(AppendRecord(segs, m)) ==
            IndexOf(segs) + NewEntries(|Flatten(segs)|, |segs| - 1, |EncodeRecords(segs[|segs| - 1])|)
  {
    var front, last := segs[..|segs| - 1], segs[|segs| - 1];
    assert segs == front + [last];
    assert AppendRecord(segs, m) == front + [last + [m]];
    FlattenSnoc(front, last);
    FlattenSnoc(front, last + [m]);
    IndexSnoc(front, last);
    IndexSnoc(front, last + [m]);
    SegmentIndexSnoc(|front|, |Flatten(front)|, last, m);
  }

  lemma PositionZero(rs: seq<Message>)
    ensures |EncodeRecords(rs)| == 0 <==> |rs| == 0
  {
  }

  lemma RollKeeps(segs: Segments)
    ensures Flatten(segs + [[]]) == Flatten(segs)
    ensures IndexOf(segs + [[]]) == IndexOf(segs)
  {
    FlattenSnoc(segs, []);
    IndexSnoc(segs, []);
  }

  // ----- looking up an offset

  /** std::upper_bound on the index: how many entries have an offset of at most o. */
  function UpperBound(index: seq<Entry>, o: nat): (u: nat)
    ensures u <= |index|
    ensures forall k :: 0 <= k < u ==> index[k].offset <= o
    ensures u < |index| ==> index[u].offset > o
  {
    if |index| == 0 || index[0].offset > o then 0 else 1 + UpperBound(index[1..], o)
  }

  /** Less than one stride before any offset, in the same segment, there is a checkpoint. */
  lemma NearestCheckpoint(segs: Segments, s: nat, i: nat) returns (c: Entry)
    requires s < |segs| && i < |segs[s]|
    ensures IsCheckpoint(segs, c)
    ensures c.segment == s && c.offset <= Offset(segs, s, i) < c.offset + STRIDE
  {
    var base, o := Base(segs, s), Offset(segs, s, i);
    var start := if o - o % STRIDE < base then base else o - o % STRIDE;
    c := Entry(start, s, Position(segs[s], start - base));
    assert OnCheckpoint(base, start - base);
  }

  lemma UpperBoundAfter(index: seq<Entry>, o: nat, e: Entry)
    requires StrictlySorted(index)
    requires e in index && e.offset <= o
    ensures UpperBound(index, o) > 0
    ensures e.offset <= index[UpperBound(index, o) - 1].offset <= o
  {
    var k :| 0 <= k < |index| && index[k] == e;
    var u := UpperBound(index, o);
    assert k < u;
  }

  /** The checkpoint chosen for offset o is in o's own segment and less than one stride before o. */
  lemma CheckpointFor(segs: Segments, o: nat)
    requires o < |Flatten(segs)|
    ensures UpperBound(IndexOf(segs), o) > 0
    ensures var e := IndexOf(segs)[UpperBound(IndexOf(segs), o) - 1];
            && IsCheckpoint(segs, e)
            && e.offset <= o < e.offset + STRIDE
            && o < Base(segs, e.segment) + |segs[e.segment]|
  {
    var s, i := Locate(segs, o);
    var c := NearestCheckpoint(segs, s, i);
    CheckpointsIndexed(segs, c);
    IndexSorted(segs);
    UpperBoundAfter(IndexOf(segs), o, c);
    var e := IndexOf(segs)[UpperBound(IndexOf(segs), o) - 1];
    CheckpointsIndexed(segs, e);
    LocatedOnce(segs, e.offset, s, e.segment);
  }
}

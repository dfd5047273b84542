/** Crash recovery of one partition log. A store is what the file system holds; every file
    operation of the process is one step; a crash keeps a byte prefix of the segments, in record
    order, and a byte prefix of the write-ahead log. */
module Recovery {
  import opened Bytes
  import opened Records
  import opened SparseIndex
  import opened Wal

  type Files = seq<seq<Byte>>

  /** segs: records per segment file. durable: bytes of each segment known to be on stable
      storage. wal, walDurable: likewise for the write-ahead log, whose first entry is for offset
      start. history: every message ever appended that has not been lost to a crash, in order. */
  datatype Store = Store(segs: Segments, durable: seq<nat>, wal: seq<Byte>, walDurable: nat,
                         start: nat, history: seq<Message>)

  function Encoded(segs: Segments): (files: Files)
    ensures |files| == |segs|
    ensures forall s :: 0 <= s < |segs| ==> files[s] == EncodeRecords(segs[s])
  {
    if |segs| == 0 then [] else Encoded(segs[..|segs| - 1]) + [EncodeRecords(segs[|segs| - 1])]
  }

  // ----- reopening

  function ScanAll(files: Files): (segs: Segments)
    ensures |segs| == |files|
    ensures forall s :: 0 <= s < |files| ==> segs[s] == Scan(files[s], 0)
  {
    if |files| == 0 then [] else ScanAll(files[..|files| - 1]) + [Scan(files[|files| - 1], 0)]
  }

  /** Log::load_existing_segments: an empty directory gets one empty segment. */
  function Load(files: Files): (segs: Segments)
    ensures |segs| > 0
  {
    if |files| == 0 then [[]] else ScanAll(files)
  }

  /** Log::recover_wal: an entry is appended exactly when it continues the log. */
  function Replay(segs: Segments, es: seq<WalEntry>): (r: Segments)
    requires |segs| > 0
    ensures |r| == |segs|
    decreases |es|
  {
    if |es| == 0 then segs
    else if es[0].offset == |Flatten(segs)| then Replay(AppendRecord(segs, es[0].message), es[1..])
    else Replay(segs, es[1..])
  }

  /** The segments after Log's constructor. */
  function Reopen(files: Files, wal: seq<Byte>): Segments {
    Replay(Load(files), DecodeWal(wal))
  }

  // ----- crashing

  function TotalBytes(files: Files): nat {
    if |files| == 0 then 0 else TotalBytes(files[..|files| - 1]) + |files[|files| - 1]|
  }

  /** The first b bytes of the files, taken in order; everything after them is gone. */
  function FirstBytes(files: Files, b: nat): (r: Files)
    ensures |r| == |files|
  {
    if |files| == 0 then []
    else
      var n := |files| - 1;
      var before := TotalBytes(files[..n]);
      if b <= before then FirstBytes(files[..n], b) + [[]]
      else files[..n] + [files[n][..Min(b - before, |files[n]|)]]
  }

  /** A crash point in the segment data: the bytes kept and the files still present. */
  datatype Cut = Cut(bytes: nat, present: nat)

  /** Segment files a crash can leave: a byte prefix that covers everything synced. Only files that
      kept no byte may be missing. */
  ghost predicate SegmentImage(st: Store, cut: Cut, files: Files) {
    && cut.present <= |st.segs| == |st.durable|
    && Covers(FirstBytes(Encoded(st.segs), cut.bytes), st.durable, cut.present)
    && files == FirstBytes(Encoded(st.segs), cut.bytes)[..cut.present]
  }

  ghost predicate Covers(kept: Files, durable: seq<nat>, n: nat)
    requires |kept| == |durable|
  {
    && (forall s :: n <= s < |kept| ==> kept[s] == [])
    && (forall s :: 0 <= s < |kept| ==> |kept[s]| >= durable[s])
  }

  ghost predicate WalImage(st: Store, wal: seq<Byte>) {
    wal <= st.wal && |wal| >= st.walDurable
  }

  /** Complete records that survive in the segments. */
  function Survivors(files: Files): nat {
    |Flatten(Load(files))|
  }

  /** The offset up to which the write-ahead log survives. */
  function WalEnd(wal: seq<Byte>): nat {
    var es := DecodeWal(wal);
    if |es| == 0 then 0 else es[|es| - 1].offset + 1
  }

  // ----- the invariant

  /** The first count records are entirely inside the durable part of their segments. */
  ghost predicate DurableCovers(segs: Segments, durable: seq<nat>, count: nat) {
    && |durable| == |segs|
    && forall s, i :: 0 <= s < |segs| && 0 <= i < |segs[s]| && Offset(segs, s, i) < count ==>
      End(segs[s], i) <= durable[s]
  }

  /** The entries are the records of history from offset start on. */
  ghost predicate TrueEntries(es: seq<WalEntry>, start: nat, history: seq<Message>) {
    && start + |es| <= |history|
    && forall i :: 0 <= i < |es| ==> es[i] == WalEntry(start + i, history[start + i])
  }

  ghost predicate Inv(st: Store) {
    && |st.segs| > 0
    && st.walDurable <= |st.wal|
    && Flatten(st.segs) <= st.history
    && st.start <= |Flatten(st.segs)|
    && DurableCovers(st.segs, st.durable, st.start)
    && TrueEntries(DecodeWal(st.wal), st.start, st.history)
  }

  // ----- what survives a crash

  lemma ScanAllSnoc(files: Files, data: seq<Byte>)
    ensures ScanAll(files + [data]) == ScanAll(files) + [Scan(data, 0)]
  {
    assert (files + [data])[..|files|] == files;
  }

  lemma {:induction false} ScanAllEncoded(segs: Segments)
    ensures ScanAll(Encoded(segs)) == segs
  {
    if |segs| > 0 {
      var n := |segs| - 1;
      ScanAllEncoded(segs[..n]);
      ScanAllSnoc(Encoded(segs[..n]), EncodeRecords(segs[n]));
      ScanWhole(segs[n]);
    }
  }

  lemma ScanWhole(rs: seq<Message>)
    ensures Scan(EncodeRecords(rs), 0) == rs
  {
    assert EncodeRecords(rs) + [] == EncodeRecords(rs);
    assert Torn([], []);
    assert Position(rs, 0) == 0;
    ScanInvertsWriting(rs, 0, [], []);
  }

  /** A byte prefix of a segment holds j whole records: those that end inside it. */
  ghost predicate Holds(rs: seq<Message>, c: nat, j: nat) {
    && j <= |rs|
    && (forall i :: 0 <= i < j ==> End(rs, i) <= c)
    && (forall i :: j <= i < |rs| ==> c < End(rs, i))
  }

  lemma {:induction false} CountHeld(rs: seq<Message>, c: nat) returns (j: nat)
    ensures Holds(rs, c, j)
    ensures Position(rs, j) <= c
    ensures j < |rs| ==> c < Position(rs, j) + 8 + |rs[j]|
  {
    j := 0;
    while j < |rs| && End(rs, j) <= c
      invariant j <= |rs| && Position(rs, j) <= c
      invariant forall i :: 0 <= i < j ==> End(rs, i) <= c
    {
      j := j + 1;
    }
    if j < |rs| {
      EncodeSplit(rs, j);
      forall i | j <= i < |rs| ensures c < End(rs, i) { PositionMonotone(rs, j + 1, i + 1); }
    }
  }

  lemma PrefixIsTorn(rs: seq<Message>, c: nat, j: nat)
    requires j < |rs| && Position(rs, j) <= c < Position(rs, j) + 8 + |rs[j]|
    ensures c <= |EncodeRecords(rs)|
    ensures EncodeRecords(rs)[..c] == EncodeRecords(rs[..j]) + EncodeRecord(rs[j])[..c - Position(rs, j)]
  {
    EncodeSplit(rs, j);
    var a, b, rest := EncodeRecords(rs[..j]), EncodeRecord(rs[j]), EncodeRecords(rs[j + 1..]);
    assert (a + b + rest)[..c] == a + b[..c - |a|];
  }

  lemma ScanPrefix(rs: seq<Message>, c: nat) returns (j: nat)
    requires c <= |EncodeRecords(rs)|
    ensures Holds(rs, c, j)
    ensures Scan(EncodeRecords(rs)[..c], 0) == rs[..j]
  {
    j := CountHeld(rs, c);
    if j == |rs| {
      assert rs[..j] == rs;
      ScanWhole(rs);
      assert EncodeRecords(rs)[..c] == EncodeRecords(rs);
    } else {
      PrefixIsTorn(rs, c, j);
      var tail := EncodeRecord(rs[j])[..c - Position(rs, j)];
      assert Torn(tail, rs[j]);
      ScanInvertsWriting(rs[..j], 0, tail, rs[j]);
      assert Position(rs[..j], 0) == 0;
    }
  }

  /** Records from number k on are cut off in the kept files. */
  ghost predicate CutFrom(segs: Segments, kept: Files, k: nat)
    requires |kept| == |segs|
  {
    forall s, i :: 0 <= s < |segs| && 0 <= i < |segs[s]| && Offset(segs, s, i) >= k ==>
      |kept[s]| < End(segs[s], i)
  }

  /** Loading the files finds exactly the first k records. */
  ghost predicate Loads(segs: Segments, kept: Files, k: nat) {
    && |kept| == |segs| && k <= |Flatten(segs)|
    && Flatten(ScanAll(kept)) == Flatten(segs)[..k]
    && CutFrom(segs, kept, k)
  }

  lemma EncodedSnoc(front: Segments, last: seq<Message>)
    ensures Encoded(front + [last]) == Encoded(front) + [EncodeRecords(last)]
  {
    assert (front + [last])[..|front|] == front;
  }

  lemma FirstBytesSnoc(front: Files, last: seq<Byte>, b: nat)
    ensures FirstBytes(front + [last], b) ==
            if b <= TotalBytes(front) then FirstBytes(front, b) + [[]]
            else front + [last[..Min(b - TotalBytes(front), |last|)]]
  {
    assert (front + [last])[..|front|] == front;
  }

  /** The last file is gone or cut at byte c. */
  lemma LastFileLeft(front: Segments, last: seq<Message>, b: nat) returns (gone: bool, c: nat)
    ensures c <= |EncodeRecords(last)|
    ensures FirstBytes(Encoded(front + [last]), b) ==
            if gone then FirstBytes(Encoded(front), b) + [[]] else Encoded(front) + [EncodeRecords(last)[..c]]
  {
    EncodedSnoc(front, last);
    FirstBytesSnoc(Encoded(front), EncodeRecords(last), b);
    gone, c := b <= TotalBytes(Encoded(front)), 0;
    if !gone {
      c := Min(b - TotalBytes(Encoded(front)), |EncodeRecords(last)|);
    }
  }

  /** Whatever byte prefix of the segments survives, loading it finds a prefix of the log: the
      records whose last byte survived. */
  lemma {:induction false} LoadPrefix(segs: Segments, b: nat) returns (k: nat)
    ensures Loads(segs, FirstBytes(Encoded(segs), b), k)
  {
    if |segs| == 0 {
      k := 0;
    } else {
      var front, last := segs[..|segs| - 1], segs[|segs| - 1];
      assert segs == front + [last];
      var j := LoadPrefix(front, b);
      var gone, c := LastFileLeft(front, last, b);
      k := LoadPrefixSnoc(front, last, FirstBytes(Encoded(front), b), j, gone, c);
    }
  }

  lemma LoadPrefixSnoc(front: Segments, last: seq<Message>, kept: Files, j: nat, gone: bool, c: nat) returns (k: nat)
    requires Loads(front, kept, j) && c <= |EncodeRecords(last)|
    ensures Loads(front + [last], if gone then kept + [[]] else Encoded(front) + [EncodeRecords(last)[..c]], k)
  {
    if gone {
      k := j;
      LastFileGone(front, last, kept, j);
    } else {
      k := LastFileCut(front, last, c);
    }
  }

  lemma EmptyFileAdds(files: Files)
    ensures Flatten(ScanAll(files + [[]])) == Flatten(ScanAll(files))
  {
    ScanAllSnoc(files, []);
    FlattenSnoc(ScanAll(files), []);
  }

  lemma LastFileGone(front: Segments, last: seq<Message>, kept: Files, k: nat)
    requires Loads(front, kept, k)
    ensures Loads(front + [last], kept + [[]], k)
  {
    EmptyFileAdds(kept);
    FlattenSnoc(front, last);
    CutFromLonger(front, last, kept, k);
  }

  lemma CutFromLonger(front: Segments, last: seq<Message>, kept: Files, k: nat)
    requires |kept| == |front| && CutFrom(front, kept, k)
    ensures CutFrom(front + [last], kept + [[]], k)
  {
    var segs := front + [last];
    forall s, i | 0 <= s < |segs| && 0 <= i < |segs[s]| && Offset(segs, s, i) >= k
      ensures |(kept + [[]])[s]| < End(segs[s], i)
    {
      if s < |front| {
        assert segs[..s] == front[..s];
        assert Offset(front, s, i) >= k;
      } else {
        PositionMonotone(last, 0, i + 1);
      }
    }
  }

  lemma LastFileCut(front: Segments, last: seq<Message>, c: nat) returns (k: nat)
    requires c <= |EncodeRecords(last)|
    ensures Loads(front + [last], Encoded(front) + [EncodeRecords(last)[..c]], k)
  {
    var data := EncodeRecords(last)[..c];
    var j := ScanPrefix(last, c);
    k := |Flatten(front)| + j;
    LastFileScans(front, last, data, j);
    CutInLast(front, last, Encoded(front) + [data], j);
  }

  lemma LastFileScans(front: Segments, last: seq<Message>, data: seq<Byte>, j: nat)
    requires j <= |last| && Scan(data, 0) == last[..j]
    ensures |Flatten(front)| + j <= |Flatten(front + [last])|
    ensures Flatten(ScanAll(Encoded(front) + [data])) == Flatten(front + [last])[..|Flatten(front)| + j]
  {
    ScanAllSnoc(Encoded(front), data);
    ScanAllEncoded(front);
    FlattenSnoc(front, last[..j]);
    FlattenSnoc(front, last);
    PrefixOfSum(Flatten(front), last, j);
  }

  lemma PrefixOfSum(a: seq<Message>, b: seq<Message>, j: nat)
    requires j <= |b|
    ensures (a + b)[..|a| + j] == a + b[..j]
  {
  }

  lemma CutInLast(front: Segments, last: seq<Message>, kept: Files, j: nat)
    requires |kept| == |front| + 1
    requires Holds(last, |kept[|front|]|, j)
    ensures CutFrom(front + [last], kept, |Flatten(front)| + j)
  {
    var segs := front + [last];
    assert segs[..|front|] == front;
    forall s, i | 0 <= s < |segs| && 0 <= i < |segs[s]| && Offset(segs, s, i) >= |Flatten(front)| + j
      ensures |kept[s]| < End(segs[s], i)
    {
      if s < |front| { BaseNext(segs, s, |front|); }
    }
  }

  lemma {:induction false} ScanAllEmptyTail(files: Files, n: nat)
    requires n <= |files|
    requires forall s :: n <= s < |files| ==> files[s] == []
    ensures Flatten(ScanAll(files[..n])) == Flatten(ScanAll(files))
    decreases |files|
  {
    if n == |files| {
      assert files[..n] == files;
    } else {
      var front := files[..|files| - 1];
      assert files == front + [[]];
      EmptyFileAdds(front);
      ScanAllEmptyTail(front, n);
      assert front[..n] == files[..n];
    }
  }

  /** Loading a crash image yields a prefix of the log that contains every durable record. */
  lemma ImageLoads(st: Store, cut: Cut, files: Files, count: nat)
    requires SegmentImage(st, cut, files)
    requires count <= |Flatten(st.segs)|
    requires DurableCovers(st.segs, st.durable, count)
    ensures count <= Survivors(files) <= |Flatten(st.segs)|
    ensures Flatten(Load(files)) == Flatten(st.segs)[..Survivors(files)]
  {
    var kept := FirstBytes(Encoded(st.segs), cut.bytes);
    var k := LoadPrefix(st.segs, cut.bytes);
    LoadIgnoresEmptyTail(kept, cut.present);
    DurableKept(st.segs, st.durable, kept, k, count);
  }

  lemma LoadIgnoresEmptyTail(kept: Files, n: nat)
    requires n <= |kept|
    requires forall s :: n <= s < |kept| ==> kept[s] == []
    ensures Flatten(Load(kept[..n])) == Flatten(ScanAll(kept))
  {
    ScanAllEmptyTail(kept, n);
    if n == 0 {
      FlattenSnoc([], []);
    }
  }

  lemma DurableKept(segs: Segments, durable: seq<nat>, kept: Files, k: nat, count: nat)
    requires |kept| == |segs| && CutFrom(segs, kept, k)
    requires count <= |Flatten(segs)| && DurableCovers(segs, durable, count)
    requires forall s :: 0 <= s < |kept| ==> |kept[s]| >= durable[s]
    ensures count <= k
  {
    if k < count {
      var s, i := Locate(segs, k);
      assert false;
    }
  }

  // ----- replay

  lemma TrueEntriesTail(es: seq<WalEntry>, start: nat, history: seq<Message>)
    requires |es| > 0 && TrueEntries(es, start, history)
    ensures TrueEntries(es[1..], start + 1, history)
  {
    assert forall i :: 0 <= i < |es[1..]| ==> es[1..][i] == es[i + 1];
  }

  /** Replaying true entries extends the log to the end of the write-ahead log, or not at all. */
  lemma {:induction false} ReplayExtends(segs: Segments, es: seq<WalEntry>, start: nat, history: seq<Message>)
    requires |segs| > 0
    requires Flatten(segs) <= history
    requires start <= |Flatten(segs)|
    requires TrueEntries(es, start, history)
    ensures Flatten(Replay(segs, es)) == history[..Max(|Flatten(segs)|, start + |es|)]
    decreases |es|
  {
    if |es| > 0 {
      TrueEntriesTail(es, start, history);
      if start == |Flatten(segs)| {
        ReplayedIsNext(segs, es[0], start, history);
        ReplayExtends(AppendRecord(segs, es[0].message), es[1..], start + 1, history);
      } else {
        ReplayExtends(segs, es[1..], start + 1, history);
      }
    }
  }

  lemma ReplayedIsNext(segs: Segments, e: WalEntry, start: nat, history: seq<Message>)
    requires |segs| > 0 && Flatten(segs) <= history && start == |Flatten(segs)| < |history|
             && e == WalEntry(start, history[start])
    ensures |AppendRecord(segs, e.message)| > 0
    ensures |Flatten(AppendRecord(segs, e.message))| == start + 1 && Flatten(AppendRecord(segs, e.message)) <= history
  {
    AppendExtends(segs, e.message);
  }

  lemma WalEndsAt(wal: seq<Byte>, start: nat, history: seq<Message>)
    requires TrueEntries(DecodeWal(wal), start, history)
    ensures WalEnd(wal) == if |DecodeWal(wal)| == 0 then 0 else start + |DecodeWal(wal)|
  {
  }

  lemma ReplayReaches(segs: Segments, wal: seq<Byte>, start: nat, history: seq<Message>)
    requires |segs| > 0
    requires Flatten(segs) <= history
    requires start <= |Flatten(segs)|
    requires TrueEntries(DecodeWal(wal), start, history)
    ensures Max(|Flatten(segs)|, WalEnd(wal)) <= |history|
    ensures Flatten(Replay(segs, DecodeWal(wal))) == history[..Max(|Flatten(segs)|, WalEnd(wal))]
  {
    ReplayExtends(segs, DecodeWal(wal), start, history);
    WalEndsAt(wal, start, history);
  }

  lemma SurvivingEntries(st: Store, wal: seq<Byte>)
    requires Inv(st) && WalImage(st, wal)
    ensures TrueEntries(DecodeWal(wal), st.start, st.history)
  {
    DecodeMonotone(wal, st.wal);
  }

  lemma LoadedIsPrefix(st: Store, cut: Cut, files: Files)
    requires Inv(st) && SegmentImage(st, cut, files)
    ensures st.start <= |Flatten(Load(files))| && Flatten(Load(files)) <= st.history
  {
    ImageLoads(st, cut, files, st.start);
  }

  /** Crash recovery: whatever crash image the store leaves, reopening yields exactly the first
      max(k, w) messages ever appended, k complete records surviving in the segments and the
      write-ahead log surviving up to offset w. */
  lemma CrashRecovery(st: Store, cut: Cut, files: Files, wal: seq<Byte>)
    requires Inv(st)
    requires SegmentImage(st, cut, files) && WalImage(st, wal)
    ensures Max(Survivors(files), WalEnd(wal)) <= |st.history|
    ensures Flatten(Reopen(files, wal)) == st.history[..Max(Survivors(files), WalEnd(wal))]
  {
    LoadedIsPrefix(st, cut, files);
    SurvivingEntries(st, wal);
    ReplayReaches(Load(files), wal, st.start, st.history);
  }

  /** No record that reached stable storage is lost, and none is reordered or invented. */
  lemma SyncedSurvive(st: Store, cut: Cut, files: Files, wal: seq<Byte>, count: nat)
    requires Inv(st)
    requires count <= |Flatten(st.segs)| && DurableCovers(st.segs, st.durable, count)
    requires SegmentImage(st, cut, files) && WalImage(st, wal)
    ensures st.history[..count] <= Flatten(Reopen(files, wal)) <= st.history
  {
    CrashRecovery(st, cut, files, wal);
    ImageLoads(st, cut, files, count);
  }

  /** The write-ahead log of a store between recoveries: entries written one by one for the last
      messages of the history. */
  ghost predicate WrittenBy(st: Store, written: seq<WalEntry>) {
    && st.wal == EncodeEntries(written)
    && OffsetsFit(written)
    && TrueEntries(written, st.start, st.history)
    && st.start + |written| == |st.history|
  }

  lemma FitCore(segs: Segments, written: seq<WalEntry>, c: nat, start: nat, history: seq<Message>)
    requires |segs| > 0 && Flatten(segs) <= history && start <= |Flatten(segs)|
    requires TrueEntries(written, start, history)
    requires c <= |written|
    ensures Max(|Flatten(segs)|, start + c) <= |history|
    ensures Flatten(Replay(segs, Usable(written[..c]))) == history[..Max(|Flatten(segs)|, start + c)] <==>
            start + c <= |Flatten(segs)| || AllFit(written[..c])
  {
    var k, u := |Flatten(segs)|, Usable(written[..c]);
    TrueEntriesPrefix(u, written, start, history);
    ReplayExtends(segs, u, start, history);
    SamePrefix(history, Max(k, start + |u|), Max(k, start + c));
    UsableAll(written[..c]);
    assert |u| == c <==> u == written[..c];
  }

  lemma WrittenDecodes(st: Store, written: seq<WalEntry>, wal: seq<Byte>, c: nat)
    requires WrittenBy(st, written) && WalImage(st, wal) && c == CompleteEntries(written, |wal|)
    ensures c <= |written| && DecodeWal(wal) == Usable(written[..c])
  {
    DecodePrefix(written, |wal|);
    assert wal == st.wal[..|wal|];
  }

  /** The 16 MiB limit of the recovery loop, exactly: all messages whose write-ahead entries
      survived in full come back if and only if the segments already hold them or none of those
      entries is oversized. */
  lemma RecoversAllWrittenIffFit(st: Store, written: seq<WalEntry>, cut: Cut, files: Files, wal: seq<Byte>, c: nat)
    requires Inv(st) && WrittenBy(st, written)
    requires SegmentImage(st, cut, files) && WalImage(st, wal)
    requires c == CompleteEntries(written, |wal|)
    ensures Max(Survivors(files), st.start + c) <= |st.history|
    ensures Flatten(Reopen(files, wal)) == st.history[..Max(Survivors(files), st.start + c)] <==>
            st.start + c <= Survivors(files) || AllFit(written[..c])
  {
    ImageLoads(st, cut, files, st.start);
    LoadedIffFit(st, written, Load(files), wal, c);
  }

  lemma LoadedIffFit(st: Store, written: seq<WalEntry>, loaded: Segments, wal: seq<Byte>, c: nat)
    requires |loaded| > 0 && Flatten(loaded) <= st.history && st.start <= |Flatten(loaded)|
    requires WrittenBy(st, written) && WalImage(st, wal) && c == CompleteEntries(written, |wal|)
    ensures Max(|Flatten(loaded)|, st.start + c) <= |st.history|
    ensures Flatten(Replay(loaded, DecodeWal(wal))) == st.history[..Max(|Flatten(loaded)|, st.start + c)] <==>
            st.start + c <= |Flatten(loaded)| || AllFit(written[..c])
  {
    WrittenDecodes(st, written, wal, c);
    FitCore(loaded, written, c, st.start, st.history);
  }

  lemma SamePrefix(h: seq<Message>, a: nat, b: nat)
    requires a <= |h| && b <= |h|
    ensures h[..a] == h[..b] <==> a == b
  {
    assert |h[..a]| == a && |h[..b]| == b;
  }

  /** Once the write-ahead log is synced, every appended message survives, provided each fits. */
  lemma SyncedWalSavesAll(st: Store, written: seq<WalEntry>, cut: Cut, files: Files, wal: seq<Byte>)
    requires Inv(st) && WrittenBy(st, written) && AllFit(written)
    requires st.walDurable == |st.wal|
    requires SegmentImage(st, cut, files) && WalImage(st, wal)
    ensures Flatten(Reopen(files, wal)) == st.history
  {
    assert wal == st.wal;
    DecodeInvertsWriting(written);
    UsableAll(written);
    CrashRecovery(st, cut, files, wal);
    ImageLoads(st, cut, files, st.start);
    WalEndsAt(wal, st.start, st.history);
  }

  /** Syncing loses nothing: from the sync of the write-ahead log until it is cleared, whatever a crash leaves while
      the segments are synced one by one, all appended messages come back, provided each fits. */
  lemma SyncingLosesNothing(t: Trace, i: nat, j: nat, written: seq<WalEntry>, cut: Cut, files: Files, wal: seq<Byte>)
    requires IsTrace(t) && i < j < |t.states| && t.ops[i] == SyncWal
    requires forall k :: i < k < j ==> t.ops[k].SyncSegment?
    requires WrittenBy(t.states[i], written) && AllFit(written)
    requires SegmentImage(t.states[j], cut, files) && WalImage(t.states[j], wal)
    ensures Flatten(Reopen(files, wal)) == t.states[i].history
  {
    WhileSyncing(t, i, j);
    TraceKeeps(t, j);
    SyncedWalSavesAll(t.states[j], written, cut, files, wal);
  }

  lemma {:induction false} WhileSyncing(t: Trace, i: nat, j: nat)
    requires IsTrace(t) && i < j < |t.states| && t.ops[i] == SyncWal
    requires forall k :: i < k < j ==> t.ops[k].SyncSegment?
    ensures t.states[j] == t.states[i].(walDurable := |t.states[i].wal|, durable := t.states[j].durable)
  {
    SyncStep(t, j - 1);
    if j > i + 1 {
      WhileSyncing(t, i, j - 1);
    }
  }

  lemma SyncStep(t: Trace, k: nat)
    requires IsTrace(t) && k < |t.ops|
    ensures t.ops[k] == SyncWal ==> t.states[k + 1] == t.states[k].(walDurable := |t.states[k].wal|)
    ensures t.ops[k].SyncSegment? ==> t.states[k + 1] == t.states[k].(durable := t.states[k + 1].durable)
  {
    assert StepAt(t, k);
  }

  /** What the process finds after a crash: a prefix of the surviving messages in the segments, and
      entries for surviving messages only in the write-ahead log. */
  lemma RestartFinds(st: Store, cut: Cut, files: Files, wal: seq<Byte>)
    requires Inv(st) && SegmentImage(st, cut, files) && WalImage(st, wal)
    ensures Max(Survivors(files), WalEnd(wal)) <= |st.history|
    ensures var kept := st.history[..Max(Survivors(files), WalEnd(wal))];
            && Flatten(Load(files)) <= kept
            && st.start <= |Flatten(Load(files))|
            && TrueEntries(DecodeWal(wal), st.start, kept)
  {
    LoadedIsPrefix(st, cut, files);
    SurvivingEntries(st, wal);
    WalEndsAt(wal, st.start, st.history);
    var n := Max(Survivors(files), WalEnd(wal));
    LoadedKept(Flatten(Load(files)), st.history, n);
    EntriesKept(DecodeWal(wal), st.start, st.history, n);
  }

  lemma LoadedKept(loaded: seq<Message>, history: seq<Message>, n: nat)
    requires loaded <= history && |loaded| <= n <= |history|
    ensures loaded <= history[..n]
  {
  }

  lemma EntriesKept(es: seq<WalEntry>, start: nat, history: seq<Message>, n: nat)
    requires TrueEntries(es, start, history) && n <= |history| && (|es| > 0 ==> start + |es| <= n) && start <= n
    ensures TrueEntries(es, start, history[..n])
  {
  }

  // ----- recovery interrupted by another crash

  /** The store while recovery is at work: the segments that survived, the first j entries of the
      surviving write-ahead log replayed, nothing cleared yet. */
  function Recovering(st: Store, files: Files, wal: seq<Byte>, j: nat, durable: seq<nat>): Store
    requires j <= |DecodeWal(wal)|
    requires Max(Survivors(files), WalEnd(wal)) <= |st.history|
  {
    Store(Replay(Load(files), DecodeWal(wal)[..j]), durable, wal, |wal|, st.start,
          st.history[..Max(Survivors(files), WalEnd(wal))])
  }

  lemma RecoveringInv(st: Store, cut: Cut, files: Files, wal: seq<Byte>, j: nat, durable: seq<nat>)
    requires Inv(st) && SegmentImage(st, cut, files) && WalImage(st, wal)
    requires j <= |DecodeWal(wal)|
    requires DurableCovers(Replay(Load(files), DecodeWal(wal)[..j]), durable, Survivors(files))
    ensures Max(Survivors(files), WalEnd(wal)) <= |st.history|
    ensures Inv(Recovering(st, files, wal, j, durable))
    ensures Survivors(files) <= |Flatten(Recovering(st, files, wal, j, durable).segs)|
  {
    var es := DecodeWal(wal);
    RestartFinds(st, cut, files, wal);
    var kept := st.history[..Max(Survivors(files), WalEnd(wal))];
    TrueEntriesPrefix(es[..j], es, st.start, kept);
    ReplayExtends(Load(files), es[..j], st.start, kept);
  }

  /** A store whose history ends where its durable records or its write-ahead log end recovers in full. */
  lemma RecoversInFull(st: Store, cut: Cut, files: Files, low: nat)
    requires Inv(st) && SegmentImage(st, cut, files)
    requires low <= |Flatten(st.segs)| && DurableCovers(st.segs, st.durable, low)
             && |st.history| == Max(low, WalEnd(st.wal))
    ensures Flatten(Reopen(files, st.wal)) == st.history
  {
    CrashRecovery(st, cut, files, st.wal);
    ImageLoads(st, cut, files, low);
    assert st.history[..|st.history|] == st.history;
  }

  /** Recovery is idempotent: a second crash after any number of replayed entries, before the
      write-ahead log is cleared, and a second recovery give the log of one uninterrupted recovery. */
  lemma RecoveryIdempotent(st: Store, cut: Cut, files: Files, wal: seq<Byte>, j: nat, durable: seq<nat>,
                           cut2: Cut, files2: Files)
    requires Inv(st) && SegmentImage(st, cut, files) && WalImage(st, wal)
    requires j <= |DecodeWal(wal)|
    requires DurableCovers(Replay(Load(files), DecodeWal(wal)[..j]), durable, Survivors(files))
    requires Max(Survivors(files), WalEnd(wal)) <= |st.history|
    requires SegmentImage(Recovering(st, files, wal, j, durable), cut2, files2)
    ensures Flatten(Reopen(files2, wal)) == Flatten(Reopen(files, wal))
  {
    var mid := Recovering(st, files, wal, j, durable);
    RecoveringInv(st, cut, files, wal, j, durable);
    CrashRecovery(st, cut, files, wal);
    RecoversInFull(mid, cut2, files2, Survivors(files));
  }

  /** The same when the second crash comes after the recovered segments were synced and the write-ahead log
      was cleared. */
  lemma RecoveryIdempotentCleared(files: Files, wal: seq<Byte>, mid: Store, cut2: Cut, files2: Files)
    requires mid.segs == Reopen(files, wal) && mid.durable == Sizes(mid.segs) && SegmentImage(mid, cut2, files2)
    ensures Flatten(Reopen(files2, [])) == Flatten(Reopen(files, wal))
  {
    SizesCover(mid.segs, |Flatten(mid.segs)|);
    SyncedAndClearedSurvives(mid, cut2, files2);
  }

  /** A log whose segments are durable in full survives any crash. */
  lemma SyncedAndClearedSurvives(st: Store, cut: Cut, files: Files)
    requires |st.segs| > 0 && DurableCovers(st.segs, st.durable, |Flatten(st.segs)|)
    requires SegmentImage(st, cut, files)
    ensures Flatten(Reopen(files, [])) == Flatten(st.segs)
  {
    ImageLoads(st, cut, files, |Flatten(st.segs)|);
    assert DecodeWal([]) == [];
  }

  // ----- every run of file operations and crashes

  datatype Op =
    | WriteWal(m: Message, written: seq<WalEntry>)
    | AppendSegment
    | RollSegment
    | SyncWal
    | SyncSegment(s: nat)
    | ClearWal
    | Crash(cut: Cut, files: Files, wal: seq<Byte>)

  /** Log::append, first file operation: the entry for the next offset. */
  function WithEntry(st: Store, m: Message): Store {
    st.(wal := st.wal + EncodeEntry(WalEntry(|Flatten(st.segs)|, m)), history := st.history + [m])
  }

  /** Log::append, second file operation, and each turn of the replay loop. */
  function WithRecord(st: Store): Store
    requires |st.segs| > 0 && |Flatten(st.segs)| < |st.history|
  {
    st.(segs := AppendRecord(st.segs, st.history[|Flatten(st.segs)|]))
  }

  /** Log::append, rolling over: a new, empty segment file. */
  function WithSegment(st: Store): Store {
    st.(segs := st.segs + [[]], durable := st.durable + [0])
  }

  function WithSynced(st: Store, s: nat): Store
    requires s < |st.segs| == |st.durable|
  {
    st.(durable := st.durable[s := |EncodeRecords(st.segs[s])|])
  }

  function Cleared(st: Store): Store {
    st.(wal := [], walDurable := 0, start := |st.history|)
  }

  function Sizes(segs: Segments): (r: seq<nat>)
    ensures |r| == |segs| && forall s :: 0 <= s < |segs| ==> r[s] == |EncodeRecords(segs[s])|
  {
    seq(|segs|, s requires 0 <= s < |segs| => |EncodeRecords(segs[s])|)
  }

  /** One file operation of the process, or a crash followed by loading the segments. */
  ghost predicate Step(st: Store, op: Op, next: Store) {
    match op
    case WriteWal(m, written) =>
      && st.history == Flatten(st.segs) && |st.history| < TWO_64
      && WrittenBy(st, written)
      && next == WithEntry(st, m)
    case AppendSegment =>
      && |st.segs| > 0 && |Flatten(st.segs)| < |st.history|
      && next == WithRecord(st)
    case RollSegment =>
      next == WithSegment(st)
    case SyncWal =>
      next == st.(walDurable := |st.wal|)
    case SyncSegment(s) =>
      && s < |st.segs| == |st.durable|
      && next == WithSynced(st, s)
    case ClearWal =>
      && st.history == Flatten(st.segs)
      && DurableCovers(st.segs, st.durable, |st.history|)
      && next == Cleared(st)
    case Crash(cut, files, wal) =>
      && SegmentImage(st, cut, files) && WalImage(st, wal)
      && Max(Survivors(files), WalEnd(wal)) <= |st.history|
      && next == Crashed(st, files, wal)
  }

  /** What the next process finds after a crash, once the segments are loaded. An empty write-ahead log starts
      where the messages end. */
  function Crashed(st: Store, files: Files, wal: seq<Byte>): Store
    requires Max(Survivors(files), WalEnd(wal)) <= |st.history|
  {
    var kept := st.history[..Max(Survivors(files), WalEnd(wal))];
    Store(Load(files), Sizes(Load(files)), wal, |wal|, if |wal| == 0 then |kept| else st.start, kept)
  }

  /** A run of steps from a freshly opened log, ending in st. */
  datatype Trace = Trace(states: seq<Store>, ops: seq<Op>, st: Store)

  /** Nothing in the write-ahead log, everything in the segments durable. */
  function OpenedStore(segs: Segments): Store {
    Store(segs, Sizes(segs), [], 0, |Flatten(segs)|, Flatten(segs))
  }

  function Then(t: Trace, op: Op, st: Store): Trace {
    Trace(t.states + [st], t.ops + [op], st)
  }

  ghost predicate StepAt(t: Trace, i: nat)
    requires i < |t.ops| && |t.states| == |t.ops| + 1
  {
    Step(t.states[i], t.ops[i], t.states[i + 1])
  }

  ghost predicate IsTrace(t: Trace) {
    && |t.states| == |t.ops| + 1
    && t.st == t.states[|t.ops|]
    && |t.states[0].segs| > 0 && t.states[0] == OpenedStore(t.states[0].segs)
    && forall i :: 0 <= i < |t.ops| ==> StepAt(t, i)
  }

  /** b continues a. */
  ghost predicate Continues(a: Trace, b: Trace) {
    a.states <= b.states && a.ops <= b.ops
  }

  function OpenedTrace(segs: Segments): Trace {
    Trace([OpenedStore(segs)], [], OpenedStore(segs))
  }

  lemma OpenedIsTrace(segs: Segments)
    requires |segs| > 0
    ensures IsTrace(OpenedTrace(segs))
    ensures WrittenBy(OpenedStore(segs), [])
  {
  }

  lemma StepAtKept(t: Trace, op: Op, st: Store, i: nat)
    requires i < |t.ops| && |t.states| == |t.ops| + 1 && StepAt(t, i)
    ensures StepAt(Then(t, op, st), i)
  {
    var u := Then(t, op, st);
    assert u.states[i] == t.states[i] && u.states[i + 1] == t.states[i + 1] && u.ops[i] == t.ops[i];
  }

  lemma StepAtLast(t: Trace, op: Op, st: Store)
    requires |t.states| == |t.ops| + 1 && t.st == t.states[|t.ops|] && Step(t.st, op, st)
    ensures StepAt(Then(t, op, st), |t.ops|)
  {
    var u := Then(t, op, st);
    assert u.states[|t.ops|] == t.st && u.states[|t.ops| + 1] == st && u.ops[|t.ops|] == op;
  }

  lemma Extend(t: Trace, op: Op, st: Store)
    requires IsTrace(t) && Step(t.st, op, st)
    ensures IsTrace(Then(t, op, st)) && Continues(t, Then(t, op, st))
  {
    var u := Then(t, op, st);
    forall i | 0 <= i < |u.ops| ensures StepAt(u, i) {
      if i < |t.ops| {
        StepAtKept(t, op, st, i);
      } else {
        StepAtLast(t, op, st);
      }
    }
  }

  lemma WriteWalKeeps(st: Store, m: Message, written: seq<WalEntry>)
    requires Inv(st) && st.history == Flatten(st.segs) && |st.history| < TWO_64 && WrittenBy(st, written)
    ensures Inv(WithEntry(st, m))
    ensures WrittenBy(WithEntry(st, m), written + [WalEntry(|st.history|, m)])
  {
    var e := WalEntry(|st.history|, m);
    EncodeEntriesSnoc(written, e);
    TrueEntriesSnoc(written, st.start, st.history, m);
    DecodeInvertsWriting(written + [e]);
    TrueEntriesPrefix(Usable(written + [e]), written + [e], st.start, st.history + [m]);
  }

  lemma TrueEntriesSnoc(es: seq<WalEntry>, start: nat, history: seq<Message>, m: Message)
    requires TrueEntries(es, start, history) && start + |es| == |history|
    ensures TrueEntries(es + [WalEntry(|history|, m)], start, history + [m])
  {
  }

  lemma TrueEntriesPrefix(part: seq<WalEntry>, es: seq<WalEntry>, start: nat, history: seq<Message>)
    requires TrueEntries(es, start, history) && part <= es
    ensures TrueEntries(part, start, history)
  {
  }

  lemma AppendKeepsDurable(segs: Segments, durable: seq<nat>, count: nat, m: Message)
    requires |segs| > 0 && DurableCovers(segs, durable, count) && count <= |Flatten(segs)|
    ensures DurableCovers(AppendRecord(segs, m), durable, count)
  {
    var after := AppendRecord(segs, m);
    forall s, i | 0 <= s < |after| && 0 <= i < |after[s]| && Offset(after, s, i) < count
      ensures End(after[s], i) <= durable[s]
    {
      assert after[..s] == segs[..s];
      assert Offset(segs, s, i) < count;
      assert i < |segs[s]| by {
        if s == |segs| - 1 { assert segs[..s] == segs[..|segs| - 1]; }
      }
      assert after[s][..i + 1] == segs[s][..i + 1];
    }
  }

  lemma RollKeepsDurable(segs: Segments, durable: seq<nat>, count: nat)
    requires DurableCovers(segs, durable, count)
    ensures DurableCovers(segs + [[]], durable + [0], count)
  {
    var after := segs + [[]];
    forall s, i | 0 <= s < |after| && 0 <= i < |after[s]| && Offset(after, s, i) < count
      ensures End(after[s], i) <= (durable + [0])[s]
    {
      assert after[..s] == segs[..s];
      assert Offset(segs, s, i) < count;
    }
  }

  lemma SyncKeepsDurable(segs: Segments, durable: seq<nat>, count: nat, s: nat)
    requires DurableCovers(segs, durable, count) && s < |segs|
    ensures DurableCovers(segs, durable[s := |EncodeRecords(segs[s])|], count)
  {
    EndsInside(segs[s]);
  }

  lemma EndsInside(rs: seq<Message>)
    ensures forall i :: 0 <= i < |rs| ==> End(rs, i) <= |EncodeRecords(rs)|
  {
    forall i | 0 <= i < |rs| ensures End(rs, i) <= |EncodeRecords(rs)| { EncodeSplit(rs, i); }
  }

  lemma SizesCover(segs: Segments, count: nat)
    ensures DurableCovers(segs, Sizes(segs), count)
  {
    forall s, i | 0 <= s < |segs| && 0 <= i < |segs[s]| && Offset(segs, s, i) < count
      ensures End(segs[s], i) <= Sizes(segs)[s]
    {
      EndsInside(segs[s]);
    }
  }

  lemma CrashKeeps(st: Store, cut: Cut, files: Files, wal: seq<Byte>, next: Store)
    requires Inv(st) && Step(st, Crash(cut, files, wal), next)
    ensures Inv(next)
  {
    RestartFinds(st, cut, files, wal);
    SizesCover(next.segs, next.start);
  }

  /** Every file operation and every crash keeps the invariant. */
  lemma StepKeeps(st: Store, op: Op, next: Store)
    requires Inv(st) && Step(st, op, next)
    ensures Inv(next)
  {
    match op
    case WriteWal(m, written) => WriteWalKeeps(st, m, written);
    case AppendSegment =>
      var m := st.history[|Flatten(st.segs)|];
      AppendExtends(st.segs, m);
      AppendKeepsDurable(st.segs, st.durable, st.start, m);
    case RollSegment =>
      RollKeeps(st.segs);
      RollKeepsDurable(st.segs, st.durable, st.start);
    case SyncWal =>
    case SyncSegment(s) => SyncKeepsDurable(st.segs, st.durable, st.start, s);
    case ClearWal =>
    case Crash(cut, files, wal) => CrashKeeps(st, cut, files, wal, next);
  }

  lemma OpenedInv(segs: Segments)
    requires |segs| > 0
    ensures Inv(OpenedStore(segs))
  {
    SizesCover(segs, |Flatten(segs)|);
  }

  lemma StepAtKeeps(t: Trace, i: nat)
    requires i < |t.ops| && |t.states| == |t.ops| + 1 && StepAt(t, i) && Inv(t.states[i])
    ensures Inv(t.states[i + 1])
  {
    StepKeeps(t.states[i], t.ops[i], t.states[i + 1]);
  }

  lemma NextKeeps(t: Trace, i: nat)
    requires IsTrace(t) && i < |t.ops| && Inv(t.states[i])
    ensures Inv(t.states[i + 1])
  {
    assert StepAt(t, i);
    StepAtKeeps(t, i);
  }

  lemma {:induction false} TraceKeeps(t: Trace, n: nat)
    requires IsTrace(t) && n < |t.states|
    ensures Inv(t.states[n])
  {
    if n == 0 {
      OpenedInv(t.states[0].segs);
    } else {
      TraceKeeps(t, n - 1);
      NextKeeps(t, n - 1);
    }
  }

  /** Log::append's first file operation continues a trace. */
  lemma TraceWriteWal(t: Trace, m: Message, written: seq<WalEntry>)
    requires IsTrace(t) && t.st.history == Flatten(t.st.segs) && |t.st.history| < TWO_64
    requires WrittenBy(t.st, written)
    ensures IsTrace(Then(t, WriteWal(m, written), WithEntry(t.st, m)))
    ensures WrittenBy(WithEntry(t.st, m), written + [WalEntry(|t.st.history|, m)])
  {
    TraceKeeps(t, |t.ops|);
    WriteWalKeeps(t.st, m, written);
    Extend(t, WriteWal(m, written), WithEntry(t.st, m));
  }

  /** A crash continues a trace, and replaying what it leaves yields the messages that survive. */
  lemma TraceCrash(t: Trace, cut: Cut, files: Files, wal: seq<Byte>)
    requires IsTrace(t) && SegmentImage(t.st, cut, files) && WalImage(t.st, wal)
    ensures Max(Survivors(files), WalEnd(wal)) <= |t.st.history|
    ensures var st := Crashed(t.st, files, wal);
            && IsTrace(Then(t, Crash(cut, files, wal), st))
            && TrueEntries(DecodeWal(wal), st.start, st.history) && Flatten(Reopen(files, wal)) == st.history
            && (|wal| == 0 ==> st == OpenedStore(Load(files)))
  {
    TraceKeeps(t, |t.ops|);
    RestartFinds(t.st, cut, files, wal);
    CrashRecovery(t.st, cut, files, wal);
    Extend(t, Crash(cut, files, wal), Crashed(t.st, files, wal));
  }

  /** Replaying an entry that continues the log continues a trace. */
  lemma TraceReplay(t: Trace, m: Message)
    requires IsTrace(t) && |t.st.segs| > 0 && |Flatten(t.st.segs)| < |t.st.history|
             && t.st.history[|Flatten(t.st.segs)|] == m
    ensures IsTrace(Then(t, AppendSegment, t.st.(segs := AppendRecord(t.st.segs, m))))
  {
    Extend(t, AppendSegment, WithRecord(t.st));
  }

  /** The append of the message whose entry was just written continues a trace. */
  lemma TraceAppend(t: Trace, m: Message) returns (next: Trace)
    requires IsTrace(t) && |t.st.segs| > 0 && t.st.history == Flatten(t.st.segs) + [m]
    ensures IsTrace(next) && Continues(t, next) && next.ops == t.ops + [AppendSegment]
    ensures next.st == t.st.(segs := AppendRecord(t.st.segs, m)) && Flatten(next.st.segs) == t.st.history
  {
    AppendExtends(t.st.segs, m);
    Extend(t, AppendSegment, WithRecord(t.st));
    next := Then(t, AppendSegment, WithRecord(t.st));
  }

  /** Clearing the write-ahead log after everything was synced leaves a freshly opened log. */
  lemma TraceCleared(t: Trace)
    requires IsTrace(t) && t.st.history == Flatten(t.st.segs) && t.st.durable == Sizes(t.st.segs)
    ensures IsTrace(Then(t, ClearWal, OpenedStore(t.st.segs)))
  {
    SizesCover(t.st.segs, |t.st.history|);
    Extend(t, ClearWal, Cleared(t.st));
  }

  lemma EntryBytes(wal: seq<Byte>, e: WalEntry)
    ensures ((wal + LittleEndian(e.offset, 8)) + LittleEndian(|e.message|, 8)) + e.message == wal + EncodeEntry(e)
  {
  }

  /** Crash recovery over whole runs: at every point of any run of file operations and any number
      of earlier crashes, including points in the middle of an append, a sync or a recovery,
      whatever crash image the files leave, reopening yields exactly the first max(k, w) messages. */
  lemma EveryCrashPointRecovers(t: Trace, n: nat, cut: Cut, files: Files, wal: seq<Byte>)
    requires IsTrace(t) && n < |t.states|
    requires SegmentImage(t.states[n], cut, files) && WalImage(t.states[n], wal)
    ensures Max(Survivors(files), WalEnd(wal)) <= |t.states[n].history|
    ensures Flatten(Reopen(files, wal)) == t.states[n].history[..Max(Survivors(files), WalEnd(wal))]
  {
    TraceKeeps(t, n);
    CrashRecovery(t.states[n], cut, files, wal);
  }
}

/** The Log class: segments, sparse index and write-ahead log of one partition. */
module PartitionLog {
  import opened Bytes
  import opened Options
  import opened Records
  import opened SparseIndex
  import opened Wal
  import opened Recovery
  import opened LogSegments

  /** The segment files of a store. */
  function FilesOf(segs: Segments, durable: seq<nat>): (files: seq<SegmentFile>)
    requires |segs| == |durable|
    ensures |files| == |segs|
    ensures forall s :: 0 <= s < |segs| ==> files[s] == SegmentFile(EncodeRecords(segs[s]), durable[s])
  {
    seq(|segs|, s requires 0 <= s < |segs| => SegmentFile(EncodeRecords(segs[s]), durable[s]))
  }

  lemma FilesSnoc(segs: Segments, rs: seq<Message>, data: seq<Byte>)
    ensures (FilesOf(segs, Sizes(segs)) + [Found(data)])[|segs| := Found(EncodeRecords(rs))]
            == FilesOf(segs + [rs], Sizes(segs + [rs]))
  {
  }

  /** The log entries of the last n messages. */
  function LastEntries(messages: seq<Message>, n: nat): (es: seq<WalEntry>)
    requires n <= |messages|
    ensures |es| == n
    ensures forall i :: 0 <= i < n ==> es[i] == WalEntry(|messages| - n + i, messages[|messages| - n + i])
  {
    seq(n, i requires 0 <= i < n => WalEntry(|messages| - n + i, messages[|messages| - n + i]))
  }

  lemma LastDecoded(written: seq<WalEntry>, messages: seq<Message>)
    requires OffsetsFit(written) && |written| <= |messages| && TrueEntries(written, |messages| - |written|, messages)
    ensures DecodeWal(EncodeEntries(written)) == LastEntries(messages, |written|)
            <==> AllFit(LastEntries(messages, |written|))
  {
    assert written == LastEntries(messages, |written|);
    DecodeInvertsWriting(written);
    UsableAll(written);
  }

  /** The files are what a crash left of the log with this trace. */
  ghost predicate LeftBy(before: Trace, cut: Cut, files: Files, wal: seq<Byte>) {
    IsTrace(before) && SegmentImage(before.st, cut, files) && WalImage(before.st, wal)
      && Max(Survivors(files), WalEnd(wal)) <= |before.st.history|
  }

  ghost function AfterCrash(before: Trace, cut: Cut, files: Files, wal: seq<Byte>): Trace
    requires LeftBy(before, cut, files, wal)
  {
    Then(before, Op.Crash(cut, files, wal), Crashed(before.st, files, wal))
  }

  /** If the log was left by a crash, the trace continues the one of the crash and ends in the store. */
  ghost predicate Tracks(known: bool, from: Trace, t: Trace, st: Store) {
    known ==> IsTrace(t) && Continues(from, t) && t.st == st
  }

  /** If the log was left by a crash, the trace ends with it and with these segments and this write-ahead log, and
      replaying the entries yields the messages that survived. */
  ghost predicate Restarted(known: bool, from: Trace, loaded: Segments, wal: seq<Byte>) {
    && |loaded| > 0 && from.st.durable == Sizes(loaded)
    && Tracks(known, from, from, Store(loaded, Sizes(loaded), wal, |wal|, from.st.start, from.st.history))
    && (known ==> TrueEntries(DecodeWal(wal), from.st.start, from.st.history)
                  && Flatten(Replay(loaded, DecodeWal(wal))) == from.st.history
                  && (|wal| == 0 ==> from.st == OpenedStore(loaded)))
  }

  /** The trace after replaying the entries: an append for each one that continues the log. */
  ghost function ReplayTrace(from: Trace, segs: Segments, es: seq<WalEntry>): Trace
    requires |segs| > 0
  {
    if |es| == 0 then from
    else
      var front, last := es[..|es| - 1], es[|es| - 1];
      var t, so := ReplayTrace(from, segs, front), Replay(segs, front);
      if last.offset == |Flatten(so)| then Then(t, AppendSegment, t.st.(segs := AppendRecord(so, last.message))) else t
  }

  function ReplayOne(segs: Segments, e: WalEntry): Segments
    requires |segs| > 0
  {
    if e.offset == |Flatten(segs)| then AppendRecord(segs, e.message) else segs
  }

  lemma {:induction false} ReplaySnoc(segs: Segments, es: seq<WalEntry>, e: WalEntry)
    requires |segs| > 0
    ensures Replay(segs, es + [e]) == ReplayOne(Replay(segs, es), e)
    decreases |es|
  {
    if |es| == 0 {
      assert es + [e] == [e] && [e][1..] == [];
    } else {
      assert (es + [e])[1..] == es[1..] + [e];
      ReplaySnoc(ReplayOne(segs, es[0]), es[1..], e);
    }
  }

  lemma ReplayTraceSnoc(from: Trace, segs: Segments, es: seq<WalEntry>, e: WalEntry)
    requires |segs| > 0
    ensures var t, so := ReplayTrace(from, segs, es), Replay(segs, es);
            ReplayTrace(from, segs, es + [e])
            == if e.offset == |Flatten(so)| then Then(t, AppendSegment, t.st.(segs := AppendRecord(so, e.message)))
                else t
  {
    assert (es + [e])[..|es|] == es;
  }

  /** Every prefix of the replay is on the trace. */
  lemma {:induction false} ReplayTracks(from: Trace, segs: Segments, es: seq<WalEntry>, n: nat)
    requires |segs| > 0 && n <= |es| && Tracks(true, from, from, from.st) && from.st.segs == segs
    requires TrueEntries(es, from.st.start, from.st.history)
    ensures Tracks(true, from, ReplayTrace(from, segs, es[..n]), from.st.(segs := Replay(segs, es[..n])))
  {
    if n == 0 {
      assert es[..0] == [];
    } else {
      ReplayTracks(from, segs, es, n - 1);
      var front, e := es[..n - 1], es[n - 1];
      assert es[..n] == front + [e];
      ReplaySnoc(segs, front, e);
      ReplayTraceSnoc(from, segs, front, e);
      if e.offset == |Flatten(Replay(segs, front))| {
        TraceReplay(ReplayTrace(from, segs, front), e.message);
      }
    }
  }

  lemma ReplayDone(known: bool, from: Trace, loaded: Segments, wal: seq<Byte>, segs: Segments)
    requires Restarted(known, from, loaded, wal) && segs == Replay(loaded, DecodeWal(wal))
    ensures Tracks(known, from, ReplayTrace(from, loaded, DecodeWal(wal)), from.st.(segs := segs))
    ensures known ==> Flatten(segs) == from.st.history
  {
    if known {
      var es := DecodeWal(wal);
      ReplayTracks(from, loaded, es, |es|);
      assert es[..|es|] == es;
    }
  }

  ghost function SyncedUpTo(segs: Segments, durable: seq<nat>, n: nat): (r: seq<nat>)
    requires n <= |segs| == |durable|
    ensures |r| == |segs| && forall s :: 0 <= s < |segs| ==>
                               r[s] == if s < n then |EncodeRecords(segs[s])| else durable[s]
  {
    seq(|segs|, s requires 0 <= s < |segs| => if s < n then |EncodeRecords(segs[s])| else durable[s])
  }

  lemma SyncedNext(known: bool, from: Trace, t: Trace, st: Store, segs: Segments, durable: seq<nat>, n: nat)
    returns (done: Trace)
    requires st.segs == segs && n < |segs| == |durable|
             && Tracks(known, from, t, st.(durable := SyncedUpTo(segs, durable, n)))
    ensures Tracks(known, from, done, st.(durable := SyncedUpTo(segs, durable, n + 1)))
  {
    done := t;
    assert SyncedUpTo(segs, durable, n)[n := |EncodeRecords(segs[n])|] == SyncedUpTo(segs, durable, n + 1);
    if known {
      Extend(t, SyncSegment(n), WithSynced(t.st, n));
      done := Then(t, SyncSegment(n), WithSynced(t.st, n));
    }
  }

  lemma ClearedLast(known: bool, from: Trace, t: Trace, st: Store) returns (done: Trace)
    requires Tracks(known, from, t, st) && (known ==> st.history == Flatten(st.segs) && st.durable == Sizes(st.segs))
    ensures Tracks(known, from, done, OpenedStore(st.segs))
  {
    done := t;
    if known {
      TraceCleared(t);
      done := Then(t, Op.ClearWal, OpenedStore(st.segs));
    }
  }

  /** The trace with which recovery starts. */
  lemma RestartedAt(before: Trace, cut: Cut, files: Files, wal: seq<Byte>) returns (from: Trace)
    ensures Restarted(LeftBy(before, cut, files, wal), from, Load(files), wal)
    ensures LeftBy(before, cut, files, wal) ==> from == AfterCrash(before, cut, files, wal)
  {
    from := OpenedTrace(Load(files));
    if LeftBy(before, cut, files, wal) {
      TraceCrash(before, cut, files, wal);
      from := AfterCrash(before, cut, files, wal);
    }
  }

  /** Every segment but the last has reached the size at which the log rolls over. */
  ghost predicate FullSegments(segs: Segments, size: nat) {
    forall s :: 0 <= s < |segs| - 1 ==> |EncodeRecords(segs[s])| >= size
  }

  /** b continues a, first of all by writing the message to the write-ahead log and then to the segment. */
  ghost predicate Begins(a: Trace, b: Trace, m: Message, written: seq<WalEntry>) {
    && Continues(a, b) && |b.ops| >= |a.ops| + 2
    && b.ops[|a.ops|] == Op.WriteWal(m, written) && b.ops[|a.ops| + 1] == AppendSegment
  }

  lemma BeginsNow(a: Trace, b: Trace, c: Trace, m: Message, written: seq<WalEntry>)
    requires Continues(a, b) && b.ops == a.ops + [Op.WriteWal(m, written)]
    requires Continues(b, c) && c.ops == b.ops + [AppendSegment]
    ensures Begins(a, c, m, written)
  {
  }

  lemma BeginsLater(a: Trace, b: Trace, c: Trace, m: Message, written: seq<WalEntry>)
    requires Begins(a, b, m, written) && Continues(b, c)
    ensures Begins(a, c, m, written)
  {
  }

  /** The segments after an append: the message joins the last one, and a new one follows when that is full. */
  ghost function AfterAppend(segs: Segments, m: Message, size: nat): Segments
    requires |segs| > 0
  {
    Rolled(AppendRecord(segs, m), size)
  }

  ghost function Rolled(segs: Segments, size: nat): Segments
    requires |segs| > 0
  {
    if |EncodeRecords(segs[|segs| - 1])| >= size then segs + [[]] else segs
  }

  /** A log rolls over exactly when the encoded message fills the active segment. */
  lemma AppendRolls(segs: Segments, bytes: nat, m: Message, size: nat)
    requires |segs| > 0 && bytes == |EncodeRecords(segs[|segs| - 1])|
    ensures |AfterAppend(segs, m, size)| == |segs| + if bytes + 8 + |m| >= size then 1 else 0
    ensures FullSegments(segs, size) ==> FullSegments(AfterAppend(segs, m, size), size)
  {
    EncodeSnoc(segs[|segs| - 1], m);
  }

  /** Two stores with the same write-ahead log and history. */
  ghost predicate SameRecovery(a: Store, b: Store) {
    a.wal == b.wal && a.start == b.start && a.history == b.history
  }

  lemma SameWritten(a: Store, b: Store, written: seq<WalEntry>)
    requires SameRecovery(a, b) && WrittenBy(a, written)
    ensures WrittenBy(b, written)
  {
  }

  class Log {
    var segments: seq<SegmentFile>
    var index: seq<Entry>
    var activeIndex: nat
    var nextOffset: nat
    var pendingAppends: nat
    var wal: seq<Byte>
    var walDurable: nat
    const maxSegmentSize: nat
    const syncBatchSize: nat

    /** Every file operation since the log was opened, and the entries in the write-ahead log. */
    ghost var trace: Trace
    ghost var written: seq<WalEntry>

    /** The messages of the partition, in offset order. */
    ghost function Contents(): seq<Message>
      reads this
    {
      Flatten(trace.st.segs)
    }

    /** The files, the index and the counters agree with the given records. */
    ghost predicate Mirrors(segs: Segments, durable: seq<nat>)
      reads this
    {
      && |segs| == |durable| == activeIndex + 1
      && segments == FilesOf(segs, durable)
      && nextOffset == |Flatten(segs)|
      && index == IndexOf(segs)
    }

    /** The fields are the last store of the trace. */
    ghost predicate OnDisk()
      reads this
    {
      && IsTrace(trace)
      && Mirrors(trace.st.segs, trace.st.durable)
      && wal == trace.st.wal && walDurable == trace.st.walDurable
    }

    /** Between operations: the write-ahead log holds exactly the last pendingAppends messages with
        their offsets, and there are fewer of them than the sync batch. */
    ghost predicate Valid()
      reads this
    {
      && OnDisk()
      && trace.st.history == Contents()
      && WrittenBy(trace.st, written)
      && |written| == pendingAppends < syncBatchSize
    }

    lemma ActiveBytes(segs: Segments, durable: seq<nat>)
      requires Mirrors(segs, durable)
      ensures |segments| == |segs| == activeIndex + 1
      ensures |segments[activeIndex].data| == |EncodeRecords(segs[|segs| - 1])|
    {
    }

    /** Between operations the write-ahead log decodes to exactly the last pendingAppends messages with
        their true offsets, if and only if none of them exceeds what recovery reads back. */
    lemma WalHoldsPending()
      requires Valid()
      ensures pendingAppends < syncBatchSize && pendingAppends <= |Contents()|
      ensures DecodeWal(wal) == LastEntries(Contents(), pendingAppends)
              <==> AllFit(LastEntries(Contents(), pendingAppends))
    {
      LastDecoded(written, Contents());
    }

    /** Between operations a crash costs at most the pending messages: whatever it leaves, all others come back, in
        order, and nothing else. */
    lemma CrashCostsPendingOnly(cut: Cut, files: Files, left: seq<Byte>)
      requires Valid() && SegmentImage(trace.st, cut, files) && WalImage(trace.st, left)
      ensures pendingAppends <= |Contents()|
      ensures Contents()[..|Contents()| - pendingAppends] <= Flatten(Reopen(files, left)) <= Contents()
    {
      TraceKeeps(trace, |trace.ops|);
      SyncedSurvive(trace.st, cut, files, left, trace.st.start);
    }

    // ----- opening

    /** Opens the log over the files of a directory, given in creation order. If they are what a crash left of
        the log with the given trace, the trace goes on through loading, replay, sync and clearing. */
    constructor (maxSegment: nat, syncBatch: nat, files: Files, walBytes: seq<Byte>, ghost before: Trace,
            ghost cut: Cut)
      ensures Valid()
      ensures trace.st.segs == Reopen(files, walBytes)
      ensures wal == [] && pendingAppends == 0
      ensures maxSegmentSize == maxSegment && syncBatchSize == Max(1, syncBatch)
      ensures LeftBy(before, cut, files, walBytes) ==> Continues(AfterCrash(before, cut, files, walBytes), trace)
    {
      maxSegmentSize := maxSegment;
      syncBatchSize := Max(1, syncBatch);
      segments, index := [], [];
      activeIndex, nextOffset, pendingAppends := 0, 0, 0;
      wal, walDurable := walBytes, |walBytes|;
      new;
      ghost var from := RestartedAt(before, cut, files, walBytes);
      Open(files, LeftBy(before, cut, files, walBytes), from);
    }

    method Open(files: Files, ghost known: bool, ghost from: Trace)
      requires segments == [] && index == [] && nextOffset == 0 && pendingAppends == 0 < syncBatchSize
      requires walDurable == |wal| && Restarted(known, from, Load(files), wal)
      modifies this
      ensures Valid() && trace.st.segs == Reopen(files, old(wal))
      ensures wal == [] && pendingAppends == 0
      ensures known ==> Continues(from, trace)
    {
      LoadExistingSegments(files);
      ghost var segs, done := RecoverWal(Load(files), known, from);
      StartTrace(segs, known, from, done);
    }

    ghost method StartTrace(segs: Segments, known: bool, from: Trace, done: Trace)
      requires Mirrors(segs, Sizes(segs)) && wal == [] && walDurable == 0
      requires pendingAppends == 0 < syncBatchSize && Tracks(known, from, done, OpenedStore(segs))
      modifies `trace, `written
      ensures Valid() && trace.st.segs == segs && (known ==> Continues(from, trace))
    {
      written := [];
      trace := if known then done else OpenedTrace(segs);
      OpenedIsTrace(segs);
    }

    method LoadExistingSegments(files: Files)
      requires segments == [] && index == [] && nextOffset == 0
      modifies `segments, `index, `nextOffset, `activeIndex
      ensures Mirrors(Load(files), Sizes(Load(files)))
    {
      if |files| == 0 {
        FirstSegment();
      } else {
        LoadSegments(files);
      }
      activeIndex := |segments| - 1;
    }

    method FirstSegment()
      requires segments == [] && index == [] && nextOffset == 0
      modifies `segments
      ensures segments == FilesOf([[]], Sizes([[]]))
      ensures nextOffset == |Flatten([[]])| && index == IndexOf([[]])
    {
      segments := [Found([])];
      FlattenSnoc([], []);
      IndexSnoc([], []);
    }

    method LoadSegments(files: Files)
      requires segments == [] && index == [] && nextOffset == 0
      modifies `segments, `index, `nextOffset
      ensures segments == FilesOf(ScanAll(files), Sizes(ScanAll(files)))
      ensures nextOffset == |Flatten(ScanAll(files))| && index == IndexOf(ScanAll(files))
    {
      var n := 0;
      ghost var done: Segments := [];
      while n < |files|
        invariant 0 <= n <= |files| && |done| == n
        invariant forall s :: 0 <= s < n ==> done[s] == Scan(files[s], 0)
        invariant segments == FilesOf(done, Sizes(done))
        invariant nextOffset == |Flatten(done)| && index == IndexOf(done)
      {
        segments := segments + [Found(files[n])];
        RebuildIndexFromSegment(n, done);
        FilesSnoc(done, Scan(files[n], 0), files[n]);
        done := done + [Scan(files[n], 0)];
        n := n + 1;
      }
      assert done == ScanAll(files);
    }

    /** Scans one segment file, indexes its records and cuts off a partly written tail. */
    method RebuildIndexFromSegment(n: nat, ghost before: Segments)
      requires n < |segments| && segments[n] == Found(segments[n].data)
      requires nextOffset == |Flatten(before)| && index == IndexOf(before) && n == |before|
      modifies `index, `nextOffset, `segments
      ensures segments == old(segments)[n := Found(EncodeRecords(Scan(old(segments[n].data), 0)))]
      ensures nextOffset == |Flatten(before + [Scan(old(segments[n].data), 0)])|
      ensures index == IndexOf(before + [Scan(old(segments[n].data), 0)])
    {
      var data := segments[n].data;
      var position;
      ghost var rs;
      position, rs := IndexSegment(n, data);
      if position < |data| {
        segments := segments[n := Truncated(segments[n], position)];
      } else {
        assert data[..position] == data;
      }
      FlattenSnoc(before, rs);
      IndexSnoc(before, rs);
    }

    /** The scanning loop: it stops at the end of the data or at the first record it cannot read. */
    method IndexSegment(n: nat, data: seq<Byte>) returns (position: nat, ghost rs: seq<Message>)
      modifies `index, `nextOffset
      ensures position <= |data| && rs == Scan(data, 0) && data[..position] == EncodeRecords(rs)
      ensures nextOffset == old(nextOffset) + |rs|
      ensures index == old(index) + SegmentIndex(n, old(nextOffset), rs)
    {
      position, rs := 0, Scan(data, 0);
      ghost var from, before, count := nextOffset, index, 0;
      while position < |data|
        invariant 0 <= count <= |rs| && position == Position(rs, count) <= |data|
        invariant Indexed(n, from, before, rs[..count])
        decreases |data| - position
      {
        ScanReads(data, rs, count);
        var message := Read(Found(data), position);
        if message.None? {
          break;
        }
        IndexNext(n, position, message.value, from, before, rs, count);
        position, count := position + 8 + |message.value|, count + 1;
      }
      ScanReads(data, rs, count);
      ScanAccounts(data, 0);
      assert rs[..count] == rs;
    }

    /** The records found so far in segment n are indexed. */
    ghost predicate Indexed(n: nat, from: nat, before: seq<Entry>, rs: seq<Message>)
      reads this
    {
      nextOffset == from + |rs| && index == before + SegmentIndex(n, from, rs)
    }

    method IndexNext(n: nat, position: nat, ghost m: Message, ghost from: nat, ghost before: seq<Entry>,
            ghost rs: seq<Message>, ghost count: nat)
      requires count < |rs| && rs[count] == m && position == Position(rs, count)
      requires Indexed(n, from, before, rs[..count])
      modifies `index, `nextOffset
      ensures Indexed(n, from, before, rs[..count + 1]) && Position(rs, count + 1) == position + 8 + |m|
    {
      SegmentIndexSnoc(n, from, rs[..count], m);
      assert rs[..count + 1] == rs[..count] + [m];
      EncodeSplit(rs, count);
      IndexRecord(n, position);
    }

    /** A record at this position gets the next offset, and an index entry if it is a checkpoint. */
    method IndexRecord(segment: nat, position: nat)
      modifies `index, `nextOffset
      ensures index == old(index) + NewEntries(old(nextOffset), segment, position)
      ensures nextOffset == old(nextOffset) + 1
    {
      if nextOffset % STRIDE == 0 || position == 0 {
        index := index + [Entry(nextOffset, segment, position)];
      }
      nextOffset := nextOffset + 1;
    }

    /** Replays a write-ahead log that is not empty over the loaded segments and clears it. If the log was left by
        a crash, every append, sync and clear is a step of its trace. */
    method RecoverWal(ghost loaded: Segments, ghost known: bool, ghost from: Trace)
      returns (ghost segs: Segments, ghost done: Trace)
      requires Mirrors(loaded, Sizes(loaded)) && walDurable == |wal| && Restarted(known, from, loaded, wal)
      modifies `segments, `index, `nextOffset, `wal, `walDurable
      ensures segs == Replay(loaded, DecodeWal(old(wal)))
      ensures Mirrors(segs, Sizes(segs))
      ensures wal == [] && walDurable == 0
      ensures Tracks(known, from, done, OpenedStore(segs))
    {
      segs, done := loaded, from;
      if |wal| == 0 {
        return;
      }
      ReplayEntries(loaded, Sizes(loaded));
      segs, done := Replay(loaded, DecodeWal(wal)), ReplayTrace(from, loaded, DecodeWal(wal));
      ReplayDone(known, from, loaded, wal, segs);
      if nextOffset > 0 {
        done := SyncAll(segs, Sizes(loaded), known, from, done, from.st.(segs := segs));
      }
      wal, walDurable := [], 0;
      done := ClearedLast(known, from, done, from.st.(segs := segs, durable := Sizes(segs)));
    }

    /** The replay loop. After every turn the segments are the replay of the entries seen so far, which is where
        the trace of the replay has come to. */
    method ReplayEntries(ghost loaded: Segments, ghost durable: seq<nat>)
      requires |loaded| > 0 && Mirrors(loaded, durable)
      modifies `segments, `index, `nextOffset
      ensures Replayed(loaded, durable, DecodeWal(wal))
    {
      var position := 0;
      ghost var all, count := DecodeWal(wal), 0;
      while true
        invariant 0 <= count <= |all| && position == WalPosition(all, count) <= |wal|
        invariant Replayed(loaded, durable, all[..count])
        decreases |wal| - position
      {
        EntryAt(wal, all, count);
        var entry := ReadWalEntry(position, wal[position..]);
        if entry.None? {
          break;
        }
        PrefixNext(all, count);
        ReplayEntry(entry.value, loaded, durable, all[..count]);
        position, count := position + 16 + |entry.value.message|, count + 1;
      }
      assert all[..count] == all;
    }

    /** The files mirror the replay of the entries; an empty log had nothing to replay. */
    ghost predicate Replayed(loaded: Segments, durable: seq<nat>, seen: seq<WalEntry>)
      requires |loaded| > 0
      reads this
    {
      Mirrors(Replay(loaded, seen), durable) && (nextOffset == 0 ==> Replay(loaded, seen) == loaded)
    }

    /** An entry is appended exactly when it continues the log. */
    method ReplayEntry(entry: WalEntry, ghost loaded: Segments, ghost durable: seq<nat>, ghost seen: seq<WalEntry>)
      requires |loaded| > 0 && Replayed(loaded, durable, seen)
      modifies `segments, `index, `nextOffset
      ensures Replayed(loaded, durable, seen + [entry])
    {
      ghost var so := Replay(loaded, seen);
      if entry.offset == nextOffset {
        AppendToActive(entry.message, so, durable);
        AppendExtends(so, entry.message);
      }
      ReplaySnoc(loaded, seen, entry);
    }

    /** The three stream reads of the recovery loop; None where one of them makes the loop stop. */
    method ReadWalEntry(position: nat, ghost rest: seq<Byte>) returns (r: Option<WalEntry>)
      requires position <= |wal| && rest == wal[position..]
      ensures r == ReadEntry(rest)
    {
      if |wal| - position < 8 {
        return None;
      }
      var offset := FromLittleEndian(wal[position..position + 8]);
      DropSlice(wal, position, 0, 8);
      if |wal| - position < 16 {
        return None;
      }
      var length := FromLittleEndian(wal[position + 8..position + 16]);
      DropSlice(wal, position, 8, 16);
      if length > MAX_WAL_MESSAGE || |wal| - position - 16 < length {
        return None;
      }
      r := Some(WalEntry(offset, wal[position + 16..position + 16 + length]));
      DropSlice(wal, position, 16, 16 + length);
    }

    /** The sync loop of recovery. */
    method SyncAll(ghost segs: Segments, ghost durable: seq<nat>, ghost known: bool, ghost from: Trace,
            ghost so: Trace, ghost st: Store)
      returns (ghost done: Trace)
      requires Mirrors(segs, durable) && st.segs == segs && st.durable == durable && Tracks(known, from, so, st)
      modifies `segments
      ensures Mirrors(segs, Sizes(segs))
      ensures Tracks(known, from, done, st.(durable := Sizes(segs)))
    {
      done := so;
      var s := 0;
      assert SyncedUpTo(segs, durable, 0) == durable;
      while s < |segments|
        invariant 0 <= s <= |segments| == |segs|
        invariant forall t :: 0 <= t < |segs| ==>
                    segments[t] == SegmentFile(EncodeRecords(segs[t]), if t < s then |EncodeRecords(segs[t])|
                        else durable[t])
        invariant Tracks(known, from, done, st.(durable := SyncedUpTo(segs, durable, s)))
      {
        segments := segments[s := Synced(segments[s])];
        done := SyncedNext(known, from, done, st, segs, durable, s);
        s := s + 1;
      }
      assert SyncedUpTo(segs, durable, s) == Sizes(segs);
      assert segments == FilesOf(segs, Sizes(segs));
    }

    // ----- file operations

    method WriteWal(offset: nat, message: Message)
      requires OnDisk() && trace.st.history == Contents() && WrittenBy(trace.st, written)
      requires offset == nextOffset < TWO_64
      modifies `wal, `trace, `written
      ensures OnDisk() && trace.st == WithEntry(old(trace).st, message) && Continues(old(trace), trace)
      ensures trace.ops == old(trace).ops + [Op.WriteWal(message, old(written))]
      ensures written == old(written) + [WalEntry(offset, message)] && WrittenBy(trace.st, written)
    {
      TraceWriteWal(trace, message, written);
      EntryBytes(wal, WalEntry(offset, message));
      wal := wal + LittleEndian(offset, 8);
      wal := wal + LittleEndian(|message|, 8);
      wal := wal + message;
      trace := Then(trace, Op.WriteWal(message, written), WithEntry(trace.st, message));
      written := written + [WalEntry(offset, message)];
    }

    /** The append step shared by Log::append and Log::recover_wal. */
    method AppendToActive(message: Message, ghost segs: Segments, ghost durable: seq<nat>)
      requires Mirrors(segs, durable)
      modifies `segments, `index, `nextOffset
      ensures Mirrors(AppendRecord(segs, message), durable)
    {
      var next, position := LogSegments.Append(segments[activeIndex], message);
      segments := segments[activeIndex := next];
      IndexRecord(activeIndex, position);
      EncodeSnoc(segs[activeIndex], message);
      AppendExtends(segs, message);
      assert segments == FilesOf(AppendRecord(segs, message), durable);
    }

    method RollSegment()
      requires OnDisk()
      modifies `segments, `activeIndex, `trace
      ensures OnDisk()
      ensures trace == Then(old(trace), Op.RollSegment, WithSegment(old(trace).st))
    {
      segments := segments + [Found([])];
      activeIndex := |segments| - 1;
      RollKeeps(trace.st.segs);
      Extend(trace, Op.RollSegment, WithSegment(trace.st));
      trace := Then(trace, Op.RollSegment, WithSegment(trace.st));
      assert segments == FilesOf(trace.st.segs, trace.st.durable);
    }

    method SyncWal()
      requires OnDisk()
      modifies `walDurable, `trace
      ensures OnDisk() && trace == Then(old(trace), Op.SyncWal, old(trace).st.(walDurable := |wal|))
    {
      walDurable := |wal|;
      Extend(trace, Op.SyncWal, trace.st.(walDurable := |wal|));
      trace := Then(trace, Op.SyncWal, trace.st.(walDurable := |wal|));
    }

    method SyncOne(s: nat)
      requires OnDisk() && s < |segments|
      modifies `segments, `trace
      ensures OnDisk()
      ensures trace == Then(old(trace), SyncSegment(s), WithSynced(old(trace).st, s))
    {
      segments := segments[s := Synced(segments[s])];
      Extend(trace, SyncSegment(s), WithSynced(trace.st, s));
      trace := Then(trace, SyncSegment(s), WithSynced(trace.st, s));
      assert segments == FilesOf(trace.st.segs, trace.st.durable);
    }

    /** The loop that syncs every segment in turn. */
    method SyncSegments()
      requires OnDisk()
      modifies `segments, `trace
      ensures OnDisk() && |segments| == |old(segments)|
      ensures trace.st == old(trace).st.(durable := Sizes(trace.st.segs))
      ensures Continues(old(trace), trace) && |trace.ops| == |old(trace).ops| + |segments|
      ensures forall s :: 0 <= s < |segments| ==> trace.ops[|old(trace).ops| + s] == SyncSegment(s)
    {
      var s := 0;
      while s < |segments|
        invariant 0 <= s <= |segments| == |old(segments)|
        invariant OnDisk() && |trace.ops| == |old(trace).ops| + s
        invariant forall t :: 0 <= t < s ==> trace.ops[|old(trace).ops| + t] == SyncSegment(t)
        invariant trace.st == old(trace).st.(durable := trace.st.durable)
        invariant forall t :: 0 <= t < s ==> trace.st.durable[t] == |EncodeRecords(trace.st.segs[t])|
        invariant Continues(old(trace), trace)
      {
        SyncOne(s);
        s := s + 1;
      }
      assert trace.st.durable == Sizes(trace.st.segs);
    }

    method ClearWal()
      requires OnDisk() && trace.st.history == Contents()
      requires DurableCovers(trace.st.segs, trace.st.durable, |trace.st.history|)
      modifies `wal, `walDurable, `trace, `written
      ensures OnDisk()
      ensures trace == Then(old(trace), Op.ClearWal, Cleared(old(trace).st))
      ensures written == []
    {
      wal, walDurable := [], 0;
      Extend(trace, Op.ClearWal, Cleared(trace.st));
      trace := Then(trace, Op.ClearWal, Cleared(trace.st));
      written := [];
    }

    /** The write-ahead log is synced before any segment, and cleared after all of them. */
    method SyncPending()
      requires OnDisk() && trace.st.history == Contents()
      modifies `segments, `wal, `walDurable, `pendingAppends, `trace, `written
      ensures OnDisk() && |segments| == |old(segments)|
      ensures trace.st == Cleared(old(trace).st.(durable := Sizes(trace.st.segs)))
      ensures wal == [] && pendingAppends == 0 && written == []
      ensures Continues(old(trace), trace) && |trace.ops| == |old(trace).ops| + |segments| + 2
      ensures trace.ops[|old(trace).ops|] == Op.SyncWal && trace.ops[|trace.ops| - 1] == Op.ClearWal
      ensures forall s :: 0 <= s < |segments| ==> trace.ops[|old(trace).ops| + 1 + s] == SyncSegment(s)
    {
      SyncWal();
      SyncSegments();
      SizesCover(trace.st.segs, |trace.st.history|);
      ClearWal();
      pendingAppends := 0;
    }

    // ----- public operations

    /** Appends one message at the next offset. Nothing already stored changes. */
    method Append(message: Message) returns (offset: nat)
      requires Valid() && nextOffset < TWO_64
      modifies this
      ensures Valid()
      ensures offset == |old(Contents())|
      ensures Contents() == old(Contents()) + [message]
      ensures Begins(old(trace), trace, message, old(written))
      ensures |segments| == |old(segments)| +
                if |old(segments[activeIndex].data)| + 8 + |message| >= maxSegmentSize then 1 else 0
      ensures pendingAppends == if old(pendingAppends) + 1 >= syncBatchSize then 0 else old(pendingAppends) + 1
      ensures FullSegments(old(trace).st.segs, maxSegmentSize) ==> FullSegments(trace.st.segs, maxSegmentSize)
    {
      offset := nextOffset;
      ActiveBytes(trace.st.segs, trace.st.durable);
      AppendRolls(trace.st.segs, |segments[activeIndex].data|, message, maxSegmentSize);
      AppendAndRoll(message);
      ghost var done := trace;
      CountAndSync();
      BeginsLater(old(trace), done, trace, message, old(written));
    }

    method AppendAndRoll(message: Message)
      requires Valid() && nextOffset < TWO_64
      modifies `wal, `trace, `written, `segments, `index, `nextOffset, `activeIndex
      ensures OnDisk()
      ensures Contents() == trace.st.history == old(Contents()) + [message]
      ensures WrittenBy(trace.st, written) && |written| == |old(written)| + 1
      ensures Begins(old(trace), trace, message, old(written))
      ensures trace.st.segs == AfterAppend(old(trace).st.segs, message, maxSegmentSize)
    {
      WriteWalAndSegment(message);
      ghost var done := trace;
      RollIfFull();
      SameWritten(done.st, trace.st, written);
      BeginsLater(old(trace), done, trace, message, old(written));
    }

    method WriteWalAndSegment(message: Message)
      requires Valid() && nextOffset < TWO_64
      modifies `wal, `trace, `written, `segments, `index, `nextOffset
      ensures OnDisk()
      ensures Contents() == trace.st.history == old(Contents()) + [message]
      ensures WrittenBy(trace.st, written) && |written| == |old(written)| + 1
      ensures Begins(old(trace), trace, message, old(written))
      ensures trace.st.segs == AppendRecord(old(trace).st.segs, message)
    {
      WriteWal(nextOffset, message);
      ghost var logged := trace;
      AppendActive(message);
      SameWritten(logged.st, trace.st, written);
      BeginsNow(old(trace), logged, trace, message, old(written));
    }

    /** The message whose entry was just written reaches the active segment. */
    method AppendActive(message: Message)
      requires OnDisk()
      requires trace.st.history == Contents() + [message]
      modifies `segments, `index, `nextOffset, `trace
      ensures OnDisk() && Contents() == trace.st.history
      ensures SameRecovery(old(trace).st, trace.st) && Continues(old(trace), trace)
      ensures trace.ops == old(trace).ops + [AppendSegment]
      ensures trace.st.segs == AppendRecord(old(trace).st.segs, message)
    {
      AppendToActive(message, trace.st.segs, trace.st.durable);
      trace := TraceAppend(trace, message);
    }

    method RollIfFull()
      requires OnDisk()
      modifies `segments, `activeIndex, `trace
      ensures OnDisk() && Contents() == old(Contents())
      ensures SameRecovery(old(trace).st, trace.st) && Continues(old(trace), trace)
      ensures trace.st.segs == Rolled(old(trace).st.segs, maxSegmentSize)
    {
      if |segments[activeIndex].data| >= maxSegmentSize {
        RollKeeps(trace.st.segs);
        RollSegment();
      }
    }

    /** One more append is pending; when the batch is full it is synced. */
    method CountAndSync()
      requires OnDisk() && Contents() == trace.st.history
      requires WrittenBy(trace.st, written) && |written| == pendingAppends + 1 <= syncBatchSize
      modifies `segments, `wal, `walDurable, `pendingAppends, `trace, `written
      ensures Valid() && trace.st.segs == old(trace).st.segs
      ensures Continues(old(trace), trace)
      ensures pendingAppends == if old(pendingAppends) + 1 >= syncBatchSize then 0 else old(pendingAppends) + 1
    {
      pendingAppends := pendingAppends + 1;
      if pendingAppends >= syncBatchSize {
        SyncPending();
      }
    }

    method Flush()
      requires Valid()
      modifies this
      ensures Valid()
      ensures Contents() == old(Contents())
      ensures pendingAppends == 0
      ensures Continues(old(trace), trace) && trace.st.segs == old(trace).st.segs
      ensures old(pendingAppends) == 0 ==> trace == old(trace)
    {
      if pendingAppends > 0 {
        SyncPending();
      }
    }

    /** Sparse fetch refines sequence lookup; at most one stride of records is read. */
    method Fetch(offset: nat) returns (r: Option<Message>, ghost steps: nat)
      requires Valid()
      ensures r == if offset < nextOffset then Some(Contents()[offset]) else None
      ensures steps <= 64
    {
      r, steps := None, 0;
      if offset < nextOffset {
        var u := UpperBound(index, offset);
        CheckpointFor(trace.st.segs, offset);
        if u > 0 {
          r, steps := ScanFrom(index[u - 1], offset, trace.st.segs);
        }
      }
    }

    /** The sequential scan from a checkpoint. It never leaves the checkpoint's segment: the
        branch that moves on to the next one is not taken. */
    method ScanFrom(e: Entry, offset: nat, ghost segs: Segments) returns (r: Option<Message>, ghost steps: nat)
      requires |segments| == |segs| && forall s :: 0 <= s < |segs| ==> segments[s].data == EncodeRecords(segs[s])
      requires IsCheckpoint(segs, e) && e.offset <= offset < Base(segs, e.segment) + |segs[e.segment]|
      ensures offset < |Flatten(segs)| && r == Some(Flatten(segs)[offset])
      ensures steps == offset - e.offset + 1
    {
      r, steps := None, 0;
      var current: int, s: int, position: int := e.offset, e.segment, e.position;
      ghost var i := current - Base(segs, e.segment);
      while true
        invariant s == e.segment
        invariant 0 <= i < |segs[e.segment]|
        invariant current == Base(segs, e.segment) + i <= offset
        invariant position == Position(segs[e.segment], i)
        invariant steps == current - e.offset
        decreases offset - current
      {
        ReadWhole(segs[s], i);
        var record := Read(segments[s], position);
        steps := steps + 1;
        if current == offset {
          FlattenAt(segs, s, i);
          return record, steps;
        }
        current := current + 1;
        position := position + 8 + |record.value|;
        i := i + 1;
        if position == |segments[s].data| && s + 1 < |segments| {
          s := s + 1;
          position := 0;
        }
        if current > offset || s >= |segments| {
          return;
        }
      }
    }
  }

  lemma DropSlice(w: seq<Byte>, p: nat, a: nat, b: nat)
    requires a <= b && p + b <= |w|
    ensures w[p..][a..b] == w[p + a..p + b]
  {
  }

  lemma PrefixNext(es: seq<WalEntry>, i: nat)
    requires i < |es|
    ensures es[..i + 1] == es[..i] + [es[i]]
  {
  }

  /** Where entry i begins in the bytes the entries were read from. */
  function WalPosition(es: seq<WalEntry>, i: nat): nat
    requires i <= |es|
  {
    if i == 0 then 0 else WalPosition(es, i - 1) + 16 + |es[i - 1].message|
  }

  /** From there on decoding yields the entries that are left. */
  lemma {:induction false} DecodesRest(w: seq<Byte>, es: seq<WalEntry>, i: nat)
    requires es == DecodeWal(w) && i <= |es|
    ensures WalPosition(es, i) <= |w| && DecodeWal(w[WalPosition(es, i)..]) == es[i..]
  {
    if i == 0 {
      assert w[0..] == w && es[0..] == es;
    } else {
      DecodesRest(w, es, i - 1);
      var rest := w[WalPosition(es, i - 1)..];
      assert es[i - 1..] == [es[i - 1]] + es[i..];
      FirstDecoded(rest, es[i - 1], es[i..]);
      assert w[WalPosition(es, i)..] == rest[16 + |es[i - 1].message|..];
    }
  }

  lemma FirstDecoded(rest: seq<Byte>, e: WalEntry, es: seq<WalEntry>)
    requires DecodeWal(rest) == [e] + es
    ensures ReadEntry(rest) == Some(e) && 16 + |e.message| <= |rest| && DecodeWal(rest[16 + |e.message|..]) == es
  {
    assert DecodeWal(rest)[0] == e && DecodeWal(rest)[1..] == es;
  }

  /** What the replay loop reads in its next turn. */
  lemma EntryAt(w: seq<Byte>, es: seq<WalEntry>, i: nat)
    requires es == DecodeWal(w) && i <= |es|
    ensures WalPosition(es, i) <= |w|
    ensures ReadEntry(w[WalPosition(es, i)..]) == if i < |es| then Some(es[i]) else None
    ensures i < |es| ==> WalPosition(es, i + 1) <= |w|
  {
    DecodesRest(w, es, i);
    if i < |es| {
      assert es[i..] == [es[i]] + es[i + 1..];
      FirstDecoded(w[WalPosition(es, i)..], es[i], es[i + 1..]);
    }
  }

  lemma FirstScanned(data: seq<Byte>, pos: nat, m: Message, next: nat, rs: seq<Message>)
    requires Scan(data, pos) == [m] + rs && next == pos + 8 + |m|
    ensures ReadRecord(data, pos) == Some(m) && next <= |data| && Scan(data, next) == rs
  {
    assert Scan(data, pos)[0] == m && Scan(data, pos)[1..] == rs;
  }

  lemma RestOf(rs: seq<Message>, i: nat)
    requires i < |rs|
    ensures rs[i..] == [rs[i]] + rs[i + 1..]
  {
  }

  lemma PositionNext(rs: seq<Message>, i: nat)
    requires i < |rs|
    ensures Position(rs, i + 1) == Position(rs, i) + 8 + |rs[i]|
  {
    EncodeSplit(rs, i);
  }

  lemma ScansNext(data: seq<Byte>, rs: seq<Message>, i: nat, pos: nat, next: nat)
    requires i < |rs| && Scan(data, pos) == rs[i..] && next == pos + 8 + |rs[i]|
    ensures ReadRecord(data, pos) == Some(rs[i]) && next <= |data| && Scan(data, next) == rs[i + 1..]
  {
    RestOf(rs, i);
    FirstScanned(data, pos, rs[i], next, rs[i + 1..]);
  }

  /** From record i on the scan finds the records that are left. */
  lemma {:induction false} ScansRest(data: seq<Byte>, rs: seq<Message>, i: nat)
    requires rs == Scan(data, 0) && i <= |rs|
    ensures Position(rs, i) <= |data| && Scan(data, Position(rs, i)) == rs[i..]
  {
    if i == 0 {
      assert rs[..0] == [] && rs[0..] == rs;
    } else {
      ScansRest(data, rs, i - 1);
      PositionNext(rs, i - 1);
      ScansNext(data, rs, i - 1, Position(rs, i - 1), Position(rs, i));
    }
  }

  /** What the scanning loop reads in its next turn. */
  lemma ScanReads(data: seq<Byte>, rs: seq<Message>, i: nat)
    requires rs == Scan(data, 0) && i <= |rs|
    ensures Position(rs, i) <= |data|
    ensures ReadRecord(data, Position(rs, i)) == if i < |rs| then Some(rs[i]) else None
    ensures i < |rs| ==> Position(rs, i + 1) <= |data|
  {
    ScansRest(data, rs, i);
    if i < |rs| {
      PositionNext(rs, i);
      ScansNext(data, rs, i, Position(rs, i), Position(rs, i + 1));
    } else {
      NothingScanned(data, Position(rs, i));
    }
  }

  lemma NothingScanned(data: seq<Byte>, pos: nat)
    requires Scan(data, pos) == []
    ensures ReadRecord(data, pos) == None
  {
  }

  lemma ReadWhole(rs: seq<Message>, i: nat)
    requires i < |rs|
    ensures ReadRecord(EncodeRecords(rs), Position(rs, i)) == Some(rs[i])
    ensures Position(rs, i + 1) == Position(rs, i) + 8 + |rs[i]|
    ensures i + 1 < |rs| ==> Position(rs, i + 1) < |EncodeRecords(rs)|
  {
    ReadAt(rs, i, []);
    assert EncodeRecords(rs) + [] == EncodeRecords(rs);
    if i + 1 < |rs| {
      EncodeSplit(rs, i + 1);
    }
  }
}

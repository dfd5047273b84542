/** How many segments a log has, and which logs survive the reload by name. */
module LogReload {
  import opened Bytes
  import opened Records
  import opened SparseIndex
  import opened Recovery
  import opened SegmentNames
  import opened SegmentReload
  import opened PartitionLog

  /** A log opened over an empty directory. */
  lemma FreshIsFull(wal: seq<Byte>, size: nat)
    ensures |Reopen([], wal)| == 1 && FullSegments(Reopen([], wal), size)
  {
  }

  /** All segments but the last fill their share of the bytes. */
  lemma {:induction false} SegmentsFitBytes(segs: Segments, size: nat)
    requires |segs| > 0 && FullSegments(segs, size)
    ensures (|segs| - 1) * size <= TotalBytes(Encoded(segs))
  {
    var front, last := segs[..|segs| - 1], segs[|segs| - 1];
    assert segs == front + [last];
    EncodedSnoc(front, last);
    TotalSnoc(Encoded(front), EncodeRecords(last));
    if |front| > 0 {
      FullButLast(front, size);
    }
  }

  lemma TotalSnoc(files: Files, data: seq<Byte>)
    ensures TotalBytes(files + [data]) == TotalBytes(files) + |data|
  {
    assert (files + [data])[..|files|] == files;
  }

  /** When all of them are full. */
  lemma {:induction false} FullButLast(segs: Segments, size: nat)
    requires forall s :: 0 <= s < |segs| ==> |EncodeRecords(segs[s])| >= size
    ensures |segs| * size <= TotalBytes(Encoded(segs))
  {
    if |segs| > 0 {
      var front, last := segs[..|segs| - 1], segs[|segs| - 1];
      assert segs == front + [last];
      FullButLast(front, size);
      EncodedSnoc(front, last);
      TotalSnoc(Encoded(front), EncodeRecords(last));
      OneMore(|front|, |segs|, size);
    }
  }

  lemma FewerThanTen(n: nat, size: nat, bytes: nat)
    requires n * size <= bytes < 10 * size
    ensures n < 10
  {
    AtLeast(10, n, size);
  }

  lemma OneMore(a: nat, b: nat, size: nat)
    requires b == a + 1
    ensures b * size == a * size + size
  {
  }

  lemma AtLeast(a: nat, b: nat, size: nat)
    ensures a <= b ==> a * size <= b * size
  {
  }

  /** A log that began in an empty directory and holds less than ten times the segment size is reloaded unchanged,
      whatever it holds. */
  lemma SmallLogReloads(log: Log, p: seq<nat>)
    requires log.Valid() && FullSegments(log.trace.st.segs, log.maxSegmentSize)
    requires TotalBytes(Encoded(log.trace.st.segs)) < 10 * log.maxSegmentSize && IsLoadOrder(p, |log.segments|)
    ensures |log.segments| <= 10 && |log.trace.st.segs| == |log.segments|
    ensures Reloaded(log.trace.st.segs, p) == log.trace.st.segs
  {
    var segs := log.trace.st.segs;
    log.ActiveBytes(segs, log.trace.st.durable);
    SegmentsFitBytes(segs, log.maxSegmentSize);
    FewerThanTen(|segs| - 1, log.maxSegmentSize, TotalBytes(Encoded(segs)));
    LoadOrderIsCreationOrder(p, |segs|);
    assert Reloaded(segs, p) == segs;
  }
}

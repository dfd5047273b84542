/** What a log holds after its segment files were reloaded in the order of their names. */
module SegmentReload {
  import opened Records
  import opened SparseIndex
  import opened Text
  import opened SegmentNames
  import opened RoundRobin
  import Replication

  /** The segments in load order. */
  function Reloaded(segs: Segments, p: seq<nat>): (r: Segments)
    requires forall i :: 0 <= i < |p| ==> p[i] < |segs|
    ensures |r| == |p| && forall i :: 0 <= i < |p| ==> r[i] == segs[p[i]]
  {
    seq(|p|, i requires 0 <= i < |p| => segs[p[i]])
  }

  /** Only the segment that is being written may be empty. */
  ghost predicate Rolled(segs: Segments) {
    |segs| > 0 && forall s :: 0 <= s < |segs| - 1 ==> segs[s] != []
  }

  // ----- every segment is in the load order

  function Range(n: nat): (r: set<nat>)
    ensures forall v: nat :: v in r <==> v < n
    ensures |r| == n
  {
    if n == 0 then {} else Range(n - 1) + {n - 1}
  }

  function Values(p: seq<nat>): (r: set<nat>)
    ensures forall v :: v in r <==> v in p
  {
    set v | v in p
  }

  lemma {:induction false} ValuesSize(p: seq<nat>)
    requires Distinct(p)
    ensures |Values(p)| == |p|
  {
    if |p| > 0 {
      var front, last := p[..|p| - 1], p[|p| - 1];
      ValuesSize(front);
      assert p == front + [last];
      assert last !in front;
      assert Values(p) == Values(front) + {last};
    }
  }

  lemma OrderDistinct(p: seq<nat>, n: nat)
    requires IsLoadOrder(p, n)
    ensures Distinct(p)
  {
    forall i, j | 0 <= i < j < n ensures p[i] != p[j] {
      BeforeTotal(Name(p[i]), Name(p[j]));
    }
  }

  lemma Occurs(p: seq<nat>, n: nat, v: nat) returns (i: nat)
    requires IsLoadOrder(p, n) && v < n
    ensures i < n && p[i] == v
  {
    OrderDistinct(p, n);
    ValuesSize(p);
    if v !in p {
      assert Values(p) <= Range(n) - {v};
      Replication.SubsetSize(Values(p), Range(n) - {v});
    }
    i :| 0 <= i < n && p[i] == v;
  }

  // ----- eleven or more

  /** Two segments that change places, in a log without repetitions, change the log. */
  lemma SwappedDiffer(segs: Segments, r: Segments, s: nat, t: nat, i: nat, j: nat)
    requires s < t < |segs| && i < j < |r| && r[i] == segs[t] && r[j] == segs[s]
    requires segs[s] != [] && segs[t] != [] && Distinct(Flatten(segs))
    ensures Flatten(r) != Flatten(segs)
  {
    FlattenAt(segs, s, 0);
    FlattenAt(segs, t, 0);
    BaseNext(segs, s, t);
    FlattenAt(r, i, 0);
    FlattenAt(r, j, 0);
    BaseNext(r, i, j);
  }

  lemma TenFirst(p: seq<nat>, n: nat, i: nat, j: nat)
    requires IsLoadOrder(p, n) && i < n && p[i] == 10 && j < n && p[j] == 2
    ensures i < j
  {
    TenBeforeTwo();
  }

  lemma ManyDiffer(segs: Segments, p: seq<nat>)
    requires IsLoadOrder(p, |segs|) && |segs| > 10 && segs[2] != [] && segs[10] != [] && Distinct(Flatten(segs))
    ensures Flatten(Reloaded(segs, p)) != Flatten(segs)
  {
    var i := Occurs(p, |segs|, 10);
    var j := Occurs(p, |segs|, 2);
    TenFirst(p, |segs|, i, j);
    SwappedDiffer(segs, Reloaded(segs, p), 2, 10, i, j);
  }

  // ----- an empty segment may stand anywhere

  function Without<T>(s: seq<T>, i: nat): (r: seq<T>)
    requires i < |s|
    ensures |r| == |s| - 1
    ensures forall k :: 0 <= k < |r| ==> r[k] == s[if k < i then k else k + 1]
  {
    s[..i] + s[i + 1..]
  }

  lemma {:induction false} FlattenWithout(segs: Segments, i: nat)
    requires i < |segs| && segs[i] == []
    ensures Flatten(Without(segs, i)) == Flatten(segs)
    decreases |segs|
  {
    var front, last := segs[..|segs| - 1], segs[|segs| - 1];
    if i == |front| {
      assert Without(segs, i) == front;
    } else {
      FlattenWithout(front, i);
      FlattenSnoc(Without(front, i), last);
      assert Without(segs, i) == Without(front, i) + [last];
    }
  }

  /** Ten of eleven, without segment 10, are in creation order. */
  lemma TenInOrder(p: seq<nat>, i: nat)
    requires IsLoadOrder(p, 11) && i < 11 && p[i] == 10
    ensures IsCreationOrder(Without(p, i))
  {
    var q := Without(p, i);
    OrderDistinct(p, 11);
    forall a | 0 <= a < 10 ensures q[a] < 10 {
      assert q[a] != p[i];
    }
    forall a, b | 0 <= a < b < 10 ensures q[a] < q[b] {
      SingleDigits(q[a], q[b]);
    }
    forall k | 0 <= k < 10 ensures q[k] == k {
      IncreasingIsIdentity(q, k);
      IncreasingIsIdentity(q, 9 - k);
    }
  }

  lemma ElevenKept(segs: Segments, p: seq<nat>)
    requires IsLoadOrder(p, |segs|) && |segs| == 11 && segs[10] == []
    ensures Flatten(Reloaded(segs, p)) == Flatten(segs)
  {
    var i := Occurs(p, 11, 10);
    var r := Reloaded(segs, p);
    TenInOrder(p, i);
    forall k | 0 <= k < 10 ensures Without(r, i)[k] == Without(segs, 10)[k] {
      assert Without(p, i)[k] == k;
    }
    assert Without(r, i) == Without(segs, 10);
    FlattenWithout(r, i);
    FlattenWithout(segs, 10);
  }

  /** Of a log without repetitions a reload keeps the contents exactly when there are at most ten segments, or
      eleven of which the last one is still empty. */
  lemma ReloadKeepsIff(segs: Segments, p: seq<nat>)
    requires Rolled(segs) && Distinct(Flatten(segs)) && IsLoadOrder(p, |segs|)
    ensures Flatten(Reloaded(segs, p)) == Flatten(segs) <==> |segs| <= 10 || (|segs| == 11 && segs[10] == [])
  {
    LoadOrderIsCreationOrder(p, |segs|);
    if |segs| <= 10 {
      assert Reloaded(segs, p) == segs;
    } else if |segs| == 11 && segs[10] == [] {
      ElevenKept(segs, p);
    } else {
      ManyDiffer(segs, p);
    }
  }

  // ----- a log of eleven segments

  const ELEVEN: Segments := [[[0]], [[1]], [[2]], [[3]], [[4]], [[5]], [[6]], [[7]], [[8]], [[9]], [[10]]]
  const NAME_ORDER: seq<nat> := [0, 1, 10, 2, 3, 4, 5, 6, 7, 8, 9]

  lemma TenAmongDigits(d: nat)
    requires d < 10
    ensures d <= 1 ==> Before(Name(d), Name(10))
    ensures d >= 2 ==> Before(Name(10), Name(d))
  {
    var x, y := Decimal(d) + ".log", Decimal(10) + ".log";
    BeforeSkipsPrefix("segment-", x, y);
    BeforeSkipsPrefix("segment-", y, x);
    assert Decimal(10) == Decimal(1) + ['0'];
    assert x[0] == DIGITS[d] && y[0] == '1' && x[1..] == ".log" && y[1..] == "0.log";
    assert ".log"[0] == '.' && "0.log"[0] == '0';
  }

  lemma NameOrder(p: seq<nat>)
    requires |p| == 11 && forall k :: 0 <= k < 11 ==> p[k] == if k == 2 then 10 else if k < 2 then k else k - 1
    ensures IsLoadOrder(p, 11)
  {
    forall i, j | 0 <= i < j < 11 ensures Before(Name(p[i]), Name(p[j])) {
      NamesOrdered(p[i], p[j]);
    }
  }

  lemma NamesOrdered(a: nat, b: nat)
    requires if a == 10 then 2 <= b < 10 else if b == 10 then a <= 1 else a < b < 10
    ensures Before(Name(a), Name(b))
  {
    if a == 10 {
      TenAmongDigits(b);
    } else if b == 10 {
      TenAmongDigits(a);
    } else {
      SingleDigits(a, b);
    }
  }

  lemma {:induction false} SinglesFlatten(segs: Segments)
    requires forall s :: 0 <= s < |segs| ==> |segs[s]| == 1
    ensures |Flatten(segs)| == |segs| && forall s :: 0 <= s < |segs| ==> Flatten(segs)[s] == segs[s][0]
  {
    if |segs| > 0 {
      SinglesFlatten(segs[..|segs| - 1]);
    }
  }

  /** Records 0 to 10, each in a segment of its own, come back with record 10 in the third place. */
  lemma ElevenReordered()
    ensures IsLoadOrder(NAME_ORDER, |ELEVEN|)
    ensures Flatten(ELEVEN) == [[0], [1], [2], [3], [4], [5], [6], [7], [8], [9], [10]]
    ensures Flatten(Reloaded(ELEVEN, NAME_ORDER)) == [[0], [1], [10], [2], [3], [4], [5], [6], [7], [8], [9]]
  {
    NameOrder(NAME_ORDER);
    SinglesFlatten(ELEVEN);
    SinglesFlatten(Reloaded(ELEVEN, NAME_ORDER));
  }
}

/** Segment files are named by creation number and reloaded in lexicographic order of the names. */
module SegmentNames {
  import opened Text

  function Name(n: nat): string {
    "segment-" + (Decimal(n) + ".log")
  }

  /** p lists the segments 0..n in the order std::sort gives their names. */
  ghost predicate IsLoadOrder(p: seq<nat>, n: nat) {
    && |p| == n
    && (forall i :: 0 <= i < n ==> p[i] < n)
    && (forall i, j :: 0 <= i < j < n ==> Before(Name(p[i]), Name(p[j])))
  }

  ghost predicate IsCreationOrder(p: seq<nat>) {
    forall i :: 0 <= i < |p| ==> p[i] == i
  }

  lemma SingleDigits(a: nat, b: nat)
    requires a < 10 && b < 10
    ensures Before(Name(a), Name(b)) <==> a < b
  {
    BeforeSkipsPrefix("segment-", Decimal(a) + ".log", Decimal(b) + ".log");
    var x, y := Decimal(a) + ".log", Decimal(b) + ".log";
    assert x[0] == DIGITS[a] && y[0] == DIGITS[b];
    assert x[1..] == ".log" && y[1..] == ".log";
    BeforeSkipsPrefix(".log", "", "");
  }

  /** Ten sorts before two. */
  lemma TenBeforeTwo()
    ensures !Before(Name(2), Name(10))
  {
    BeforeSkipsPrefix("segment-", Decimal(2) + ".log", Decimal(10) + ".log");
    assert Decimal(10) == Decimal(1) + ['0'];
    assert (Decimal(2) + ".log")[0] == '2' && (Decimal(10) + ".log")[0] == '1';
  }

  lemma {:induction false} IncreasingIsIdentity(p: seq<nat>, k: nat)
    requires forall i, j :: 0 <= i < j < |p| ==> p[i] < p[j]
    requires forall i :: 0 <= i < |p| ==> p[i] < |p|
    requires k < |p|
    ensures k <= p[k]
    ensures p[|p| - 1 - k] <= |p| - 1 - k
  {
    if k > 0 {
      IncreasingIsIdentity(p, k - 1);
      assert p[k - 1] < p[k];
      assert p[|p| - 1 - k] < p[|p| - k];
    }
  }

  /** Reloading reads the segments in creation order exactly when there are at most ten of them. */
  lemma LoadOrderIsCreationOrder(p: seq<nat>, n: nat)
    requires IsLoadOrder(p, n)
    ensures IsCreationOrder(p) <==> n <= 10
  {
    if n <= 10 {
      forall i, j | 0 <= i < j < n ensures p[i] < p[j] {
        SingleDigits(p[i], p[j]);
      }
      forall i | 0 <= i < n ensures p[i] == i {
        IncreasingIsIdentity(p, i);
        IncreasingIsIdentity(p, n - 1 - i);
      }
    } else {
      TenBeforeTwo();
      assert Before(Name(p[2]), Name(p[10]));
    }
  }
}

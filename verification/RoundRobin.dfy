/** Round-robin assignment of partitions to the members of a consumer group. */
module RoundRobin {
  import opened Bytes
  import opened Sorting
  import opened Text

  // ----- members: a std::set<std::string> as its sorted enumeration

  ghost predicate Ordered(ms: seq<string>) {
    forall i, j :: 0 <= i < j < |ms| ==> Before(ms[i], ms[j])
  }

  ghost predicate Distinct<T>(s: seq<T>) {
    forall i, j :: 0 <= i < j < |s| ==> s[i] != s[j]
  }

  function AddMember(ms: seq<string>, m: string): seq<string> {
    if |ms| == 0 || Before(m, ms[0]) then [m] + ms
    else if m == ms[0] then ms
    else [ms[0]] + AddMember(ms[1..], m)
  }

  function RemoveMember(ms: seq<string>, m: string): seq<string> {
    if |ms| == 0 then []
    else if m == ms[0] then ms[1..]
    else [ms[0]] + RemoveMember(ms[1..], m)
  }

  lemma OrderedTail(ms: seq<string>)
    requires Ordered(ms) && |ms| > 0
    ensures Ordered(ms[1..])
    ensures forall x :: x in ms[1..] ==> Before(ms[0], x)
    ensures forall x :: x in ms <==> x == ms[0] || x in ms[1..]
  {
    assert ms == [ms[0]] + ms[1..];
  }

  lemma OrderedCons(m: string, ms: seq<string>)
    requires Ordered(ms) && forall x :: x in ms ==> Before(m, x)
    ensures Ordered([m] + ms)
  {
    forall i, j | 0 <= i < j < |[m] + ms| ensures Before(([m] + ms)[i], ([m] + ms)[j]) {
      assert ([m] + ms)[j] == ms[j - 1];
      if i > 0 {
        assert ([m] + ms)[i] == ms[i - 1];
      } else {
        assert ms[j - 1] in ms;
      }
    }
  }

  lemma OrderedDistinct(ms: seq<string>)
    requires Ordered(ms)
    ensures Distinct(ms)
  {
    forall i, j | 0 <= i < j < |ms| ensures ms[i] != ms[j] { BeforeTotal(ms[i], ms[j]); }
  }

  lemma {:induction false} AddMemberSpec(ms: seq<string>, m: string)
    requires Ordered(ms)
    ensures Ordered(AddMember(ms, m))
    ensures forall x :: x in AddMember(ms, m) <==> x == m || x in ms
  {
    if |ms| == 0 {
    } else if Before(m, ms[0]) {
      OrderedTail(ms);
      forall x | x in ms ensures Before(m, x) {
        if x != ms[0] { BeforeTransitive(m, ms[0], x); }
      }
      OrderedCons(m, ms);
    } else if m != ms[0] {
      OrderedTail(ms);
      AddMemberSpec(ms[1..], m);
      BeforeTotal(m, ms[0]);
      OrderedCons(ms[0], AddMember(ms[1..], m));
    }
  }

  lemma {:induction false} RemoveMemberSpec(ms: seq<string>, m: string)
    requires Ordered(ms)
    ensures Ordered(RemoveMember(ms, m))
    ensures forall x :: x in RemoveMember(ms, m) <==> x != m && x in ms
  {
    if |ms| > 0 {
      OrderedTail(ms);
      if m == ms[0] {
        forall x | x in ms[1..] ensures x != m { BeforeTotal(ms[0], x); }
      } else {
        RemoveMemberSpec(ms[1..], m);
        OrderedCons(ms[0], RemoveMember(ms[1..], m));
      }
    }
  }

  // ----- shares

  /** The elements whose position is j modulo n. */
  function Share(s: seq<int>, n: nat, j: nat): seq<int>
    requires n > 0
  {
    if |s| == 0 then []
    else Share(s[..|s| - 1], n, j) + if (|s| - 1) % n == j then [s[|s| - 1]] else []
  }

  function Position(ms: seq<string>, m: string): (i: nat)
    requires m in ms
    ensures i < |ms| && ms[i] == m
  {
    if ms[0] == m then 0 else 1 + Position(ms[1..], m)
  }

  function Shares(ms: seq<string>, s: seq<int>): (a: map<string, seq<int>>)
    ensures forall m :: m in a <==> m in ms
  {
    map m | m in ms :: Share(s, |ms|, Position(ms, m))
  }

  lemma {:induction false} ShareHas(s: seq<int>, n: nat, j: nat, p: int)
    requires n > 0 && j < n
    ensures p in Share(s, n, j) <==> exists i :: 0 <= i < |s| && s[i] == p && i % n == j
  {
    if |s| > 0 {
      var front, i := s[..|s| - 1], |s| - 1;
      ShareHas(front, n, j, p);
      if p in Share(front, n, j) {
        var k :| 0 <= k < |front| && front[k] == p && k % n == j;
        assert s[k] == p;
      }
      if exists k :: 0 <= k < |s| && s[k] == p && k % n == j {
        var k :| 0 <= k < |s| && s[k] == p && k % n == j;
        if k < i { assert front[k] == p; }
      }
    }
  }

  /** How many of the first k positions are j modulo n. */
  lemma {:induction false} ShareSize(s: seq<int>, n: nat, j: nat)
    requires n > 0 && j < n
    ensures |Share(s, n, j)| == CountUpTo(|s|, n, j)
  {
    if |s| == 0 {
      DivModUnique(0, n, 0, 0);
    } else {
      ShareSize(s[..|s| - 1], n, j);
      NextCount(|s| - 1, n, j);
    }
  }

  function CountUpTo(k: nat, n: nat, j: nat): nat
    requires n > 0
  {
    k / n + if j < k % n then 1 else 0
  }

  lemma {:induction false} ShareAt(s: seq<int>, n: nat, i: nat)
    requires n > 0 && i < |s|
    ensures i / n < |Share(s, n, i % n)| && Share(s, n, i % n)[i / n] == s[i]
  {
    var front := s[..|s| - 1];
    if i < |front| {
      ShareAt(front, n, i);
    } else {
      ShareSize(front, n, i % n);
    }
  }

  /** Dealing goes round: partition i of the list goes to member i modulo their number, after those it already has,
      and nobody gets more than that. */
  lemma DealtInTurn(ms: seq<string>, s: seq<int>, n: nat, i: nat, j: nat, k: nat)
    requires Distinct(ms) && |ms| == n > 0 && i < |s| && j == i % n < n && k == i / n
    ensures var a := Shares(ms, s);
            && ms[j] in a && k < |a[ms[j]]| && a[ms[j]][k] == s[i]
            && |a[ms[j]]| == |s| / n + if j < |s| % n then 1 else 0
  {
    PositionOf(ms, j);
    ShareAt(s, n, i);
    ShareSize(s, n, j);
  }

  lemma NextCount(k: nat, n: nat, j: nat)
    requires n > 0 && j < n
    ensures CountUpTo(k + 1, n, j) == CountUpTo(k, n, j) + if k % n == j then 1 else 0
  {
    NextDivMod(k, n);
  }

  lemma NextDivMod(k: nat, n: nat)
    requires n > 0
    ensures k % n == n - 1 ==> (k + 1) / n == k / n + 1 && (k + 1) % n == 0
    ensures k % n != n - 1 ==> (k + 1) / n == k / n && (k + 1) % n == k % n + 1
  {
    var q, r := k / n, k % n;
    assert k + 1 == n * q + (r + 1);
    if r == n - 1 {
      assert k + 1 == n * (q + 1);
      DivModUnique(k + 1, n, q + 1, 0);
    } else {
      DivModUnique(k + 1, n, q, r + 1);
    }
  }

  // ----- ownership

  /** Every listed partition has exactly one owner, nobody owns anything else, no owner holds a
      partition twice, and the loads of any two owners differ by at most one. */
  ghost predicate Owns(a: map<string, seq<int>>, ms: seq<string>, listed: seq<int>) {
    && (forall m :: m in a <==> m in ms)
    && (forall p :: Owned(a, p) <==> p in listed)
    && (forall m, k, p :: m in a && k in a && p in a[m] && p in a[k] ==> m == k)
    && (forall m :: m in a ==> Distinct(a[m]))
    && (forall m, k :: m in a && k in a ==> |a[m]| <= |a[k]| + 1)
  }

  ghost predicate Owned(a: map<string, seq<int>>, p: int) {
    exists m :: m in a && p in a[m]
  }

  lemma OwnerAt(ms: seq<string>, s: seq<int>, i: nat)
    requires |ms| > 0 && Distinct(ms) && i < |s|
    ensures Owned(Shares(ms, s), s[i])
  {
    var n, a := |ms|, Shares(ms, s);
    var j := i % n;
    PositionOf(ms, j);
    ShareHas(s, n, j, s[i]);
    assert ms[j] in a && s[i] in a[ms[j]];
  }

  /** Whatever the list, the members together own exactly what it names. */
  lemma OwnedExactly(ms: seq<string>, list: seq<int>, p: int)
    requires |ms| > 0 && Ordered(ms)
    ensures Owned(Shares(ms, Sort(list)), p) <==> p in list
  {
    var s, a := Sort(list), Shares(ms, Sort(list));
    OrderedDistinct(ms);
    assert p in list <==> p in multiset(list);
    assert p in s <==> p in multiset(s);
    if p in s {
      var i :| 0 <= i < |s| && s[i] == p;
      OwnerAt(ms, s, i);
    }
    forall m | m in a && p in a[m] ensures p in s {
      ShareHas(s, |ms|, Position(ms, m), p);
    }
  }

  lemma ShareOwned(s: seq<int>, n: nat, j: nat, k: nat, p: int)
    requires n > 0 && j < n && k < n && Distinct(s)
    requires p in Share(s, n, j) && p in Share(s, n, k)
    ensures j == k
  {
    ShareHas(s, n, j, p);
    ShareHas(s, n, k, p);
  }

  lemma {:induction false} ShareDistinct(s: seq<int>, n: nat, j: nat)
    requires n > 0 && j < n && Distinct(s)
    ensures Distinct(Share(s, n, j))
  {
    if |s| > 0 {
      var front, last := s[..|s| - 1], s[|s| - 1];
      ShareDistinct(front, n, j);
      ShareHas(front, n, j, last);
    }
  }

  /** The loads of any two members differ by at most one. */
  lemma ShareBalanced(s: seq<int>, n: nat, j: nat, k: nat)
    requires n > 0 && j < n && k < n
    ensures |Share(s, n, j)| <= |Share(s, n, k)| + 1
  {
    ShareSize(s, n, j);
    ShareSize(s, n, k);
  }

  lemma {:induction false} DistinctByMultiset(a: seq<int>, b: seq<int>)
    requires multiset(a) == multiset(b) && Distinct(a)
    ensures Distinct(b)
  {
    forall i, j | 0 <= i < j < |b| ensures b[i] != b[j] {
      if b[i] == b[j] {
        TwiceInMultiset(b, i, j);
        OnceInMultiset(a, b[i]);
        assert false;
      }
    }
  }

  lemma TwiceInMultiset(s: seq<int>, i: nat, j: nat)
    requires i < j < |s| && s[i] == s[j]
    ensures multiset(s)[s[i]] >= 2
  {
    assert s == s[..i + 1] + s[i + 1..];
    assert s[i] in s[..i + 1];
    assert s[j] == s[i + 1..][j - i - 1];
  }

  lemma {:induction false} OnceInMultiset(s: seq<int>, x: int)
    requires Distinct(s)
    ensures multiset(s)[x] <= 1
  {
    if |s| > 0 {
      OnceInMultiset(s[1..], x);
      HeadAndTail(s);
      if x == s[0] {
        assert x !in s[1..];
      }
    }
  }

  lemma SortKeeps(list: seq<int>)
    requires Distinct(list)
    ensures Distinct(Sort(list))
    ensures forall p :: p in Sort(list) <==> p in list
  {
    DistinctByMultiset(list, Sort(list));
    forall p ensures p in Sort(list) <==> p in list {
      assert p in list <==> p in multiset(list);
      assert p in Sort(list) <==> p in multiset(Sort(list));
    }
  }

  /** Round robin over a duplicate-free list gives exclusive, complete and balanced ownership. */
  lemma RoundRobinOwns(ms: seq<string>, list: seq<int>)
    requires |ms| > 0 && Ordered(ms) && Distinct(list)
    ensures Owns(Shares(ms, Sort(list)), ms, list)
  {
    var s, n, a := Sort(list), |ms|, Shares(ms, Sort(list));
    SortKeeps(list);
    OrderedDistinct(ms);
    forall p ensures Owned(a, p) <==> p in list {
      OwnedExactly(ms, list, p);
    }
    forall m, k, p | m in a && k in a && p in a[m] && p in a[k] ensures m == k {
      ShareOwned(s, n, Position(ms, m), Position(ms, k), p);
    }
    forall m | m in a ensures Distinct(a[m]) {
      ShareDistinct(s, n, Position(ms, m));
    }
    forall m, k | m in a && k in a ensures |a[m]| <= |a[k]| + 1 {
      ShareBalanced(s, n, Position(ms, m), Position(ms, k));
    }
  }

  lemma {:induction false} PositionOf(ms: seq<string>, i: nat)
    requires Distinct(ms) && i < |ms|
    ensures Position(ms, ms[i]) == i
  {
    assert ms[Position(ms, ms[i])] == ms[i];
  }

  // ----- and a list with a repeated partition never does

  lemma {:induction false} AdjacentRepeat(s: seq<int>) returns (i: nat)
    requires Sorted(s) && !Distinct(s)
    ensures i + 1 < |s| && s[i] == s[i + 1]
  {
    var j, k :| 0 <= j < k < |s| && s[j] == s[k];
    assert s[j] <= s[j + 1] <= s[k];
    i := j;
  }

  lemma {:induction false} ShareAll(s: seq<int>)
    ensures Share(s, 1, 0) == s
  {
    if |s| > 0 {
      ShareAll(s[..|s| - 1]);
    }
  }

  lemma RepeatSpoils(ms: seq<string>, s: seq<int>)
    requires |ms| > 0 && Ordered(ms) && Sorted(s) && !Distinct(s)
    ensures var a := Shares(ms, s);
            || (exists m :: m in a && !Distinct(a[m]))
            || (exists m, k, p :: m in a && k in a && p in a[m] && p in a[k] && m != k)
  {
    var n, a := |ms|, Shares(ms, s);
    var i := AdjacentRepeat(s);
    OrderedDistinct(ms);
    var j, k := i % n, (i + 1) % n;
    NextDivMod(i, n);
    var m, l := ms[j], ms[k];
    PositionOf(ms, j);
    PositionOf(ms, k);
    if n == 1 {
      ShareAll(s);
      assert m in a && !Distinct(a[m]);
    } else {
      ShareHas(s, n, j, s[i]);
      ShareHas(s, n, k, s[i]);
      assert j != k;
      assert m in a && l in a && s[i] in a[m] && s[i] in a[l] && m != l;
    }
  }

  /** Ownership is exclusive, complete and balanced if and only if the list names no partition twice. */
  lemma RoundRobinOwnsIffDistinct(ms: seq<string>, list: seq<int>)
    requires |ms| > 0 && Ordered(ms)
    ensures Owns(Shares(ms, Sort(list)), ms, list) <==> Distinct(list)
  {
    if Distinct(list) {
      RoundRobinOwns(ms, list);
    } else {
      if Distinct(Sort(list)) {
        DistinctByMultiset(Sort(list), list);
        assert false;
      }
      RepeatSpoils(ms, Sort(list));
    }
  }

  /** The assignment depends on which partitions are listed, not on their order. */
  lemma SharesIgnoreOrder(ms: seq<string>, a: seq<int>, b: seq<int>)
    requires multiset(a) == multiset(b)
    ensures Shares(ms, Sort(a)) == Shares(ms, Sort(b))
  {
    SortIgnoresOrder(a, b);
  }
}

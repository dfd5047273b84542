/** maybe_elect_leader on every broker: who leads once failure detection is right and every live broker
    has run it. */
module Election {

  // ----- one broker

  /** The lowest id among the broker itself and the peers it has not marked failed. */
  ghost predicate IsLowest(self: int, peers: seq<int>, failed: set<int>, id: int) {
    && (id == self || (id in peers && id !in failed))
    && id <= self && forall p :: p in peers && p !in failed ==> id <= p
  }

  /** A broker keeps following another one it has not marked failed, and otherwise takes the lowest. */
  ghost predicate IsElected(self: int, peers: seq<int>, failed: set<int>, view: int, elected: int) {
    if view != self && view !in failed then elected == view
    else IsLowest(self, peers, failed, elected)
  }

  /** maybe_elect_leader, after the peers that have been silent too long were marked failed. */
  method ElectLeader(self: int, peers: seq<int>, failed: set<int>, view: int) returns (elected: int)
    ensures IsElected(self, peers, failed, view, elected)
  {
    if view != self && view !in failed {
      return view;
    }
    elected := self;
    for i := 0 to |peers|
      invariant IsLowest(self, peers[..i], failed, elected)
    {
      if peers[i] != self && peers[i] !in failed && peers[i] < elected {
        elected := peers[i];
      }
      assert peers[..i + 1] == peers[..i] + [peers[i]];
    }
    assert peers[..|peers|] == peers;
  }

  // ----- the live brokers together

  /** Every live broker lists the others as peers and has marked failed exactly those that are not live. */
  ghost predicate Accurate(members: set<int>, live: set<int>, b: int, peers: seq<int>, failed: set<int>) {
    && live <= members && b in live
    && (forall p :: p in peers || p == b <==> p in members)
    && (forall p :: p in failed <==> p in members && p !in live)
  }

  ghost predicate Least(live: set<int>, low: int) {
    low in live && forall p :: p in live ==> low <= p
  }

  /** Whom a live broker follows after electing at least once, given whom it followed before. */
  function Settled(live: set<int>, low: int, b: int, view: int): int {
    if view != b && view in live then view else low
  }

  lemma ElectionSettles(members: set<int>, live: set<int>, low: int, b: int, peers: seq<int>, failed: set<int>,
          view: int, elected: int)
    requires Accurate(members, live, b, peers, failed) && Least(live, low) && view in members
    requires IsElected(b, peers, failed, view, elected)
    ensures elected == Settled(live, low, b, view)
  {
    if !(view != b && view in live) {
      assert low in members;
      assert elected in live;
      assert low == b || (low in peers && low !in failed);
    }
  }

  /** A configured leader that is not a member is never suspected, so it is followed for ever. */
  lemma UnknownLeaderKept(members: set<int>, live: set<int>, b: int, peers: seq<int>, failed: set<int>, view: int,
          elected: int)
    requires Accurate(members, live, b, peers, failed) && view !in members
    requires IsElected(b, peers, failed, view, elected)
    ensures elected == view && elected != b
  {
    assert b in members;
  }

  /** One election on broker b. */
  function Elect(live: set<int>, low: int, views: map<int, int>, b: int): map<int, int> {
    if b in views then views[b := Settled(live, low, b, views[b])] else views
  }

  function Elections(live: set<int>, low: int, views: map<int, int>, schedule: seq<int>): map<int, int> {
    if |schedule| == 0 then views
    else Elect(live, low, Elections(live, low, views, schedule[..|schedule| - 1]), schedule[|schedule| - 1])
  }

  /** Whatever the order and however often they elect, each broker settles on its first election. */
  lemma {:induction false} ViewsAfter(live: set<int>, low: int, views: map<int, int>, schedule: seq<int>, b: int)
    requires Least(live, low) && b in views
    ensures b in Elections(live, low, views, schedule)
    ensures Elections(live, low, views, schedule)[b] == if b in schedule then Settled(live, low, b, views[b])
            else views[b]
  {
    if |schedule| > 0 {
      var front, last := schedule[..|schedule| - 1], schedule[|schedule| - 1];
      assert schedule == front + [last];
      ViewsAfter(live, low, views, front, b);
    }
  }

  ghost predicate Leads(views: map<int, int>, b: int) {
    b in views && views[b] == b
  }

  ghost predicate Everyone(live: set<int>, views: map<int, int>, schedule: seq<int>) {
    live == views.Keys && forall b :: b in live ==> b in schedule
  }

  /** At most one live broker leads, and it is the one with the lowest id: exactly when it was not
      following another live broker. */
  lemma LeaderIff(live: set<int>, low: int, views: map<int, int>, schedule: seq<int>, b: int)
    requires Least(live, low) && Everyone(live, views, schedule)
    ensures Leads(Elections(live, low, views, schedule), b)
            <==> b == low && !(views[low] != low && views[low] in live)
  {
    if b in views {
      ViewsAfter(live, low, views, schedule, b);
    } else {
      NoOthers(live, low, views, schedule, b);
    }
  }

  lemma {:induction false} NoOthers(live: set<int>, low: int, views: map<int, int>, schedule: seq<int>, b: int)
    requires b !in views
    ensures b !in Elections(live, low, views, schedule)
  {
    if |schedule| > 0 {
      NoOthers(live, low, views, schedule[..|schedule| - 1], b);
    }
  }

  /** All live brokers end up following the lowest exactly when none of them followed another live one. */
  lemma AgreementIff(live: set<int>, low: int, views: map<int, int>, schedule: seq<int>)
    requires Least(live, low) && Everyone(live, views, schedule)
    ensures (forall b :: b in live ==>
               b in Elections(live, low, views, schedule) && Elections(live, low, views, schedule)[b] == low)
            <==> (forall b :: b in live ==> views[b] == b || views[b] !in live || views[b] == low)
  {
    forall b | b in live
      ensures b in Elections(live, low, views, schedule)
      ensures Elections(live, low, views, schedule)[b] == low <==> views[b] == b || views[b] !in live || views[b] == low
    {
      ViewsAfter(live, low, views, schedule, b);
    }
  }

  /** A cluster whose brokers all start with the same live leader still has a leader after everyone has
      elected if and only if that leader has the lowest live id: any other one steps down in favour of
      the lowest, which goes on following it. */
  lemma ConfiguredLeaderLastsIff(live: set<int>, low: int, views: map<int, int>, schedule: seq<int>, leader: int)
    requires Least(live, low) && Everyone(live, views, schedule) && leader in live
    requires forall b :: b in live ==> views[b] == leader
    ensures (exists b :: Leads(Elections(live, low, views, schedule), b)) <==> leader == low
  {
    LeaderIff(live, low, views, schedule, low);
    if b :| Leads(Elections(live, low, views, schedule), b) {
      LeaderIff(live, low, views, schedule, b);
    }
  }

  /** After the leader is gone, everyone follows the lowest live broker. */
  lemma FailoverElects(live: set<int>, low: int, views: map<int, int>, schedule: seq<int>, leader: int, b: int)
    requires Least(live, low) && Everyone(live, views, schedule) && leader !in live
    requires forall p :: p in live ==> views[p] == leader
    ensures Leads(Elections(live, low, views, schedule), b) <==> b == low
    ensures forall p :: p in live ==>
              p in Elections(live, low, views, schedule) && Elections(live, low, views, schedule)[p] == low
  {
    LeaderIff(live, low, views, schedule, b);
    AgreementIff(live, low, views, schedule);
  }

  /** The outcome is stable: further elections change nothing. */
  lemma ElectionsStable(live: set<int>, low: int, views: map<int, int>, schedule: seq<int>, more: seq<int>, b: int)
    requires Least(live, low) && Everyone(live, views, schedule) && b in views
    ensures var done := Elections(live, low, views, schedule);
            b in done && b in Elections(live, low, done, more) && Elections(live, low, done, more)[b] == done[b]
  {
    ViewsAfter(live, low, views, schedule, b);
    ViewsAfter(live, low, Elections(live, low, views, schedule), more, b);
  }

  /** Two live brokers, leader 2: broker 2 then follows 1 and broker 1 follows 2, and nobody leads. */
  lemma LeaderlessExample(b: int)
    ensures !Leads(Elections({1, 2}, 1, map[1 := 2, 2 := 2], [1, 2]), b)
  {
    assert map[1 := 2, 2 := 2].Keys == {1, 2};
    LeaderIff({1, 2}, 1, map[1 := 2, 2 := 2], [1, 2], b);
  }
}

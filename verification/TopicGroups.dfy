/** Consumer groups over the partitions that the storage engine lists for a topic. */
module TopicGroups {
  import opened Keys
  import opened RoundRobin
  import opened Sorting
  import opened ConsumerGroups
  import opened Text

  /** Broker::topic_partitions: the sorted list of StorageEngine::partitions_for_topic. */
  function Listing(logs: seq<LogId>, topic: string): seq<int> {
    Sort(Contributions(KeysOf(logs), topic))
  }

  predicate Exists(logs: seq<LogId>, topic: string, p: int) {
    p >= 0 && LogId(topic, p) in logs
  }

  // ----- when a listing is right

  lemma {:induction false} OwnExact(logs: seq<LogId>, topic: string, p: int)
    ensures p in Own(logs, topic) <==> Exists(logs, topic, p)
  {
    if |logs| > 0 {
      OwnExact(logs[..|logs| - 1], topic, p);
      assert logs == logs[..|logs| - 1] + [logs[|logs| - 1]];
    }
  }

  lemma {:induction false} OwnDistinct(logs: seq<LogId>, topic: string)
    requires Distinct(logs)
    ensures Distinct(Own(logs, topic))
  {
    if |logs| > 0 {
      var front, last := logs[..|logs| - 1], logs[|logs| - 1];
      OwnDistinct(front, topic);
      OwnExact(front, topic, last.partition);
      assert last !in front;
    }
  }

  lemma SortedHas(list: seq<int>, p: int)
    ensures p in Sort(list) <==> p in list
  {
    assert p in multiset(Sort(list)) <==> p in multiset(list);
  }

  /** A listing without mistakes names exactly the topic's partitions. */
  lemma ListingHas(logs: seq<LogId>, topic: string, p: int)
    requires Int32Partitions(logs) && NoneMistaken(logs, topic)
    ensures p in Listing(logs, topic) <==> Exists(logs, topic, p)
  {
    ListingExact(logs, topic);
    OwnExact(logs, topic, p);
    SortedHas(Contributions(KeysOf(logs), topic), p);
    assert p in multiset(Contributions(KeysOf(logs), topic)) <==> p in multiset(Own(logs, topic));
  }

  lemma DistinctSum(a: seq<int>, b: seq<int>)
    requires Distinct(a)
    ensures Distinct(a + b) <==> Distinct(b) && forall p :: p in b ==> p !in a
  {
    var ab := a + b;
    if Distinct(ab) {
      forall i, j | 0 <= i < j < |b| ensures b[i] != b[j] { assert ab[|a| + i] != ab[|a| + j]; }
      forall i, j | 0 <= i < |a| && 0 <= j < |b| ensures a[i] != b[j] { assert ab[i] != ab[|a| + j]; }
    } else {
      var i, j :| 0 <= i < j < |ab| && ab[i] == ab[j];
      assert j >= |a|;
      assert ab[j] == b[j - |a|];
      assert i >= |a| ==> ab[i] == b[i - |a|];
      assert i < |a| ==> ab[i] in a && ab[i] in b;
    }
  }

  /** A listing names no partition twice exactly when the numbers that other topics' logs contribute are
      different from one another and from the topic's own partitions. */
  lemma ListingDistinctIff(logs: seq<LogId>, topic: string)
    requires Int32Partitions(logs) && Distinct(logs)
    ensures Distinct(Listing(logs, topic)) <==>
            Distinct(Mistakes(logs, topic)) && forall p :: p in Mistakes(logs, topic) ==> !Exists(logs, topic, p)
  {
    var own, extra, listed := Own(logs, topic), Mistakes(logs, topic), Listing(logs, topic);
    ListingCounts(logs, topic);
    assert multiset(listed) == multiset(own + extra);
    if Distinct(listed) { DistinctByMultiset(listed, own + extra); }
    if Distinct(own + extra) { DistinctByMultiset(own + extra, listed); }
    OwnDistinct(logs, topic);
    DistinctSum(own, extra);
    forall p ensures p in own <==> Exists(logs, topic, p) { OwnExact(logs, topic, p); }
  }

  /** After every run in which a group was last rebalanced over the listing of its topic, and no log of another
      topic reads as one of its partitions, each partition of the topic has exactly one owner, nothing else is
      owned, and loads differ by at most one. */
  lemma TopicOwned(ops: seq<Op>, name: string, logs: seq<LogId>)
    requires name in State(ops) && Listed(ops, name) == Listing(logs, State(ops)[name].topic)
    requires Int32Partitions(logs) && Distinct(logs) && NoneMistaken(logs, State(ops)[name].topic)
    ensures var g := State(ops)[name];
            Owns(g.assignments, g.members, Listing(logs, g.topic))
            && forall p :: Owned(g.assignments, p) <==> Exists(logs, g.topic, p)
  {
    var g := State(ops)[name];
    NoMistakes(logs, g.topic);
    ListingDistinctIff(logs, g.topic);
    OwnershipOverRuns(ops, name);
    forall p ensures p in Listing(logs, g.topic) <==> Exists(logs, g.topic, p) { ListingHas(logs, g.topic, p); }
  }

  // ----- leaving

  /** Broker::handle_leave_group: the list is that of the topic in the request, whatever the group's topic. */
  function LeaveRequest(gs: Groups, logs: seq<LogId>, name: string, member: string, topic: string): Groups {
    Left(gs, name, member, Listing(logs, topic))
  }

  lemma LeaveOwns(gs: Groups, logs: seq<LogId>, name: string, member: string, topic: string, p: int)
    requires WellFormed(gs) && name in LeaveRequest(gs, logs, name, member, topic)
    ensures Owned(LeaveRequest(gs, logs, name, member, topic)[name].assignments, p) <==> p in Listing(logs, topic)
  {
    LeaveKeeps(gs, name, member, Listing(logs, topic));
    var g := LeaveRequest(gs, logs, name, member, topic)[name];
    OwnedExactly(g.members, Listing(logs, topic), p);
  }

  /** After a leave request the remaining members own exactly the partitions listed for their group's topic if
      and only if the listing of the requested topic names the same ones; so they do if it is the same topic. */
  lemma LeaveKeepsTopicIff(gs: Groups, logs: seq<LogId>, name: string, member: string, topic: string)
    requires WellFormed(gs) && name in gs && name in LeaveRequest(gs, logs, name, member, topic)
    ensures var own := Listing(logs, gs[name].topic);
            var after := LeaveRequest(gs, logs, name, member, topic)[name];
            && ((forall p :: Owned(after.assignments, p) <==> p in own) <==>
                   (forall p :: p in Listing(logs, topic) <==> p in own))
            && (topic == gs[name].topic ==> forall p :: Owned(after.assignments, p) <==> p in own)
  {
    var after := LeaveRequest(gs, logs, name, member, topic)[name];
    forall p ensures Owned(after.assignments, p) <==> p in Listing(logs, topic) {
      LeaveOwns(gs, logs, name, member, topic, p);
    }
  }

  /** A group with another member outlives the leave and keeps its topic. */
  lemma GroupStays(gs: Groups, logs: seq<LogId>, name: string, member: string, topic: string, other: string)
    requires WellFormed(gs) && name in gs && other in gs[name].members && other != member
    ensures var after := LeaveRequest(gs, logs, name, member, topic);
            name in after && after[name].topic == gs[name].topic
  {
    RemoveMemberSpec(gs[name].members, member);
    assert other in RemoveMember(gs[name].members, member);
  }

  const LOGS := [LogId("a", 0), LogId("b", 0), LogId("b", 1)]
  const GROUPS: Groups := map["g" := Group("a", ["m", "n"], map["m" := [0], "n" := []], map[])]

  /** Topic a has one partition and topic b two: when n leaves the group on a with a request that names b, the
      remaining member m owns partition 1, which topic a does not have. */
  lemma LeaveForOtherTopic()
    ensures WellFormed(GROUPS) && !Exists(LOGS, "a", 1)
    ensures var after := LeaveRequest(GROUPS, LOGS, "g", "n", "b");
            "g" in after && after["g"].topic == "a" && Owned(after["g"].assignments, 1)
  {
    MembersOrdered();
    OtherListed();
    GroupStays(GROUPS, LOGS, "g", "n", "b", "m");
    LeaveOwns(GROUPS, LOGS, "g", "n", "b", 1);
  }

  lemma MembersOrdered()
    ensures Ordered(["m", "n"]) && WellFormed(GROUPS)
  {
    assert Before("m", "n");
  }

  lemma OtherListed()
    ensures 1 in Listing(LOGS, "b")
  {
    assert LOGS[2] == LogId("b", 1);
    assert forall i :: 0 <= i < |LOGS| ==> |LOGS[i].topic| == 1;
    ListingHas(LOGS, "b", 1);
  }
}

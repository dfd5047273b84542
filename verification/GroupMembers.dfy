/** Who belongs to a consumer group after any run of operations. */
module GroupMembers {
  import opened RoundRobin
  import opened ConsumerGroups

  /** Who joined a group and has not left it since, and the topic they joined it for. */
  datatype Roster = Nobody | Roster(topic: string, members: set<string>)

  /** The last operation decides: the first to join an empty group sets its topic, others join only under that
      topic, and a group without members is gone. A group that was begun without a topic takes the next one. */
  function RosterOf(ops: seq<Op>, name: string): (r: Roster)
    ensures r.Roster? ==> r.members != {}
  {
    if |ops| == 0 then Nobody
    else
      var was := RosterOf(ops[..|ops| - 1], name);
      match ops[|ops| - 1]
      case JoinGroup(n, member, topic, _) =>
        if n != name then was
        else if was.Nobody? || was.topic == "" then
          Roster(topic, (if was.Nobody? then {} else was.members) + {member})
        else if was.topic == topic then was.(members := was.members + {member})
        else was
      case LeaveGroup(n, member, _) =>
        if n != name || was.Nobody? then was
        else if was.members - {member} == {} then Nobody
        else was.(members := was.members - {member})
      case _ => was
  }

  /** The group is the one the roster describes. */
  ghost predicate Matches(gs: Groups, name: string, r: Roster) {
    && (name in gs <==> r.Roster?)
    && (name in gs ==> gs[name].topic == r.topic && forall x :: x in gs[name].members <==> x in r.members)
  }

  lemma JoinMatches(gs: Groups, name: string, was: Roster, member: string, topic: string, partitions: seq<int>,
          r: Roster)
    requires WellFormed(gs) && Matches(gs, name, was) && (was.Roster? ==> was.members != {})
    requires r == if was.Nobody? || was.topic == "" then
                    Roster(topic, (if was.Nobody? then {} else was.members) + {member})
                  else if was.topic == topic then was.(members := was.members + {member})
                  else was
    ensures Matches(Joined(gs, name, member, topic, partitions), name, r)
  {
    AddMemberSpec(Joining(gs, name, topic).members, member);
  }

  lemma LeaveMatches(gs: Groups, name: string, was: Roster, member: string, partitions: seq<int>, r: Roster)
    requires WellFormed(gs) && Matches(gs, name, was) && was.Roster?
    requires r == if was.members - {member} == {} then Nobody else was.(members := was.members - {member})
    ensures Matches(Left(gs, name, member, partitions), name, r)
  {
    RemoveMemberSpec(gs[name].members, member);
    LeftSet(RemoveMember(gs[name].members, member), was.members - {member});
  }

  /** A list and a set of the same elements are empty together. */
  lemma LeftSet(left: seq<string>, rest: set<string>)
    requires forall x :: x in left <==> x in rest
    ensures |left| == 0 <==> rest == {}
  {
    if rest != {} {
      var x :| x in rest;
      assert x in left;
    }
    if |left| > 0 {
      assert left[0] in left;
    }
  }

  /** Over every run, a group exists exactly when somebody joined it and has not left since; then its topic and its
      members are those of the roster. */
  lemma {:induction false} MembersOverRuns(ops: seq<Op>, name: string)
    ensures Matches(State(ops), name, RosterOf(ops, name))
  {
    if |ops| > 0 {
      var before := ops[..|ops| - 1];
      var gs, was := State(before), RosterOf(before, name);
      MembersOverRuns(before, name);
      RunKeeps(before);
      match ops[|ops| - 1]
      case JoinGroup(n, member, topic, partitions) =>
        if n == name { JoinMatches(gs, name, was, member, topic, partitions, RosterOf(ops, name)); }
      case LeaveGroup(n, member, partitions) =>
        if n == name && was.Roster? { LeaveMatches(gs, name, was, member, partitions, RosterOf(ops, name)); }
      case RefreshTopic(_, _) =>
      case CommitOffset(_, _, _, _, _) =>
    }
  }
}

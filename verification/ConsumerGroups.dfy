/** Consumer groups: membership, partition ownership and cursors, over whole runs. */
module ConsumerGroups {
  import opened Bytes
  import opened RoundRobin
  import opened Sorting

  datatype Group = Group(topic: string, members: seq<string>, assignments: map<string, seq<int>>,
                         offsets: map<int, nat>)

  type Groups = map<string, Group>

  const NEW_GROUP := Group("", [], map[], map[])

  // ----- the operations on values

  /** ConsumerGroupManager::rebalance */
  function Rebalanced(g: Group, partitions: seq<int>): Group {
    g.(assignments := Shares(g.members, Sort(partitions)))
  }

  /** The group a join acts on: created on first use, its topic fixed by the first join. */
  function Joining(gs: Groups, name: string, topic: string): Group {
    var g := if name in gs then gs[name] else NEW_GROUP;
    if g.topic == "" then g.(topic := topic) else g
  }

  function Joined(gs: Groups, name: string, member: string, topic: string, partitions: seq<int>): Groups {
    var g := Joining(gs, name, topic);
    gs[name := if g.topic != topic then g
               else Rebalanced(g.(members := AddMember(g.members, member)), partitions)]
  }

  function Left(gs: Groups, name: string, member: string, partitions: seq<int>): Groups {
    if name !in gs then gs
    else
      var g := gs[name].(members := RemoveMember(gs[name].members, member));
      if |g.members| == 0 then gs - {name} else gs[name := Rebalanced(g, partitions)]
  }

  function Refreshed(gs: Groups, topic: string, partitions: seq<int>): Groups {
    map name | name in gs :: if gs[name].topic == topic then Rebalanced(gs[name], partitions) else gs[name]
  }

  predicate IsAssigned(gs: Groups, name: string, member: string, topic: string, partition: int) {
    && name in gs && gs[name].topic == topic
    && member in gs[name].assignments
    && partition in gs[name].assignments[member]
  }

  function Cursor(g: Group, partition: int): nat {
    if partition in g.offsets then g.offsets[partition] else 0
  }

  function NextOffset(gs: Groups, name: string, topic: string, partition: int): nat {
    if name in gs && gs[name].topic == topic then Cursor(gs[name], partition) else 0
  }

  /** offset + 1 in 64-bit arithmetic */
  function After(offset: nat): nat {
    (offset + 1) % TWO_64
  }

  function Committed(gs: Groups, name: string, member: string, topic: string, partition: int, offset: nat): Groups {
    if !IsAssigned(gs, name, member, topic, partition) then gs
    else gs[name := gs[name].(offsets :=
        gs[name].offsets[partition := Max(Cursor(gs[name], partition), After(offset))])]
  }

  // ----- the manager

  /** Rebalancing: every member starts with nothing and the sorted partitions are dealt in turn. */
  method Rebalance(members: seq<string>, partitions: seq<int>) returns (assignments: map<string, seq<int>>)
    requires Ordered(members)
    ensures assignments == Shares(members, Sort(partitions))
  {
    if |members| == 0 {
      assignments := map[];
    } else {
      OrderedDistinct(members);
      assignments := Deal(members, Sort(partitions));
    }
  }

  method Deal(members: seq<string>, sorted: seq<int>) returns (assignments: map<string, seq<int>>)
    requires |members| > 0 && Distinct(members)
    ensures assignments == Shares(members, sorted)
  {
    assignments := map m | m in members :: [];
    var index := 0;
    ghost var dealt: seq<int> := [];
    while index < |sorted|
      invariant 0 <= index <= |sorted| && dealt == sorted[..index]
      invariant assignments == Shares(members, dealt)
    {
      var turn := index % |members|;
      DealNext(members, dealt, sorted[index], turn);
      assignments := assignments[members[turn] := assignments[members[turn]] + [sorted[index]]];
      dealt := dealt + [sorted[index]];
      index := index + 1;
    }
    assert dealt == sorted;
  }

  lemma ShareSnoc(s: seq<int>, x: int, n: nat, j: nat, turn: nat)
    requires n > 0 && turn == |s| % n
    ensures Share(s + [x], n, j) == if turn == j then Share(s, n, j) + [x] else Share(s, n, j)
  {
    assert (s + [x])[..|s|] == s;
  }

  /** The next partition goes to the member whose turn it is, and to nobody else. */
  lemma DealNext(members: seq<string>, dealt: seq<int>, x: int, turn: nat)
    requires |members| > 0 && Distinct(members) && turn < |members| && turn == |dealt| % |members|
    ensures var before := Shares(members, dealt);
            Shares(members, dealt + [x]) == before[members[turn] := before[members[turn]] + [x]]
  {
    var n := |members|;
    var before, after := Shares(members, dealt), Shares(members, dealt + [x]);
    forall m | m in members
      ensures after[m] == if m == members[turn] then before[m] + [x] else before[m]
    {
      PositionOf(members, turn);
      ShareSnoc(dealt, x, n, Position(members, m), turn);
    }
    assert members[turn] in before;
    assert after.Keys == before.Keys;
  }

  class ConsumerGroupManager {
    var groups: Groups

    ghost predicate Valid()
      reads this
    {
      WellFormed(groups)
    }

    constructor ()
      ensures Valid() && groups == map[]
    {
      groups := map[];
    }

    method Join(name: string, member: string, topic: string, partitions: seq<int>) returns (share: seq<int>)
      requires Valid()
      modifies this
      ensures Valid()
      ensures groups == Joined(old(groups), name, member, topic, partitions)
      ensures Joining(old(groups), name, topic).topic != topic ==> share == []
      ensures Joining(old(groups), name, topic).topic == topic ==>
                member in groups[name].assignments && share == groups[name].assignments[member]
    {
      JoinKeeps(groups, name, member, topic, partitions);
      var group := if name in groups then groups[name] else NEW_GROUP;
      if group.topic == "" {
        group := group.(topic := topic);
      }
      if group.topic != topic {
        groups := groups[name := group];
        return [];
      }
      AddMemberSpec(group.members, member);
      group := group.(members := AddMember(group.members, member));
      var assignments := Rebalance(group.members, partitions);
      group := group.(assignments := assignments);
      groups := groups[name := group];
      share := group.assignments[member];
    }

    method Leave(name: string, member: string, partitions: seq<int>)
      requires Valid()
      modifies this
      ensures Valid()
      ensures groups == Left(old(groups), name, member, partitions)
    {
      LeaveKeeps(groups, name, member, partitions);
      if name !in groups {
        return;
      }
      var group := groups[name];
      RemoveMemberSpec(group.members, member);
      group := group.(members := RemoveMember(group.members, member));
      if |group.members| == 0 {
        groups := groups - {name};
        return;
      }
      var assignments := Rebalance(group.members, partitions);
      groups := groups[name := group.(assignments := assignments)];
    }

    method Commit(name: string, member: string, topic: string, partition: int, offset: nat) returns (ok: bool)
      requires Valid()
      modifies this
      ensures Valid()
      ensures ok == IsAssigned(old(groups), name, member, topic, partition)
      ensures groups == Committed(old(groups), name, member, topic, partition, offset)
    {
      if name !in groups || groups[name].topic != topic {
        return false;
      }
      if member !in groups[name].assignments || partition !in groups[name].assignments[member] {
        return false;
      }
      var next := Cursor(groups[name], partition);
      next := Max(next, (offset + 1) % TWO_64);
      groups := groups[name := groups[name].(offsets := groups[name].offsets[partition := next])];
      ok := true;
    }

    /** Every group of the topic is rebalanced over the new list. */
    method RefreshTopic(topic: string, partitions: seq<int>)
      requires Valid()
      modifies this
      ensures Valid()
      ensures groups == Refreshed(old(groups), topic, partitions)
    {
      var rest := groups.Keys;
      while rest != {}
        invariant rest <= groups.Keys == old(groups).Keys
        invariant forall n :: n in groups ==>
                    groups[n] == if n in rest then old(groups)[n] else Refreshed(old(groups), topic, partitions)[n]
        decreases rest
      {
        var name :| name in rest;
        if groups[name].topic == topic {
          var assignments := Rebalance(groups[name].members, partitions);
          groups := groups[name := groups[name].(assignments := assignments)];
        }
        rest := rest - {name};
      }
    }
  }

  // ----- what every operation keeps

  ghost predicate WellFormed(gs: Groups) {
    forall name :: name in gs ==> |gs[name].members| > 0 && Ordered(gs[name].members)
  }

  lemma JoinKeeps(gs: Groups, name: string, member: string, topic: string, partitions: seq<int>)
    requires WellFormed(gs)
    ensures WellFormed(Joined(gs, name, member, topic, partitions))
  {
    AddMemberSpec(Joining(gs, name, topic).members, member);
    assert member in AddMember(Joining(gs, name, topic).members, member);
  }

  lemma LeaveKeeps(gs: Groups, name: string, member: string, partitions: seq<int>)
    requires WellFormed(gs)
    ensures WellFormed(Left(gs, name, member, partitions))
  {
    if name in gs {
      RemoveMemberSpec(gs[name].members, member);
    }
  }

  // ----- runs

  datatype Op =
    | JoinGroup(name: string, member: string, topic: string, partitions: seq<int>)
    | LeaveGroup(name: string, member: string, partitions: seq<int>)
    | RefreshTopic(topic: string, partitions: seq<int>)
    | CommitOffset(name: string, member: string, topic: string, partition: int, offset: nat)

  function Apply(gs: Groups, op: Op): Groups {
    match op
    case JoinGroup(name, member, topic, partitions) => Joined(gs, name, member, topic, partitions)
    case LeaveGroup(name, member, partitions) => Left(gs, name, member, partitions)
    case RefreshTopic(topic, partitions) => Refreshed(gs, topic, partitions)
    case CommitOffset(name, member, topic, partition, offset) => Committed(gs, name, member, topic, partition, offset)
  }

  /** The groups after a run that starts with none. */
  function State(ops: seq<Op>): Groups {
    if |ops| == 0 then map[] else Apply(State(ops[..|ops| - 1]), ops[|ops| - 1])
  }

  lemma {:induction false} RunKeeps(ops: seq<Op>)
    ensures WellFormed(State(ops))
  {
    if |ops| > 0 {
      var gs := State(ops[..|ops| - 1]);
      RunKeeps(ops[..|ops| - 1]);
      match ops[|ops| - 1]
      case JoinGroup(name, member, topic, partitions) => JoinKeeps(gs, name, member, topic, partitions);
      case LeaveGroup(name, member, partitions) => LeaveKeeps(gs, name, member, partitions);
      case RefreshTopic(_, _) =>
      case CommitOffset(_, _, _, _, _) =>
    }
  }

  // ----- ownership over runs

  /** Does this operation rebalance the group? */
  predicate Rebalances(gs: Groups, op: Op, name: string) {
    match op
    case JoinGroup(n, _, topic, _) => n == name && Joining(gs, name, topic).topic == topic
    case LeaveGroup(n, member, _) => n == name && name in gs && |RemoveMember(gs[name].members, member)| > 0
    case RefreshTopic(topic, _) => name in gs && gs[name].topic == topic
    case CommitOffset(_, _, _, _, _) => false
  }

  /** The partition list the group was last rebalanced over. */
  function Listed(ops: seq<Op>, name: string): seq<int> {
    if |ops| == 0 then []
    else if Rebalances(State(ops[..|ops| - 1]), ops[|ops| - 1], name) then ops[|ops| - 1].partitions
    else Listed(ops[..|ops| - 1], name)
  }

  lemma ApplyAssigns(gs: Groups, op: Op, name: string)
    requires name in Apply(gs, op)
    ensures Rebalances(gs, op, name) ==>
              Apply(gs, op)[name].assignments == Shares(Apply(gs, op)[name].members, Sort(op.partitions))
    ensures !Rebalances(gs, op, name) ==>
              && name in gs && Apply(gs, op)[name].assignments == gs[name].assignments
              && Apply(gs, op)[name].members == gs[name].members
  {
  }

  lemma {:induction false} AssignedByList(ops: seq<Op>, name: string)
    requires name in State(ops)
    ensures State(ops)[name].assignments == Shares(State(ops)[name].members, Sort(Listed(ops, name)))
  {
    if |ops| > 0 {
      var before, op := ops[..|ops| - 1], ops[|ops| - 1];
      ApplyAssigns(State(before), op, name);
      if !Rebalances(State(before), op, name) {
        AssignedByList(before, name);
      }
    }
  }

  /** Over every run, a group's ownership is exclusive, complete and balanced with respect to the
      list it was last rebalanced over, exactly when that list names no partition twice. */
  lemma OwnershipOverRuns(ops: seq<Op>, name: string)
    requires name in State(ops)
    ensures var g := State(ops)[name];
            Owns(g.assignments, g.members, Listed(ops, name)) <==> Distinct(Listed(ops, name))
  {
    RunKeeps(ops);
    AssignedByList(ops, name);
    RoundRobinOwnsIffDistinct(State(ops)[name].members, Listed(ops, name));
  }

  // ----- cursors over runs

  /** Offsets committed successfully since the group last came into being. */
  function Commits(ops: seq<Op>, name: string, partition: int): seq<nat> {
    if |ops| == 0 then []
    else
      var before, op := State(ops[..|ops| - 1]), ops[|ops| - 1];
      if name !in before then []
      else if CommitsTo(before, op, name, partition) then Commits(ops[..|ops| - 1], name, partition) + [op.offset]
      else Commits(ops[..|ops| - 1], name, partition)
  }

  /** The operation is a commit under the group's topic by a member with the partition in its share. */
  predicate CommitsTo(gs: Groups, op: Op, name: string, partition: int) {
    && op.CommitOffset? && op.name == name && op.partition == partition
    && name in gs && gs[name].topic == op.topic
    && op.member in gs[name].assignments && partition in gs[name].assignments[op.member]
  }

  function Highest(cs: seq<nat>): nat {
    if |cs| == 0 then 0 else Max(Highest(cs[..|cs| - 1]), After(cs[|cs| - 1]))
  }

  lemma ApplyCursor(gs: Groups, op: Op, name: string, partition: int)
    requires name in Apply(gs, op)
    ensures name !in gs ==> Cursor(Apply(gs, op)[name], partition) == 0
    ensures name in gs ==>
              Cursor(Apply(gs, op)[name], partition) ==
              if CommitsTo(gs, op, name, partition) then Max(Cursor(gs[name], partition), After(op.offset))
              else Cursor(gs[name], partition)
  {
  }

  lemma HighestSnoc(cs: seq<nat>, c: nat)
    ensures Highest(cs + [c]) == Max(Highest(cs), After(c))
  {
    assert (cs + [c])[..|cs|] == cs;
  }

  /** Within a group's lifetime the cursor is the greatest successor of a committed offset, or zero. */
  lemma {:induction false} CursorIsHighestCommit(ops: seq<Op>, name: string, partition: int)
    requires name in State(ops)
    ensures Cursor(State(ops)[name], partition) == Highest(Commits(ops, name, partition))
  {
    if |ops| > 0 {
      var before, op := ops[..|ops| - 1], ops[|ops| - 1];
      ApplyCursor(State(before), op, name, partition);
      if name in State(before) {
        CursorIsHighestCommit(before, name, partition);
        if CommitsTo(State(before), op, name, partition) {
          HighestSnoc(Commits(before, name, partition), op.offset);
        }
      }
    }
  }

  lemma {:induction false} HighestExact(cs: seq<nat>)
    requires forall i :: 0 <= i < |cs| ==> cs[i] < TWO_64 - 1
    ensures forall i :: 0 <= i < |cs| ==> cs[i] < Highest(cs)
    ensures if |cs| == 0 then Highest(cs) == 0 else exists i :: 0 <= i < |cs| && Highest(cs) == cs[i] + 1
  {
    if |cs| > 0 {
      var front, last := cs[..|cs| - 1], cs[|cs| - 1];
      HighestExact(front);
      assert After(last) == last + 1;
      if |front| > 0 {
        var i :| 0 <= i < |front| && Highest(front) == front[i] + 1;
        assert cs[i] == front[i];
      }
      assert Highest(cs) == last + 1 ==> Highest(cs) == cs[|cs| - 1] + 1;
    }
  }

  /** The cursor lies just past the highest committed offset: above every one of them, and at zero or one more than
      one of them, as long as none is the greatest 64-bit number. */
  lemma CursorPassesCommits(ops: seq<Op>, name: string, partition: int)
    requires name in State(ops)
    requires var cs := Commits(ops, name, partition); forall i :: 0 <= i < |cs| ==> cs[i] < TWO_64 - 1
    ensures var cs, cursor := Commits(ops, name, partition), Cursor(State(ops)[name], partition);
            && (forall i :: 0 <= i < |cs| ==> cs[i] < cursor)
            && if |cs| == 0 then cursor == 0 else exists i :: 0 <= i < |cs| && cursor == cs[i] + 1
  {
    CursorIsHighestCommit(ops, name, partition);
    HighestExact(Commits(ops, name, partition));
  }

  /** A commit of the greatest 64-bit number leaves the cursor where it was. */
  lemma GreatestCommitIgnored(ops: seq<Op>, op: Op, name: string, partition: int)
    requires name in State(ops) && CommitsTo(State(ops), op, name, partition) && op.offset == TWO_64 - 1
    ensures name in State(ops + [op])
    ensures Cursor(State(ops + [op])[name], partition) == Cursor(State(ops)[name], partition)
  {
    assert (ops + [op])[..|ops|] == ops;
    ApplyCursor(State(ops), op, name, partition);
  }

  /** While the group exists its cursor never moves back, whatever the operation. */
  lemma CursorMonotone(ops: seq<Op>, op: Op, name: string, partition: int)
    requires name in State(ops) && name in State(ops + [op])
    ensures Cursor(State(ops)[name], partition) <= Cursor(State(ops + [op])[name], partition)
  {
    assert (ops + [op])[..|ops|] == ops;
    ApplyCursor(State(ops), op, name, partition);
  }

  /** Operation i is a commit of an offset of at least o by the owner, and the group has existed ever since. */
  ghost predicate PassedAt(ops: seq<Op>, name: string, partition: int, o: nat, i: nat) {
    && i < |ops| && CommitsTo(State(ops[..i]), ops[i], name, partition) && ops[i].offset >= o
    && forall j :: i < j <= |ops| ==> name in State(ops[..j])
  }

  lemma PassedBefore(before: seq<Op>, op: Op, name: string, partition: int, o: nat, i: nat)
    requires name in State(before + [op]) && PassedAt(before, name, partition, o, i)
    ensures PassedAt(before + [op], name, partition, o, i)
  {
    var ops := before + [op];
    assert ops[..i] == before[..i];
    forall j | i < j <= |ops| ensures name in State(ops[..j]) {
      if j == |ops| {
        assert ops[..j] == ops;
      } else {
        assert ops[..j] == before[..j];
      }
    }
  }

  lemma PassedNow(before: seq<Op>, op: Op, name: string, partition: int, o: nat)
    requires name in State(before + [op]) && CommitsTo(State(before), op, name, partition) && op.offset >= o
    ensures PassedAt(before + [op], name, partition, o, |before|)
  {
    var ops := before + [op];
    Slices(before, op);
    forall j | |before| < j <= |ops| ensures name in State(ops[..j]) {
      assert j == |before| + 1;
    }
  }

  lemma Slices(before: seq<Op>, op: Op)
    ensures (before + [op])[..|before|] == before && (before + [op])[|before|] == op
    ensures (before + [op])[..|before| + 1] == before + [op]
  {
  }

  /** At-least-once delivery: once the cursor has passed offset o, some operation of the run was a commit of an
      offset of at least o by the member that owned the partition at that moment, in this lifetime of the group. */
  lemma {:induction false} PassedOnlyByOwner(ops: seq<Op>, name: string, partition: int, o: nat) returns (i: nat)
    requires name in State(ops) && o < Cursor(State(ops)[name], partition)
    ensures PassedAt(ops, name, partition, o, i)
  {
    var before, op := ops[..|ops| - 1], ops[|ops| - 1];
    assert ops == before + [op];
    if name in State(before) && o < Cursor(State(before)[name], partition) {
      i := PassedOnlyByOwner(before, name, partition, o);
      PassedBefore(before, op, name, partition, o, i);
    } else {
      i := |before|;
      RaisedNow(State(before), op, name, partition, o);
      PassedNow(before, op, name, partition, o);
    }
  }

  lemma RaisedNow(gs: Groups, op: Op, name: string, partition: int, o: nat)
    requires name in Apply(gs, op) && o < Cursor(Apply(gs, op)[name], partition)
    requires name in gs ==> Cursor(gs[name], partition) <= o
    ensures CommitsTo(gs, op, name, partition) && op.offset >= o
  {
    ApplyCursor(gs, op, name, partition);
  }

  /** If the partitions were listed without repetition, that member was the only one that owned the partition. */
  lemma PassedByTheOwner(ops: seq<Op>, name: string, partition: int, o: nat, i: nat, other: string)
    requires PassedAt(ops, name, partition, o, i) && Distinct(Listed(ops[..i], name))
    requires var g := State(ops[..i])[name]; other in g.assignments && partition in g.assignments[other]
    ensures other == ops[i].member && other in State(ops[..i])[name].members && partition in Listed(ops[..i], name)
  {
    OwnershipOverRuns(ops[..i], name);
    AssignedByList(ops[..i], name);
  }
}

/** Batches whose local appends form one block. A batch is interrupted when another record reaches the same
    partition of its broker between its own; everything claimed for single records holds for all others. */
module BatchBlocks {
  import opened Replication
  import opened Cluster
  import opened ClusterSafety
  import opened ClusterAgreement

  /** The step puts another record into the partition log of a batch that is partly appended there. */
  ghost predicate Interrupts(s: State, a: Action, t: nat) {
    && t in s.tasks && 0 < |s.tasks[t].offsets| < |s.tasks[t].msgs|
    && match a
       case Append(u) => u != t && u in s.tasks && s.tasks[u].owner == s.tasks[t].owner
           && s.tasks[u].part == s.tasks[t].part
       case Store(e) => e.task in s.tasks && e.peer == s.tasks[t].owner && s.tasks[e.task].part == s.tasks[t].part
       case _ => false
  }

  /** No step of the run interrupts the batch. Other partitions and other brokers are free. */
  ghost predicate Uninterrupted(s: State, actions: seq<Action>, t: nat)
    decreases |actions|
  {
    |actions| > 0 && Enabled(s, actions[0]) ==>
      !Interrupts(s, actions[0], t) && Uninterrupted(Apply(s, actions[0]), actions[1..], t)
  }

  /** So far in one piece, and the next record, if any, would still follow directly. */
  ghost predicate Tight(s: State, t: nat)
    requires t in s.tasks && s.tasks[t].owner in s.brokers
  {
    var task := s.tasks[t];
    && Consecutive(task)
    && (0 < |task.offsets| < |task.msgs| ==> task.offsets[0] + |task.offsets| == |LogOf(OwnerOf(s, t), task.part)|)
  }

  lemma AppendTight(s: State, t: nat)
    requires Enabled(s, Append(t)) && TaskOk(s, t)
    ensures Tight(Apply(s, Append(t)), t) <==> Tight(s, t)
  {
    var task, n := s.tasks[t], Apply(s, Append(t));
    var k := |task.offsets|;
    assert n.tasks[t].offsets[k] == |LogOf(OwnerOf(s, t), task.part)|;
    assert forall i :: 0 <= i < k ==> n.tasks[t].offsets[i] == task.offsets[i];
    assert k > 0 ==> HasAt(OwnerOf(s, t), task.part, task.offsets[k - 1], task.msgs[k - 1]);
  }

  /** Any other step leaves the offsets alone, and lengthens a partly appended batch's log exactly when it
      interrupts the batch. */
  lemma OtherStep(s: State, a: Action, t: nat)
    requires Enabled(s, a) && a != Append(t) && t in s.tasks && s.tasks[t].owner in s.brokers
    ensures var n, task := Apply(s, a), s.tasks[t];
            && t in n.tasks && task.owner in n.brokers && SameTask(task, n.tasks[t])
            && n.tasks[t].offsets == task.offsets
            && (0 < |task.offsets| < |task.msgs| ==>
                  |LogOf(n.brokers[task.owner], task.part)|
                      == |LogOf(OwnerOf(s, t), task.part)| + if Interrupts(s, a, t) then 1 else 0)
  {
  }

  /** A step loosens a batch exactly when it interrupts it, and nothing tightens it again. */
  lemma StepTight(s: State, a: Action, t: nat)
    requires Enabled(s, a) && t in s.tasks && TaskOk(s, t)
    ensures t in Apply(s, a).tasks && TaskOk(Apply(s, a), t)
    ensures Tight(Apply(s, a), t) <==> Tight(s, t) && !Interrupts(s, a, t)
  {
    StepKeepsTasks(s, a, t);
    if a == Append(t) {
      AppendTight(s, t);
    } else {
      OtherStep(s, a, t);
      var task := s.tasks[t];
      var k := |task.offsets|;
      assert k > 0 ==> HasAt(OwnerOf(s, t), task.part, task.offsets[k - 1], task.msgs[k - 1]);
    }
  }

  lemma {:induction false} RunTight(s: State, actions: seq<Action>, n: State, t: nat)
    requires Run(s, actions, n) && t in s.tasks && TaskOk(s, t)
    ensures t in n.tasks && TaskOk(n, t)
    ensures Tight(n, t) <==> Tight(s, t) && Uninterrupted(s, actions, t)
    decreases |actions|
  {
    if |actions| > 0 {
      StepTight(s, actions[0], t);
      RunTight(Apply(s, actions[0]), actions[1..], n, t);
    }
  }

  lemma {:induction false} TightFromStart(s: State, actions: seq<Action>, n: State, t: nat)
    requires Run(s, actions, n) && t !in s.tasks && t in n.tasks
    ensures TaskOk(n, t)
    ensures Tight(n, t) <==> Uninterrupted(s, actions, t)
    decreases |actions|
  {
    var next := Apply(s, actions[0]);
    if t in next.tasks {
      RunTight(next, actions[1..], n, t);
    } else {
      TightFromStart(next, actions[1..], n, t);
    }
  }

  /** In every run, the offsets of a task that is appended in full are consecutive if and only if no other
      record reached its broker's partition log between its own. */
  lemma ConsecutiveIffUninterrupted(start: State, actions: seq<Action>, s: State, t: nat)
    requires Initial(start) && Run(start, actions, s) && t in s.tasks && Complete(s.tasks[t])
    ensures Consecutive(s.tasks[t]) <==> Uninterrupted(start, actions, t)
  {
    TightFromStart(start, actions, s, t);
  }

  // ----- what uninterrupted batches get

  lemma ConsecutiveCovered(task: Task, i: nat)
    requires Consecutive(task) && i < |task.offsets|
    ensures Covered(task.offsets, i)
  {
  }

  /** The first and the last record are covered however the batch was interrupted; so are single records and
      batches of two. */
  lemma EndsCovered(offsets: seq<nat>)
    requires |offsets| > 0
    ensures Covered(offsets, 0) && Covered(offsets, |offsets| - 1)
  {
  }

  /** Agreement for whole batches: in every run that interrupts neither of them, two successful replies report
      the same record wherever they report the same offset of a partition, and then they come from one broker. */
  lemma BlocksAgree(start: State, actions: seq<Action>, s: State, t: nat, u: nat, i: nat, j: nat)
    requires Initial(start) && Run(start, actions, s) && t in s.replies && u in s.replies
    requires Uninterrupted(start, actions, t) && Uninterrupted(start, actions, u)
    requires t in s.tasks && u in s.tasks && s.tasks[t].part == s.tasks[u].part
    requires i < |s.tasks[t].offsets| && j < |s.tasks[u].offsets| && s.tasks[t].offsets[i] == s.tasks[u].offsets[j]
    ensures s.tasks[t].owner == s.tasks[u].owner
    ensures i < |s.tasks[t].msgs| && j < |s.tasks[u].msgs| && s.tasks[t].msgs[i] == s.tasks[u].msgs[j]
  {
    ReplyConsecutive(start, actions, s, t);
    ReplyConsecutive(start, actions, s, u);
    ConsecutiveCovered(s.tasks[t], i);
    ConsecutiveCovered(s.tasks[u], j);
    Agreement(start, actions, s, t, u, i, j);
  }

  lemma ReplyConsecutive(start: State, actions: seq<Action>, s: State, t: nat)
    requires Initial(start) && Run(start, actions, s) && t in s.replies && t in s.tasks
             && Uninterrupted(start, actions, t)
    ensures Complete(s.tasks[t]) && Consecutive(s.tasks[t])
  {
    InitialInv(start);
    RunKeeps(start, actions, s);
    assert QuorateOk(s, t);
    ConsecutiveIffUninterrupted(start, actions, s, t);
  }

  /** Durability for whole batches: in every state after the reply to an uninterrupted batch, a majority of the
      brokers hold each of its records at the reported offset. */
  lemma BlockIsHeld(start: State, before: seq<Action>, s: State, after: seq<Action>, n: State, t: nat)
    returns (majority: set<int>)
    requires Initial(start) && Run(start, before, s) && Run(s, after, n)
    requires t in s.replies && t in s.tasks && Uninterrupted(start, before, t)
    ensures t in n.tasks && n.tasks[t].offsets == s.tasks[t].offsets && n.tasks[t].msgs == s.tasks[t].msgs
    ensures |majority| >= Quorum(start.peers)
    ensures forall b :: b in majority ==> b in n.brokers && HoldsTask(n, t, b)
  {
    ReplyConsecutive(start, before, s, t);
    majority := AcknowledgedIsHeld(start, before, s, after, n, t);
  }
}

/** A replication request on a follower, as one call and as the steps of the cluster. */
module ReplicationRequests {
  import opened Options
  import opened Replication
  import opened Cluster
  import opened ClusterSafety

  /** The log and the acknowledgement after a request: all records if the log ended where the leader said, and
      otherwise just the first one and no acknowledgement. */
  predicate Handled(log: seq<Message>, first: nat, msgs: seq<Message>, now: seq<Message>, ack: Option<nat>)
    requires |msgs| > 0
  {
    if |log| == first then now == log + msgs && ack == Some(first + |msgs| - 1)
    else |now| == |log| + 1 && now[..|log|] == log && now[|log|] == msgs[0] && ack == None
  }

  /** handle_replication_request: dropped on a leader and when something is missing; otherwise append record by
      record, stop without an acknowledgement as soon as one lands elsewhere. The acknowledgement names the last
      offset. A REPLICATE request carries one record. */
  method HandleReplicationRequest(leads: bool, part: Part, batch: bool, log: seq<Message>, first: nat,
          msgs: seq<Message>)
    returns (now: seq<Message>, ack: Option<nat>)
    requires !batch ==> |msgs| == 1
    ensures leads || part.topic == "" || part.index < 0 || |msgs| == 0 || (!batch && msgs[0] == "") ==>
              now == log && ack == None
    ensures !leads && part.topic != "" && part.index >= 0 && |msgs| > 0 && (batch || msgs[0] != "") ==>
              Handled(log, first, msgs, now, ack)
  {
    now, ack := log, None;
    if leads || part.topic == "" || part.index < 0 || (!batch && msgs[0] == "") || (batch && |msgs| == 0) {
      return;
    }
    var i := 0;
    while i < |msgs|
      invariant i <= |msgs| && now == log + msgs[..i]
      invariant i > 0 ==> |log| == first
    {
      var offset := |now|;
      now := now + [msgs[i]];
      if offset != first + i {
        return;
      }
      i := i + 1;
    }
    ack := Some(first + |msgs| - 1);
  }

  // ----- the same as steps

  /** The state is reached by steps of this request alone, and the follower is done with it. */
  ghost predicate Finished(s: State, e: Envelope, actions: seq<Action>, n: State) {
    && Run(s, actions, n) && (forall k :: 0 <= k < |actions| ==> actions[k] == Store(e))
    && e !in n.storing && e.peer in n.brokers
  }

  lemma FinishedNext(s: State, e: Envelope, rest: seq<Action>, n: State)
    requires Enabled(s, Store(e)) && Finished(Apply(s, Store(e)), e, rest, n)
    ensures Finished(s, e, [Store(e)] + rest, n)
  {
    assert ([Store(e)] + rest)[1..] == rest;
  }

  /** One record: it joins the log; where it lands decides how the request goes on. */
  lemma StoreOne(s: State, e: Envelope)
    requires Enabled(s, Store(e))
    ensures var n, task, i := Apply(s, Store(e)), s.tasks[e.task], s.storing[e];
            var log := LogOf(s.brokers[e.peer], task.part);
            && n.tasks == s.tasks && e.peer in n.brokers
            && LogOf(n.brokers[e.peer], task.part) == log + [task.msgs[i]]
            && (if |log| != task.offsets[0] + i then e !in n.storing && n.acks == s.acks
                else if i + 1 < |task.msgs| then Enabled(n, Store(e)) && n.storing[e] == i + 1
                else e !in n.storing && e in n.acks)
  {
  }

  /** A follower in place goes on to the end. */
  lemma {:induction false} FinishesInPlace(s: State, e: Envelope, rest: seq<Message>)
    returns (actions: seq<Action>, n: State)
    requires Enabled(s, Store(e)) && rest == s.tasks[e.task].msgs[s.storing[e]..]
    requires |LogOf(s.brokers[e.peer], s.tasks[e.task].part)| == s.tasks[e.task].offsets[0] + s.storing[e]
    ensures Finished(s, e, actions, n) && e in n.acks
    ensures LogOf(n.brokers[e.peer], s.tasks[e.task].part) == LogOf(s.brokers[e.peer], s.tasks[e.task].part) + rest
    decreases |rest|
  {
    var next := Apply(s, Store(e));
    StoreOne(s, e);
    assert rest == [rest[0]] + rest[1..];
    if |rest| > 1 {
      actions, n := FinishesInPlace(next, e, rest[1..]);
    } else {
      actions, n := [], next;
    }
    FinishedNext(s, e, actions, n);
    actions := [Store(e)] + actions;
  }

  /** One call does what the steps of the cluster do from the first record until the follower is done. */
  lemma StepsAreHandled(s: State, e: Envelope) returns (actions: seq<Action>, n: State)
    requires Enabled(s, Store(e)) && s.storing[e] == 0 && e !in s.acks
    ensures Finished(s, e, actions, n)
    ensures var task := s.tasks[e.task];
            Handled(LogOf(s.brokers[e.peer], task.part), task.offsets[0], task.msgs,
                    LogOf(n.brokers[e.peer], task.part), if e in n.acks then Some(SlotOf(task).offset) else None)
  {
    var msgs := s.tasks[e.task].msgs;
    if |LogOf(s.brokers[e.peer], s.tasks[e.task].part)| == s.tasks[e.task].offsets[0] {
      assert msgs[0..] == msgs;
      actions, n := FinishesInPlace(s, e, msgs);
    } else {
      StoreOne(s, e);
      n := Apply(s, Store(e));
      FinishedNext(s, e, [], n);
      actions := [Store(e)] + [];
    }
  }
}

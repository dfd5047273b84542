/** When a record becomes readable: exactly when its broker has reported a produce at that offset or above, or was
    told by another one; whether the produce of the record itself was reported or failed. */
module CommittedReads {
  import opened Options
  import opened Replication
  import opened Cluster
  import opened ClusterSafety

  predicate AnyFrom(offsets: seq<nat>, o: nat) {
    exists i :: 0 <= i < |offsets| && offsets[i] >= o
  }

  predicate Covers(task: Task, b: int, part: Part, o: nat) {
    task.owner == b && task.part == part && AnyFrom(task.offsets, o)
  }

  /** The step tells the broker that the offset is committed. */
  predicate Tells(a: Action, b: int, part: Part, o: nat) {
    a.Notice? && a.b == b && a.part == part && a.offset >= o
  }

  predicate Told(actions: seq<Action>, b: int, part: Part, o: nat) {
    exists k :: 0 <= k < |actions| && Tells(actions[k], b, part, o)
  }

  /** The reply to a produce reports the offset or a later one. */
  predicate Reports(s: State, u: nat, b: int, part: Part, o: nat) {
    u in s.replies && u in s.tasks && Covers(s.tasks[u], b, part, o)
  }

  ghost predicate Reported(s: State, b: int, part: Part, o: nat) {
    exists u :: Reports(s, u, b, part, o)
  }

  // ----- one step

  lemma {:induction false} CommitAllExact(m: Ledger, part: Part, offsets: seq<nat>, q: Part, o: nat)
    ensures IsCommitted(CommitAll(m, part, offsets), q, o) <==>
            IsCommitted(m, q, o) || (q == part && AnyFrom(offsets, o))
  {
    if |offsets| > 0 {
      var front, last := offsets[..|offsets| - 1], offsets[|offsets| - 1];
      CommitAllExact(m, part, front, q, o);
      AnyFromSnoc(front, last, o);
      assert offsets == front + [last];
    }
  }

  lemma AnyFromSnoc(front: seq<nat>, last: nat, o: nat)
    ensures AnyFrom(front + [last], o) <==> AnyFrom(front, o) || last >= o
  {
    var all := front + [last];
    assert all[|front|] == last;
    if AnyFrom(front, o) {
      var i :| 0 <= i < |front| && front[i] >= o;
      assert all[i] >= o;
    }
  }

  /** A broker's commit index passes an offset only by a notice or by a reply of its own. */
  lemma StepCommits(s: State, a: Action, b: int, part: Part, o: nat)
    requires Enabled(s, a) && b in s.brokers
    ensures b in Apply(s, a).brokers
    ensures IsCommitted(Apply(s, a).brokers[b].ledger, part, o) <==>
            IsCommitted(s.brokers[b].ledger, part, o) || Tells(a, b, part, o)
            || (a.Answer? && Covers(s.tasks[a.t], b, part, o))
  {
    if a.Answer? {
      CommitAllExact(OwnerOf(s, a.t).ledger, s.tasks[a.t].part, s.tasks[a.t].offsets, part, o);
    }
  }

  lemma StepReports(s: State, a: Action, u: nat, b: int, part: Part, o: nat)
    requires Inv(s) && Enabled(s, a)
    ensures Reports(Apply(s, a), u, b, part, o) <==>
            Reports(s, u, b, part, o) || (a == Answer(u) && Covers(s.tasks[u], b, part, o))
  {
    StepFollows(s, a);
    if u in s.replies {
      assert QuorateOk(s, u);
    }
  }

  lemma StepReported(s: State, a: Action, b: int, part: Part, o: nat)
    requires Inv(s) && Enabled(s, a)
    ensures Reported(Apply(s, a), b, part, o) <==>
            Reported(s, b, part, o) || (a.Answer? && Covers(s.tasks[a.t], b, part, o))
  {
    forall u ensures Reports(Apply(s, a), u, b, part, o) <==>
                     Reports(s, u, b, part, o) || (a == Answer(u) && Covers(s.tasks[u], b, part, o)) {
      StepReports(s, a, u, b, part, o);
    }
    if a.Answer? && Covers(s.tasks[a.t], b, part, o) {
      assert Reports(Apply(s, a), a.t, b, part, o);
    }
  }

  // ----- runs

  lemma ToldNext(a: Action, rest: seq<Action>, b: int, part: Part, o: nat)
    ensures Told([a] + rest, b, part, o) <==> Tells(a, b, part, o) || Told(rest, b, part, o)
  {
    var all := [a] + rest;
    assert all[0] == a && forall k :: 0 <= k < |rest| ==> all[k + 1] == rest[k];
    if Told(all, b, part, o) {
      var k :| 0 <= k < |all| && Tells(all[k], b, part, o);
      assert k > 0 ==> rest[k - 1] == all[k];
    }
  }

  lemma {:induction false} RunCommits(s: State, actions: seq<Action>, n: State, b: int, part: Part, o: nat, told: bool)
    requires Inv(s) && Run(s, actions, n) && b in s.brokers
    requires IsCommitted(s.brokers[b].ledger, part, o) <==> Reported(s, b, part, o) || told
    ensures b in n.brokers
    ensures IsCommitted(n.brokers[b].ledger, part, o) <==>
            Reported(n, b, part, o) || told || Told(actions, b, part, o)
    decreases |actions|
  {
    if |actions| > 0 {
      var a := actions[0];
      StepKeeps(s, a);
      StepCommits(s, a, b, part, o);
      StepReported(s, a, b, part, o);
      RunCommits(Apply(s, a), actions[1..], n, b, part, o, told || Tells(a, b, part, o));
      ToldNext(a, actions[1..], b, part, o);
      assert actions == [a] + actions[1..];
    }
  }

  /** In every state of every run the offsets a broker takes for committed are exactly those it reported itself, or
      was told of, and all below. */
  lemma CommittedIff(start: State, actions: seq<Action>, s: State, b: int, part: Part, o: nat)
    requires Initial(start) && Run(start, actions, s) && b in start.brokers
    ensures b in s.brokers
    ensures IsCommitted(s.brokers[b].ledger, part, o) <==> Reported(s, b, part, o) || Told(actions, b, part, o)
  {
    InitialInv(start);
    RunCommits(start, actions, s, b, part, o, false);
  }

  /** What a fetch of any appended record returns, in every state of every run: the record if it is not empty and
      its broker reported its offset or a later one, or was told of one; and otherwise nothing. */
  lemma ServedIff(start: State, actions: seq<Action>, s: State, t: nat, i: nat)
    requires Initial(start) && Run(start, actions, s) && t in s.tasks && i < |s.tasks[t].offsets|
    ensures var task := s.tasks[t]; var b, o := task.owner, task.offsets[i];
            && b in s.brokers && i < |task.msgs|
            && Fetch(s.brokers[b], task.part, o) ==
               if task.msgs[i] != "" && (Reported(s, b, task.part, o) || Told(actions, b, task.part, o))
               then Some(task.msgs[i]) else None
  {
    InitialInv(start);
    RunKeeps(start, actions, s);
    assert TaskOk(s, t);
    CommittedIff(start, actions, s, s.tasks[t].owner, s.tasks[t].part, s.tasks[t].offsets[i]);
  }

  /** Exactly when a record of a failed produce is served: when it is not empty and its broker reported another
      produce of the partition at a later offset, or was told of one. */
  lemma FailedServedIff(start: State, actions: seq<Action>, s: State, t: nat, i: nat)
    requires Initial(start) && Run(start, actions, s) && t in s.tasks && i < |s.tasks[t].offsets|
    requires s.tasks[t].stage == Done && t !in s.replies
    ensures var task := s.tasks[t]; var b, o := task.owner, task.offsets[i];
            && b in s.brokers && i < |task.msgs|
            && (Fetch(s.brokers[b], task.part, o) == Some(task.msgs[i]) <==>
                task.msgs[i] != ""
                && ((exists u :: u != t && Reports(s, u, b, task.part, o)) || Told(actions, b, task.part, o)))
  {
    ServedIff(start, actions, s, t, i);
  }
}

/** What every step of the cluster keeps, and what follows for the replies sent to producers. */
module ClusterSafety {
  import opened Options
  import opened Replication
  import opened Cluster

  predicate HasAt(b: Broker, part: Part, offset: nat, m: Message) {
    offset < |LogOf(b, part)| && LogOf(b, part)[offset] == m
  }

  // ----- the invariant, item by item

  /** The owner holds each record of its task at the offset it noted. */
  ghost predicate TaskOk(s: State, t: nat)
    requires t in s.tasks
  {
    var task := s.tasks[t];
    && task.owner in s.brokers && |task.offsets| <= |task.msgs|
    && (task.stage == Appending || Complete(task))
    && forall i :: 0 <= i < |task.offsets| ==> HasAt(s.brokers[task.owner], task.part, task.offsets[i], task.msgs[i])
  }

  ghost predicate RequestOk(s: State, e: Envelope) {
    && e.task in s.tasks && Complete(s.tasks[e.task])
    && e.peer in s.brokers && e.peer != s.tasks[e.task].owner
  }

  /** The peer holds the first n records of the request, one after another from the named offset. */
  ghost predicate StoredOn(s: State, e: Envelope, n: nat)
    requires RequestOk(s, e) && n <= |s.tasks[e.task].msgs|
  {
    var task := s.tasks[e.task];
    forall i :: 0 <= i < n ==> HasAt(s.brokers[e.peer], task.part, task.offsets[0] + i, task.msgs[i])
  }

  ghost predicate StoringOk(s: State, e: Envelope)
    requires e in s.storing
  {
    && e in s.requests && RequestOk(s, e)
    && s.storing[e] < |s.tasks[e.task].msgs| && StoredOn(s, e, s.storing[e])
  }

  ghost predicate AckOk(s: State, e: Envelope) {
    e in s.requests && RequestOk(s, e) && StoredOn(s, e, |s.tasks[e.task].msgs|)
  }

  /** While a task is exchanged its broker is busy with it, and the count is the brokers credited. */
  ghost predicate ExchangeOk(s: State, t: nat)
    requires t in s.tasks
  {
    var task := s.tasks[t];
    task.stage == Exchanging ==>
      && Complete(task) && task.owner in s.brokers && s.brokers[task.owner].current == Some(t)
      && Credits(s.brokers[task.owner].ledger, SlotOf(task), task.credited)
  }

  ghost predicate CreditOk(s: State, t: nat)
    requires t in s.tasks
  {
    forall p :: p in s.tasks[t].credited ==> p == s.tasks[t].owner || Envelope(t, p) in s.acks
  }

  ghost predicate QuorateOk(s: State, t: nat)
    requires t in s.tasks
  {
    && (s.tasks[t].stage == Quorate || t in s.replies ==> |s.tasks[t].credited| >= Quorum(s.peers))
    && (t in s.replies ==> s.tasks[t].stage == Done && Complete(s.tasks[t]))
  }

  ghost predicate Inv(s: State) {
    && |s.brokers| <= 1 + s.peers && s.replies <= s.tasks.Keys
    && (forall t :: t in s.tasks ==> TaskOk(s, t))
    && (forall e :: e in s.requests ==> RequestOk(s, e))
    && (forall e :: e in s.storing ==> StoringOk(s, e))
    && (forall e :: e in s.acks ==> AckOk(s, e))
    && (forall t :: t in s.tasks ==> ExchangeOk(s, t))
    && (forall t :: t in s.tasks ==> CreditOk(s, t))
    && (forall t :: t in s.tasks ==> QuorateOk(s, t))
  }

  // ----- what a step leaves alone

  ghost predicate SameTask(a: Task, b: Task) {
    && b.owner == a.owner && b.part == a.part && b.msgs == a.msgs
    && (Complete(a) ==> b.offsets == a.offsets)
  }

  ghost predicate Follows(s: State, n: State) {
    && Grown(s, n) && s.requests <= n.requests && s.acks <= n.acks && s.replies <= n.replies
    && forall t :: t in s.tasks ==> t in n.tasks && SameTask(s.tasks[t], n.tasks[t])
  }

  lemma StepFollows(s: State, a: Action)
    requires Enabled(s, a)
    ensures Follows(s, Apply(s, a))
  {
    StepGrows(s, a);
  }

  lemma TaskKept(s: State, n: State, t: nat)
    requires Follows(s, n) && t in s.tasks && TaskOk(s, t)
    requires n.tasks[t].offsets == s.tasks[t].offsets && (n.tasks[t].stage == Appending || Complete(n.tasks[t]))
    ensures TaskOk(n, t)
  {
    var a, b := s.brokers[s.tasks[t].owner], n.brokers[s.tasks[t].owner];
    assert LogOf(a, s.tasks[t].part) <= LogOf(b, s.tasks[t].part);
  }

  lemma StoredKept(s: State, n: State, e: Envelope, k: nat)
    requires Follows(s, n) && RequestOk(s, e) && k <= |s.tasks[e.task].msgs| && StoredOn(s, e, k)
    ensures RequestOk(n, e) && StoredOn(n, e, k)
  {
    var part := s.tasks[e.task].part;
    assert LogOf(s.brokers[e.peer], part) <= LogOf(n.brokers[e.peer], part);
  }

  // ----- each part is kept by every step

  lemma AppendNoted(s: State, t: nat)
    requires Enabled(s, Append(t)) && TaskOk(s, t)
    ensures TaskOk(AfterAppend(s, t), t)
  {
    var n, task := AfterAppend(s, t), s.tasks[t];
    StepGrows(s, Append(t));
    assert LogOf(s.brokers[task.owner], task.part) <= LogOf(n.brokers[task.owner], task.part);
  }

  lemma StepKeepsTasks(s: State, a: Action, t: nat)
    requires Enabled(s, a) && t in Apply(s, a).tasks && (t in s.tasks ==> TaskOk(s, t))
    ensures TaskOk(Apply(s, a), t)
  {
    if a == Append(t) {
      AppendNoted(s, t);
    } else if t in s.tasks {
      StepFollows(s, a);
      TaskKept(s, Apply(s, a), t);
    }
  }

  lemma StepKeepsRequests(s: State, a: Action, e: Envelope)
    requires Enabled(s, a) && e in Apply(s, a).requests
    requires e in s.requests ==> RequestOk(s, e)
    requires e.task in s.tasks ==> TaskOk(s, e.task)
    ensures RequestOk(Apply(s, a), e)
  {
    if e in s.requests {
      StepFollows(s, a);
    } else {
      assert a == Send(e.task, e.peer);
    }
  }

  /** The record that the follower appends lands on the offset the leader named, or the request is dropped. */
  lemma StoreLands(s: State, e: Envelope)
    requires Enabled(s, Store(e)) && StoringOk(s, e)
    ensures e in AfterStore(s, e).storing ==> StoringOk(AfterStore(s, e), e)
    ensures e in AfterStore(s, e).acks && e !in s.acks ==> AckOk(AfterStore(s, e), e)
  {
    var n := AfterStore(s, e);
    var task, i := s.tasks[e.task], s.storing[e];
    StepFollows(s, Store(e));
    StoredKept(s, n, e, i);
    if |LogOf(s.brokers[e.peer], task.part)| == task.offsets[0] + i {
      assert HasAt(n.brokers[e.peer], task.part, task.offsets[0] + i, task.msgs[i]);
    }
  }

  lemma StepKeepsStoring(s: State, a: Action, e: Envelope)
    requires Enabled(s, a) && e in Apply(s, a).storing
    requires (e in s.storing ==> StoringOk(s, e)) && (e in s.requests ==> RequestOk(s, e))
    ensures StoringOk(Apply(s, a), e)
  {
    if a == Store(e) {
      StoreLands(s, e);
    } else if a != Begin(e) {
      assert e in s.storing;
      StepFollows(s, a);
      StoredKept(s, Apply(s, a), e, s.storing[e]);
    }
  }

  lemma StepKeepsAcks(s: State, a: Action, e: Envelope)
    requires Enabled(s, a) && e in Apply(s, a).acks
    requires (e in s.acks ==> AckOk(s, e)) && (e in s.storing ==> StoringOk(s, e))
    ensures AckOk(Apply(s, a), e)
  {
    if e in s.acks {
      StepFollows(s, a);
      StoredKept(s, Apply(s, a), e, |s.tasks[e.task].msgs|);
    } else {
      assert a == Store(e);
      StoreLands(s, e);
    }
  }

  lemma StepKeepsCredit(s: State, a: Action, t: nat)
    requires Enabled(s, a) && t in Apply(s, a).tasks && (t in s.tasks ==> CreditOk(s, t))
    ensures CreditOk(Apply(s, a), t)
  {
    var n := Apply(s, a);
    assert s.acks <= n.acks by {
      StepFollows(s, a);
    }
    if t in s.tasks {
      assert n.tasks[t].owner == s.tasks[t].owner;
      assert a.Receive? && a.e.task == t ==> n.tasks[t].credited <= s.tasks[t].credited + {a.e.peer};
    }
  }

  // ----- counting

  lemma {:induction false} CommitAllKeeps(m: Ledger, part: Part, offsets: seq<nat>)
    ensures CommitAll(m, part, offsets).counts == m.counts && CommitAll(m, part, offsets).followers == m.followers
  {
    if |offsets| > 0 {
      CommitAllKeeps(m, part, offsets[..|offsets| - 1]);
    }
  }

  lemma OpenKeepsExchange(s: State, u: nat, t: nat)
    requires Enabled(s, Open(u)) && t in s.tasks && ExchangeOk(s, t)
    ensures ExchangeOk(AfterOpen(s, u), t)
  {
    OpenedCredits(s.brokers[s.tasks[u].owner].ledger, SlotOf(s.tasks[u]), s.tasks[u].owner);
  }

  lemma ReceiveKeepsExchange(s: State, e: Envelope, t: nat)
    requires Enabled(s, Receive(e)) && t in s.tasks && ExchangeOk(s, t) && ExchangeOk(s, e.task)
    ensures ExchangeOk(AfterReceive(s, e), t)
  {
    var task := s.tasks[e.task];
    AckedCredits(s.brokers[task.owner].ledger, SlotOf(task), e.peer, task.credited);
  }

  lemma AnswerKeepsExchange(s: State, u: nat, t: nat)
    requires Enabled(s, Answer(u)) && t in s.tasks && ExchangeOk(s, t)
    ensures ExchangeOk(AfterAnswer(s, u), t)
  {
    CommitAllKeeps(s.brokers[s.tasks[u].owner].ledger, s.tasks[u].part, s.tasks[u].offsets);
  }

  lemma CloseKeepsExchange(s: State, u: nat, t: nat)
    requires Enabled(s, Close(u)) && t in s.tasks && ExchangeOk(s, t) && ExchangeOk(s, u)
    ensures ExchangeOk(AfterClose(s, u), t)
  {
  }

  lemma AppendKeepsExchange(s: State, u: nat, t: nat)
    requires Enabled(s, Append(u)) && t in s.tasks && ExchangeOk(s, t)
    ensures ExchangeOk(AfterAppend(s, u), t)
  {
  }

  lemma StoreKeepsExchange(s: State, e: Envelope, t: nat)
    requires Enabled(s, Store(e)) && t in s.tasks && ExchangeOk(s, t)
    ensures ExchangeOk(AfterStore(s, e), t)
  {
  }

  lemma StepKeepsExchange(s: State, a: Action, t: nat)
    requires Inv(s) && Enabled(s, a) && t in Apply(s, a).tasks
    ensures ExchangeOk(Apply(s, a), t)
  {
    if t in s.tasks {
      assert ExchangeOk(s, t);
      match a {
        case Append(u) => AppendKeepsExchange(s, u, t);
        case Open(u) => OpenKeepsExchange(s, u, t);
        case Store(e) => StoreKeepsExchange(s, e, t);
        case Receive(e) => ReceiveKeepsExchange(s, e, t);
        case Close(u) => CloseKeepsExchange(s, u, t);
        case Answer(u) => AnswerKeepsExchange(s, u, t);
        case _ => {}
      }
    }
  }

  lemma StepKeepsQuorate(s: State, a: Action, t: nat)
    requires Enabled(s, a) && t in Apply(s, a).tasks && s.replies <= s.tasks.Keys
    requires t in s.tasks ==> QuorateOk(s, t) && ExchangeOk(s, t) && TaskOk(s, t)
    ensures QuorateOk(Apply(s, a), t)
  {
  }

  /** Every step of every broker keeps the invariant. */
  lemma StepKeeps(s: State, a: Action)
    requires Inv(s) && Enabled(s, a)
    ensures Inv(Apply(s, a))
  {
    var n := Apply(s, a);
    StepFollows(s, a);
    forall t | t in n.tasks ensures TaskOk(n, t) && ExchangeOk(n, t) && CreditOk(n, t) && QuorateOk(n, t) {
      StepKeepsTasks(s, a, t);
      StepKeepsExchange(s, a, t);
      StepKeepsCredit(s, a, t);
      StepKeepsQuorate(s, a, t);
    }
    forall e | e in n.requests ensures RequestOk(n, e) { StepKeepsRequests(s, a, e); }
    forall e | e in n.storing ensures StoringOk(n, e) { StepKeepsStoring(s, a, e); }
    forall e | e in n.acks ensures AckOk(n, e) { StepKeepsAcks(s, a, e); }
    assert n.brokers.Keys == s.brokers.Keys;
    assert |n.brokers.Keys| == |n.brokers| && |s.brokers.Keys| == |s.brokers|;
  }

  // ----- runs

  /** s leads to n by the actions, each enabled when it is taken. */
  ghost predicate Run(s: State, actions: seq<Action>, n: State)
    decreases |actions|
  {
    if |actions| == 0 then n == s
    else Enabled(s, actions[0]) && Run(Apply(s, actions[0]), actions[1..], n)
  }

  lemma FollowsTransitive(a: State, b: State, c: State)
    requires Follows(a, b) && Follows(b, c)
    ensures Follows(a, c)
  {
    forall i, part | i in a.brokers ensures LogOf(a.brokers[i], part) <= LogOf(c.brokers[i], part) {
      assert LogOf(a.brokers[i], part) <= LogOf(b.brokers[i], part) <= LogOf(c.brokers[i], part);
    }
    forall t | t in a.tasks ensures t in c.tasks && SameTask(a.tasks[t], c.tasks[t]) {
      assert t in b.tasks && SameTask(a.tasks[t], b.tasks[t]) && SameTask(b.tasks[t], c.tasks[t]);
    }
  }

  lemma {:induction false} RunKeeps(s: State, actions: seq<Action>, n: State)
    requires Inv(s) && Run(s, actions, n)
    ensures Inv(n) && Follows(s, n)
    decreases |actions|
  {
    if |actions| > 0 {
      var next := Apply(s, actions[0]);
      StepKeeps(s, actions[0]);
      StepFollows(s, actions[0]);
      RunKeeps(next, actions[1..], n);
      FollowsTransitive(s, next, n);
    }
  }

  // ----- what a successful reply means

  /** The offsets of a task are consecutive. */
  predicate Consecutive(task: Task) {
    forall i :: 0 <= i < |task.offsets| ==> task.offsets[i] == task.offsets[0] + i
  }

  ghost predicate HoldsTask(s: State, t: nat, b: int)
    requires t in s.tasks && b in s.brokers
  {
    var task := s.tasks[t];
    forall i :: 0 <= i < |task.offsets| && i < |task.msgs| ==>
      HasAt(s.brokers[b], task.part, task.offsets[i], task.msgs[i])
  }

  lemma CreditedHold(s: State, t: nat, b: int)
    requires Inv(s) && t in s.tasks && Complete(s.tasks[t]) && Consecutive(s.tasks[t]) && b in s.tasks[t].credited
    ensures b in s.brokers && HoldsTask(s, t, b)
  {
    assert TaskOk(s, t) && CreditOk(s, t);
    if b != s.tasks[t].owner {
      assert AckOk(s, Envelope(t, b));
    }
  }

  lemma InitialInv(s: State)
    requires Initial(s)
    ensures Inv(s)
  {
  }

  /** After any successful reply, in every later state of every run, a majority of the brokers hold the whole
      task: its owner at the reported offsets, the others in one piece from the first of them on. */
  lemma AcknowledgedIsStored(start: State, before: seq<Action>, s: State, after: seq<Action>, n: State, t: nat)
    returns (majority: set<int>)
    requires Initial(start) && Run(start, before, s) && Run(s, after, n) && t in s.replies && t in s.tasks
    ensures t in n.tasks && n.tasks[t].offsets == s.tasks[t].offsets && n.tasks[t].msgs == s.tasks[t].msgs
    ensures |majority| >= Quorum(start.peers) && n.tasks[t].owner in n.brokers && HoldsTask(n, t, n.tasks[t].owner)
    ensures forall b :: b in majority && b != n.tasks[t].owner ==>
              RequestOk(n, Envelope(t, b)) && StoredOn(n, Envelope(t, b), |n.tasks[t].msgs|)
  {
    InitialInv(start);
    RunKeeps(start, before, s);
    RunKeeps(s, after, n);
    assert t in n.replies;
    assert QuorateOk(s, t) && QuorateOk(n, t) && CreditOk(n, t) && TaskOk(n, t);
    majority := n.tasks[t].credited;
    forall b | b in majority && b != n.tasks[t].owner ensures AckOk(n, Envelope(t, b)) {
      assert Envelope(t, b) in n.acks;
    }
  }

  /** After a reply that reports success for consecutive offsets, in every later state of every run, a
      majority of the brokers hold every record of it at the reported offset, whoever leads. */
  lemma AcknowledgedIsHeld(start: State, before: seq<Action>, s: State, after: seq<Action>, n: State, t: nat)
    returns (majority: set<int>)
    requires Initial(start) && Run(start, before, s) && Run(s, after, n)
    requires t in s.replies && t in s.tasks && Consecutive(s.tasks[t])
    ensures t in n.tasks && n.tasks[t].offsets == s.tasks[t].offsets && n.tasks[t].msgs == s.tasks[t].msgs
    ensures |majority| >= Quorum(start.peers)
    ensures forall b :: b in majority ==> b in n.brokers && HoldsTask(n, t, b)
  {
    InitialInv(start);
    RunKeeps(start, before, s);
    RunKeeps(s, after, n);
    assert t in n.replies;
    assert QuorateOk(s, t) && QuorateOk(n, t);
    majority := n.tasks[t].credited;
    forall b | b in majority ensures b in n.brokers && HoldsTask(n, t, b) {
      CreditedHold(n, t, b);
    }
  }

  // ----- reads

  /** handle_fetch: only committed offsets are served, and an empty record reads as absent. */
  function Fetch(b: Broker, part: Part, offset: nat): Option<Message> {
    if IsCommitted(b.ledger, part, offset) && offset < |LogOf(b, part)| && LogOf(b, part)[offset] != ""
    then Some(LogOf(b, part)[offset]) else None
  }

  lemma {:induction false} CommitAllMonotone(m: Ledger, p: Part, offsets: seq<nat>, part: Part, offset: nat)
    requires IsCommitted(m, part, offset)
    ensures IsCommitted(CommitAll(m, p, offsets), part, offset)
  {
    if |offsets| > 0 {
      var front := offsets[..|offsets| - 1];
      CommitAllMonotone(m, p, front, part, offset);
      CommitMonotone(CommitAll(m, p, front), p, offsets[|offsets| - 1], part, offset);
    }
  }

  lemma StepKeepsCommitted(s: State, a: Action, b: int, part: Part, offset: nat)
    requires Enabled(s, a) && b in s.brokers && IsCommitted(s.brokers[b].ledger, part, offset)
    ensures b in Apply(s, a).brokers && IsCommitted(Apply(s, a).brokers[b].ledger, part, offset)
  {
    match a {
      case Answer(t) => {
        var task := s.tasks[t];
        if b == task.owner {
          CommitAllMonotone(s.brokers[b].ledger, task.part, task.offsets, part, offset);
        }
      }
      case _ => {}
    }
  }

  lemma StepKeepsReads(s: State, a: Action, b: int, part: Part, offset: nat)
    requires Enabled(s, a) && b in s.brokers && Fetch(s.brokers[b], part, offset).Some?
    ensures b in Apply(s, a).brokers && Fetch(Apply(s, a).brokers[b], part, offset) == Fetch(s.brokers[b], part, offset)
  {
    StepKeepsCommitted(s, a, b, part, offset);
    StepGrows(s, a);
    assert LogOf(s.brokers[b], part) <= LogOf(Apply(s, a).brokers[b], part);
  }

  /** What a broker once served at an offset it serves for ever, whatever it and the others do. */
  lemma {:induction false} StableReads(s: State, actions: seq<Action>, n: State, b: int, part: Part, offset: nat)
    requires Run(s, actions, n) && b in s.brokers && Fetch(s.brokers[b], part, offset).Some?
    ensures b in n.brokers && Fetch(n.brokers[b], part, offset) == Fetch(s.brokers[b], part, offset)
    decreases |actions|
  {
    if |actions| > 0 {
      StepKeepsReads(s, actions[0], b, part, offset);
      StableReads(Apply(s, actions[0]), actions[1..], n, b, part, offset);
    }
  }

  // ----- a producer reads what it was told

  lemma {:induction false} CommitAllReaches(m: Ledger, part: Part, offsets: seq<nat>, i: nat)
    requires i < |offsets|
    ensures IsCommitted(CommitAll(m, part, offsets), part, offsets[i])
  {
    var front := offsets[..|offsets| - 1];
    if i < |front| {
      CommitAllReaches(m, part, front, i);
      CommitMonotone(CommitAll(m, part, front), part, offsets[|offsets| - 1], part, offsets[i]);
    }
  }

  ghost predicate RepliedOk(s: State, t: nat)
    requires t in s.tasks
  {
    var task := s.tasks[t];
    && task.owner in s.brokers && Complete(task)
    && forall i :: 0 <= i < |task.offsets| ==> IsCommitted(s.brokers[task.owner].ledger, task.part, task.offsets[i])
  }

  lemma StepKeepsReplied(s: State, a: Action, t: nat)
    requires Enabled(s, a) && t in s.tasks && t in Apply(s, a).replies && (t in s.replies ==> RepliedOk(s, t))
    ensures RepliedOk(Apply(s, a), t)
  {
    var n, task := Apply(s, a), s.tasks[t];
    if t in s.replies {
      StepFollows(s, a);
      forall i | 0 <= i < |task.offsets| ensures IsCommitted(n.brokers[task.owner].ledger, task.part, task.offsets[i]) {
        StepKeepsCommitted(s, a, task.owner, task.part, task.offsets[i]);
      }
    } else {
      forall i | 0 <= i < |task.offsets| ensures IsCommitted(n.brokers[task.owner].ledger, task.part, task.offsets[i]) {
        CommitAllReaches(s.brokers[task.owner].ledger, task.part, task.offsets, i);
      }
    }
  }

  lemma {:induction false} RunKeepsReplied(s: State, actions: seq<Action>, n: State, t: nat)
    requires Inv(s) && Run(s, actions, n) && t in n.replies
    requires forall u :: u in s.replies ==> RepliedOk(s, u)
    ensures t in n.tasks && RepliedOk(n, t)
    decreases |actions|
  {
    if |actions| > 0 {
      var next := Apply(s, actions[0]);
      StepKeeps(s, actions[0]);
      forall u | u in next.replies ensures RepliedOk(next, u) {
        StepKeepsReplied(s, actions[0], u);
      }
      RunKeepsReplied(next, actions[1..], n, t);
    }
  }

  /** In every state of every run, a broker serves each record it reported as produced, at the offset
      it reported, except that an empty record of a batch reads as absent. */
  lemma RepliedIsServed(start: State, actions: seq<Action>, s: State, t: nat, i: nat)
    requires Initial(start) && Run(start, actions, s) && t in s.replies
    requires t in s.tasks && i < |s.tasks[t].offsets|
    ensures var task := s.tasks[t];
            && task.owner in s.brokers && i < |task.msgs|
            && Fetch(s.brokers[task.owner], task.part, task.offsets[i]) == if task.msgs[i] == "" then None
                else Some(task.msgs[i])
  {
    InitialInv(start);
    RunKeeps(start, actions, s);
    RunKeepsReplied(start, actions, s, t);
    assert TaskOk(s, t);
  }
}

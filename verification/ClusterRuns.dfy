/** Building concrete runs of three brokers over one partition, step by step. */
module ClusterRuns {
  import opened Options
  import opened Replication
  import opened Cluster
  import opened ClusterSafety

  const PART := Part("t", 0)

  /** Everything but the brokers. */
  datatype Rest = Rest(tasks: map<nat, Task>, requests: set<Envelope>, storing: map<Envelope, nat>,
                       acks: set<Envelope>, replies: set<nat>)

  type Brokers = map<int, Broker>

  function Of(bs: Brokers, r: Rest): State {
    State(2, bs, r.tasks, r.requests, r.storing, r.acks, r.replies)
  }

  function Node(leads: bool, log: seq<Message>, m: Ledger, current: Option<nat>): Broker {
    Broker(leads, map[PART := log], m, current)
  }

  function Idle(leads: bool, log: seq<Message>): Broker {
    Node(leads, log, EMPTY_LEDGER, None)
  }

  function Three(x: Broker, y: Broker, z: Broker): Brokers {
    map[1 := x, 2 := y, 3 := z]
  }

  /** Broker 1 leads, and all logs hold the same records. */
  function Start(base: seq<Message>): State {
    Of(Three(Idle(true, base), Idle(false, base), Idle(false, base)), Rest(map[], {}, map[], {}, {}))
  }

  lemma StartsInitial(base: seq<Message>)
    ensures Initial(Start(base))
  {
    assert Start(base).brokers.Keys == {1, 2, 3};
    assert |Start(base).brokers.Keys| == |Start(base).brokers|;
  }

  lemma {:induction false} RunThen(s: State, actions: seq<Action>, n: State, a: Action)
    requires Run(s, actions, n) && Enabled(n, a)
    ensures Run(s, actions + [a], Apply(n, a))
    decreases |actions|
  {
    if |actions| > 0 {
      RunThen(Apply(s, actions[0]), actions[1..], n, a);
      assert (actions + [a])[1..] == actions[1..] + [a];
    } else {
      assert actions + [a] == [a] && [a][1..] == [];
    }
  }

  ghost predicate Reaches(s: State, n: State) {
    exists actions :: Run(s, actions, n)
  }

  lemma Then(s: State, n: State, a: Action)
    requires Reaches(s, n) && Enabled(n, a)
    ensures Reaches(s, Apply(n, a))
  {
    var actions :| Run(s, actions, n);
    RunThen(s, actions, n, a);
  }

  lemma Updates(x: Broker, y: Broker, z: Broker, w: Broker)
    ensures Three(x, y, z)[1 := w] == Three(w, y, z)
    ensures Three(x, y, z)[2 := w] == Three(x, w, z)
    ensures Three(x, y, z)[3 := w] == Three(x, y, w)
  {
  }

  lemma WrittenTwice(bs: Brokers, b: int, x: Broker, p: int, z: Broker, y: Broker)
    requires b != p
    ensures bs[b := x][p := z][b := y] == bs[p := z][b := y]
  {
  }

  lemma AppendedNode(leads: bool, log: seq<Message>, m: Ledger, current: Option<nat>, text: Message)
    ensures Appended(Node(leads, log, m, current), PART, text) == Node(leads, log + [text], m, current)
  {
    assert map[PART := log][PART := log + [text]] == map[PART := log + [text]];
  }

  // ----- the steps, one kind at a time

  function WithTask(r: Rest, t: nat, task: Task): Rest {
    r.(tasks := r.tasks[t := task])
  }

  function AppendedTask(task: Task, offset: nat): Task {
    task.(offsets := task.offsets + [offset],
          stage := if |task.offsets| + 1 == |task.msgs| then Waiting else Appending)
  }

  predicate Has(r: Rest, t: nat, owner: int, stage: Stage) {
    t in r.tasks && r.tasks[t].owner == owner && r.tasks[t].part == PART && r.tasks[t].stage == stage
  }

  lemma Promotes(s: State, bs: Brokers, r: Rest, b: int, log: seq<Message>)
    requires Reaches(s, Of(bs, r)) && b in bs && bs[b] == Idle(false, log)
    ensures Reaches(s, Of(bs[b := Idle(true, log)], r))
  {
    Then(s, Of(bs, r), SetRole(b, true));
  }

  lemma Submits(s: State, bs: Brokers, r: Rest, b: int, t: nat, msgs: seq<Message>)
    requires Reaches(s, Of(bs, r)) && b in bs && bs[b].leads && t !in r.tasks && |msgs| > 0
    ensures Reaches(s, Of(bs, WithTask(r, t, Task(b, PART, msgs, [], Appending, {}))))
  {
    Then(s, Of(bs, r), Submit(t, b, PART, msgs));
  }

  lemma Appends(s: State, bs: Brokers, r: Rest, b: int, log: seq<Message>, m: Ledger, c: Option<nat>, t: nat)
    requires Reaches(s, Of(bs, r)) && b in bs && bs[b] == Node(true, log, m, c)
    requires Has(r, t, b, Appending) && |r.tasks[t].offsets| < |r.tasks[t].msgs|
    ensures Reaches(s, Of(bs[b := Node(true, log + [r.tasks[t].msgs[|r.tasks[t].offsets|]], m, c)],
                          WithTask(r, t, AppendedTask(r.tasks[t], |log|))))
  {
    Then(s, Of(bs, r), Append(t));
    AppendedNode(true, log, m, c, r.tasks[t].msgs[|r.tasks[t].offsets|]);
  }

  lemma Opens(s: State, bs: Brokers, r: Rest, b: int, log: seq<Message>, m: Ledger, t: nat)
    requires Reaches(s, Of(bs, r)) && b in bs && bs[b] == Node(true, log, m, None)
    requires Has(r, t, b, Waiting) && Complete(r.tasks[t])
    ensures Reaches(s, Of(bs[b := Node(true, log, Opened(m, SlotOf(r.tasks[t]), b), Some(t))],
                          WithTask(r, t, r.tasks[t].(stage := Exchanging, credited := {b}))))
  {
    Then(s, Of(bs, r), Open(t));
  }

  lemma Posts(s: State, bs: Brokers, r: Rest, e: Envelope)
    requires Reaches(s, Of(bs, r)) && e.task in r.tasks && r.tasks[e.task].stage == Exchanging
    requires e.peer in bs && e.peer != r.tasks[e.task].owner
    ensures Reaches(s, Of(bs, r.(requests := r.requests + {e})))
  {
    Then(s, Of(bs, r), Send(e.task, e.peer));
  }

  lemma Begins(s: State, bs: Brokers, r: Rest, e: Envelope)
    requires Reaches(s, Of(bs, r)) && e in r.requests && e.peer in bs && !bs[e.peer].leads && r.storing == map[]
    ensures Reaches(s, Of(bs, r.(storing := map[e := 0])))
  {
    Then(s, Of(bs, r), Begin(e));
    assert map[][e := 0] == map[e := 0];
  }

  function StoredRest(r: Rest, e: Envelope, i: nat): Rest
    requires e.task in r.tasks
  {
    if i + 1 == |r.tasks[e.task].msgs| then r.(storing := map[], acks := r.acks + {e})
    else r.(storing := map[e := i + 1])
  }

  /** The next record to store belongs at the end of the log. */
  predicate Fits(r: Rest, e: Envelope, i: nat, log: seq<Message>) {
    && e.task in r.tasks && r.tasks[e.task].part == PART && Complete(r.tasks[e.task]) && i < |r.tasks[e.task].msgs|
    && r.storing == map[e := i] && |log| == r.tasks[e.task].offsets[0] + i
  }

  lemma Stores(s: State, bs: Brokers, r: Rest, log: seq<Message>, e: Envelope, i: nat)
    requires Reaches(s, Of(bs, r)) && e.peer in bs && bs[e.peer] == Idle(false, log) && Fits(r, e, i, log)
    ensures Reaches(s, Of(bs[e.peer := Idle(false, log + [r.tasks[e.task].msgs[i]])], StoredRest(r, e, i)))
  {
    Then(s, Of(bs, r), Store(e));
    AppendedNode(false, log, EMPTY_LEDGER, None, r.tasks[e.task].msgs[i]);
    assert map[e := i] - {e} == map[] && map[e := i][e := i + 1] == map[e := i + 1];
  }

  lemma {:induction false} Copies(s: State, bs: Brokers, r: Rest, log: seq<Message>, e: Envelope, i: nat)
    requires Reaches(s, Of(bs, r)) && e.peer in bs && bs[e.peer] == Idle(false, log) && Fits(r, e, i, log)
    ensures Reaches(s, Of(bs[e.peer := Idle(false, log + r.tasks[e.task].msgs[i..])],
                          r.(storing := map[], acks := r.acks + {e})))
    decreases |r.tasks[e.task].msgs| - i
  {
    var msgs := r.tasks[e.task].msgs;
    var now := bs[e.peer := Idle(false, log + [msgs[i]])];
    Stores(s, bs, r, log, e, i);
    if i + 1 == |msgs| {
      assert msgs[i..] == [msgs[i]];
    } else {
      Copies(s, now, StoredRest(r, e, i), log + [msgs[i]], e, i + 1);
      assert log + [msgs[i]] + msgs[i + 1..] == log + msgs[i..];
      assert now[e.peer := Idle(false, log + msgs[i..])] == bs[e.peer := Idle(false, log + msgs[i..])];
    }
  }

  function Sent(r: Rest, e: Envelope): Rest {
    r.(requests := r.requests + {e}, acks := r.acks + {e})
  }

  /** A task written twice is the second one, whatever was sent in between. */
  lemma Rewritten(r: Rest, t: nat, a: Task, b: Task, e: Envelope)
    ensures WithTask(WithTask(r, t, a), t, b) == WithTask(r, t, b)
    ensures WithTask(Sent(WithTask(r, t, a), e), t, b) == Sent(WithTask(r, t, b), e)
  {
    assert r.tasks[t := a][t := b] == r.tasks[t := b];
  }

  /** A follower whose log ends where the request begins stores all of it and acknowledges. */
  lemma Delivers(s: State, bs: Brokers, r: Rest, log: seq<Message>, e: Envelope)
    requires Reaches(s, Of(bs, r)) && e.peer in bs && bs[e.peer] == Idle(false, log) && r.storing == map[]
             && e in r.requests
    requires e.task in r.tasks && r.tasks[e.task].part == PART && Complete(r.tasks[e.task])
    requires |log| == r.tasks[e.task].offsets[0]
    ensures Reaches(s, Of(bs[e.peer := Idle(false, log + r.tasks[e.task].msgs)], r.(acks := r.acks + {e})))
  {
    Begins(s, bs, r, e);
    Copies(s, bs, r.(storing := map[e := 0]), log, e, 0);
    assert r.tasks[e.task].msgs[0..] == r.tasks[e.task].msgs;
  }

  /** Any other follower stores the first record where it does not belong, and says nothing. */
  lemma Misplaces(s: State, bs: Brokers, r: Rest, log: seq<Message>, e: Envelope)
    requires Reaches(s, Of(bs, r)) && e.peer in bs && bs[e.peer] == Idle(false, log) && r.storing == map[]
             && e in r.requests
    requires e.task in r.tasks && r.tasks[e.task].part == PART && Complete(r.tasks[e.task])
    requires |log| != r.tasks[e.task].offsets[0]
    ensures Reaches(s, Of(bs[e.peer := Idle(false, log + [r.tasks[e.task].msgs[0]])], r))
  {
    Begins(s, bs, r, e);
    Then(s, Of(bs, r.(storing := map[e := 0])), Store(e));
    AppendedNode(false, log, EMPTY_LEDGER, None, r.tasks[e.task].msgs[0]);
    assert map[e := 0] - {e} == map[];
  }

  lemma Sends(s: State, bs: Brokers, r: Rest, log: seq<Message>, e: Envelope)
    requires Reaches(s, Of(bs, r)) && e.peer in bs && bs[e.peer] == Idle(false, log) && r.storing == map[]
    requires e.task in r.tasks && r.tasks[e.task].stage == Exchanging && r.tasks[e.task].part == PART
    requires Complete(r.tasks[e.task]) && e.peer != r.tasks[e.task].owner && |log| == r.tasks[e.task].offsets[0]
    ensures Reaches(s, Of(bs[e.peer := Idle(false, log + r.tasks[e.task].msgs)], Sent(r, e)))
  {
    Posts(s, bs, r, e);
    Delivers(s, bs, r.(requests := r.requests + {e}), log, e);
  }

  lemma Receives(s: State, bs: Brokers, r: Rest, b: int, log: seq<Message>, m: Ledger, c: Option<nat>, e: Envelope)
    requires Reaches(s, Of(bs, r)) && b in bs && bs[b] == Node(true, log, m, c) && e in r.acks
    requires Has(r, e.task, b, Exchanging) && Complete(r.tasks[e.task])
    requires e.peer !in FollowersOf(m, SlotOf(r.tasks[e.task]))
    ensures Reaches(s, Of(bs[b := Node(true, log, Acked(m, SlotOf(r.tasks[e.task]), e.peer), c)],
                          WithTask(r, e.task, r.tasks[e.task].(credited := r.tasks[e.task].credited + {e.peer}))))
  {
    Then(s, Of(bs, r), Receive(e));
  }

  lemma Closes(s: State, bs: Brokers, r: Rest, b: int, log: seq<Message>, m: Ledger, c: Option<nat>, t: nat)
    requires Reaches(s, Of(bs, r)) && b in bs && bs[b] == Node(true, log, m, c)
    requires Has(r, t, b, Exchanging) && Complete(r.tasks[t]) && QuorumReached(m, SlotOf(r.tasks[t]), 2)
    ensures Reaches(s, Of(bs[b := Node(true, log, m, None)], WithTask(r, t, r.tasks[t].(stage := Quorate))))
  {
    Then(s, Of(bs, r), Close(t));
  }

  /** The exchange ends without a quorum. */
  lemma Fails(s: State, bs: Brokers, r: Rest, b: int, log: seq<Message>, m: Ledger, c: Option<nat>, t: nat)
    requires Reaches(s, Of(bs, r)) && b in bs && bs[b] == Node(true, log, m, c)
    requires Has(r, t, b, Exchanging) && Complete(r.tasks[t]) && !QuorumReached(m, SlotOf(r.tasks[t]), 2)
    ensures Reaches(s, Of(bs[b := Node(true, log, m, None)], WithTask(r, t, r.tasks[t].(stage := Done))))
  {
    Then(s, Of(bs, r), Close(t));
  }

  lemma Notices(s: State, bs: Brokers, r: Rest, b: int, x: Broker, o: nat)
    requires Reaches(s, Of(bs, r)) && b in bs && bs[b] == x
    ensures Reaches(s, Of(bs[b := x.(ledger := Committed(x.ledger, PART, o))], r))
  {
    Then(s, Of(bs, r), Notice(b, PART, o));
  }

  lemma Answers(s: State, bs: Brokers, r: Rest, b: int, log: seq<Message>, m: Ledger, t: nat)
    requires Reaches(s, Of(bs, r)) && b in bs && bs[b] == Node(true, log, m, None)
    requires Has(r, t, b, Quorate) && Complete(r.tasks[t]) && QuorumReached(m, Slot(PART, LastOffset(r.tasks[t])), 2)
    ensures Reaches(s, Of(bs[b := Node(true, log, CommitAll(m, PART, r.tasks[t].offsets), None)],
                          WithTask(r, t, r.tasks[t].(stage := Done)).(replies := r.replies + {t})))
  {
    Then(s, Of(bs, r), Answer(t));
  }

  // ----- a whole exchange with one follower

  function Counted(m: Ledger, slot: Slot, b: int, p: int): Ledger {
    Acked(Opened(m, slot, b), slot, p)
  }

  lemma CountedQuorum(m: Ledger, slot: Slot, b: int, p: int)
    requires slot !in m.followers && b != p
    ensures QuorumReached(Counted(m, slot, b, p), slot, 2)
    ensures Counted(m, slot, b, p).followers.Keys == m.followers.Keys + {slot}
  {
  }

  lemma OpensAndSends(s: State, bs: Brokers, r: Rest, b: int, log: seq<Message>, m: Ledger, t: nat, p: int,
                      copy: seq<Message>)
    requires Reaches(s, Of(bs, r)) && b in bs && bs[b] == Node(true, log, m, None) && r.storing == map[]
    requires Has(r, t, b, Waiting) && Complete(r.tasks[t])
    requires p in bs && p != b && bs[p] == Idle(false, copy) && |copy| == r.tasks[t].offsets[0]
    ensures Reaches(s, Of(bs[b := Node(true, log, Opened(m, SlotOf(r.tasks[t]), b), Some(t))]
                            [p := Idle(false, copy + r.tasks[t].msgs)],
                          Sent(WithTask(r, t, r.tasks[t].(stage := Exchanging, credited := {b})), Envelope(t, p))))
  {
    Opens(s, bs, r, b, log, m, t);
    Sends(s, bs[b := Node(true, log, Opened(m, SlotOf(r.tasks[t]), b), Some(t))],
          WithTask(r, t, r.tasks[t].(stage := Exchanging, credited := {b})), copy, Envelope(t, p));
  }

  /** Open, send to follower p, which is in place, and count its acknowledgement. */
  lemma OpensAndCounts(s: State, bs: Brokers, r: Rest, b: int, log: seq<Message>, m: Ledger, t: nat, p: int,
                       copy: seq<Message>)
    requires Reaches(s, Of(bs, r)) && b in bs && bs[b] == Node(true, log, m, None) && r.storing == map[]
    requires Has(r, t, b, Waiting) && Complete(r.tasks[t]) && SlotOf(r.tasks[t]) !in m.followers
    requires p in bs && p != b && bs[p] == Idle(false, copy) && |copy| == r.tasks[t].offsets[0]
    ensures Reaches(s, Of(bs[p := Idle(false, copy + r.tasks[t].msgs)]
                            [b := Node(true, log, Counted(m, SlotOf(r.tasks[t]), b, p), Some(t))],
                          Sent(WithTask(r, t, r.tasks[t].(stage := Exchanging, credited := {b, p})), Envelope(t, p))))
  {
    var task, slot, e := r.tasks[t], SlotOf(r.tasks[t]), Envelope(t, p);
    var x := Node(true, log, Opened(m, slot, b), Some(t));
    var r1 := WithTask(r, t, task.(stage := Exchanging, credited := {b}));
    OpensAndSends(s, bs, r, b, log, m, t, p, copy);
    var bs2 := bs[b := x][p := Idle(false, copy + task.msgs)];
    Receives(s, bs2, Sent(r1, e), b, log, Opened(m, slot, b), Some(t), e);
    WrittenTwice(bs, b, x, p, Idle(false, copy + task.msgs), Node(true, log, Counted(m, slot, b, p), Some(t)));
    assert {b} + {p} == {b, p};
    Rewritten(r, t, task.(stage := Exchanging, credited := {b}), task.(stage := Exchanging, credited := {b, p}), e);
  }

  lemma Exchanges(s: State, bs: Brokers, r: Rest, b: int, log: seq<Message>, m: Ledger, t: nat, p: int,
          copy: seq<Message>)
    requires Reaches(s, Of(bs, r)) && b in bs && bs[b] == Node(true, log, m, None) && r.storing == map[]
    requires Has(r, t, b, Waiting) && Complete(r.tasks[t]) && SlotOf(r.tasks[t]) !in m.followers
    requires p in bs && p != b && bs[p] == Idle(false, copy) && |copy| == r.tasks[t].offsets[0]
    ensures Reaches(s, Of(bs[p := Idle(false, copy + r.tasks[t].msgs)]
                            [b := Node(true, log, Counted(m, SlotOf(r.tasks[t]), b, p), None)],
                          Sent(WithTask(r, t, r.tasks[t].(stage := Quorate, credited := {b, p})), Envelope(t, p))))
  {
    var task, slot, e := r.tasks[t], SlotOf(r.tasks[t]), Envelope(t, p);
    OpensAndCounts(s, bs, r, b, log, m, t, p, copy);
    CountedQuorum(m, slot, b, p);
    var bs1 := bs[p := Idle(false, copy + task.msgs)];
    var bs2 := bs1[b := Node(true, log, Counted(m, slot, b, p), Some(t))];
    var r1 := Sent(WithTask(r, t, task.(stage := Exchanging, credited := {b, p})), e);
    Closes(s, bs2, r1, b, log, Counted(m, slot, b, p), Some(t), t);
    assert bs2[b := Node(true, log, Counted(m, slot, b, p), None)]
           == bs1[b := Node(true, log, Counted(m, slot, b, p), None)];
    Rewritten(r, t, task.(stage := Exchanging, credited := {b, p}), task.(stage := Quorate, credited := {b, p}), e);
  }

  // ----- a produce of one record

  function Single(owner: int, text: Message, offset: nat, stage: Stage, credited: set<int>): Task {
    Task(owner, PART, [text], [offset], stage, credited)
  }

  /** A leader takes one record. */
  lemma Takes(s: State, bs: Brokers, r: Rest, b: int, log: seq<Message>, m: Ledger, t: nat, text: Message)
    requires Reaches(s, Of(bs, r)) && b in bs && bs[b] == Node(true, log, m, None) && t !in r.tasks
    ensures Reaches(s, Of(bs[b := Node(true, log + [text], m, None)],
                          WithTask(r, t, Single(b, text, |log|, Waiting, {}))))
  {
    var begun := Task(b, PART, [text], [], Appending, {});
    Submits(s, bs, r, b, t, [text]);
    Appends(s, bs, WithTask(r, t, begun), b, log, m, None, t);
    assert AppendedTask(begun, |log|) == Single(b, text, |log|, Waiting, {});
    Rewritten(r, t, begun, Single(b, text, |log|, Waiting, {}), Envelope(t, b));
  }

  lemma TakenAndCounted(s: State, bs: Brokers, r: Rest, b: int, p: int, log: seq<Message>, m: Ledger, t: nat,
                        text: Message)
    requires Reaches(s, Of(bs, r)) && b in bs && bs[b] == Node(true, log, m, None) && t !in r.tasks
    requires p in bs && p != b && bs[p] == Idle(false, log) && r.storing == map[] && Slot(PART, |log|) !in m.followers
    ensures Reaches(s, Of(bs[p := Idle(false, log + [text])]
                            [b := Node(true, log + [text], Counted(m, Slot(PART, |log|), b, p), None)],
                          Sent(WithTask(r, t, Single(b, text, |log|, Quorate, {b, p})), Envelope(t, p))))
  {
    Takes(s, bs, r, b, log, m, t, text);
    var x, y, z := Node(true, log + [text], m, None),
        Node(true, log + [text], Counted(m, Slot(PART, |log|), b, p), None), Idle(false, log + [text]);
    var r1 := WithTask(r, t, Single(b, text, |log|, Waiting, {}));
    Exchanges(s, bs[b := x], r1, b, log + [text], m, t, p, log);
    WrittenTwice(bs, b, x, p, z, y);
    Rewritten(r, t, Single(b, text, |log|, Waiting, {}), Single(b, text, |log|, Quorate, {b, p}), Envelope(t, p));
  }

  /** A produce that one follower, which is level with the leader, acknowledges, and that is reported. */
  lemma ProducesOne(s: State, bs: Brokers, r: Rest, b: int, p: int, log: seq<Message>, m: Ledger, t: nat, text: Message)
    requires Reaches(s, Of(bs, r)) && b in bs && bs[b] == Node(true, log, m, None) && t !in r.tasks
    requires p in bs && p != b && bs[p] == Idle(false, log) && r.storing == map[] && Slot(PART, |log|) !in m.followers
    ensures Reaches(s, Of(bs[p := Idle(false, log + [text])]
                            [b := Node(true, log + [text], Reported(m, |log|, b, p), None)],
                          Sent(WithTask(r, t, Single(b, text, |log|, Done, {b, p})), Envelope(t, p))
                            .(replies := r.replies + {t})))
  {
    TakenAndCounted(s, bs, r, b, p, log, m, t, text);
    var counted, slot, z := Counted(m, Slot(PART, |log|), b, p), Slot(PART, |log|), Idle(false, log + [text]);
    var x, y := Node(true, log + [text], counted, None), Node(true, log + [text], Reported(m, |log|, b, p), None);
    var r1 := Sent(WithTask(r, t, Single(b, text, |log|, Quorate, {b, p})), Envelope(t, p));
    CountedQuorum(m, slot, b, p);
    Answers(s, bs[p := z][b := x], r1, b, log + [text], counted, t);
    assert bs[p := z][b := x][b := y] == bs[p := z][b := y];
    Rewritten(r, t, Single(b, text, |log|, Quorate, {b, p}), Single(b, text, |log|, Done, {b, p}), Envelope(t, p));
  }

  /** The ledger after a produce at offset o of leader b that follower p acknowledged. */
  function Reported(m: Ledger, o: nat, b: int, p: int): Ledger {
    CommitAll(Counted(m, Slot(PART, o), b, p), PART, [o])
  }
}

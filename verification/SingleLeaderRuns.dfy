/** Three runs under one leader: what can happen when a follower misses a record, when it does not handle the
    requests in turn, and after a produce that failed. */
module SingleLeaderRuns {
  import opened Options
  import opened Replication
  import opened Cluster
  import opened ClusterSafety
  import opened ClusterRuns

  const START := Start([])
  const NOBODY := Idle(false, [])

  // ----- a request that is handled late

  /** A produce whose request is sent to broker 2 but answered by nobody in time. */
  lemma Slow(y: Broker, z: Broker, r: Rest, log: seq<Message>, m: Ledger, t: nat, text: Message)
    requires Reaches(START, Of(Three(Node(true, log, m, None), y, z), r)) && t !in r.tasks
    ensures Reaches(START, Of(Three(Node(true, log + [text], Opened(m, Slot(PART, |log|), 1), None), y, z),
                              WithTask(r, t, Single(1, text, |log|, Done, {1}))
                                .(requests := r.requests + {Envelope(t, 2)})))
  {
    SentOut(y, z, r, log, m, t, text);
    var x := Node(true, log + [text], Opened(m, Slot(PART, |log|), 1), Some(t));
    var r1 := WithTask(r, t, Single(1, text, |log|, Exchanging, {1})).(requests := r.requests + {Envelope(t, 2)});
    Fails(START, Three(x, y, z), r1, 1, log + [text], Opened(m, Slot(PART, |log|), 1), Some(t), t);
    Updates(x, y, z, Node(true, log + [text], Opened(m, Slot(PART, |log|), 1), None));
    assert r1.tasks[t := Single(1, text, |log|, Done, {1})] == r.tasks[t := Single(1, text, |log|, Done, {1})];
  }

  lemma SentOut(y: Broker, z: Broker, r: Rest, log: seq<Message>, m: Ledger, t: nat, text: Message)
    requires Reaches(START, Of(Three(Node(true, log, m, None), y, z), r)) && t !in r.tasks
    ensures Reaches(START, Of(Three(Node(true, log + [text], Opened(m, Slot(PART, |log|), 1), Some(t)), y, z),
                              WithTask(r, t, Single(1, text, |log|, Exchanging, {1}))
                                .(requests := r.requests + {Envelope(t, 2)})))
  {
    Offered(y, z, r, log, m, t, text);
    Posts(START, Three(Node(true, log + [text], Opened(m, Slot(PART, |log|), 1), Some(t)), y, z),
          WithTask(r, t, Single(1, text, |log|, Exchanging, {1})), Envelope(t, 2));
  }

  lemma Offered(y: Broker, z: Broker, r: Rest, log: seq<Message>, m: Ledger, t: nat, text: Message)
    requires Reaches(START, Of(Three(Node(true, log, m, None), y, z), r)) && t !in r.tasks
    ensures Reaches(START, Of(Three(Node(true, log + [text], Opened(m, Slot(PART, |log|), 1), Some(t)), y, z),
                              WithTask(r, t, Single(1, text, |log|, Exchanging, {1}))))
  {
    var x0 := Node(true, log, m, None);
    Takes(START, Three(x0, y, z), r, 1, log, m, t, text);
    Updates(x0, y, z, Node(true, log + [text], m, None));
    var x, r1 := Node(true, log + [text], m, None), WithTask(r, t, Single(1, text, |log|, Waiting, {}));
    Opens(START, Three(x, y, z), r1, 1, log + [text], m, t);
    Updates(x, y, z, Node(true, log + [text], Opened(m, Slot(PART, |log|), 1), Some(t)));
    Rewritten(r, t, Single(1, text, |log|, Waiting, {}), Single(1, text, |log|, Exchanging, {1}), Envelope(t, 2));
  }

  function Produces(a: Stage, b: Stage, c: Stage): map<nat, Task> {
    map[1 := Single(1, "a", 0, a, {1}), 2 := Single(1, "b", 1, b, {1}), 3 := Single(1, "c", 2, c, {1})]
  }

  const REQUESTS := {Envelope(1, 2), Envelope(2, 2), Envelope(3, 2)}

  /** The ledger of the leader after a produce at offset 0 that nobody acknowledged in time. */
  const FAILED := Opened(EMPTY_LEDGER, Slot(PART, 0), 1)
  const OPENED := Opened(Opened(FAILED, Slot(PART, 1), 1), Slot(PART, 2), 1)

  const FIRST_TWO := Rest(map[1 := Single(1, "a", 0, Done, {1}), 2 := Single(1, "b", 1, Done, {1})],
                          {Envelope(1, 2), Envelope(2, 2)}, map[], {}, {})

  lemma TwoSent()
    ensures Reaches(START, Of(Three(Node(true, ["a", "b"], Opened(FAILED, Slot(PART, 1), 1), None), NOBODY, NOBODY),
                              FIRST_TWO))
  {
    assert Run(START, [], START);
    var r := Rest(map[], {}, map[], {}, {});
    Slow(NOBODY, NOBODY, r, [], EMPTY_LEDGER, 1, "a");
    var r1 := WithTask(r, 1, Single(1, "a", 0, Done, {1})).(requests := {} + {Envelope(1, 2)});
    assert [] + ["a"] == ["a"];
    Slow(NOBODY, NOBODY, r1, ["a"], FAILED, 2, "b");
    var r2 := WithTask(r1, 2, Single(1, "b", 1, Done, {1})).(requests := r1.requests + {Envelope(2, 2)});
    assert ["a"] + ["b"] == ["a", "b"];
    assert r2 == FIRST_TWO;
  }

  /** Three produces one after the other, each closed before the next begins, the third one still open. */
  lemma AllSent()
    ensures Reaches(START, Of(Three(Node(true, ["a", "b", "c"], OPENED, Some(3)), NOBODY, NOBODY),
                              Rest(Produces(Done, Done, Exchanging), REQUESTS, map[], {}, {})))
  {
    TwoSent();
    SentOut(NOBODY, NOBODY, FIRST_TWO, ["a", "b"], Opened(FAILED, Slot(PART, 1), 1), 3, "c");
    assert ["a", "b"] + ["c"] == ["a", "b", "c"];
    assert FIRST_TWO.tasks[3 := Single(1, "c", 2, Exchanging, {1})] == Produces(Done, Done, Exchanging);
    assert FIRST_TWO.requests + {Envelope(3, 2)} == REQUESTS;
  }

  lemma StoredOutOfTurn(x: Broker, r: Rest)
    requires Reaches(START, Of(Three(x, NOBODY, NOBODY), r)) && r.requests == REQUESTS && r.storing == map[]
    requires r.tasks == Produces(Done, Done, Exchanging)
    ensures Reaches(START, Of(Three(x, Idle(false, ["b", "a", "c"]), NOBODY), r.(acks := r.acks + {Envelope(3, 2)})))
  {
    Misplaces(START, Three(x, NOBODY, NOBODY), r, [], Envelope(2, 2));
    assert [] + ["b"] == ["b"];
    Updates(x, NOBODY, NOBODY, Idle(false, ["b"]));
    Misplaces(START, Three(x, Idle(false, ["b"]), NOBODY), r, ["b"], Envelope(1, 2));
    assert ["b"] + ["a"] == ["b", "a"];
    Updates(x, Idle(false, ["b"]), NOBODY, Idle(false, ["b", "a"]));
    Delivers(START, Three(x, Idle(false, ["b", "a"]), NOBODY), r, ["b", "a"], Envelope(3, 2));
    assert ["b", "a"] + ["c"] == ["b", "a", "c"];
    Updates(x, Idle(false, ["b", "a"]), NOBODY, Idle(false, ["b", "a", "c"]));
  }

  /** Without the turns there is no log matching: produces a, b, c of one leader, one after the other, whose
      requests a follower handles in the order b, a, c, leave it with the log b, a, c and with an acknowledgement
      for the last offset. */
  lemma OutOfTurn() returns (actions: seq<Action>, s: State)
    ensures Initial(START) && Run(START, actions, s)
    ensures 1 in s.brokers && 2 in s.brokers && LogOf(s.brokers[1], PART) == ["a", "b", "c"]
            && LogOf(s.brokers[2], PART) == ["b", "a", "c"]
    ensures Envelope(3, 2) in s.acks && 3 in s.tasks && s.tasks[3].offsets == [2] && s.tasks[3].part == PART
  {
    StartsInitial([]);
    AllSent();
    var x, r := Node(true, ["a", "b", "c"], OPENED, Some(3)),
        Rest(Produces(Done, Done, Exchanging), REQUESTS, map[], {}, {});
    StoredOutOfTurn(x, r);
    s := Of(Three(x, Idle(false, ["b", "a", "c"]), NOBODY), r.(acks := r.acks + {Envelope(3, 2)}));
    actions :| Run(START, actions, s);
  }

  // ----- a request that does not arrive

  /** A produce that broker 3 acknowledges, and that is reported. */
  lemma Succeeds(y: Broker, r: Rest, log: seq<Message>, m: Ledger, t: nat, text: Message)
    requires Reaches(START, Of(Three(Node(true, log, m, None), y, Idle(false, log)), r)) && t !in r.tasks
    requires r.storing == map[] && Slot(PART, |log|) !in m.followers
    ensures Reaches(START, Of(Three(Node(true, log + [text], Reported(m, |log|, 1, 3), None), y,
                                    Idle(false, log + [text])),
                              Sent(WithTask(r, t, Single(1, text, |log|, Done, {1, 3})), Envelope(t, 3))
                                .(replies := r.replies + {t})))
  {
    var x, z, z1 := Node(true, log, m, None), Idle(false, log), Idle(false, log + [text]);
    ProducesOne(START, Three(x, y, z), r, 1, 3, log, m, t, text);
    Updates(x, y, z, z1);
    Updates(x, y, z1, Node(true, log + [text], Reported(m, |log|, 1, 3), None));
  }

  /** The next produce reaches broker 3, which acknowledges, and broker 2, which has missed one. */
  lemma Misplaced(log: seq<Message>, r: Rest, m: Ledger, text: Message)
    requires Reaches(START, Of(Three(Node(true, log, m, None), NOBODY, Idle(false, log)), r)) && |log| == 1
             && 2 !in r.tasks
    requires r.storing == map[] && Slot(PART, 1) !in m.followers
    ensures Reaches(START, Of(Three(Node(true, log + [text], Counted(m, Slot(PART, 1), 1, 3), Some(2)),
                                    Idle(false, [text]), Idle(false, log + [text])),
                              Sent(WithTask(r, 2, Single(1, text, 1, Exchanging, {1, 3})), Envelope(2, 3))
                                .(requests := r.requests + {Envelope(2, 3)} + {Envelope(2, 2)})))
  {
    var x0 := Node(true, log, m, None);
    Takes(START, Three(x0, NOBODY, Idle(false, log)), r, 1, log, m, 2, text);
    Updates(x0, NOBODY, Idle(false, log), Node(true, log + [text], m, None));
    var x, z, z1 := Node(true, log + [text], m, None), Idle(false, log), Idle(false, log + [text]);
    var x1, r1 := Node(true, log + [text], Counted(m, Slot(PART, 1), 1, 3), Some(2)),
        WithTask(r, 2, Single(1, text, 1, Waiting, {}));
    OpensAndCounts(START, Three(x, NOBODY, z), r1, 1, log + [text], m, 2, 3, log);
    Updates(x, NOBODY, z, z1);
    Updates(x, NOBODY, z1, x1);
    Rewritten(r, 2, Single(1, text, 1, Waiting, {}), Single(1, text, 1, Exchanging, {1, 3}), Envelope(2, 3));
    var r2 := Sent(WithTask(r, 2, Single(1, text, 1, Exchanging, {1, 3})), Envelope(2, 3));
    Posts(START, Three(x1, NOBODY, z1), r2, Envelope(2, 2));
    MisplacedLast(x1, z1, r2.(requests := r2.requests + {Envelope(2, 2)}), text);
  }

  lemma MisplacedLast(x: Broker, z: Broker, r: Rest, text: Message)
    requires Reaches(START, Of(Three(x, NOBODY, z), r)) && Envelope(2, 2) in r.requests && r.storing == map[]
    requires 2 in r.tasks && r.tasks[2] == Single(1, text, 1, Exchanging, {1, 3})
    ensures Reaches(START, Of(Three(x, Idle(false, [text]), z), r))
  {
    Misplaces(START, Three(x, NOBODY, z), r, [], Envelope(2, 2));
    assert [] + [text] == [text];
    Updates(x, NOBODY, z, Idle(false, [text]));
  }

  /** The leader reports it, and its commit notices reach broker 2. */
  lemma Noticed(log: seq<Message>, y: Broker, z: Broker, r: Rest, m: Ledger) returns (s: State)
    requires Reaches(START, Of(Three(Node(true, log, m, Some(2)), y, z), r))
    requires Has(r, 2, 1, Exchanging) && Complete(r.tasks[2]) && r.tasks[2].offsets == [1]
             && QuorumReached(m, Slot(PART, 1), 2)
    ensures Reaches(START, s) && 1 in s.brokers && 2 in s.brokers
    ensures s.brokers[1] == Node(true, log, CommitAll(m, PART, [1]), None)
    ensures s.brokers[2] == y.(ledger := Committed(y.ledger, PART, 0))
  {
    var bs := Three(Node(true, log, m, Some(2)), y, z);
    Closes(START, bs, r, 1, log, m, Some(2), 2);
    var bs1, r1 := bs[1 := Node(true, log, m, None)], WithTask(r, 2, r.tasks[2].(stage := Quorate));
    Answers(START, bs1, r1, 1, log, m, 2);
    var bs2 := bs1[1 := Node(true, log, CommitAll(m, PART, [1]), None)];
    var r2 := WithTask(r1, 2, r1.tasks[2].(stage := Done)).(replies := r1.replies + {2});
    Notices(START, bs2, r2, 2, y, 0);
    s := Of(bs2[2 := y.(ledger := Committed(y.ledger, PART, 0))], r2);
  }

  /** Broker 2 misses "a", gets "b", and is told that offset 0 is committed. */
  lemma Missed() returns (s: State)
    ensures Reaches(START, s) && 1 in s.brokers && 2 in s.brokers
    ensures LogOf(s.brokers[1], PART) == ["a", "b"] && IsCommitted(s.brokers[1].ledger, PART, 1)
    ensures LogOf(s.brokers[2], PART) == ["b"] && IsCommitted(s.brokers[2].ledger, PART, 0)
  {
    assert Run(START, [], START);
    var r := Rest(map[], {}, map[], {}, {});
    Succeeds(NOBODY, r, [], EMPTY_LEDGER, 1, "a");
    assert [] + ["a"] == ["a"];
    var m := Reported(EMPTY_LEDGER, 0, 1, 3);
    CommitAllKeeps(Counted(EMPTY_LEDGER, Slot(PART, 0), 1, 3), PART, [0]);
    var r1 := Sent(WithTask(r, 1, Single(1, "a", 0, Done, {1, 3})), Envelope(1, 3)).(replies := {} + {1});
    Misplaced(["a"], r1, m, "b");
    assert ["a"] + ["b"] == ["a", "b"];
    var counted := Counted(m, Slot(PART, 1), 1, 3);
    CountedQuorum(m, Slot(PART, 1), 1, 3);
    var r2 := Sent(WithTask(r1, 2, Single(1, "b", 1, Exchanging, {1, 3})), Envelope(2, 3))
              .(requests := r1.requests + {Envelope(2, 3)} + {Envelope(2, 2)});
    s := Noticed(["a", "b"], Idle(false, ["b"]), Idle(false, ["a", "b"]), r2, counted);
    CommitAllReaches(counted, PART, [1], 0);
  }

  /** One missed record is enough for a follower to serve a wrong one: a run after which a fetch of offset 0
      returns "a" at the leader and "b" at the follower. */
  lemma MissedRecordServed() returns (actions: seq<Action>, s: State)
    ensures Initial(START) && Run(START, actions, s) && 1 in s.brokers && 2 in s.brokers
    ensures Fetch(s.brokers[1], PART, 0) == Some("a") && Fetch(s.brokers[2], PART, 0) == Some("b")
  {
    StartsInitial([]);
    s := Missed();
    actions :| Run(START, actions, s);
  }

  // ----- a produce that fails

  const AFTER_FAILED := Sent(Rest(map[1 := Single(1, "a", 0, Done, {1})], {}, map[], {}, {}), Envelope(1, 3))

  /** Broker 3 stores "a", but its acknowledgement comes too late. */
  lemma FailsFirst()
    ensures Reaches(START, Of(Three(Node(true, ["a"], FAILED, None), NOBODY, Idle(false, ["a"])), AFTER_FAILED))
  {
    assert Run(START, [], START);
    var r, x := Rest(map[], {}, map[], {}, {}), Node(true, ["a"], FAILED, Some(1));
    Offered(NOBODY, NOBODY, r, [], EMPTY_LEDGER, 1, "a");
    assert [] + ["a"] == ["a"];
    var r1, z := WithTask(r, 1, Single(1, "a", 0, Exchanging, {1})), Idle(false, ["a"]);
    Sends(START, Three(x, NOBODY, NOBODY), r1, [], Envelope(1, 3));
    Updates(x, NOBODY, NOBODY, z);
    Fails(START, Three(x, NOBODY, z), Sent(r1, Envelope(1, 3)), 1, ["a"], FAILED, Some(1), 1);
    Updates(x, NOBODY, z, Node(true, ["a"], FAILED, None));
    assert r1.tasks[1 := Single(1, "a", 0, Done, {1})] == map[1 := Single(1, "a", 0, Done, {1})];
  }

  /** "b" reaches broker 3 and is reported. */
  lemma SucceedsNext() returns (s: State)
    ensures Reaches(START, s) && 1 in s.brokers && 1 in s.tasks
    ensures s.brokers[1] == Node(true, ["a", "b"], Reported(FAILED, 1, 1, 3), None)
    ensures s.tasks[1] == Single(1, "a", 0, Done, {1}) && s.replies == {2}
  {
    FailsFirst();
    Succeeds(NOBODY, AFTER_FAILED, ["a"], FAILED, 2, "b");
    assert ["a"] + ["b"] == ["a", "b"];
    var x := Node(true, ["a", "b"], Reported(FAILED, 1, 1, 3), None);
    s := Of(Three(x, NOBODY, Idle(false, ["a", "b"])),
            Sent(WithTask(AFTER_FAILED, 2, Single(1, "b", 1, Done, {1, 3})), Envelope(2, 3)).(replies := {} + {2}));
  }

  /** A failed produce that is served: "a" is reported as failed and "b" as produced, and then a fetch of offset 0
      returns "a". */
  lemma FailedThenServed() returns (actions: seq<Action>, s: State)
    ensures Initial(START) && Run(START, actions, s) && 1 in s.brokers && 1 in s.tasks
    ensures s.tasks[1] == Single(1, "a", 0, Done, {1}) && 1 !in s.replies && 2 in s.replies
    ensures Fetch(s.brokers[1], PART, 0) == Some("a")
  {
    StartsInitial([]);
    s := SucceedsNext();
    CommitAllReaches(Counted(FAILED, Slot(PART, 1), 1, 3), PART, [1], 0);
    actions :| Run(START, actions, s);
  }
}

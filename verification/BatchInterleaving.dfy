/** Where agreement ends. Appends of other producers between those of a batch spread its offsets, while the
    followers store it in one piece. For every way of spreading that leaves a record uncovered there is a run in
    which another leader reports a different record at the same offset. All other produces of the run are of
    single records, but for one batch that is no longer than the first one. */
module BatchInterleaving {
  import opened Options
  import opened Replication
  import opened Cluster
  import opened ClusterSafety
  import opened ClusterAgreement
  import opened ClusterRuns

  /** A batch, the offsets its records get, one of its records, and an offset that goes to somebody else. */
  datatype Shape = Shape(base: seq<Message>, msgs: seq<Message>, offsets: seq<nat>, i: nat, gap: nat)

  ghost predicate Increasing(offsets: seq<nat>) {
    forall j, k :: 0 <= j < k < |offsets| ==> offsets[j] < offsets[k]
  }

  function Last(h: Shape): nat
    requires |h.offsets| > 0
  {
    h.offsets[|h.offsets| - 1]
  }

  /** Record i lies beyond the range the request will name, and after it comes the last append that is not of the
      batch. */
  ghost predicate Spread(h: Shape) {
    && |h.offsets| == |h.msgs| > 0 && Increasing(h.offsets) && h.offsets[0] == |h.base| && h.i < |h.offsets|
    && h.offsets[0] + |h.msgs| <= h.offsets[h.i] < h.gap < Last(h) && h.gap !in h.offsets
    && Last(h) - h.gap < |h.msgs|
  }

  ghost predicate ConsecutiveFrom(offsets: seq<nat>, i: nat) {
    forall j :: i <= j < |offsets| ==> offsets[j] == offsets[i] + (j - i)
  }

  /** An uncovered record of a batch has such an offset after it. */
  lemma {:induction false} LastGap(offsets: seq<nat>, i: nat, m: nat) returns (gap: nat)
    requires Increasing(offsets) && i <= m < |offsets| && !ConsecutiveFrom(offsets, i) && ConsecutiveFrom(offsets, m)
    ensures offsets[i] < gap < offsets[|offsets| - 1] && gap !in offsets
    ensures offsets[|offsets| - 1] - gap < |offsets|
    decreases m
  {
    if offsets[m] > offsets[m - 1] + 1 {
      gap := offsets[m] - 1;
      assert i < m - 1 ==> offsets[i] < offsets[m - 1];
      assert offsets[|offsets| - 1] == offsets[m] + (|offsets| - 1 - m);
      forall k | 0 <= k < |offsets| ensures offsets[k] != gap {
        assert k < m - 1 ==> offsets[k] < offsets[m - 1];
        assert k > m ==> offsets[m] < offsets[k];
      }
    } else {
      ConsecutiveEarlier(offsets, m - 1);
      gap := LastGap(offsets, i, m - 1);
    }
  }

  lemma ConsecutiveEarlier(offsets: seq<nat>, m: nat)
    requires Increasing(offsets) && m + 1 < |offsets| && offsets[m + 1] <= offsets[m] + 1
    requires ConsecutiveFrom(offsets, m + 1)
    ensures ConsecutiveFrom(offsets, m)
  {
    assert offsets[m] < offsets[m + 1];
  }

  // ----- the appends on broker 1

  function Texts(text: Message, n: nat): (r: seq<Message>)
    ensures |r| == n && forall i :: 0 <= i < n ==> r[i] == text
  {
    seq(n, _ => text)
  }

  function Batch(h: Shape, k: nat): Task
    requires k <= |h.offsets|
  {
    Task(1, PART, h.msgs, h.offsets[..k], if k == |h.offsets| then Waiting else Appending, {})
  }

  /** The batch of another producer that begins at the chosen gap. */
  function Later(h: Shape, offsets: seq<nat>): Task
    requires Spread(h)
  {
    var n := Last(h) - h.gap + 1;
    Task(1, PART, Texts("x", n), offsets, if |offsets| == n then Waiting else Appending, {})
  }

  /** The numbers of the produces that fill the other gaps, by offset, and of those of broker 2. */
  function FillerId(x: nat): nat {
    2 * x + 5
  }

  function OtherId(x: nat): nat {
    2 * x + 4
  }

  /** Single records at offsets below x. */
  ghost predicate Fillers(fills: map<nat, Task>, x: nat) {
    forall t :: t in fills ==> t % 2 == 1 && 5 <= t < FillerId(x) && |fills[t].msgs| == 1
  }

  function Local(h: Shape, k: nat, fills: map<nat, Task>, later: seq<nat>): Rest
    requires Spread(h) && k <= |h.offsets|
  {
    Rest(fills[1 := Batch(h, k)][2 := Later(h, later)], {}, map[], {}, {})
  }

  function Leading(h: Shape, log: seq<Message>): Brokers {
    Three(Idle(true, log), Idle(false, h.base), Idle(false, h.base))
  }

  lemma Submitted(h: Shape)
    requires Spread(h)
    ensures Reaches(Start(h.base), Of(Leading(h, h.base), Local(h, 0, map[], [])))
  {
    var s, bs := Start(h.base), Leading(h, h.base);
    assert Run(s, [], s);
    var r := Rest(map[], {}, map[], {}, {});
    Submits(s, bs, r, 1, 1, h.msgs);
    Submits(s, bs, WithTask(r, 1, Batch(h, 0)), 1, 2, Later(h, []).msgs);
    assert h.offsets[..0] == [];
  }

  lemma TasksUpdated(fills: map<nat, Task>, a: Task, b: Task, d: Task)
    ensures fills[1 := a][2 := b][1 := d] == fills[1 := d][2 := b]
    ensures fills[1 := a][2 := b][2 := d] == fills[1 := a][2 := d]
  {
  }

  lemma LocalAppend(h: Shape, log: seq<Message>, k: nat, fills: map<nat, Task>, later: seq<nat>, t: nat)
    returns (now: seq<Message>)
    requires Spread(h) && k <= |h.offsets| && Reaches(Start(h.base), Of(Leading(h, log), Local(h, k, fills, later)))
    requires var r := Local(h, k, fills, later);
             Has(r, t, 1, Appending) && |r.tasks[t].offsets| < |r.tasks[t].msgs|
    ensures |now| == |log| + 1
    ensures var r := Local(h, k, fills, later);
            Reaches(Start(h.base), Of(Leading(h, now), WithTask(r, t, AppendedTask(r.tasks[t], |log|))))
  {
    var r := Local(h, k, fills, later);
    Appends(Start(h.base), Leading(h, log), r, 1, log, EMPTY_LEDGER, None, t);
    now := log + [r.tasks[t].msgs[|r.tasks[t].offsets|]];
    Updates(Idle(true, log), Idle(false, h.base), Idle(false, h.base), Idle(true, now));
  }

  lemma BatchGoesOn(h: Shape, log: seq<Message>, k: nat, fills: map<nat, Task>, later: seq<nat>)
    returns (now: seq<Message>)
    requires Spread(h) && k < |h.offsets| && Reaches(Start(h.base), Of(Leading(h, log), Local(h, k, fills, later)))
    requires h.offsets[k] == |log|
    ensures |now| == |log| + 1 && Reaches(Start(h.base), Of(Leading(h, now), Local(h, k + 1, fills, later)))
  {
    now := LocalAppend(h, log, k, fills, later, 1);
    assert h.offsets[..k] + [|log|] == h.offsets[..k + 1];
    TasksUpdated(fills, Batch(h, k), Later(h, later), Batch(h, k + 1));
  }

  lemma LaterGoesOn(h: Shape, log: seq<Message>, k: nat, fills: map<nat, Task>, later: seq<nat>)
    returns (now: seq<Message>)
    requires Spread(h) && k <= |h.offsets| && Reaches(Start(h.base), Of(Leading(h, log), Local(h, k, fills, later)))
    requires |later| < Last(h) - h.gap + 1
    ensures |now| == |log| + 1 && Reaches(Start(h.base), Of(Leading(h, now), Local(h, k, fills, later + [|log|])))
  {
    now := LocalAppend(h, log, k, fills, later, 2);
    TasksUpdated(fills, Batch(h, k), Later(h, later), Later(h, later + [|log|]));
  }

  /** A gap is filled by a produce of a single record, which goes no further. */
  lemma FillerComes(h: Shape, log: seq<Message>, k: nat, fills: map<nat, Task>, later: seq<nat>)
    returns (now: seq<Message>, full: map<nat, Task>)
    requires Spread(h) && k <= |h.offsets| && Reaches(Start(h.base), Of(Leading(h, log), Local(h, k, fills, later)))
    requires Fillers(fills, |log|)
    ensures |now| == |log| + 1 && Fillers(full, |log| + 1)
    ensures Reaches(Start(h.base), Of(Leading(h, now), Local(h, k, full, later)))
  {
    var t, task := FillerId(|log|), Single(1, "z", |log|, Waiting, {});
    now, full := log + ["z"], fills[t := task];
    Takes(Start(h.base), Leading(h, log), Local(h, k, fills, later), 1, log, EMPTY_LEDGER, t, "z");
    Updates(Idle(true, log), Idle(false, h.base), Idle(false, h.base), Idle(true, now));
    FillerAdded(fills, |log|, task);
    FillerLast(fills, Batch(h, k), Later(h, later), t, task);
  }

  lemma FillerAdded(fills: map<nat, Task>, x: nat, task: Task)
    requires Fillers(fills, x) && |task.msgs| == 1
    ensures Fillers(fills[FillerId(x) := task], x + 1) && FillerId(x) !in fills
  {
  }

  lemma FillerLast(fills: map<nat, Task>, a: Task, b: Task, t: nat, task: Task)
    requires t > 2
    ensures fills[1 := a][2 := b][t := task] == fills[t := task][1 := a][2 := b]
  {
  }

  /** k of the offsets lie below x. */
  ghost predicate Below(offsets: seq<nat>, x: nat, k: nat) {
    && k <= |offsets| && (forall j :: 0 <= j < k ==> offsets[j] < x)
    && (k < |offsets| ==> x <= offsets[k])
  }

  lemma BelowNext(offsets: seq<nat>, x: nat, k: nat)
    requires Increasing(offsets) && Below(offsets, x, k)
    ensures Below(offsets, x + 1, if k < |offsets| && offsets[k] == x then k + 1 else k)
    ensures x in offsets <==> k < |offsets| && offsets[k] == x
  {
    assert k < |offsets| ==> forall j :: k < j < |offsets| ==> x < offsets[j];
  }

  function Begun(h: Shape, x: nat): seq<nat> {
    if h.gap < x then [h.gap] else []
  }

  /** The log up to offset x: k records of the batch, and the gap taken if it lies below x. */
  ghost predicate UpTo(h: Shape, x: nat, log: seq<Message>, k: nat, fills: map<nat, Task>)
    requires Spread(h)
  {
    && |log| == x && Fillers(fills, x) && Below(h.offsets, x, k)
    && Reaches(Start(h.base), Of(Leading(h, log), Local(h, k, fills, Begun(h, x))))
  }

  lemma InterleavesOne(h: Shape, x: nat, was: seq<Message>, n: nat, full: map<nat, Task>)
    returns (log: seq<Message>, k: nat, fills: map<nat, Task>)
    requires Spread(h) && x <= Last(h) && UpTo(h, x, was, n, full)
    ensures UpTo(h, x + 1, log, k, fills)
  {
    k, fills := n, full;
    BelowNext(h.offsets, x, n);
    if n < |h.offsets| && h.offsets[n] == x {
      log := BatchGoesOn(h, was, n, full, Begun(h, x));
      k := n + 1;
    } else if x == h.gap {
      log := LaterGoesOn(h, was, n, full, []);
      assert [] + [h.gap] == [h.gap];
    } else {
      log, fills := FillerComes(h, was, n, full, Begun(h, x));
    }
  }

  lemma {:induction false} Interleaves(h: Shape, x: nat) returns (log: seq<Message>, k: nat, fills: map<nat, Task>)
    requires Spread(h) && |h.base| <= x <= Last(h) + 1
    ensures UpTo(h, x, log, k, fills)
    decreases x
  {
    if x == |h.base| {
      Submitted(h);
      log, k, fills := h.base, 0, map[];
    } else {
      log, k, fills := Interleaves(h, x - 1);
      log, k, fills := InterleavesOne(h, x - 1, log, k, fills);
    }
  }

  /** The later batch is completed after the last record of the first one. */
  lemma {:induction false} LaterCompletes(h: Shape, n: nat)
    returns (log: seq<Message>, fills: map<nat, Task>, later: seq<nat>)
    requires Spread(h) && 1 <= n <= Last(h) - h.gap + 1
    ensures |later| == n && later[0] == h.gap && Fillers(fills, Last(h) + 1)
    ensures Reaches(Start(h.base), Of(Leading(h, log), Local(h, |h.offsets|, fills, later)))
  {
    if n == 1 {
      var k;
      log, k, fills := Interleaves(h, Last(h) + 1);
      later := [h.gap];
    } else {
      log, fills, later := LaterCompletes(h, n - 1);
      var was := log;
      log := LaterGoesOn(h, log, |h.offsets|, fills, later);
      later := later + [|was|];
    }
  }

  // ----- the exchanges

  /** The batch goes to both followers in one piece. */
  lemma BatchCopied(s: State, log: seq<Message>, base: seq<Message>, r: Rest, task: Task)
    requires Reaches(s, Of(Three(Idle(true, log), Idle(false, base), Idle(false, base)), r)) && r.storing == map[]
    requires Has(r, 1, 1, Waiting) && r.tasks[1] == task && Complete(task) && task.offsets[0] == |base|
    ensures var m := Counted(EMPTY_LEDGER, SlotOf(task), 1, 2); var copy := Idle(false, base + task.msgs);
            Reaches(s, Of(Three(Node(true, log, m, Some(1)), copy, copy), Copied(r, task)))
  {
    var x, y := Idle(true, log), Idle(false, base);
    var copy, m := Idle(false, base + task.msgs), Counted(EMPTY_LEDGER, SlotOf(task), 1, 2);
    var x1 := Node(true, log, m, Some(1));
    OpensAndCounts(s, Three(x, y, y), r, 1, log, EMPTY_LEDGER, 1, 2, base);
    Updates(x, y, y, copy);
    Updates(x, copy, y, x1);
    var r1 := Sent(WithTask(r, 1, task.(stage := Exchanging, credited := {1, 2})), Envelope(1, 2));
    Sends(s, Three(x1, copy, y), r1, base, Envelope(1, 3));
    Updates(x1, copy, y, copy);
  }

  function Copied(r: Rest, task: Task): Rest {
    Sent(Sent(WithTask(r, 1, task.(stage := Exchanging, credited := {1, 2})), Envelope(1, 2)), Envelope(1, 3))
  }

  /** ... and is counted at the end of that piece. */
  lemma BatchSent(s: State, log: seq<Message>, base: seq<Message>, r: Rest, task: Task)
    requires Reaches(s, Of(Three(Idle(true, log), Idle(false, base), Idle(false, base)), r)) && r.storing == map[]
    requires Has(r, 1, 1, Waiting) && r.tasks[1] == task && Complete(task) && task.offsets[0] == |base|
    ensures var m := Counted(EMPTY_LEDGER, SlotOf(task), 1, 2); var copy := Idle(false, base + task.msgs);
            var done := WithTask(r, 1, task.(stage := Quorate, credited := {1, 2}));
            Reaches(s, Of(Three(Node(true, log, m, None), copy, copy),
                          Sent(Sent(done, Envelope(1, 2)), Envelope(1, 3))))
  {
    var copy, m := Idle(false, base + task.msgs), Counted(EMPTY_LEDGER, SlotOf(task), 1, 2);
    var x1 := Node(true, log, m, Some(1));
    BatchCopied(s, log, base, r, task);
    CountedQuorum(EMPTY_LEDGER, SlotOf(task), 1, 2);
    Closes(s, Three(x1, copy, copy), Copied(r, task), 1, log, m, Some(1), 1);
    Updates(x1, copy, copy, Node(true, log, m, None));
    assert WithTask(Copied(r, task), 1, task.(stage := Quorate, credited := {1, 2})).tasks
        == WithTask(r, 1, task.(stage := Quorate, credited := {1, 2})).tasks;
  }

  /** Every slot that broker 2 counted lies below x. */
  ghost predicate CountedBelow(m: Ledger, x: nat) {
    forall slot :: slot in m.followers ==> slot.offset < x
  }

  /** r1 is r with the produces of broker 2 at offsets from first up to x, all of them reported. */
  ghost predicate Added(r: Rest, r1: Rest, text: Message, first: nat, x: nat) {
    && r1.storing == map[] && r.replies <= r1.replies
    && (forall t :: t in r1.tasks ==>
          if t in r.tasks then r1.tasks[t] == r.tasks[t] else |r1.tasks[t].msgs| == 1 && t < OtherId(x))
    && (forall t :: t in r.tasks ==> t in r1.tasks)
    && (forall o :: first <= o < x ==> OtherId(o) in r1.tasks && OtherId(o) in r1.replies
                                       && r1.tasks[OtherId(o)] == Single(2, text, o, Done, {2, 3}))
  }

  /** Nothing of broker 2 yet. */
  ghost predicate NoOthers(r: Rest) {
    r.storing == map[] && forall o: nat :: OtherId(o) !in r.tasks
  }

  lemma AddedOne(r: Rest, r1: Rest, r2: Rest, text: Message, first: nat, x: nat)
    requires Added(r, r1, text, first, x) && NoOthers(r)
    requires r2 == Sent(WithTask(r1, OtherId(x), Single(2, text, x, Done, {2, 3})), Envelope(OtherId(x), 3))
                   .(replies := r1.replies + {OtherId(x)})
    ensures Added(r, r2, text, first, x + 1)
  {
  }

  lemma CountedNext(m: Ledger, x: nat)
    requires CountedBelow(m, x)
    ensures Slot(PART, x) !in m.followers && CountedBelow(Reported(m, x, 2, 3), x + 1)
  {
    CommitAllKeeps(Counted(m, Slot(PART, x), 2, 3), PART, [x]);
    CountedQuorum(m, Slot(PART, x), 2, 3);
  }

  lemma FreshOther(r: Rest, r1: Rest, text: Message, first: nat, x: nat)
    requires Added(r, r1, text, first, x) && NoOthers(r)
    ensures OtherId(x) !in r1.tasks
  {
  }

  /** Where broker 2 stands after its produces at offsets from first up to the end of its log. */
  ghost predicate OtherAt(s: State, x: Broker, first: nat, r: Rest, text: Message, log: seq<Message>, m: Ledger,
                          r1: Rest) {
    && Reaches(s, Of(Three(x, Node(true, log, m, None), Idle(false, log)), r1))
    && Added(r, r1, text, first, |log|) && CountedBelow(m, |log|)
  }

  lemma OtherNext(s: State, x: Broker, first: nat, r: Rest, text: Message, was: seq<Message>, so: Ledger, r0: Rest)
    returns (log: seq<Message>, m: Ledger, r1: Rest)
    requires NoOthers(r) && OtherAt(s, x, first, r, text, was, so, r0)
    ensures OtherAt(s, x, first, r, text, log, m, r1) && |log| == |was| + 1
  {
    CountedNext(so, |was|);
    FreshOther(r, r0, text, first, |was|);
    m, r1 := OtherProducesOne(s, x, was, so, r0, text);
    AddedOne(r, r0, r1, text, first, |was|);
    log := was + [text];
  }

  /** Broker 2 leads as well: k produces of single records, each stored by broker 3 and reported. */
  lemma {:induction false} OtherProduces(s: State, x: Broker, copy: seq<Message>, r: Rest, text: Message, k: nat)
    returns (log: seq<Message>, m: Ledger, r1: Rest)
    requires Reaches(s, Of(Three(x, Idle(true, copy), Idle(false, copy)), r)) && NoOthers(r)
    ensures OtherAt(s, x, |copy|, r, text, log, m, r1) && |log| == |copy| + k
  {
    if k == 0 {
      log, m, r1 := copy, EMPTY_LEDGER, r;
    } else {
      log, m, r1 := OtherProduces(s, x, copy, r, text, k - 1);
      log, m, r1 := OtherNext(s, x, |copy|, r, text, log, m, r1);
    }
  }

  lemma OtherProducesOne(s: State, x: Broker, log: seq<Message>, m: Ledger, r: Rest, text: Message)
    returns (m1: Ledger, r1: Rest)
    requires Reaches(s, Of(Three(x, Node(true, log, m, None), Idle(false, log)), r)) && r.storing == map[]
    requires OtherId(|log|) !in r.tasks && Slot(PART, |log|) !in m.followers
    ensures Reaches(s, Of(Three(x, Node(true, log + [text], m1, None), Idle(false, log + [text])), r1))
    ensures m1 == Reported(m, |log|, 2, 3)
    ensures r1 == Sent(WithTask(r, OtherId(|log|), Single(2, text, |log|, Done, {2, 3})), Envelope(OtherId(|log|), 3))
                  .(replies := r.replies + {OtherId(|log|)})
  {
    var t, y, z := OtherId(|log|), Node(true, log, m, None), Idle(false, log);
    m1 := Reported(m, |log|, 2, 3);
    r1 := Sent(WithTask(r, t, Single(2, text, |log|, Done, {2, 3})), Envelope(t, 3)).(replies := r.replies + {t});
    ProducesOne(s, Three(x, y, z), r, 2, 3, log, m, t, text);
    Updates(x, y, z, Idle(false, log + [text]));
    Updates(x, y, Idle(false, log + [text]), Node(true, log + [text], m1, None));
  }

  /** The later batch of broker 1 reaches broker 3 and is counted at the last offset of the first batch, whose
      wait it ends. */
  lemma BatchAnswered(s: State, log: seq<Message>, m: Ledger, y: Broker, copy: seq<Message>, r: Rest) returns (n: State)
    requires Reaches(s, Of(Three(Node(true, log, m, None), y, Idle(false, copy)), r)) && r.storing == map[]
    requires Has(r, 1, 1, Quorate) && Complete(r.tasks[1])
    requires Has(r, 2, 1, Waiting) && Complete(r.tasks[2]) && r.tasks[2].offsets[0] == |copy|
    requires SlotOf(r.tasks[2]) == Slot(PART, LastOffset(r.tasks[1])) && SlotOf(r.tasks[2]) !in m.followers
    ensures Reaches(s, n) && n.replies == r.replies + {1} && 1 in n.tasks && n.tasks[1] == r.tasks[1].(stage := Done)
    ensures n.tasks.Keys == r.tasks.Keys && |n.tasks[2].msgs| == |r.tasks[2].msgs|
    ensures forall t :: t in r.tasks && t != 1 && t != 2 ==> t in n.tasks && n.tasks[t] == r.tasks[t]
  {
    var x, task, slot := Node(true, log, m, None), r.tasks[2], SlotOf(r.tasks[2]);
    Exchanges(s, Three(x, y, Idle(false, copy)), r, 1, log, m, 2, 3, copy);
    CountedQuorum(m, slot, 1, 3);
    var bs := Three(x, y, Idle(false, copy))
              [3 := Idle(false, copy + task.msgs)][1 := Node(true, log, Counted(m, slot, 1, 3), None)];
    var r1 := Sent(WithTask(r, 2, task.(stage := Quorate, credited := {1, 3})), Envelope(2, 3));
    Answers(s, bs, r1, 1, log, Counted(m, slot, 1, 3), 1);
    n := Of(bs[1 := Node(true, log, CommitAll(Counted(m, slot, 1, 3), PART, r.tasks[1].offsets), None)],
            WithTask(r1, 1, r.tasks[1].(stage := Done)).(replies := r.replies + {1}));
  }

  // ----- the whole run

  /** What both replies say, for a shape, and how long the other batches are. */
  ghost predicate Disagrees(n: State, h: Shape, text: Message)
    requires Spread(h)
  {
    var u := OtherId(h.offsets[h.i]);
    && 1 in n.replies && u in n.replies && 1 in n.tasks && u in n.tasks
    && n.tasks[1] == Batch(h, |h.offsets|).(stage := Done, credited := {1, 2})
    && n.tasks[u] == Single(2, text, h.offsets[h.i], Done, {2, 3})
    && forall t :: t in n.tasks ==> |n.tasks[t].msgs| <= |h.msgs|
  }

  /** The batch goes out, and then broker 2 produces up to the gap. */
  lemma SentAndFollowed(s: State, log: seq<Message>, base: seq<Message>, r: Rest, a: Task, text: Message, k: nat)
    returns (all: seq<Message>, m2: Ledger, r1: Rest)
    requires Reaches(s, Of(Three(Idle(true, log), Idle(false, base), Idle(false, base)), r)) && NoOthers(r)
    requires Has(r, 1, 1, Waiting) && r.tasks[1] == a && Complete(a) && a.offsets[0] == |base|
    ensures |all| == |base| + |a.msgs| + k
    ensures var m := Counted(EMPTY_LEDGER, SlotOf(a), 1, 2);
            Reaches(s, Of(Three(Node(true, log, m, None), Node(true, all, m2, None), Idle(false, all)), r1))
    ensures Added(WithTask(r, 1, a.(stage := Quorate, credited := {1, 2})), r1, text, |base| + |a.msgs|,
                  |base| + |a.msgs| + k)
  {
    BatchSent(s, log, base, r, a);
    var x, copy := Node(true, log, Counted(EMPTY_LEDGER, SlotOf(a), 1, 2), None), base + a.msgs;
    var done := WithTask(r, 1, a.(stage := Quorate, credited := {1, 2}));
    var r0 := Sent(Sent(done, Envelope(1, 2)), Envelope(1, 3));
    Promotes(s, Three(x, Idle(false, copy), Idle(false, copy)), r0, 2, copy);
    Updates(x, Idle(false, copy), Idle(false, copy), Idle(true, copy));
    all, m2, r1 := OtherProduces(s, x, copy, r0, text, k);
  }

  lemma LocalTasks(h: Shape, fills: map<nat, Task>, later: seq<nat>)
    requires Spread(h) && Fillers(fills, Last(h) + 1) && |later| == Last(h) - h.gap + 1 && later[0] == h.gap
    ensures var r, a := Local(h, |h.offsets|, fills, later), Batch(h, |h.offsets|);
            && NoOthers(r) && Has(r, 1, 1, Waiting) && r.tasks[1] == a && a.offsets == h.offsets
            && Has(r, 2, 1, Waiting) && r.tasks[2] == Later(h, later) && Complete(Later(h, later))
            && SlotOf(Later(h, later)) == Slot(PART, LastOffset(a)) != SlotOf(a)
            && forall t :: t in r.tasks ==> |r.tasks[t].msgs| <= |h.msgs|
  {
    assert h.offsets[..|h.offsets|] == h.offsets;
  }

  lemma Exchanged(h: Shape, text: Message, log: seq<Message>, fills: map<nat, Task>, later: seq<nat>) returns (n: State)
    requires Spread(h) && Fillers(fills, Last(h) + 1) && |later| == Last(h) - h.gap + 1 && later[0] == h.gap
    requires Reaches(Start(h.base), Of(Leading(h, log), Local(h, |h.offsets|, fills, later)))
    ensures Reaches(Start(h.base), n) && Disagrees(n, h, text)
  {
    var s, r, a := Start(h.base), Local(h, |h.offsets|, fills, later), Batch(h, |h.offsets|);
    var k := h.gap - (|h.base| + |h.msgs|);
    LocalTasks(h, fills, later);
    var all, m2, r1 := SentAndFollowed(s, log, h.base, r, a, text, k);
    StillThere(h, fills, later, text, r1);
    CountedQuorum(EMPTY_LEDGER, SlotOf(a), 1, 2);
    n := BatchAnswered(s, log, Counted(EMPTY_LEDGER, SlotOf(a), 1, 2), Node(true, all, m2, None), all, r1);
    ShapeDisagrees(h, text, r, r1, n);
  }

  /** The produces of broker 2 leave both batches as they are. */
  lemma StillThere(h: Shape, fills: map<nat, Task>, later: seq<nat>, text: Message, r1: Rest)
    requires Spread(h) && Fillers(fills, Last(h) + 1) && |later| == Last(h) - h.gap + 1 && later[0] == h.gap
    requires var r, a := Local(h, |h.offsets|, fills, later), Batch(h, |h.offsets|);
             Added(WithTask(r, 1, a.(stage := Quorate, credited := {1, 2})), r1, text, |h.base| + |h.msgs|, h.gap)
    ensures var a := Batch(h, |h.offsets|);
            && r1.storing == map[] && Has(r1, 1, 1, Quorate) && Complete(r1.tasks[1])
            && r1.tasks[1] == a.(stage := Quorate, credited := {1, 2})
            && Has(r1, 2, 1, Waiting) && Complete(r1.tasks[2]) && r1.tasks[2].offsets[0] == h.gap
            && Complete(a) && SlotOf(r1.tasks[2]) == Slot(PART, LastOffset(r1.tasks[1])) != SlotOf(a)
  {
    LocalTasks(h, fills, later);
    assert r1.tasks[2] == Later(h, later);
  }

  lemma ShapeDisagrees(h: Shape, text: Message, r: Rest, r1: Rest, n: State)
    requires Spread(h) && 1 in r.tasks && 2 in r.tasks
    requires forall t :: t in r.tasks ==> |r.tasks[t].msgs| <= |h.msgs|
    requires Added(WithTask(r, 1, Batch(h, |h.offsets|).(stage := Quorate, credited := {1, 2})), r1, text,
                   |h.base| + |h.msgs|, h.gap)
    requires n.tasks.Keys == r1.tasks.Keys && 1 in n.tasks && n.tasks[1] == r1.tasks[1].(stage := Done)
    requires |n.tasks[2].msgs| == |r1.tasks[2].msgs| && n.replies == r1.replies + {1}
    requires forall t :: t in r1.tasks && t != 1 && t != 2 ==> t in n.tasks && n.tasks[t] == r1.tasks[t]
    ensures Disagrees(n, h, text)
  {
    var u := OtherId(h.offsets[h.i]);
    assert u in r1.tasks && u in r1.replies;
    forall t | t in n.tasks ensures |n.tasks[t].msgs| <= |h.msgs| {
      assert t in r1.tasks;
    }
  }

  lemma ShapeReached(h: Shape, text: Message) returns (actions: seq<Action>, n: State)
    requires Spread(h)
    ensures Initial(Start(h.base)) && Run(Start(h.base), actions, n) && Disagrees(n, h, text)
  {
    StartsInitial(h.base);
    var log, fills, later := LaterCompletes(h, Last(h) - h.gap + 1);
    n := Exchanged(h, text, log, fills, later);
    actions :| Run(Start(h.base), actions, n);
  }

  lemma UncoveredSpread(base: seq<Message>, msgs: seq<Message>, offsets: seq<nat>, i: nat) returns (h: Shape)
    requires |offsets| == |msgs| > 0 && Increasing(offsets) && offsets[0] == |base| && i < |offsets|
             && !Covered(offsets, i)
    ensures Spread(h) && h.base == base && h.msgs == msgs && h.offsets == offsets && h.i == i
  {
    var gap := LastGap(offsets, i, |offsets| - 1);
    h := Shape(base, msgs, offsets, i, gap);
  }

  /** For every batch, every spread of its offsets and every uncovered record of it there is a run in which the
      batch is reported with just these offsets, and another leader's produce of one record reports a different
      record at the offset of that one. No batch of the run is longer than the first one. */
  lemma UncoveredDisagrees(base: seq<Message>, msgs: seq<Message>, offsets: seq<nat>, i: nat)
    returns (actions: seq<Action>, s: State, u: nat, text: Message)
    requires |offsets| == |msgs| > 0 && Increasing(offsets) && offsets[0] == |base| && i < |offsets|
             && !Covered(offsets, i)
    ensures Initial(Start(base)) && Run(Start(base), actions, s) && 1 in s.replies && u in s.replies
    ensures 1 in s.tasks && s.tasks[1].msgs == msgs && s.tasks[1].offsets == offsets
    ensures u in s.tasks && s.tasks[u].part == s.tasks[1].part
    ensures s.tasks[u].offsets == [offsets[i]] && s.tasks[u].msgs == [text] && text != msgs[i]
    ensures forall t :: t in s.tasks ==> |s.tasks[t].msgs| <= |msgs|
  {
    var h := UncoveredSpread(base, msgs, offsets, i);
    u, text := OtherId(offsets[i]), if msgs[i] == "v" then "w" else "v";
    actions, s := ShapeReached(h, text);
    assert offsets[..|offsets|] == offsets;
  }

  /** For example: records a, b, c at offsets 0, 3 and 5. */
  lemma RepliesDisagree() returns (actions: seq<Action>, s: State, u: nat, text: Message)
    ensures Initial(Start([])) && Run(Start([]), actions, s) && 1 in s.replies && u in s.replies
    ensures 1 in s.tasks && s.tasks[1].msgs == ["a", "b", "c"] && s.tasks[1].offsets == [0, 3, 5]
    ensures u in s.tasks && s.tasks[u].part == s.tasks[1].part
    ensures s.tasks[u].offsets == [3] && s.tasks[u].msgs == [text] && text != "b"
  {
    assert [0, 3, 5][2] != [0, 3, 5][1] + 1;
    actions, s, u, text := UncoveredDisagrees([], ["a", "b", "c"], [0, 3, 5], 1);
  }
}

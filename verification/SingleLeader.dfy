/** One leader for a partition whose produces come one at a time and whose followers handle requests in turn:
    what acknowledgements and the commit index then say about whole logs. The assumptions are stated as a
    condition on the steps of a run; other partitions are free. */
module SingleLeader {
  import opened Options
  import opened Replication
  import opened Cluster
  import opened ClusterSafety

  // ----- in turn

  datatype Scope = Scope(leader: int, part: Part)

  /** What happened in the partition so far: the requests begun by followers, the produce that appended last,
      and the one whose reply set the leader's commit index. */
  datatype Turn = Turn(begun: set<Envelope>, current: Option<nat>, top: Option<nat>)

  const FIRST_TURN := Turn({}, None, None)

  predicate Ours(s: State, c: Scope, t: nat) {
    t in s.tasks && s.tasks[t].part == c.part
  }

  predicate Closed(task: Task) {
    task.stage == Quorate || task.stage == Done
  }

  /** Nothing of the partition is under way except possibly the given produce. */
  ghost predicate Quiet(s: State, c: Scope, t: nat) {
    && (forall u :: u in s.tasks && u != t && s.tasks[u].part == c.part && |s.tasks[u].offsets| > 0 ==>
          Closed(s.tasks[u]))
    && (forall e :: e in s.storing ==> !Ours(s, c, e.task))
  }

  /** The step keeps to the turns: only the leader appends produces, each when the one before is closed and no
      follower is still at it; and a follower begins a request once, while its exchange is open. */
  ghost predicate InTurn(s: State, h: Turn, a: Action, c: Scope) {
    match a
    case Append(t) => Ours(s, c, t) ==> s.tasks[t].owner == c.leader && Quiet(s, c, t)
    case Begin(e) => Ours(s, c, e.task) ==> s.tasks[e.task].stage == Exchanging && e !in h.begun
    case _ => true
  }

  /** Nobody tells the leader what is committed. */
  predicate NotTold(a: Action, c: Scope) {
    a.Notice? && a.part == c.part ==> a.b != c.leader
  }

  function CommitIndex(s: State, c: Scope): Option<nat> {
    if c.leader in s.brokers && c.part in s.brokers[c.leader].ledger.commits
    then Some(s.brokers[c.leader].ledger.commits[c.part]) else None
  }

  function Turned(s: State, h: Turn, a: Action, c: Scope): Turn
    requires Enabled(s, a)
  {
    match a
    case Append(t) => if Ours(s, c, t) then h.(current := Some(t)) else h
    case Begin(e) => if Ours(s, c, e.task) then h.(begun := h.begun + {e}) else h
    case Answer(t) =>
      if !Ours(s, c, t) then h
      else if CommitIndex(s, c).Some? && LastOffset(s.tasks[t]) <= CommitIndex(s, c).value then h
      else h.(top := Some(t))
    case _ => h
  }

  ghost predicate InTurnRun(s: State, h: Turn, actions: seq<Action>, c: Scope)
    decreases |actions|
  {
    |actions| > 0 && Enabled(s, actions[0]) ==>
      InTurn(s, h, actions[0], c) && InTurnRun(Apply(s, actions[0]), Turned(s, h, actions[0], c), actions[1..], c)
  }

  ghost function Turns(s: State, h: Turn, actions: seq<Action>, c: Scope): Turn
    decreases |actions|
  {
    if |actions| == 0 || !Enabled(s, actions[0]) then h
    else Turns(Apply(s, actions[0]), Turned(s, h, actions[0], c), actions[1..], c)
  }

  // ----- the invariant

  function LogAt(s: State, c: Scope, b: int): seq<Message>
    requires b in s.brokers
  {
    LogOf(s.brokers[b], c.part)
  }

  /** A produce of the partition: the leader's, in one piece, and closed unless it is the current one. */
  ghost predicate ProduceOk(s: State, h: Turn, c: Scope, t: nat)
    requires t in s.tasks
  {
    var task := s.tasks[t];
    task.part == c.part && |task.offsets| > 0 ==>
      task.owner == c.leader && Consecutive(task) && (h.current == Some(t) || Closed(task))
  }

  /** The current produce ends where the leader's log ends. */
  ghost predicate CurrentOk(s: State, h: Turn, c: Scope) {
    match h.current
    case None => true
    case Some(t) =>
      && Ours(s, c, t) && c.leader in s.brokers && |s.tasks[t].offsets| > 0
      && s.tasks[t].offsets[0] + |s.tasks[t].offsets| == |LogAt(s, c, c.leader)|
  }

  /** The log is the leader's up to here, or shorter. */
  predicate UpTo(log: seq<Message>, whole: seq<Message>, n: nat) {
    |log| < n || (n <= |whole| && log == whole[..n])
  }

  /** Where a follower stands: with the leader or strictly behind, before, during and after its turn. */
  ghost predicate Level(s: State, h: Turn, c: Scope, b: int)
    requires b in s.brokers && c.leader in s.brokers
  {
    var f, l := LogAt(s, c, b), LogAt(s, c, c.leader);
    match h.current
    case None => UpTo(f, l, |l|)
    case Some(t) =>
      t in s.tasks && |s.tasks[t].offsets| > 0 ==>
        var e, first := Envelope(t, b), s.tasks[t].offsets[0];
        if e in s.storing then
          if s.storing[e] == 0 then UpTo(f, l, first)
          else first + s.storing[e] <= |l| && f == l[..first + s.storing[e]]
        else if e in s.acks then f == l
        else if e in h.begun then |f| <= first
        else UpTo(f, l, first)
  }

  /** An acknowledgement certifies the whole log up to the end of the request. */
  ghost predicate Matches(s: State, c: Scope, e: Envelope)
    requires RequestOk(s, e) && c.leader in s.brokers
  {
    var end := s.tasks[e.task].offsets[0] + |s.tasks[e.task].msgs|;
    var f, l := LogAt(s, c, e.peer), LogAt(s, c, c.leader);
    end <= |f| && end <= |l| && f[..end] == l[..end]
  }

  ghost predicate AcksMatch(s: State, h: Turn, c: Scope)
    requires c.leader in s.brokers
  {
    forall e :: e in s.acks && Ours(s, c, e.task) ==> e in h.begun && RequestOk(s, e) && Matches(s, c, e)
  }

  ghost predicate AllLevel(s: State, h: Turn, c: Scope)
    requires c.leader in s.brokers
  {
    forall b :: b in s.brokers && b != c.leader ==> Level(s, h, c, b)
  }

  ghost predicate Orderly(s: State, h: Turn, c: Scope) {
    && c.leader in s.brokers && CurrentOk(s, h, c)
    && (forall t :: t in s.tasks ==> ProduceOk(s, h, c, t))
    && (forall e :: e in s.storing && Ours(s, c, e.task) ==> h.current == Some(e.task) && e in h.begun)
    && AcksMatch(s, h, c) && AllLevel(s, h, c)
    && (forall e :: e in h.begun ==> e in s.requests)
  }

  /** All brokers start with the same records in the partition. */
  ghost predicate EqualLogs(s: State, c: Scope) {
    c.leader in s.brokers && forall b :: b in s.brokers ==> LogAt(s, c, b) == LogAt(s, c, c.leader)
  }

  lemma InitialTurn(s: State, c: Scope)
    requires Initial(s) && EqualLogs(s, c)
    ensures Orderly(s, FIRST_TURN, c)
  {
    forall b | b in s.brokers && b != c.leader ensures Level(s, FIRST_TURN, c, b) {
      assert LogAt(s, c, c.leader)[..|LogAt(s, c, c.leader)|] == LogAt(s, c, c.leader);
    }
  }

  // ----- steps that do not touch the partition's records

  predicate Touches(s: State, a: Action, c: Scope) {
    match a
    case Append(t) => Ours(s, c, t)
    case Begin(e) => Ours(s, c, e.task)
    case Store(e) => Ours(s, c, e.task)
    case _ => false
  }

  /** Tasks keep their offsets, and once closed they stay closed. */
  lemma ElsewhereTasks(s: State, a: Action, t: nat)
    requires Enabled(s, a) && t in Apply(s, a).tasks && !(a == Append(t))
    ensures var n := Apply(s, a);
            if t in s.tasks then
              && n.tasks[t].offsets == s.tasks[t].offsets && SameTask(s.tasks[t], n.tasks[t])
              && (Closed(s.tasks[t]) ==> Closed(n.tasks[t]))
            else n.tasks[t].offsets == []
  {
  }

  lemma ElsewhereLogs(s: State, a: Action, c: Scope, b: int)
    requires Enabled(s, a) && b in s.brokers && !(a.Append? && Ours(s, c, a.t)) && !(a.Store? && Ours(s, c, a.e.task))
    ensures b in Apply(s, a).brokers && LogAt(Apply(s, a), c, b) == LogAt(s, c, b)
  {
  }

  lemma ElsewhereRequests(s: State, a: Action, c: Scope, e: Envelope)
    requires Enabled(s, a) && e.task in s.tasks && s.tasks[e.task].part == c.part && !Touches(s, a, c)
    ensures e in Apply(s, a).storing <==> e in s.storing
    ensures e in s.storing ==> Apply(s, a).storing[e] == s.storing[e]
    ensures e in Apply(s, a).acks <==> e in s.acks
  {
  }

  lemma ElsewhereLevel(s: State, h: Turn, a: Action, c: Scope, b: int)
    requires Enabled(s, a) && !Touches(s, a, c) && b in s.brokers && c.leader in s.brokers && Level(s, h, c, b)
             && CurrentOk(s, h, c)
    ensures b in Apply(s, a).brokers && c.leader in Apply(s, a).brokers && Level(Apply(s, a), Turned(s, h, a, c), c, b)
  {
    ElsewhereLogs(s, a, c, b);
    ElsewhereLogs(s, a, c, c.leader);
    if h.current.Some? {
      var t := h.current.value;
      StepFollows(s, a);
      ElsewhereTasks(s, a, t);
      ElsewhereRequests(s, a, c, Envelope(t, b));
    }
  }

  lemma ElsewhereCurrent(s: State, h: Turn, a: Action, c: Scope)
    requires Enabled(s, a) && !Touches(s, a, c) && c.leader in s.brokers && CurrentOk(s, h, c)
    ensures CurrentOk(Apply(s, a), Turned(s, h, a, c), c)
  {
    ElsewhereLogs(s, a, c, c.leader);
    StepFollows(s, a);
    if h.current.Some? {
      ElsewhereTasks(s, a, h.current.value);
    }
  }

  lemma ElsewhereProduce(s: State, h: Turn, a: Action, c: Scope, t: nat)
    requires Enabled(s, a) && !(a.Append? && Ours(s, c, a.t)) && t in Apply(s, a).tasks
             && (t in s.tasks ==> ProduceOk(s, h, c, t))
    ensures ProduceOk(Apply(s, a), Turned(s, h, a, c), c, t)
  {
    if a != Append(t) {
      ElsewhereTasks(s, a, t);
    }
  }

  lemma MatchesKept(s: State, a: Action, c: Scope, e: Envelope)
    requires Enabled(s, a) && c.leader in s.brokers && RequestOk(s, e) && Matches(s, c, e)
    ensures RequestOk(Apply(s, a), e) && c.leader in Apply(s, a).brokers && Matches(Apply(s, a), c, e)
  {
    var n := Apply(s, a);
    StepFollows(s, a);
    var f, l := LogAt(s, c, e.peer), LogAt(s, c, c.leader);
    assert f <= LogAt(n, c, e.peer) && l <= LogAt(n, c, c.leader);
    var end := s.tasks[e.task].offsets[0] + |s.tasks[e.task].msgs|;
    assert LogAt(n, c, e.peer)[..end] == f[..end] && LogAt(n, c, c.leader)[..end] == l[..end];
  }

  lemma ElsewhereOrderly(s: State, h: Turn, a: Action, c: Scope)
    requires Inv(s) && Orderly(s, h, c) && Enabled(s, a) && !Touches(s, a, c)
    ensures Orderly(Apply(s, a), Turned(s, h, a, c), c)
  {
    var n, k := Apply(s, a), Turned(s, h, a, c);
    StepFollows(s, a);
    ElsewhereCurrent(s, h, a, c);
    forall t | t in n.tasks ensures ProduceOk(n, k, c, t) { ElsewhereProduce(s, h, a, c, t); }
    forall e | e in n.storing && Ours(n, c, e.task) ensures k.current == Some(e.task) && e in k.begun {
      OldRequest(s, a, e);
      ElsewhereRequests(s, a, c, e);
    }
    ElsewhereAcks(s, h, a, c);
    ElsewhereLevels(s, h, a, c);
  }

  lemma ElsewhereAcks(s: State, h: Turn, a: Action, c: Scope)
    requires Inv(s) && Orderly(s, h, c) && Enabled(s, a) && !Touches(s, a, c)
    ensures c.leader in Apply(s, a).brokers && AcksMatch(Apply(s, a), Turned(s, h, a, c), c)
  {
    var n, k := Apply(s, a), Turned(s, h, a, c);
    StepFollows(s, a);
    forall e | e in n.acks && Ours(n, c, e.task) ensures e in k.begun && RequestOk(n, e) && Matches(n, c, e) {
      OldRequest(s, a, e);
      ElsewhereRequests(s, a, c, e);
      MatchesKept(s, a, c, e);
    }
  }

  lemma ElsewhereLevels(s: State, h: Turn, a: Action, c: Scope)
    requires Orderly(s, h, c) && Enabled(s, a) && !Touches(s, a, c)
    ensures c.leader in Apply(s, a).brokers && AllLevel(Apply(s, a), Turned(s, h, a, c), c)
  {
    var n, k := Apply(s, a), Turned(s, h, a, c);
    StepGrows(s, a);
    forall b | b in n.brokers && b != c.leader ensures Level(n, k, c, b) { ElsewhereLevel(s, h, a, c, b); }
  }

  /** Whatever is stored or acknowledged after a step belongs to a task that was there before. */
  lemma OldRequest(s: State, a: Action, e: Envelope)
    requires Inv(s) && Enabled(s, a) && (e in Apply(s, a).storing || e in Apply(s, a).acks)
    ensures e.task in s.tasks && RequestOk(s, e)
  {
    if e in s.storing {
      assert StoringOk(s, e);
    } else if e in s.acks {
      assert AckOk(s, e);
    } else {
      assert a == Begin(e) && RequestOk(s, e);
    }
  }

  // ----- the leader appends

  /** When nothing is under way, a follower has the leader's whole log or is behind. */
  lemma QuietLevel(s: State, h: Turn, c: Scope, b: int, t: nat)
    requires Orderly(s, h, c) && Quiet(s, c, t) && b in s.brokers && b != c.leader && h.current != Some(t)
    ensures var l := LogAt(s, c, c.leader); UpTo(LogAt(s, c, b), l, |l|)
  {
    var l := LogAt(s, c, c.leader);
    assert l[..|l|] == l && Level(s, h, c, b);
    if h.current.Some? {
      assert Envelope(h.current.value, b) !in s.storing;
    }
  }

  lemma AppendLevel(s: State, h: Turn, c: Scope, t: nat, b: int)
    requires Inv(s) && Orderly(s, h, c) && Enabled(s, Append(t)) && InTurn(s, h, Append(t), c) && Ours(s, c, t)
    requires b in s.brokers && b != c.leader
    ensures var n := Apply(s, Append(t));
            b in n.brokers && c.leader in n.brokers && Level(n, Turned(s, h, Append(t), c), c, b)
  {
    var n, task, e := Apply(s, Append(t)), s.tasks[t], Envelope(t, b);
    var f, l := LogAt(s, c, b), LogAt(s, c, c.leader);
    assert LogAt(n, c, b) == f && LogAt(n, c, c.leader) == l + [task.msgs[|task.offsets|]];
    assert e !in s.storing && e !in s.acks && e !in h.begun by {
      assert e in s.requests ==> RequestOk(s, e);
      assert e in s.acks ==> AckOk(s, e);
    }
    assert ProduceOk(s, h, c, t);
    if h.current == Some(t) {
      assert Level(s, h, c, b);
      assert LogAt(n, c, c.leader)[..task.offsets[0]] == l[..task.offsets[0]];
    } else {
      QuietLevel(s, h, c, b, t);
      assert LogAt(n, c, c.leader)[..|l|] == l[..|l|];
    }
  }

  lemma AppendCurrent(s: State, h: Turn, c: Scope, t: nat)
    requires Inv(s) && Orderly(s, h, c) && Enabled(s, Append(t)) && InTurn(s, h, Append(t), c) && Ours(s, c, t)
    ensures CurrentOk(Apply(s, Append(t)), Turned(s, h, Append(t), c), c)
  {
    var n, task := Apply(s, Append(t)), s.tasks[t];
    var l := LogAt(s, c, c.leader);
    assert LogAt(n, c, c.leader) == l + [task.msgs[|task.offsets|]];
    assert ProduceOk(s, h, c, t);
  }

  lemma AppendProduce(s: State, h: Turn, c: Scope, t: nat, u: nat)
    requires Orderly(s, h, c) && Enabled(s, Append(t)) && InTurn(s, h, Append(t), c) && Ours(s, c, t)
             && u in Apply(s, Append(t)).tasks
    ensures ProduceOk(Apply(s, Append(t)), Turned(s, h, Append(t), c), c, u)
  {
    assert ProduceOk(s, h, c, u);
    if u == t {
      var task := s.tasks[t];
      assert |task.offsets| > 0 ==> task.offsets[0] + |task.offsets| == |LogAt(s, c, c.leader)|;
    }
  }

  lemma AppendOrderly(s: State, h: Turn, c: Scope, t: nat)
    requires Inv(s) && Orderly(s, h, c) && Enabled(s, Append(t)) && InTurn(s, h, Append(t), c) && Ours(s, c, t)
    ensures Orderly(Apply(s, Append(t)), Turned(s, h, Append(t), c), c)
  {
    var n, k := Apply(s, Append(t)), Turned(s, h, Append(t), c);
    AppendCurrent(s, h, c, t);
    forall u | u in n.tasks ensures ProduceOk(n, k, c, u) { AppendProduce(s, h, c, t, u); }
    AppendAcks(s, h, c, t);
    AppendLevels(s, h, c, t);
  }

  lemma AppendLevels(s: State, h: Turn, c: Scope, t: nat)
    requires Inv(s) && Orderly(s, h, c) && Enabled(s, Append(t)) && InTurn(s, h, Append(t), c) && Ours(s, c, t)
    ensures c.leader in Apply(s, Append(t)).brokers
    ensures AllLevel(Apply(s, Append(t)), Turned(s, h, Append(t), c), c)
  {
    var n, k := Apply(s, Append(t)), Turned(s, h, Append(t), c);
    forall b | b in n.brokers && b != c.leader ensures Level(n, k, c, b) { AppendLevel(s, h, c, t, b); }
  }

  lemma AppendAcks(s: State, h: Turn, c: Scope, t: nat)
    requires Orderly(s, h, c) && Enabled(s, Append(t)) && Ours(s, c, t)
    ensures c.leader in Apply(s, Append(t)).brokers
    ensures AcksMatch(Apply(s, Append(t)), Turned(s, h, Append(t), c), c)
  {
    var n, k := Apply(s, Append(t)), Turned(s, h, Append(t), c);
    forall e | e in n.acks && Ours(n, c, e.task) ensures e in k.begun && RequestOk(n, e) && Matches(n, c, e) {
      MatchesKept(s, Append(t), c, e);
    }
  }

  // ----- a follower takes its turn

  lemma BeginLevel(s: State, h: Turn, c: Scope, e: Envelope, b: int)
    requires CurrentOk(s, h, c) && Enabled(s, Begin(e)) && InTurn(s, h, Begin(e), c) && Ours(s, c, e.task)
    requires c.leader in s.brokers && RequestOk(s, e) && ProduceOk(s, h, c, e.task)
    requires b in s.brokers && Level(s, h, c, b) && (e in s.storing || e in s.acks ==> e in h.begun)
    ensures Level(Apply(s, Begin(e)), Turned(s, h, Begin(e), c), c, b)
  {
  }

  lemma BeginOrderly(s: State, h: Turn, c: Scope, e: Envelope)
    requires Inv(s) && Orderly(s, h, c) && Enabled(s, Begin(e)) && InTurn(s, h, Begin(e), c) && Ours(s, c, e.task)
    ensures Orderly(Apply(s, Begin(e)), Turned(s, h, Begin(e), c), c)
  {
    var n, k := Apply(s, Begin(e)), Turned(s, h, Begin(e), c);
    assert RequestOk(s, e) && ProduceOk(s, h, c, e.task);
    forall u | u in n.tasks ensures ProduceOk(n, k, c, u) { assert ProduceOk(s, h, c, u); }
    BeginAcks(s, h, c, e);
    BeginLevels(s, h, c, e);
  }

  lemma BeginLevels(s: State, h: Turn, c: Scope, e: Envelope)
    requires Orderly(s, h, c) && Enabled(s, Begin(e)) && InTurn(s, h, Begin(e), c) && Ours(s, c, e.task)
    requires RequestOk(s, e)
    ensures AllLevel(Apply(s, Begin(e)), Turned(s, h, Begin(e), c), c)
  {
    var n, k := Apply(s, Begin(e)), Turned(s, h, Begin(e), c);
    assert ProduceOk(s, h, c, e.task);
    forall b | b in n.brokers && b != c.leader ensures Level(n, k, c, b) { BeginLevel(s, h, c, e, b); }
  }

  lemma BeginAcks(s: State, h: Turn, c: Scope, e: Envelope)
    requires Orderly(s, h, c) && Enabled(s, Begin(e)) && Ours(s, c, e.task)
    ensures AcksMatch(Apply(s, Begin(e)), Turned(s, h, Begin(e), c), c)
  {
    var n, k := Apply(s, Begin(e)), Turned(s, h, Begin(e), c);
    forall d | d in n.acks && Ours(n, c, d.task) ensures d in k.begun && RequestOk(n, d) && Matches(n, c, d) {
      MatchesKept(s, Begin(e), c, d);
    }
  }

  /** What is known where a follower stores a record. */
  ghost predicate AtTurn(s: State, h: Turn, c: Scope, e: Envelope) {
    && e in s.storing && StoringOk(s, e) && TaskOk(s, e.task) && Ours(s, c, e.task) && c.leader in s.brokers
    && h.current == Some(e.task) && CurrentOk(s, h, c) && ProduceOk(s, h, c, e.task) && e in h.begun
    && s.tasks[e.task].owner == c.leader && e.peer != c.leader && Level(s, h, c, e.peer)
    && (e in s.acks ==> RequestOk(s, e) && Matches(s, c, e))
  }

  lemma StoreAtTurn(s: State, h: Turn, c: Scope, e: Envelope)
    requires Inv(s) && Orderly(s, h, c) && e in s.storing && Ours(s, c, e.task)
    ensures AtTurn(s, h, c, e)
  {
    assert StoringOk(s, e) && ProduceOk(s, h, c, e.task) && TaskOk(s, e.task);
  }

  /** The record that is stored is the leader's next one, or the follower is behind and drops the request. */
  lemma StoreInPlace(s: State, h: Turn, c: Scope, e: Envelope)
    requires AtTurn(s, h, c, e)
    ensures var task, i := s.tasks[e.task], s.storing[e];
            var f, l := LogAt(s, c, e.peer), LogAt(s, c, c.leader); var at := task.offsets[0] + i;
            && task.offsets[0] + |task.msgs| == |l| && l[at] == task.msgs[i] && e !in s.acks
            && (if |f| == at then f == l[..at] else i == 0 && |f| < at)
  {
    var task, i := s.tasks[e.task], s.storing[e];
    assert HasAt(s.brokers[c.leader], c.part, task.offsets[i], task.msgs[i]);
  }

  lemma StoreLevel(s: State, h: Turn, c: Scope, e: Envelope)
    requires AtTurn(s, h, c, e) && Enabled(s, Store(e))
    ensures e.peer in Apply(s, Store(e)).brokers && c.leader in Apply(s, Store(e)).brokers
            && Level(Apply(s, Store(e)), h, c, e.peer)
    ensures e in Apply(s, Store(e)).acks ==>
              LogAt(Apply(s, Store(e)), c, e.peer) == LogAt(s, c, c.leader) == LogAt(Apply(s, Store(e)), c, c.leader)
  {
    StoreInPlace(s, h, c, e);
    var n, task, i := Apply(s, Store(e)), s.tasks[e.task], s.storing[e];
    var f, l := LogAt(s, c, e.peer), LogAt(s, c, c.leader);
    var at := task.offsets[0] + i;
    assert LogAt(n, c, e.peer) == f + [task.msgs[i]] && LogAt(n, c, c.leader) == l;
    assert l[..at + 1] == l[..at] + [l[at]];
    assert l[..|l|] == l;
  }

  lemma StoreOthers(s: State, h: Turn, c: Scope, e: Envelope, b: int)
    requires AtTurn(s, h, c, e) && Enabled(s, Store(e)) && b in s.brokers && b != e.peer && Level(s, h, c, b)
    ensures b in Apply(s, Store(e)).brokers && LogAt(Apply(s, Store(e)), c, b) == LogAt(s, c, b)
    ensures c.leader in Apply(s, Store(e)).brokers && Level(Apply(s, Store(e)), h, c, b)
  {
    assert LogAt(Apply(s, Store(e)), c, c.leader) == LogAt(s, c, c.leader);
  }

  lemma StoreMatches(s: State, h: Turn, c: Scope, e: Envelope, d: Envelope)
    requires AtTurn(s, h, c, e) && Enabled(s, Store(e)) && d in Apply(s, Store(e)).acks
    requires d in s.acks ==> RequestOk(s, d) && Matches(s, c, d)
    ensures RequestOk(Apply(s, Store(e)), d) && c.leader in Apply(s, Store(e)).brokers
            && Matches(Apply(s, Store(e)), c, d)
  {
    if d in s.acks {
      MatchesKept(s, Store(e), c, d);
    } else {
      StoreInPlace(s, h, c, e);
      StoreLevel(s, h, c, e);
      StepFollows(s, Store(e));
    }
  }

  lemma StoreStanding(s: State, h: Turn, c: Scope, e: Envelope)
    requires AtTurn(s, h, c, e) && Enabled(s, Store(e))
    ensures var n := Apply(s, Store(e));
            c.leader in n.brokers && LogAt(n, c, c.leader) == LogAt(s, c, c.leader) && CurrentOk(n, h, c)
  {
  }

  lemma StoreRequest(s: State, h: Turn, c: Scope, e: Envelope, d: Envelope)
    requires AtTurn(s, h, c, e) && Enabled(s, Store(e))
    requires d in s.acks && Ours(s, c, d.task) ==> d in h.begun && RequestOk(s, d) && Matches(s, c, d)
    ensures d in Apply(s, Store(e)).acks && Ours(s, c, d.task) ==>
              && d in h.begun && RequestOk(Apply(s, Store(e)), d) && c.leader in Apply(s, Store(e)).brokers
              && Matches(Apply(s, Store(e)), c, d)
    ensures d in Apply(s, Store(e)).storing ==> d in s.storing
  {
    if d in Apply(s, Store(e)).acks && Ours(s, c, d.task) {
      StoreMatches(s, h, c, e, d);
    }
  }

  lemma StoreOrderly(s: State, h: Turn, c: Scope, e: Envelope)
    requires Inv(s) && Orderly(s, h, c) && Enabled(s, Store(e)) && Ours(s, c, e.task)
    ensures Orderly(Apply(s, Store(e)), h, c)
  {
    StoreAtTurn(s, h, c, e);
    StoreRest(s, h, c, e);
    StoreAcks(s, h, c, e);
    StoreLevels(s, h, c, e);
  }

  /** Tasks and requests stay as they are, and nothing new is being stored. */
  lemma StoreRest(s: State, h: Turn, c: Scope, e: Envelope)
    requires Orderly(s, h, c) && Enabled(s, Store(e)) && AtTurn(s, h, c, e)
    ensures var n := Apply(s, Store(e));
            && c.leader in n.brokers && CurrentOk(n, h, c) && n.requests == s.requests
            && (forall t :: t in n.tasks ==> ProduceOk(n, h, c, t))
            && (forall d :: d in n.storing && Ours(n, c, d.task) ==> h.current == Some(d.task) && d in h.begun)
  {
    var n := Apply(s, Store(e));
    StoreStanding(s, h, c, e);
    assert n.tasks == s.tasks;
    forall t | t in n.tasks ensures ProduceOk(n, h, c, t) { assert ProduceOk(s, h, c, t); }
    forall d | d in n.storing ensures d in s.storing { StoreRequest(s, h, c, e, d); }
  }

  lemma StoreAcks(s: State, h: Turn, c: Scope, e: Envelope)
    requires AtTurn(s, h, c, e) && AcksMatch(s, h, c) && Enabled(s, Store(e))
    ensures c.leader in Apply(s, Store(e)).brokers && AcksMatch(Apply(s, Store(e)), h, c)
  {
    var n := Apply(s, Store(e));
    forall d | d in n.acks && Ours(n, c, d.task) ensures d in h.begun && RequestOk(n, d) && Matches(n, c, d) {
      StoreRequest(s, h, c, e, d);
    }
  }

  lemma StoreLevels(s: State, h: Turn, c: Scope, e: Envelope)
    requires AtTurn(s, h, c, e) && AllLevel(s, h, c) && Enabled(s, Store(e))
    ensures c.leader in Apply(s, Store(e)).brokers && AllLevel(Apply(s, Store(e)), h, c)
  {
    var n := Apply(s, Store(e));
    forall b | b in n.brokers && b != c.leader ensures Level(n, h, c, b) {
      if b == e.peer {
        StoreLevel(s, h, c, e);
      } else {
        StoreOthers(s, h, c, e, b);
      }
    }
  }

  // ----- runs

  lemma StepOrderly(s: State, h: Turn, a: Action, c: Scope)
    requires Inv(s) && Orderly(s, h, c) && Enabled(s, a) && InTurn(s, h, a, c)
    ensures Orderly(Apply(s, a), Turned(s, h, a, c), c)
  {
    if !Touches(s, a, c) {
      ElsewhereOrderly(s, h, a, c);
    } else if a.Append? {
      AppendOrderly(s, h, c, a.t);
    } else if a.Begin? {
      BeginOrderly(s, h, c, a.e);
    } else {
      StoreOrderly(s, h, c, a.e);
    }
  }

  lemma {:induction false} RunOrderly(s: State, h: Turn, actions: seq<Action>, n: State, c: Scope)
    requires Inv(s) && Orderly(s, h, c) && Run(s, actions, n) && InTurnRun(s, h, actions, c)
    ensures Inv(n) && Orderly(n, Turns(s, h, actions, c), c)
    decreases |actions|
  {
    if |actions| > 0 {
      StepKeeps(s, actions[0]);
      StepOrderly(s, h, actions[0], c);
      RunOrderly(Apply(s, actions[0]), Turned(s, h, actions[0], c), actions[1..], n, c);
    }
  }

  /** Log matching: in every run that keeps to the turns, from equal logs, the acknowledgement of a request means
      that the follower holds every record the leader holds up to the end of it, in order. */
  lemma LogMatching(start: State, actions: seq<Action>, s: State, c: Scope, e: Envelope)
    requires Initial(start) && EqualLogs(start, c) && Run(start, actions, s) && InTurnRun(start, FIRST_TURN, actions, c)
    requires e in s.acks && Ours(s, c, e.task)
    ensures RequestOk(s, e) && c.leader in s.brokers
    ensures var end := s.tasks[e.task].offsets[0] + |s.tasks[e.task].msgs|;
            var f, l := LogAt(s, c, e.peer), LogAt(s, c, c.leader);
            end <= |f| && end <= |l| && f[..end] == l[..end]
  {
    InitialInv(start);
    InitialTurn(start, c);
    RunOrderly(start, FIRST_TURN, actions, s, c);
  }

  // ----- the commit index

  lemma CommitAllSnoc(m: Ledger, part: Part, front: seq<nat>, last: nat)
    ensures CommitAll(m, part, front + [last]) == Committed(CommitAll(m, part, front), part, last)
  {
    assert (front + [last])[..|front|] == front;
  }

  /** Marking consecutive offsets committed leaves the last one as the index, unless it was beyond already. */
  lemma {:induction false} CommitIndexAfter(m: Ledger, part: Part, first: nat, n: nat)
    requires n > 0
    ensures var commits := CommitAll(m, part, OffsetsFrom(first, n)).commits;
            var was := if part in m.commits then m.commits[part] else 0;
            part in commits && commits[part] == if first + n - 1 > was then first + n - 1 else was
  {
    CommitAllSnoc(m, part, OffsetsFrom(first, n - 1), first + n - 1);
    if n > 1 {
      CommitIndexAfter(m, part, first, n - 1);
    } else {
      assert CommitAll(m, part, OffsetsFrom(first, 0)) == m;
    }
  }

  lemma {:induction false} CommitsElsewhere(m: Ledger, p: Part, offsets: seq<nat>, part: Part)
    requires p != part
    ensures part in CommitAll(m, p, offsets).commits <==> part in m.commits
    ensures part in m.commits ==> CommitAll(m, p, offsets).commits[part] == m.commits[part]
  {
    if |offsets| > 0 {
      CommitsElsewhere(m, p, offsets[..|offsets| - 1], part);
    }
  }

  lemma {:induction false} ConsecutiveRange(offsets: seq<nat>, n: nat)
    requires n <= |offsets| && n > 0 && forall i :: 0 <= i < |offsets| ==> offsets[i] == offsets[0] + i
    ensures offsets[..n] == OffsetsFrom(offsets[0], n)
  {
    assert offsets[..n] == offsets[..n - 1] + [offsets[n - 1]];
    if n > 1 {
      ConsecutiveRange(offsets, n - 1);
    } else {
      assert offsets[..0] == [] == OffsetsFrom(offsets[0], 0);
    }
  }

  lemma CommitIndexOf(m: Ledger, part: Part, offsets: seq<nat>)
    requires |offsets| > 0 && forall i :: 0 <= i < |offsets| ==> offsets[i] == offsets[0] + i
    ensures var commits := CommitAll(m, part, offsets).commits;
            var was, last := if part in m.commits then m.commits[part] else 0, offsets[|offsets| - 1];
            part in commits && commits[part] == if last > was then last else was
  {
    ConsecutiveRange(offsets, |offsets|);
    assert offsets[..|offsets|] == offsets;
    CommitIndexAfter(m, part, offsets[0], |offsets|);
  }

  /** The leader's commit index is the last offset of a produce it reported. */
  ghost predicate TopOk(s: State, h: Turn, c: Scope) {
    CommitIndex(s, c).Some? ==>
      && h.top.Some? && h.top.value in s.replies && Ours(s, c, h.top.value) && Complete(s.tasks[h.top.value])
      && s.tasks[h.top.value].owner == c.leader && LastOffset(s.tasks[h.top.value]) == CommitIndex(s, c).value
  }

  lemma AnswerTop(s: State, h: Turn, c: Scope, t: nat)
    requires Enabled(s, Answer(t)) && Ours(s, c, t) && c.leader in s.brokers && TopOk(s, h, c) && ProduceOk(s, h, c, t)
    ensures TopOk(Apply(s, Answer(t)), Turned(s, h, Answer(t), c), c)
  {
    CommitIndexOf(s.brokers[c.leader].ledger, c.part, s.tasks[t].offsets);
  }

  lemma IndexKept(s: State, a: Action, c: Scope)
    requires Enabled(s, a) && NotTold(a, c) && c.leader in s.brokers && !(a.Answer? && Ours(s, c, a.t))
    ensures CommitIndex(Apply(s, a), c) == CommitIndex(s, c)
  {
    if a.Answer? {
      CommitsElsewhere(s.brokers[s.tasks[a.t].owner].ledger, s.tasks[a.t].part, s.tasks[a.t].offsets, c.part);
    }
  }

  lemma StepKeepsTop(s: State, h: Turn, a: Action, c: Scope)
    requires c.leader in s.brokers && TopOk(s, h, c) && Enabled(s, a) && InTurn(s, h, a, c) && NotTold(a, c)
    requires a.Answer? && Ours(s, c, a.t) ==> ProduceOk(s, h, c, a.t)
    ensures TopOk(Apply(s, a), Turned(s, h, a, c), c)
  {
    if a.Answer? && Ours(s, c, a.t) {
      AnswerTop(s, h, c, a.t);
    } else {
      IndexKept(s, a, c);
      StepFollows(s, a);
    }
  }

  lemma {:induction false} RunKeepsTop(s: State, h: Turn, actions: seq<Action>, n: State, c: Scope)
    requires Inv(s) && Orderly(s, h, c) && TopOk(s, h, c) && Run(s, actions, n) && InTurnRun(s, h, actions, c)
    requires forall k :: 0 <= k < |actions| ==> NotTold(actions[k], c)
    ensures Inv(n) && Orderly(n, Turns(s, h, actions, c), c) && TopOk(n, Turns(s, h, actions, c), c)
    decreases |actions|
  {
    if |actions| > 0 {
      StepKeeps(s, actions[0]);
      StepOrderly(s, h, actions[0], c);
      StepKeepsTop(s, h, actions[0], c);
      RunKeepsTop(Apply(s, actions[0]), Turned(s, h, actions[0], c), actions[1..], n, c);
    }
  }

  /** The commit index is justified: in every run that keeps to the turns, from equal logs, and in which no commit
      notice of the partition reaches the leader, every offset up to the leader's commit index is held by a majority
      of the brokers, each with the leader's record: also the offsets of produces that were reported as failed. */
  lemma CommitJustified(start: State, actions: seq<Action>, s: State, c: Scope, offset: nat)
    returns (majority: set<int>)
    requires Initial(start) && EqualLogs(start, c) && Run(start, actions, s) && InTurnRun(start, FIRST_TURN, actions, c)
    requires forall k :: 0 <= k < |actions| ==> NotTold(actions[k], c)
    requires c.leader in s.brokers && IsCommitted(s.brokers[c.leader].ledger, c.part, offset)
    ensures offset < |LogAt(s, c, c.leader)| && |majority| >= Quorum(start.peers)
    ensures forall b :: b in majority ==>
              b in s.brokers && offset < |LogAt(s, c, b)| && LogAt(s, c, b)[offset] == LogAt(s, c, c.leader)[offset]
  {
    InitialInv(start);
    InitialTurn(start, c);
    RunKeepsTop(start, FIRST_TURN, actions, s, c);
    RunKeeps(start, actions, s);
    var d := Turns(start, FIRST_TURN, actions, c).top.value;
    majority := s.tasks[d].credited;
    TopHeld(s, Turns(start, FIRST_TURN, actions, c), c, d, offset);
  }

  lemma TopHeld(s: State, h: Turn, c: Scope, d: nat, offset: nat)
    requires Inv(s) && Orderly(s, h, c) && d in s.replies && Ours(s, c, d) && Complete(s.tasks[d])
             && s.tasks[d].owner == c.leader
    requires offset <= LastOffset(s.tasks[d])
    ensures |s.tasks[d].credited| >= Quorum(s.peers) && offset < |LogAt(s, c, c.leader)|
    ensures forall b :: b in s.tasks[d].credited ==>
              b in s.brokers && offset < |LogAt(s, c, b)| && LogAt(s, c, b)[offset] == LogAt(s, c, c.leader)[offset]
  {
    assert QuorateOk(s, d) && CreditOk(s, d) && ProduceOk(s, h, c, d) && TaskOk(s, d);
    var task, l := s.tasks[d], LogAt(s, c, c.leader);
    var k := |task.offsets| - 1;
    assert HasAt(s.brokers[c.leader], c.part, task.offsets[k], task.msgs[k]);
    forall b | b in task.credited && b != c.leader
      ensures b in s.brokers && offset < |LogAt(s, c, b)| && LogAt(s, c, b)[offset] == l[offset]
    {
      var e, end := Envelope(d, b), task.offsets[0] + |task.msgs|;
      assert e in s.acks && Matches(s, c, e);
      assert LogAt(s, c, b)[..end][offset] == l[..end][offset];
    }
  }

  // ----- a follower that missed a record

  /** The follower is behind: it cannot be in place when its turn comes. */
  ghost predicate Behind(s: State, h: Turn, c: Scope, b: int)
    requires b in s.brokers && c.leader in s.brokers
  {
    var f, l := LogAt(s, c, b), LogAt(s, c, c.leader);
    match h.current
    case None => |f| < |l|
    case Some(t) =>
      t in s.tasks && |s.tasks[t].offsets| > 0 ==>
        var e, first := Envelope(t, b), s.tasks[t].offsets[0];
        if e in s.storing then s.storing[e] == 0 && |f| < first
        else e !in s.acks && (e in h.begun || |f| < first || Closed(s.tasks[t]))
  }

  lemma BehindElsewhere(s: State, h: Turn, a: Action, c: Scope, b: int)
    requires Orderly(s, h, c) && Enabled(s, a) && !Touches(s, a, c) && b in s.brokers && Behind(s, h, c, b)
    ensures b in Apply(s, a).brokers && c.leader in Apply(s, a).brokers && Behind(Apply(s, a), Turned(s, h, a, c), c, b)
  {
    ElsewhereLogs(s, a, c, b);
    ElsewhereLogs(s, a, c, c.leader);
    if h.current.Some? {
      ElsewhereTasks(s, a, h.current.value);
      ElsewhereRequests(s, a, c, Envelope(h.current.value, b));
    }
  }

  lemma BehindAppend(s: State, h: Turn, c: Scope, t: nat, b: int)
    requires Inv(s) && Orderly(s, h, c) && Enabled(s, Append(t)) && InTurn(s, h, Append(t), c) && Ours(s, c, t)
    requires b in s.brokers && b != c.leader && Behind(s, h, c, b)
    ensures var n := Apply(s, Append(t));
            b in n.brokers && c.leader in n.brokers && Behind(n, Turned(s, h, Append(t), c), c, b)
  {
    var n, task, e := Apply(s, Append(t)), s.tasks[t], Envelope(t, b);
    assert LogAt(n, c, b) == LogAt(s, c, b);
    assert e !in s.storing && e !in s.acks && e !in h.begun by {
      assert e in s.requests ==> RequestOk(s, e);
      assert e in s.acks ==> AckOk(s, e);
    }
    assert ProduceOk(s, h, c, t) && Level(s, h, c, b);
    if h.current != Some(t) && h.current.Some? {
      assert Envelope(h.current.value, b) !in s.storing;
    }
  }

  lemma BehindBegin(s: State, h: Turn, c: Scope, e: Envelope, b: int)
    requires Inv(s) && Orderly(s, h, c) && Enabled(s, Begin(e)) && InTurn(s, h, Begin(e), c) && Ours(s, c, e.task)
    requires b in s.brokers && Behind(s, h, c, b)
    ensures Behind(Apply(s, Begin(e)), Turned(s, h, Begin(e), c), c, b)
  {
    assert RequestOk(s, e) && ProduceOk(s, h, c, e.task);
  }

  lemma BehindStore(s: State, h: Turn, c: Scope, e: Envelope, b: int)
    requires AtTurn(s, h, c, e) && Enabled(s, Store(e)) && b in s.brokers && b != c.leader && Behind(s, h, c, b)
    ensures b in Apply(s, Store(e)).brokers && c.leader in Apply(s, Store(e)).brokers
            && Behind(Apply(s, Store(e)), h, c, b)
    ensures e in Apply(s, Store(e)).acks && e !in s.acks ==> e.peer != b
  {
    StoreStanding(s, h, c, e);
    if b == e.peer {
      StoreInPlace(s, h, c, e);
    } else {
      assert LogAt(Apply(s, Store(e)), c, b) == LogAt(s, c, b);
    }
  }

  /** No step makes a follower that is behind acknowledge anything of the partition, or catch up. */
  lemma StepKeepsBehind(s: State, h: Turn, a: Action, c: Scope, b: int, e: Envelope)
    requires Inv(s) && Orderly(s, h, c) && Enabled(s, a) && InTurn(s, h, a, c) && b in s.brokers && b != c.leader
             && Behind(s, h, c, b)
    ensures b in Apply(s, a).brokers && c.leader in Apply(s, a).brokers && Behind(Apply(s, a), Turned(s, h, a, c), c, b)
    ensures e.peer == b && Ours(s, c, e.task) && e in Apply(s, a).acks ==> e in s.acks
  {
    if !Touches(s, a, c) {
      BehindElsewhere(s, h, a, c, b);
    } else if a.Append? {
      BehindAppend(s, h, c, a.t, b);
    } else if a.Begin? {
      BehindBegin(s, h, c, a.e, b);
    } else {
      StoreAtTurn(s, h, c, a.e);
      BehindStore(s, h, c, a.e, b);
    }
  }

  /** Once behind, a follower stays behind in every run that keeps to the turns, and never acknowledges again. */
  lemma {:induction false} BehindForever(s: State, h: Turn, actions: seq<Action>, n: State, c: Scope, b: int,
          e: Envelope)
    requires Inv(s) && Orderly(s, h, c) && Run(s, actions, n) && InTurnRun(s, h, actions, c)
    requires b in s.brokers && b != c.leader && Behind(s, h, c, b)
    ensures Inv(n) && Orderly(n, Turns(s, h, actions, c), c) && b in n.brokers
            && Behind(n, Turns(s, h, actions, c), c, b)
    ensures e.peer == b && Ours(n, c, e.task) && e in n.acks ==> e in s.acks
    decreases |actions|
  {
    if |actions| > 0 {
      var a := actions[0];
      var next := Apply(s, a);
      StepKeeps(s, a);
      StepOrderly(s, h, a, c);
      StepKeepsBehind(s, h, a, c, b, e);
      BehindForever(next, Turned(s, h, a, c), actions[1..], n, c, b, e);
      if e in next.acks && e.peer == b && Ours(n, c, e.task) {
        RunKeeps(next, actions[1..], n);
        OldRequest(s, a, e);
        StepFollows(s, a);
      }
    }
  }

  /** A follower for which a produce of the partition is over without an acknowledgement never acknowledges
      anything of the partition again. */
  lemma MissedNeverAcks(start: State, before: seq<Action>, s: State, after: seq<Action>, n: State, c: Scope, t: nat,
          b: int, e: Envelope)
    requires Initial(start) && EqualLogs(start, c) && Run(start, before, s) && InTurnRun(start, FIRST_TURN, before, c)
    requires Run(s, after, n) && InTurnRun(s, Turns(start, FIRST_TURN, before, c), after, c)
    requires Turns(start, FIRST_TURN, before, c).current == Some(t) && t in s.tasks && Closed(s.tasks[t])
    requires b in s.brokers && b != c.leader && Envelope(t, b) !in s.acks && Envelope(t, b) !in s.storing
    ensures e.peer == b && Ours(n, c, e.task) && e in n.acks ==> e in s.acks
  {
    InitialInv(start);
    InitialTurn(start, c);
    RunOrderly(start, FIRST_TURN, before, s, c);
    BehindForever(s, Turns(start, FIRST_TURN, before, c), after, n, c, b, e);
  }
}

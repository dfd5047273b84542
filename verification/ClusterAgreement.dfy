/** Agreement between the replies of different leaders. The argument follows each stored record to the produce
    that stored it and each count to the produce it was counted for. */
module ClusterAgreement {
  import opened Replication
  import opened Cluster
  import opened ClusterSafety

  /** An offset of a partition on a broker. */
  datatype Place = Place(broker: int, part: Part, offset: nat)

  /** What happened: which task appended the record at a place, which task last opened the count of a slot
      on a broker, and which task's count a reply rests on. */
  datatype History = History(origins: map<Place, nat>, openers: map<Place, nat>, via: map<nat, nat>)

  const NO_HISTORY := History(map[], map[], map[])

  function End(s: State, b: int, part: Part): Place
    requires b in s.brokers
  {
    Place(b, part, |LogOf(s.brokers[b], part)|)
  }

  function Counter(b: int, slot: Slot): Place {
    Place(b, slot.part, slot.offset)
  }

  function Noted(s: State, h: History, a: Action): History
    requires Enabled(s, a)
  {
    match a
    case Append(t) => h.(origins := h.origins[End(s, s.tasks[t].owner, s.tasks[t].part) := t])
    case Store(e) => h.(origins := h.origins[End(s, e.peer, s.tasks[e.task].part) := e.task])
    case Open(t) => h.(openers := h.openers[Counter(s.tasks[t].owner, SlotOf(s.tasks[t])) := t])
    case Answer(t) =>
      var at := Place(s.tasks[t].owner, s.tasks[t].part, LastOffset(s.tasks[t]));
      if at in h.openers then h.(via := h.via[t := h.openers[at]]) else h
    case _ => h
  }

  // ----- where records come from

  predicate From(h: History, at: Place, t: nat) {
    at in h.origins && h.origins[at] == t
  }

  ghost predicate PlaceOk(s: State, at: Place) {
    at.broker in s.brokers && at.offset < |LogOf(s.brokers[at.broker], at.part)|
  }

  ghost predicate OwnOk(s: State, h: History, t: nat)
    requires t in s.tasks
  {
    var task := s.tasks[t];
    forall i :: 0 <= i < |task.offsets| ==>
      From(h, Place(task.owner, task.part, task.offsets[i]), t) && task.offsets[0] <= task.offsets[i]
  }

  ghost predicate CopiedOk(s: State, h: History, e: Envelope, n: nat)
    requires RequestOk(s, e)
  {
    var task := s.tasks[e.task];
    forall o :: task.offsets[0] <= o < task.offsets[0] + n ==> From(h, Place(e.peer, task.part, o), e.task)
  }

  ghost predicate Origins(s: State, h: History) {
    && (forall at :: at in h.origins ==> PlaceOk(s, at))
    && (forall t :: t in s.tasks ==> OwnOk(s, h, t))
    && (forall e :: e in s.storing ==> RequestOk(s, e) && CopiedOk(s, h, e, s.storing[e]))
    && (forall e :: e in s.acks ==> RequestOk(s, e) && CopiedOk(s, h, e, |s.tasks[e.task].msgs|))
  }

  /** A place is filled once. */
  lemma OriginKept(s: State, h: History, a: Action, at: Place)
    requires Enabled(s, a) && at in h.origins && PlaceOk(s, at)
    ensures at in Noted(s, h, a).origins && Noted(s, h, a).origins[at] == h.origins[at]
  {
  }

  lemma PlaceKept(s: State, h: History, a: Action, at: Place)
    requires Enabled(s, a) && at in Noted(s, h, a).origins && (at in h.origins ==> PlaceOk(s, at))
    ensures PlaceOk(Apply(s, a), at)
  {
    StepGrows(s, a);
    if at in h.origins {
      assert LogOf(s.brokers[at.broker], at.part) <= LogOf(Apply(s, a).brokers[at.broker], at.part);
    }
  }

  lemma OwnKept(s: State, h: History, a: Action, t: nat)
    requires Enabled(s, a) && t in Apply(s, a).tasks && (t in s.tasks ==> TaskOk(s, t) && OwnOk(s, h, t))
    ensures OwnOk(Apply(s, a), Noted(s, h, a), t)
  {
    if t in s.tasks {
      var task := s.tasks[t];
      forall i | 0 <= i < |task.offsets|
        ensures From(Noted(s, h, a), Place(task.owner, task.part, task.offsets[i]), t)
      {
        assert HasAt(s.brokers[task.owner], task.part, task.offsets[i], task.msgs[i]);
        OriginKept(s, h, a, Place(task.owner, task.part, task.offsets[i]));
      }
      if a == Append(t) {
        OwnAppended(s, h, t);
      }
    }
  }

  lemma OwnAppended(s: State, h: History, t: nat)
    requires Enabled(s, Append(t)) && TaskOk(s, t) && OwnOk(s, h, t)
    requires var task := s.tasks[t]; forall i :: 0 <= i < |task.offsets| ==>
                                       From(Noted(s, h, Append(t)), Place(task.owner, task.part, task.offsets[i]), t)
    ensures OwnOk(Apply(s, Append(t)), Noted(s, h, Append(t)), t)
  {
    var task := s.tasks[t];
    if |task.offsets| > 0 {
      assert HasAt(s.brokers[task.owner], task.part, task.offsets[0], task.msgs[0]);
    }
  }

  lemma CopiedKept(s: State, h: History, a: Action, e: Envelope, n: nat)
    requires Enabled(s, a) && RequestOk(s, e) && n <= |s.tasks[e.task].msgs| && StoredOn(s, e, n)
             && CopiedOk(s, h, e, n)
    ensures RequestOk(Apply(s, a), e) && CopiedOk(Apply(s, a), Noted(s, h, a), e, n)
  {
    StepFollows(s, a);
    var task := s.tasks[e.task];
    forall o | task.offsets[0] <= o < task.offsets[0] + n
      ensures From(Noted(s, h, a), Place(e.peer, task.part, o), e.task)
    {
      var i := o - task.offsets[0];
      assert HasAt(s.brokers[e.peer], task.part, task.offsets[0] + i, task.msgs[i]);
      OriginKept(s, h, a, Place(e.peer, task.part, o));
    }
  }

  lemma CopiedNext(s: State, h: History, e: Envelope)
    requires Enabled(s, Store(e)) && StoringOk(s, e) && CopiedOk(s, h, e, s.storing[e])
    requires |LogOf(s.brokers[e.peer], s.tasks[e.task].part)| == s.tasks[e.task].offsets[0] + s.storing[e]
    ensures RequestOk(Apply(s, Store(e)), e) && CopiedOk(Apply(s, Store(e)), Noted(s, h, Store(e)), e, s.storing[e] + 1)
  {
    CopiedKept(s, h, Store(e), e, s.storing[e]);
  }

  lemma StepKeepsStoringOrigins(s: State, h: History, a: Action, e: Envelope)
    requires Enabled(s, a) && e in Apply(s, a).storing
    requires (e in s.storing ==> StoringOk(s, e) && CopiedOk(s, h, e, s.storing[e]))
             && (e in s.requests ==> RequestOk(s, e))
    ensures RequestOk(Apply(s, a), e) && CopiedOk(Apply(s, a), Noted(s, h, a), e, Apply(s, a).storing[e])
  {
    if a == Store(e) {
      CopiedNext(s, h, e);
    } else if a == Begin(e) {
      StepFollows(s, a);
    } else {
      CopiedKept(s, h, a, e, s.storing[e]);
    }
  }

  lemma StepKeepsAckOrigins(s: State, h: History, a: Action, e: Envelope)
    requires Enabled(s, a) && e in Apply(s, a).acks
    requires e in s.storing ==> StoringOk(s, e) && CopiedOk(s, h, e, s.storing[e])
    requires e in s.acks ==> AckOk(s, e) && CopiedOk(s, h, e, |s.tasks[e.task].msgs|)
    ensures RequestOk(Apply(s, a), e) && CopiedOk(Apply(s, a), Noted(s, h, a), e, |Apply(s, a).tasks[e.task].msgs|)
  {
    if e in s.acks {
      CopiedKept(s, h, a, e, |s.tasks[e.task].msgs|);
      StepFollows(s, a);
    } else {
      assert a == Store(e);
      CopiedNext(s, h, e);
    }
  }

  lemma StepKeepsOrigins(s: State, h: History, a: Action)
    requires Inv(s) && Origins(s, h) && Enabled(s, a)
    ensures Origins(Apply(s, a), Noted(s, h, a))
  {
    var n, k := Apply(s, a), Noted(s, h, a);
    forall at | at in k.origins ensures PlaceOk(n, at) { PlaceKept(s, h, a, at); }
    forall t | t in n.tasks ensures OwnOk(n, k, t) { OwnKept(s, h, a, t); }
    forall e | e in n.storing ensures RequestOk(n, e) && CopiedOk(n, k, e, n.storing[e]) {
      StepKeepsStoringOrigins(s, h, a, e);
    }
    forall e | e in n.acks ensures RequestOk(n, e) && CopiedOk(n, k, e, |n.tasks[e.task].msgs|) {
      StepKeepsAckOrigins(s, h, a, e);
    }
  }

  // ----- what counts stand for

  /** A task was opened on this broker for this slot, and the count is the brokers credited to it. */
  ghost predicate CountsFor(s: State, x: nat, b: int, slot: Slot)
    requires b in s.brokers && slot in s.brokers[b].ledger.counts
  {
    && x in s.tasks && s.tasks[x].owner == b && Complete(s.tasks[x]) && SlotOf(s.tasks[x]) == slot
    && s.tasks[x].stage != Appending && s.tasks[x].stage != Waiting
    && s.brokers[b].ledger.counts[slot] == |s.tasks[x].credited|
  }

  ghost predicate CounterOk(s: State, h: History, b: int, slot: Slot)
    requires b in s.brokers && slot in s.brokers[b].ledger.counts
  {
    Counter(b, slot) in h.openers && CountsFor(s, h.openers[Counter(b, slot)], b, slot)
  }

  ghost predicate OpenerOk(s: State, h: History, t: nat)
    requires t in s.tasks
  {
    var task := s.tasks[t];
    task.stage == Exchanging && Complete(task) ==>
      Counter(task.owner, SlotOf(task)) in h.openers && h.openers[Counter(task.owner, SlotOf(task))] == t
  }

  ghost predicate ViaOk(s: State, h: History, t: nat)
    requires t in s.tasks
  {
    t in s.replies && Complete(s.tasks[t]) ==>
      && t in h.via && h.via[t] in s.tasks
      && var task, x := s.tasks[t], s.tasks[h.via[t]];
      && x.owner == task.owner && Complete(x) && SlotOf(x) == Slot(task.part, LastOffset(task))
      && x.stage != Appending && x.stage != Waiting && |x.credited| >= Quorum(s.peers)
  }

  ghost predicate Counters(s: State, h: History) {
    && (forall b, slot :: b in s.brokers && slot in s.brokers[b].ledger.counts ==> CounterOk(s, h, b, slot))
    && (forall t :: t in s.tasks ==> OpenerOk(s, h, t))
    && (forall t :: t in s.tasks ==> ViaOk(s, h, t))
  }

  /** Once opened, a task keeps its slot, and the brokers credited to it only grow in number. */
  lemma OpenedKept(s: State, a: Action, x: nat)
    requires Enabled(s, a) && x in s.tasks && Complete(s.tasks[x]) && s.tasks[x].stage != Appending
             && s.tasks[x].stage != Waiting
    ensures var n := Apply(s, a);
            && x in n.tasks && n.tasks[x].owner == s.tasks[x].owner && Complete(n.tasks[x])
            && SlotOf(n.tasks[x]) == SlotOf(s.tasks[x])
            && n.tasks[x].stage != Appending && n.tasks[x].stage != Waiting
            && |s.tasks[x].credited| <= |n.tasks[x].credited|
            && ((a.Receive? && a.e.task == x) || n.tasks[x].credited == s.tasks[x].credited)
  {
    if a.Receive? && a.e.task == x {
      SubsetSize(s.tasks[x].credited, Apply(s, a).tasks[x].credited);
    }
  }

  lemma OpenCounts(s: State, h: History, t: nat)
    requires Enabled(s, Open(t))
    ensures var n := Apply(s, Open(t)); var b, slot := s.tasks[t].owner, SlotOf(s.tasks[t]);
            b in n.brokers && slot in n.brokers[b].ledger.counts && CounterOk(n, Noted(s, h, Open(t)), b, slot)
  {
  }

  lemma ReceiveCounts(s: State, h: History, e: Envelope)
    requires Enabled(s, Receive(e)) && OpenerOk(s, h, e.task) && ExchangeOk(s, e.task)
    ensures var n := Apply(s, Receive(e)); var b, slot := s.tasks[e.task].owner, SlotOf(s.tasks[e.task]);
            b in n.brokers && slot in n.brokers[b].ledger.counts && CounterOk(n, Noted(s, h, Receive(e)), b, slot)
  {
    ReceiveKeepsExchange(s, e, e.task);
  }

  /** Only opening a slot and an acknowledgement for it change its count. */
  lemma CountsUnchanged(s: State, a: Action, b: int, slot: Slot)
    requires Enabled(s, a) && b in s.brokers
    requires a.Open? ==> s.tasks[a.t].owner != b || SlotOf(s.tasks[a.t]) != slot
    requires a.Receive? ==> s.tasks[a.e.task].owner != b || SlotOf(s.tasks[a.e.task]) != slot
    ensures b in Apply(s, a).brokers
    ensures slot in Apply(s, a).brokers[b].ledger.counts <==> slot in s.brokers[b].ledger.counts
    ensures slot in s.brokers[b].ledger.counts
            ==> Apply(s, a).brokers[b].ledger.counts[slot] == s.brokers[b].ledger.counts[slot]
  {
    if a.Answer? {
      CommitAllKeeps(s.brokers[s.tasks[a.t].owner].ledger, s.tasks[a.t].part, s.tasks[a.t].offsets);
    }
  }

  lemma StepKeepsCounter(s: State, h: History, a: Action, b: int, slot: Slot)
    requires Enabled(s, a) && b in Apply(s, a).brokers && slot in Apply(s, a).brokers[b].ledger.counts
    requires b in s.brokers && slot in s.brokers[b].ledger.counts ==> CounterOk(s, h, b, slot)
    requires a.Receive? ==> OpenerOk(s, h, a.e.task) && ExchangeOk(s, a.e.task)
    ensures CounterOk(Apply(s, a), Noted(s, h, a), b, slot)
  {
    if a.Open? && s.tasks[a.t].owner == b && SlotOf(s.tasks[a.t]) == slot {
      OpenCounts(s, h, a.t);
    } else if a.Receive? && s.tasks[a.e.task].owner == b && SlotOf(s.tasks[a.e.task]) == slot {
      ReceiveCounts(s, h, a.e);
    } else {
      StepGrows(s, a);
      CountsUnchanged(s, a, b, slot);
      OpenedKept(s, a, h.openers[Counter(b, slot)]);
    }
  }

  lemma StepKeepsOpener(s: State, h: History, a: Action, t: nat)
    requires Enabled(s, a) && t in Apply(s, a).tasks && (t in s.tasks ==> OpenerOk(s, h, t) && ExchangeOk(s, t))
    ensures OpenerOk(Apply(s, a), Noted(s, h, a), t)
  {
    if t in s.tasks && s.tasks[t].stage == Exchanging {
      OpenedKept(s, a, t);
    }
  }

  lemma AnswerVia(s: State, h: History, t: nat)
    requires Enabled(s, Answer(t))
    requires var b, slot := s.tasks[t].owner, Slot(s.tasks[t].part, LastOffset(s.tasks[t]));
             slot in s.brokers[b].ledger.counts ==> CounterOk(s, h, b, slot)
    ensures ViaOk(Apply(s, Answer(t)), Noted(s, h, Answer(t)), t)
  {
    var b, slot := s.tasks[t].owner, Slot(s.tasks[t].part, LastOffset(s.tasks[t]));
    assert QuorumReached(s.brokers[b].ledger, slot, s.peers);
    OpenedKept(s, Answer(t), h.openers[Counter(b, slot)]);
  }

  lemma ViaKept(s: State, h: History, a: Action, t: nat)
    requires Enabled(s, a) && t in s.tasks && t in s.replies && ViaOk(s, h, t) && QuorateOk(s, t)
    ensures t in Apply(s, a).tasks && ViaOk(Apply(s, a), Noted(s, h, a), t)
  {
    StepFollows(s, a);
    OpenedKept(s, a, h.via[t]);
    assert a != Answer(t);
  }

  lemma StepKeepsCounters(s: State, h: History, a: Action)
    requires Inv(s) && Counters(s, h) && Enabled(s, a)
    ensures Counters(Apply(s, a), Noted(s, h, a))
  {
    var n, k := Apply(s, a), Noted(s, h, a);
    assert a.Receive? ==> OpenerOk(s, h, a.e.task) && ExchangeOk(s, a.e.task);
    forall b, slot | b in n.brokers && slot in n.brokers[b].ledger.counts ensures CounterOk(n, k, b, slot) {
      StepKeepsCounter(s, h, a, b, slot);
    }
    forall t | t in n.tasks ensures OpenerOk(n, k, t) {
      assert t in s.tasks ==> ExchangeOk(s, t);
      StepKeepsOpener(s, h, a, t);
    }
    forall t | t in n.tasks ensures ViaOk(n, k, t) {
      if t in s.replies {
        assert QuorateOk(s, t);
        ViaKept(s, h, a, t);
      } else if a == Answer(t) {
        AnswerVia(s, h, t);
      }
    }
  }

  // ----- runs

  lemma {:induction false} RunNotes(s: State, h: History, actions: seq<Action>, n: State) returns (k: History)
    requires Inv(s) && Origins(s, h) && Counters(s, h) && Run(s, actions, n)
    ensures Inv(n) && Origins(n, k) && Counters(n, k)
    decreases |actions|
  {
    if |actions| == 0 {
      k := h;
    } else {
      var a := actions[0];
      StepKeeps(s, a);
      StepKeepsOrigins(s, h, a);
      StepKeepsCounters(s, h, a);
      k := RunNotes(Apply(s, a), Noted(s, h, a), actions[1..], n);
    }
  }

  // ----- agreement

  /** The offset at which record i of a task is reported lies inside the range that the request named to the
      followers, or no other record came between this one and the last, whose count was awaited. */
  ghost predicate Covered(offsets: seq<nat>, i: nat)
    requires i < |offsets|
  {
    || offsets[i] < offsets[0] + |offsets|
    || forall j :: i <= j < |offsets| ==> offsets[j] == offsets[i] + (j - i)
  }

  /** A task of the same leader whose quorum of followers stored one of its own records at the offset. */
  ghost predicate Certifies(s: State, d: nat, owner: int, part: Part, o: nat) {
    && d in s.tasks && Complete(s.tasks[d])
    && var task := s.tasks[d];
    && task.owner == owner && task.part == part && |task.credited| >= Quorum(s.peers)
    && task.offsets[0] <= o < task.offsets[0] + |task.msgs|
  }

  lemma CoveredCertified(s: State, h: History, t: nat, i: nat) returns (d: nat)
    requires Inv(s) && Origins(s, h) && Counters(s, h) && t in s.replies && t in s.tasks
    requires i < |s.tasks[t].offsets| && Covered(s.tasks[t].offsets, i)
    ensures Certifies(s, d, s.tasks[t].owner, s.tasks[t].part, s.tasks[t].offsets[i])
  {
    var task := s.tasks[t];
    assert QuorateOk(s, t) && OwnOk(s, h, t) && ViaOk(s, h, t);
    if task.offsets[i] < task.offsets[0] + |task.msgs| {
      d := t;
    } else {
      d := h.via[t];
      assert OwnOk(s, h, d);
      var first, o := s.tasks[d].offsets[0], task.offsets[i];
      assert first > o ==> From(h, Place(task.owner, task.part, task.offsets[i + (first - o)]), t);
    }
  }

  /** Wherever a broker credited to the certificate has a record at the offset, a task of that leader put it there. */
  lemma CertifiedOrigin(s: State, h: History, d: nat, t: nat, o: nat, b: int)
    requires Inv(s) && Origins(s, h) && t in s.tasks && Certifies(s, d, s.tasks[t].owner, s.tasks[t].part, o)
    requires b in s.tasks[d].credited && o in s.tasks[t].offsets
    ensures b in s.brokers
    ensures var at := Place(b, s.tasks[t].part, o);
            at in h.origins && h.origins[at] in s.tasks && s.tasks[h.origins[at]].owner == s.tasks[t].owner
  {
    assert CreditOk(s, d) && TaskOk(s, d) && OwnOk(s, h, t);
    if b != s.tasks[d].owner {
      assert AckOk(s, Envelope(d, b));
      assert CopiedOk(s, h, Envelope(d, b), |s.tasks[d].msgs|);
      assert From(h, Place(b, s.tasks[t].part, o), d);
    } else {
      var i :| 0 <= i < |s.tasks[t].offsets| && s.tasks[t].offsets[i] == o;
      assert From(h, Place(b, s.tasks[t].part, o), t);
    }
  }

  lemma OneReporter(s: State, h: History, t: nat, u: nat, i: nat, j: nat)
    requires Inv(s) && Origins(s, h) && Counters(s, h)
    requires t in s.replies && u in s.replies && t in s.tasks && u in s.tasks && s.tasks[t].part == s.tasks[u].part
    requires i < |s.tasks[t].offsets| && Covered(s.tasks[t].offsets, i)
    requires j < |s.tasks[u].offsets| && Covered(s.tasks[u].offsets, j)
    requires s.tasks[t].offsets[i] == s.tasks[u].offsets[j]
    ensures s.tasks[t].owner == s.tasks[u].owner
  {
    var o := s.tasks[t].offsets[i];
    var d := CoveredCertified(s, h, t, i);
    var e := CoveredCertified(s, h, u, j);
    forall b | b in s.tasks[d].credited ensures b in s.brokers { CertifiedOrigin(s, h, d, t, o, b); }
    forall b | b in s.tasks[e].credited ensures b in s.brokers { CertifiedOrigin(s, h, e, u, o, b); }
    var common := QuorumsIntersect(s.brokers.Keys, s.tasks[d].credited, s.tasks[e].credited, s.peers);
    CertifiedOrigin(s, h, d, t, o, common);
    CertifiedOrigin(s, h, e, u, o, common);
  }

  /** Agreement: in every run, with any number of brokers leading at once, two successful replies that report
      a covered offset of the same partition come from the same broker and carry the same record. */
  lemma Agreement(start: State, actions: seq<Action>, s: State, t: nat, u: nat, i: nat, j: nat)
    requires Initial(start) && Run(start, actions, s)
    requires t in s.replies && u in s.replies && t in s.tasks && u in s.tasks && s.tasks[t].part == s.tasks[u].part
    requires i < |s.tasks[t].offsets| && Covered(s.tasks[t].offsets, i)
    requires j < |s.tasks[u].offsets| && Covered(s.tasks[u].offsets, j)
    requires s.tasks[t].offsets[i] == s.tasks[u].offsets[j]
    ensures s.tasks[t].owner == s.tasks[u].owner
    ensures i < |s.tasks[t].msgs| && j < |s.tasks[u].msgs| && s.tasks[t].msgs[i] == s.tasks[u].msgs[j]
  {
    InitialInv(start);
    var h := RunNotes(start, NO_HISTORY, actions, s);
    OneReporter(s, h, t, u, i, j);
    assert TaskOk(s, t) && TaskOk(s, u);
  }
}

/** What a follower of a single leader stores, and therefore serves, at each offset: the leader's record if it
    acknowledged the produce, and otherwise a record the leader holds further on. */
module FollowerReads {
  import opened Options
  import opened Replication
  import opened Cluster
  import opened ClusterSafety
  import opened ClusterAgreement
  import opened SingleLeader

  /** The record is at its own offset, and the follower has acknowledged it or is about to. */
  predicate InPlace(s: State, t: nat, b: int, o: nat)
    requires t in s.tasks && Complete(s.tasks[t])
  {
    var e, first := Envelope(t, b), s.tasks[t].offsets[0];
    && first <= o
    && ((e in s.acks && o < first + |s.tasks[t].msgs|) || (e in s.storing && o < first + s.storing[e]))
  }

  /** The record is the first one of a produce whose place is further on, and the request was dropped. */
  predicate Displaced(s: State, h: Turn, t: nat, b: int, o: nat)
    requires t in s.tasks && Complete(s.tasks[t]) && b in s.brokers
  {
    var e := Envelope(t, b);
    && o < s.tasks[t].offsets[0] && e in h.begun && e !in s.acks && e !in s.storing
    && HasAt(s.brokers[b], s.tasks[t].part, o, s.tasks[t].msgs[0])
  }

  ghost predicate PlacedAt(s: State, h: Turn, c: Scope, at: Place, t: nat) {
    && Ours(s, c, t) && RequestOk(s, Envelope(t, at.broker))
    && (InPlace(s, t, at.broker, at.offset) || Displaced(s, h, t, at.broker, at.offset))
  }

  predicate OnFollower(c: Scope, at: Place) {
    at.part == c.part && at.broker != c.leader
  }

  ghost predicate Placed(s: State, h: Turn, k: History, c: Scope) {
    forall at :: at in k.origins && OnFollower(c, at) ==> PlacedAt(s, h, c, at, k.origins[at])
  }

  /** Every record past the initial ones has an origin. */
  ghost predicate Filled(s: State, k: History, c: Scope, base: nat) {
    forall b, o :: b in s.brokers && base <= o < |LogAt(s, c, b)| ==> Place(b, c.part, o) in k.origins
  }

  // ----- kept by every step

  lemma InPlaceKept(s: State, h: Turn, a: Action, c: Scope, t: nat, b: int, o: nat)
    requires Inv(s) && Orderly(s, h, c) && Enabled(s, a) && InTurn(s, h, a, c)
    requires Ours(s, c, t) && Complete(s.tasks[t]) && InPlace(s, t, b, o)
    ensures t in Apply(s, a).tasks && Complete(Apply(s, a).tasks[t]) && InPlace(Apply(s, a), t, b, o)
  {
    var e := Envelope(t, b);
    if a == Store(e) {
      StoreAtTurn(s, h, c, e);
      InPlaceStored(s, h, c, e, o);
    } else {
      InPlaceElsewhere(s, h, a, c, e, o);
    }
  }

  lemma InPlaceElsewhere(s: State, h: Turn, a: Action, c: Scope, e: Envelope, o: nat)
    requires Enabled(s, a) && InTurn(s, h, a, c) && a != Store(e) && (e in s.storing ==> e in h.begun)
    requires Ours(s, c, e.task) && Complete(s.tasks[e.task]) && InPlace(s, e.task, e.peer, o)
    ensures var n := Apply(s, a);
            e.task in n.tasks && Complete(n.tasks[e.task]) && InPlace(n, e.task, e.peer, o)
  {
    StepFollows(s, a);
  }

  lemma InPlaceStored(s: State, h: Turn, c: Scope, e: Envelope, o: nat)
    requires AtTurn(s, h, c, e) && Enabled(s, Store(e)) && InPlace(s, e.task, e.peer, o)
    ensures var n := Apply(s, Store(e));
            e.task in n.tasks && Complete(n.tasks[e.task]) && InPlace(n, e.task, e.peer, o)
  {
    StoreInPlace(s, h, c, e);
  }

  lemma DisplacedKept(s: State, h: Turn, a: Action, c: Scope, t: nat, b: int, o: nat)
    requires Enabled(s, a) && InTurn(s, h, a, c) && Ours(s, c, t) && Complete(s.tasks[t]) && b in s.brokers
             && Displaced(s, h, t, b, o)
    ensures t in Apply(s, a).tasks && Complete(Apply(s, a).tasks[t]) && b in Apply(s, a).brokers
    ensures Displaced(Apply(s, a), Turned(s, h, a, c), t, b, o)
  {
    StepFollows(s, a);
    assert LogOf(s.brokers[b], c.part) <= LogOf(Apply(s, a).brokers[b], c.part);
    assert a != Begin(Envelope(t, b)) && a != Store(Envelope(t, b));
  }

  lemma NewlyPlaced(s: State, h: Turn, c: Scope, e: Envelope)
    requires AtTurn(s, h, c, e) && Enabled(s, Store(e))
    ensures PlacedAt(Apply(s, Store(e)), h, c, End(s, e.peer, c.part), e.task)
  {
    StoreInPlace(s, h, c, e);
    StepFollows(s, Store(e));
    var n, task := Apply(s, Store(e)), s.tasks[e.task];
    assert LogAt(n, c, e.peer) == LogAt(s, c, e.peer) + [task.msgs[s.storing[e]]];
  }

  lemma StepKeepsPlaced(s: State, h: Turn, k: History, a: Action, c: Scope, at: Place)
    requires Inv(s) && Orderly(s, h, c) && Origins(s, k) && Placed(s, h, k, c) && Enabled(s, a) && InTurn(s, h, a, c)
    requires at in Noted(s, k, a).origins && OnFollower(c, at)
    ensures PlacedAt(Apply(s, a), Turned(s, h, a, c), c, at, Noted(s, k, a).origins[at])
  {
    if at in k.origins {
      OriginKept(s, k, a, at);
      var t := k.origins[at];
      assert PlacedAt(s, h, c, at, t);
      StepFollows(s, a);
      if InPlace(s, t, at.broker, at.offset) {
        InPlaceKept(s, h, a, c, t, at.broker, at.offset);
      } else {
        DisplacedKept(s, h, a, c, t, at.broker, at.offset);
      }
    } else if a.Store? {
      StoreAtTurn(s, h, c, a.e);
      NewlyPlaced(s, h, c, a.e);
    }
  }

  lemma StepKeepsFilled(s: State, k: History, a: Action, c: Scope, base: nat, b: int, o: nat)
    requires Filled(s, k, c, base) && Enabled(s, a) && b in Apply(s, a).brokers
             && base <= o < |LogAt(Apply(s, a), c, b)|
    ensures Place(b, c.part, o) in Noted(s, k, a).origins
  {
    StepGrows(s, a);
    if o < |LogAt(s, c, b)| {
      assert Place(b, c.part, o) in k.origins;
    } else {
      GrownByOne(s, a, c, b);
    }
  }

  /** A log that a step lengthens gains one record, at its end. */
  lemma GrownByOne(s: State, a: Action, c: Scope, b: int)
    requires Enabled(s, a) && b in s.brokers && b in Apply(s, a).brokers
             && |LogAt(Apply(s, a), c, b)| > |LogAt(s, c, b)|
    ensures |LogAt(Apply(s, a), c, b)| == |LogAt(s, c, b)| + 1
    ensures End(s, b, c.part) in Noted(s, History(map[], map[], map[]), a).origins
  {
  }

  lemma {:induction false} RunKeepsPlaced(s: State, h: Turn, k: History, actions: seq<Action>, n: State, c: Scope,
          base: nat)
    returns (m: History)
    requires Inv(s) && Orderly(s, h, c) && Origins(s, k) && Placed(s, h, k, c) && Filled(s, k, c, base)
    requires Run(s, actions, n) && InTurnRun(s, h, actions, c)
    ensures Inv(n) && Orderly(n, Turns(s, h, actions, c), c) && Origins(n, m)
    ensures Placed(n, Turns(s, h, actions, c), m, c) && Filled(n, m, c, base)
    decreases |actions|
  {
    if |actions| == 0 {
      m := k;
    } else {
      var a := actions[0];
      StepKeeps(s, a);
      StepOrderly(s, h, a, c);
      StepKeepsOrigins(s, k, a);
      PlacedNext(s, h, k, a, c, base);
      m := RunKeepsPlaced(Apply(s, a), Turned(s, h, a, c), Noted(s, k, a), actions[1..], n, c, base);
    }
  }

  lemma PlacedNext(s: State, h: Turn, k: History, a: Action, c: Scope, base: nat)
    requires Inv(s) && Orderly(s, h, c) && Origins(s, k) && Placed(s, h, k, c) && Filled(s, k, c, base)
    requires Enabled(s, a) && InTurn(s, h, a, c)
    ensures Placed(Apply(s, a), Turned(s, h, a, c), Noted(s, k, a), c) && Filled(Apply(s, a), Noted(s, k, a), c, base)
  {
    var n, m := Apply(s, a), Noted(s, k, a);
    forall at | at in m.origins && OnFollower(c, at) ensures PlacedAt(n, Turned(s, h, a, c), c, at, m.origins[at]) {
      StepKeepsPlaced(s, h, k, a, c, at);
    }
    forall b, o | b in n.brokers && base <= o < |LogAt(n, c, b)| ensures Place(b, c.part, o) in m.origins {
      StepKeepsFilled(s, k, a, c, base, b, o);
    }
  }

  // ----- what is served

  /** The leader holds each record of its own produce at its own offset. */
  lemma LeaderHolds(s: State, h: Turn, c: Scope, t: nat, i: nat)
    requires Inv(s) && Orderly(s, h, c) && Ours(s, c, t) && Complete(s.tasks[t]) && i < |s.tasks[t].msgs|
    ensures HasAt(s.brokers[c.leader], c.part, s.tasks[t].offsets[0] + i, s.tasks[t].msgs[i])
  {
    assert ProduceOk(s, h, c, t) && TaskOk(s, t);
    assert HasAt(s.brokers[c.leader], c.part, s.tasks[t].offsets[i], s.tasks[t].msgs[i]);
  }

  lemma InPlaceHolds(s: State, c: Scope, t: nat, b: int, o: nat)
    requires Inv(s) && Ours(s, c, t) && RequestOk(s, Envelope(t, b)) && InPlace(s, t, b, o)
    ensures o - s.tasks[t].offsets[0] < |s.tasks[t].msgs|
            && HasAt(s.brokers[b], c.part, o, s.tasks[t].msgs[o - s.tasks[t].offsets[0]])
  {
    var e, first := Envelope(t, b), s.tasks[t].offsets[0];
    var i := o - first;
    if e in s.acks && i < |s.tasks[t].msgs| {
      assert AckOk(s, e);
      assert HasAt(s.brokers[b], c.part, first + i, s.tasks[t].msgs[i]);
    } else {
      assert StoringOk(s, e);
      assert HasAt(s.brokers[b], c.part, first + i, s.tasks[t].msgs[i]);
    }
  }

  /** What a fetch of the offset returns is that record of the leader. */
  ghost predicate Serves(s: State, c: Scope, b: int, o: nat, at: nat)
    requires b in s.brokers && c.leader in s.brokers
  {
    && at < |LogAt(s, c, c.leader)| && o < |LogAt(s, c, b)| && LogAt(s, c, b)[o] == LogAt(s, c, c.leader)[at]
    && (Fetch(s.brokers[b], c.part, o).Some? ==> Fetch(s.brokers[b], c.part, o).value == LogAt(s, c, c.leader)[at])
  }

  /** In every run that keeps to the turns, from equal logs, each record a follower stored came with one request
      of the leader. Either the follower acknowledged that request, or is still at it, and then it stores and
      serves the leader's record of this offset; or it dropped the request, and then it stores and serves a record
      the leader holds at a later offset. */
  lemma FollowerServes(start: State, actions: seq<Action>, s: State, c: Scope, b: int, o: nat) returns (t: nat)
    requires Initial(start) && EqualLogs(start, c) && Run(start, actions, s) && InTurnRun(start, FIRST_TURN, actions, c)
    requires b in s.brokers && b != c.leader && c.leader in start.brokers
    requires |LogAt(start, c, c.leader)| <= o < |LogAt(s, c, b)|
    ensures c.leader in s.brokers && Ours(s, c, t) && Complete(s.tasks[t]) && Envelope(t, b) in s.requests
    ensures var e, first := Envelope(t, b), s.tasks[t].offsets[0];
            if e in s.acks || e in s.storing then first <= o < first + |s.tasks[t].msgs| && Serves(s, c, b, o, o)
            else o < first && Serves(s, c, b, o, first)
  {
    InitialInv(start);
    InitialTurn(start, c);
    var base := |LogAt(start, c, c.leader)|;
    var m := RunKeepsPlaced(start, FIRST_TURN, NO_HISTORY, actions, s, c, base);
    var h := Turns(start, FIRST_TURN, actions, c);
    var at := Place(b, c.part, o);
    assert at in m.origins;
    t := m.origins[at];
    assert PlacedAt(s, h, c, at, t);
    PlacedServes(s, h, c, b, o, t);
  }

  lemma PlacedServes(s: State, h: Turn, c: Scope, b: int, o: nat, t: nat)
    requires Inv(s) && Orderly(s, h, c) && b in s.brokers && PlacedAt(s, h, c, Place(b, c.part, o), t)
    ensures Envelope(t, b) in s.requests
    ensures var e, first := Envelope(t, b), s.tasks[t].offsets[0];
            if e in s.acks || e in s.storing then first <= o < first + |s.tasks[t].msgs| && Serves(s, c, b, o, o)
            else o < first && Serves(s, c, b, o, first)
  {
    var e, first := Envelope(t, b), s.tasks[t].offsets[0];
    assert e in h.begun ==> e in s.requests;
    if InPlace(s, t, b, o) {
      InPlaceHolds(s, c, t, b, o);
      LeaderHolds(s, h, c, t, o - first);
    } else {
      LeaderHolds(s, h, c, t, 0);
    }
  }
}

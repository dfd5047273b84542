/** Quorum replication over a fixed set of brokers, as a system of steps. Any broker may take or lose
    the leader role at any moment, any number may lead at once, and requests, acknowledgements and
    commit notices may be lost, delayed or repeated. */
module Cluster {
  import opened Options
  import opened Replication

  type Message = string

  /** handle_produce and handle_batch_produce, by how far they have come. */
  datatype Stage = Appending | Waiting | Exchanging | Quorate | Done

  /** One produce or batch in progress on a broker. credited records the brokers its count stands for. */
  datatype Task = Task(owner: int, part: Part, msgs: seq<Message>, offsets: seq<nat>, stage: Stage, credited: set<int>)

  datatype Broker = Broker(leads: bool, logs: map<Part, seq<Message>>, ledger: Ledger, current: Option<nat>)

  /** A replication request for a task, addressed to a peer. */
  datatype Envelope = Envelope(task: nat, peer: int)

  /** peers is the length of every broker's peer list. */
  datatype State = State(peers: nat, brokers: map<int, Broker>, tasks: map<nat, Task>, requests: set<Envelope>,
                         storing: map<Envelope, nat>, acks: set<Envelope>, replies: set<nat>)

  datatype Action =
    | SetRole(b: int, leads: bool)
    | Submit(t: nat, b: int, part: Part, msgs: seq<Message>)
    | Append(t: nat)
    | Refuse(t: nat)
    | Open(t: nat)
    | Send(t: nat, p: int)
    | Begin(e: Envelope)
    | Store(e: Envelope)
    | Receive(e: Envelope)
    | Close(t: nat)
    | Answer(t: nat)
    | GiveUp(t: nat)
    | Notice(b: int, part: Part, offset: nat)

  function LogOf(b: Broker, part: Part): seq<Message> {
    if part in b.logs then b.logs[part] else []
  }

  function Appended(b: Broker, part: Part, m: Message): Broker {
    b.(logs := b.logs[part := LogOf(b, part) + [m]])
  }

  predicate Complete(t: Task) {
    |t.offsets| == |t.msgs| > 0
  }

  /** The slot whose acknowledgements are counted: first offset plus length minus one. */
  function SlotOf(t: Task): Slot
    requires Complete(t)
  {
    Slot(t.part, t.offsets[0] + |t.msgs| - 1)
  }

  function CommitAll(m: Ledger, part: Part, offsets: seq<nat>): Ledger {
    if |offsets| == 0 then m else Committed(CommitAll(m, part, offsets[..|offsets| - 1]), part, offsets[|offsets| - 1])
  }

  function LastOffset(t: Task): nat
    requires Complete(t)
  {
    t.offsets[|t.offsets| - 1]
  }

  predicate At(s: State, t: nat, stage: Stage) {
    t in s.tasks && s.tasks[t].stage == stage && s.tasks[t].owner in s.brokers
  }

  function OwnerOf(s: State, t: nat): Broker
    requires t in s.tasks && s.tasks[t].owner in s.brokers
  {
    s.brokers[s.tasks[t].owner]
  }

  // ----- steps

  /** When a step can be taken. An exchange holds the manager's lock, so the next exchange of the same broker,
      and the second look at the count before a reply, wait for its end. */
  predicate Enabled(s: State, a: Action) {
    match a
    case SetRole(b, _) => b in s.brokers
    case Submit(t, b, _, msgs) => t !in s.tasks && b in s.brokers && s.brokers[b].leads && |msgs| > 0
    case Append(t) => At(s, t, Appending) && |s.tasks[t].offsets| < |s.tasks[t].msgs|
    case Refuse(t) => t in s.tasks && s.tasks[t].stage == Waiting
    case Open(t) => At(s, t, Waiting) && Complete(s.tasks[t]) && OwnerOf(s, t).leads && OwnerOf(s, t).current == None
    case Send(t, p) => t in s.tasks && s.tasks[t].stage == Exchanging && p in s.brokers && p != s.tasks[t].owner
    case Begin(e) => e in s.requests && e.peer in s.brokers && !s.brokers[e.peer].leads
    case Store(e) =>
      && e in s.storing && e.task in s.tasks && e.peer in s.brokers
      && Complete(s.tasks[e.task]) && s.storing[e] < |s.tasks[e.task].msgs|
    case Receive(e) =>
      e in s.acks && At(s, e.task, Exchanging) && Complete(s.tasks[e.task]) && OwnerOf(s, e.task).leads
    case Close(t) => At(s, t, Exchanging) && Complete(s.tasks[t])
    case Answer(t) =>
      && At(s, t, Quorate) && Complete(s.tasks[t]) && OwnerOf(s, t).current == None
      && QuorumReached(OwnerOf(s, t).ledger, Slot(s.tasks[t].part, LastOffset(s.tasks[t])), s.peers)
    case GiveUp(t) => t in s.tasks && s.tasks[t].stage == Quorate
    case Notice(b, _, _) => b in s.brokers
  }

  /** The local append of the next record of a task. */
  function AfterAppend(s: State, t: nat): State
    requires Enabled(s, Append(t))
  {
    var task := s.tasks[t];
    var b := s.brokers[task.owner];
    var offsets := task.offsets + [|LogOf(b, task.part)|];
    var stage := if |offsets| == |task.msgs| then Waiting else Appending;
    s.(brokers := s.brokers[task.owner := Appended(b, task.part, task.msgs[|task.offsets|])],
       tasks := s.tasks[t := task.(offsets := offsets, stage := stage)])
  }

  /** handle_replication_request, one record: stop without an acknowledgement when the record did
      not land on the offset the leader named; acknowledge after the last one. */
  function AfterStore(s: State, e: Envelope): State
    requires Enabled(s, Store(e))
  {
    var task, i := s.tasks[e.task], s.storing[e];
    var b := s.brokers[e.peer];
    var landed := |LogOf(b, task.part)|;
    var stored := s.(brokers := s.brokers[e.peer := Appended(b, task.part, task.msgs[i])]);
    if landed != task.offsets[0] + i then stored.(storing := s.storing - {e})
    else if i + 1 == |task.msgs| then stored.(storing := s.storing - {e}, acks := s.acks + {e})
    else stored.(storing := s.storing[e := i + 1])
  }

  function AfterOpen(s: State, t: nat): State
    requires Enabled(s, Open(t))
  {
    var task := s.tasks[t];
    var b := s.brokers[task.owner];
    var busy := b.(ledger := Opened(b.ledger, SlotOf(task), task.owner), current := Some(t));
    s.(brokers := s.brokers[task.owner := busy],
       tasks := s.tasks[t := task.(stage := Exchanging, credited := {task.owner})])
  }

  function AfterReceive(s: State, e: Envelope): State
    requires Enabled(s, Receive(e))
  {
    var task := s.tasks[e.task];
    var b := s.brokers[task.owner];
    var credited := if e.peer in FollowersOf(b.ledger, SlotOf(task)) then task.credited else task.credited + {e.peer};
    s.(brokers := s.brokers[task.owner := b.(ledger := Acked(b.ledger, SlotOf(task), e.peer))],
       tasks := s.tasks[e.task := task.(credited := credited)])
  }

  function AfterClose(s: State, t: nat): State
    requires Enabled(s, Close(t))
  {
    var task := s.tasks[t];
    var b := s.brokers[task.owner];
    var stage := if QuorumReached(b.ledger, SlotOf(task), s.peers) then Quorate else Done;
    s.(brokers := s.brokers[task.owner := b.(current := None)], tasks := s.tasks[t := task.(stage := stage)])
  }

  function AfterAnswer(s: State, t: nat): State
    requires Enabled(s, Answer(t))
  {
    var task := s.tasks[t];
    var b := s.brokers[task.owner];
    s.(brokers := s.brokers[task.owner := b.(ledger := CommitAll(b.ledger, task.part, task.offsets))],
       tasks := s.tasks[t := task.(stage := Done)], replies := s.replies + {t})
  }

  function Apply(s: State, a: Action): State
    requires Enabled(s, a)
  {
    match a
    case SetRole(b, leads) => s.(brokers := s.brokers[b := s.brokers[b].(leads := leads)])
    case Submit(t, b, part, msgs) => s.(tasks := s.tasks[t := Task(b, part, msgs, [], Appending, {})])
    case Append(t) => AfterAppend(s, t)
    case Refuse(t) => s.(tasks := s.tasks[t := s.tasks[t].(stage := Done)])
    case Open(t) => AfterOpen(s, t)
    case Send(t, p) => s.(requests := s.requests + {Envelope(t, p)})
    case Begin(e) => s.(storing := s.storing[e := 0])
    case Store(e) => AfterStore(s, e)
    case Receive(e) => AfterReceive(s, e)
    case Close(t) => AfterClose(s, t)
    case Answer(t) => AfterAnswer(s, t)
    case GiveUp(t) => s.(tasks := s.tasks[t := s.tasks[t].(stage := Done)])
    case Notice(b, part, offset) =>
      s.(brokers := s.brokers[b := s.brokers[b].(ledger := Committed(s.brokers[b].ledger, part, offset))])
  }

  /** Brokers at the start: any logs, any roles, nothing counted and no exchange under way. */
  ghost predicate Initial(s: State) {
    && |s.brokers| <= 1 + s.peers
    && s.tasks == map[] && s.requests == {} && s.storing == map[] && s.acks == {} && s.replies == {}
    && forall b :: b in s.brokers ==> s.brokers[b].current == None && s.brokers[b].ledger == EMPTY_LEDGER
  }

  /** Nothing keeps things from going wrong: in every state any broker may win or lose the role, a produce may fail
      before and after its exchange, requests may be sent to any peer again and again, begun again by any follower,
      and any broker may be told that any offset is committed. */
  lemma AnythingMayHappen(s: State, b: int, leads: bool, t: nat, p: int, part: Part, offset: nat)
    requires b in s.brokers
    ensures Enabled(s, SetRole(b, leads)) && Enabled(s, Notice(b, part, offset))
    ensures t in s.tasks && s.tasks[t].stage == Waiting ==> Enabled(s, Refuse(t))
    ensures t in s.tasks && s.tasks[t].stage == Quorate ==> Enabled(s, GiveUp(t))
    ensures t in s.tasks && s.tasks[t].stage == Exchanging && p in s.brokers && p != s.tasks[t].owner ==>
              Enabled(s, Send(t, p))
    ensures Envelope(t, b) in s.requests && !s.brokers[b].leads ==> Enabled(s, Begin(Envelope(t, b)))
  {
  }

  // ----- logs only grow

  ghost predicate Grown(s: State, n: State) {
    && n.brokers.Keys == s.brokers.Keys && n.peers == s.peers
    && forall b, part :: b in s.brokers ==> LogOf(s.brokers[b], part) <= LogOf(n.brokers[b], part)
  }

  lemma AppendGrows(s: State, b: int, part: Part, m: Message)
    requires b in s.brokers
    ensures Grown(s, s.(brokers := s.brokers[b := Appended(s.brokers[b], part, m)]))
  {
  }

  /** No step rewrites or drops a stored record, on any broker. */
  lemma StepGrows(s: State, a: Action)
    requires Enabled(s, a)
    ensures Grown(s, Apply(s, a))
  {
    match a {
      case Append(t) => {
        var task := s.tasks[t];
        AppendGrows(s, task.owner, task.part, task.msgs[|task.offsets|]);
      }
      case Store(e) => {
        var task := s.tasks[e.task];
        AppendGrows(s, e.peer, task.part, task.msgs[s.storing[e]]);
      }
      case _ => {}
    }
  }
}

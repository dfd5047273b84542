/** The bookkeeping of one broker's replication manager, with the network as a parameter: what each peer
    answers when it is sent a request. */
module ReplicationManagers {
  import opened Replication
  import opened Election

  /** What comes back from a peer: nothing, an acknowledgement, or something else. */
  datatype Reply = Lost | Ack(broker: int, slot: Slot) | Other

  /** ack maps, commit index and failed_peers_ */
  datatype View = View(ledger: Ledger, failed: set<int>)

  function ReplyOf(replies: map<int, Reply>, peer: int): Reply {
    if peer in replies then replies[peer] else Lost
  }

  /** The slot an acknowledgement names; one without a topic is for the partition being replicated. */
  function Named(at: Slot, slot: Slot): Slot {
    if at.part.topic == "" then Slot(slot.part, at.offset) else at
  }

  /** One turn of replicate_message's loop: any acknowledgement is counted, under the slot it names, and
      one that falls short of the offset still marks the peer failed. */
  function AfterPeer(v: View, self: int, peer: int, slot: Slot, reply: Reply): View {
    if peer == self || peer in v.failed then v
    else match reply
      case Ack(b, at) =>
        View(Acked(v.ledger, Named(at, slot), b), if at.offset >= slot.offset then v.failed else v.failed + {peer})
      case _ => v.(failed := v.failed + {peer})
  }

  /** One turn of replicate_batch's loop: a short acknowledgement counts for nothing. */
  function AfterBatchPeer(v: View, self: int, peer: int, slot: Slot, reply: Reply): View {
    if peer == self || peer in v.failed then v
    else match reply
      case Ack(b, at) =>
        if at.offset >= slot.offset then v.(ledger := Acked(v.ledger, Slot(slot.part, at.offset), b))
        else v.(failed := v.failed + {peer})
      case _ => v.(failed := v.failed + {peer})
  }

  function AfterPeers(v: View, self: int, peers: seq<int>, slot: Slot, replies: map<int, Reply>): View {
    if |peers| == 0 then v
    else
      var last := peers[|peers| - 1];
      AfterPeer(AfterPeers(v, self, peers[..|peers| - 1], slot, replies), self, last, slot, ReplyOf(replies, last))
  }

  function AfterBatchPeers(v: View, self: int, peers: seq<int>, slot: Slot, replies: map<int, Reply>): View {
    if |peers| == 0 then v
    else
      var last := peers[|peers| - 1];
      AfterBatchPeer(AfterBatchPeers(v, self, peers[..|peers| - 1], slot, replies), self, last, slot,
          ReplyOf(replies, last))
  }

  // ----- when peers acknowledge only what they were sent, under their own id

  ghost predicate Honest(peers: seq<int>, replies: map<int, Reply>, slot: Slot) {
    && slot.part.topic != ""
    && forall p :: p in peers && ReplyOf(replies, p).Ack? ==> ReplyOf(replies, p) == Ack(p, slot)
  }

  /** The peers that are tried and acknowledge. */
  function Ackers(failed: set<int>, self: int, peers: seq<int>, replies: map<int, Reply>): set<int> {
    if |peers| == 0 then {}
    else
      var last := peers[|peers| - 1];
      Ackers(failed, self, peers[..|peers| - 1], replies)
      + if last != self && last !in failed && ReplyOf(replies, last).Ack? then {last} else {}
  }

  lemma {:induction false} AckersExact(failed: set<int>, self: int, peers: seq<int>, replies: map<int, Reply>, p: int)
    ensures p in Ackers(failed, self, peers, replies)
            <==> p in peers && p != self && p !in failed && ReplyOf(replies, p).Ack?
  {
    if |peers| > 0 {
      var front, last := peers[..|peers| - 1], peers[|peers| - 1];
      assert peers == front + [last];
      AckersExact(failed, self, front, replies, p);
    }
  }

  /** The two loops then do the same. */
  lemma {:induction false} MessageIsBatch(v: View, self: int, peers: seq<int>, slot: Slot, replies: map<int, Reply>)
    requires Honest(peers, replies, slot)
    ensures AfterPeers(v, self, peers, slot, replies) == AfterBatchPeers(v, self, peers, slot, replies)
  {
    if |peers| > 0 {
      MessageIsBatch(v, self, peers[..|peers| - 1], slot, replies);
    }
  }

  /** The peers marked failed after the loop are the old ones and those that were sent a request and did
      not acknowledge it. */
  lemma {:induction false} FailedExact(v: View, self: int, peers: seq<int>, slot: Slot, replies: map<int, Reply>,
          p: int)
    requires Honest(peers, replies, slot)
    ensures p in AfterPeers(v, self, peers, slot, replies).failed
            <==> p in v.failed || (p in peers && p != self && !ReplyOf(replies, p).Ack?)
  {
    if |peers| > 0 {
      var front, last := peers[..|peers| - 1], peers[|peers| - 1];
      assert peers == front + [last];
      FailedExact(v, self, front, slot, replies, p);
    }
  }

  /** The count stands for the leader and those of these peers that had not been counted for the slot before. */
  ghost predicate Counts(m: Ledger, slot: Slot, self: int, before: set<int>, ackers: set<int>) {
    && self !in ackers && slot in m.counts && m.counts[slot] == 1 + |ackers - before|
    && slot in m.followers && m.followers[slot] == before + {self} + ackers
  }

  lemma CountStep(v: View, self: int, peer: int, slot: Slot, reply: Reply, before: set<int>, ackers: set<int>)
    requires Counts(v.ledger, slot, self, before, ackers) && slot.part.topic != ""
             && (reply.Ack? ==> reply == Ack(peer, slot))
    ensures var now := if peer != self && peer !in v.failed && reply.Ack? then ackers + {peer} else ackers + {};
            Counts(AfterPeer(v, self, peer, slot, reply).ledger, slot, self, before, now)
  {
    if peer == self || peer in v.failed || !reply.Ack? {
      assert ackers + {} == ackers;
    } else if peer in ackers {
      assert ackers + {peer} == ackers;
    } else if peer in before {
      assert ackers + {peer} - before == ackers - before;
      assert before + {self} + (ackers + {peer}) == before + {self} + ackers;
    } else {
      assert ackers + {peer} - before == ackers - before + {peer};
      assert before + {self} + (ackers + {peer}) == before + {self} + ackers + {peer};
    }
  }

  /** After the loop the count is one more than the number of peers that acknowledged and had not been counted
      for the slot by an earlier exchange; the follower set is the old one, the leader, and all that acknowledged. */
  lemma {:induction false} CountExact(m: Ledger, failed: set<int>, self: int, peers: seq<int>, slot: Slot,
          replies: map<int, Reply>)
    requires Honest(peers, replies, slot)
    ensures Counts(AfterPeers(View(Opened(m, slot, self), failed), self, peers, slot, replies).ledger,
                   slot, self, FollowersOf(m, slot), Ackers(failed, self, peers, replies))
  {
    var start := View(Opened(m, slot, self), failed);
    var before := FollowersOf(m, slot);
    if |peers| == 0 {
      assert before + {self} + {} == before + {self} && {} - before == {};
    } else {
      var front, last := peers[..|peers| - 1], peers[|peers| - 1];
      assert Honest(front, replies, slot) && last in peers;
      CountExact(m, failed, self, front, slot, replies);
      FailedExact(start, self, front, slot, replies, last);
      CountStep(AfterPeers(start, self, front, slot, replies), self, last, slot, ReplyOf(replies, last), before,
                Ackers(failed, self, front, replies));
    }
  }

  /** The exchange of a slot can reach the quorum: the leader and the peers that are available, acknowledge, and
      were not counted by an earlier exchange of the slot are a majority of the replicas. */
  predicate Majority(m: Ledger, failed: set<int>, self: int, peers: seq<int>, slot: Slot, replies: map<int, Reply>) {
    2 * (1 + |Ackers(failed, self, peers, replies) - FollowersOf(m, slot)|) > 1 + |peers|
  }

  /** An exchange reaches the quorum exactly then. */
  lemma MajorityIff(m: Ledger, failed: set<int>, self: int, peers: seq<int>, slot: Slot, replies: map<int, Reply>)
    requires Honest(peers, replies, slot)
    ensures var end := AfterPeers(View(Opened(m, slot, self), failed), self, peers, slot, replies);
            QuorumReached(end.ledger, slot, |peers|) <==> Majority(m, failed, self, peers, slot, replies)
  {
    CountExact(m, failed, self, peers, slot, replies);
  }

  class ReplicationManager {
    const self: int
    const peers: seq<int>
    var leader: int
    var isLeader: bool
    var ackCounts: map<Slot, nat>
    var ackFollowers: map<Slot, set<int>>
    var commitIndex: map<Part, nat>
    var failedPeers: set<int>

    function Contents(): View
      reads this
    {
      View(Ledger(ackCounts, ackFollowers, commitIndex), failedPeers)
    }

    constructor (id: int, others: seq<int>, leads: bool, leaderId: int)
      ensures self == id && peers == others && Contents() == View(EMPTY_LEDGER, {})
      ensures isLeader == leads && leader == if leads then id else leaderId
    {
      self, peers, isLeader, leader := id, others, leads, if leads then id else leaderId;
      ackCounts, ackFollowers, commitIndex, failedPeers := map[], map[], map[], {};
    }

    /** handle_ack */
    method HandleAck(follower: int, slot: Slot)
      modifies `ackCounts, `ackFollowers, `commitIndex, `failedPeers
      ensures Contents() == old(Contents()).(ledger := if isLeader then Acked(old(Contents()).ledger, slot, follower)
              else old(Contents()).ledger)
      ensures isLeader ==> slot in ackFollowers && follower in ackFollowers[slot]
      ensures forall q :: q != slot ==>
                (q in ackCounts <==> q in old(ackCounts)) && (q in ackCounts ==> ackCounts[q] == old(ackCounts)[q])
    {
      if !isLeader {
        return;
      }
      var followers := if slot in ackFollowers then ackFollowers[slot] else {};
      if follower in followers {
        return;
      }
      ackFollowers := ackFollowers[slot := followers + {follower}];
      ackCounts := ackCounts[slot := (if slot in ackCounts then ackCounts[slot] else 0) + 1];
    }

    method MarkFollowerFailed(peer: int)
      modifies `ackCounts, `ackFollowers, `commitIndex, `failedPeers
      ensures Contents() == old(Contents()).(failed := old(failedPeers) + {peer})
    {
      failedPeers := failedPeers + {peer};
    }

    method BeginExchange(slot: Slot)
      modifies `ackCounts, `ackFollowers, `commitIndex, `failedPeers
      ensures Contents() == old(Contents()).(ledger := Opened(old(Contents()).ledger, slot, self))
    {
      ackCounts := ackCounts[slot := 1];
      ackFollowers := ackFollowers[slot := (if slot in ackFollowers then ackFollowers[slot] else {}) + {self}];
    }

    /** replicate_to_peer and what replicate_message does with its verdict */
    method ReplicateToPeer(peer: int, slot: Slot, reply: Reply)
      requires isLeader
      modifies `ackCounts, `ackFollowers, `commitIndex, `failedPeers
      ensures Contents() == AfterPeer(old(Contents()), self, peer, slot, reply)
      ensures peer == self || peer in old(failedPeers) ==> Contents() == old(Contents())
      ensures peer != self && peer !in old(failedPeers) ==>
                if !reply.Ack? then Contents() == old(Contents()).(failed := old(failedPeers) + {peer})
                else
                  var at := if reply.slot.part.topic == "" then Slot(slot.part, reply.slot.offset) else reply.slot;
                  && Contents().ledger == Acked(old(Contents()).ledger, at, reply.broker)
                  && failedPeers == old(failedPeers) + if reply.slot.offset < slot.offset then {peer} else {}
    {
      if peer == self || peer in failedPeers {
        return;
      }
      if reply.Ack? {
        HandleAck(reply.broker, Named(reply.slot, slot));
        if reply.slot.offset >= slot.offset {
          failedPeers := failedPeers - {peer};
          return;
        }
      }
      MarkFollowerFailed(peer);
    }

    /** replicate_message */
    method ReplicateMessage(slot: Slot, replies: map<int, Reply>) returns (ok: bool)
      modifies `ackCounts, `ackFollowers, `commitIndex, `failedPeers
      ensures !isLeader ==> !ok && Contents() == old(Contents())
      ensures isLeader ==>
        var start := old(Contents()).(ledger := Opened(old(Contents()).ledger, slot, self));
        && Contents() == AfterPeers(start, self, peers, slot, replies)
        && ok == QuorumReached(Contents().ledger, slot, |peers|)
    {
      if !isLeader {
        return false;
      }
      BeginExchange(slot);
      if |peers| == 0 {
        ok := QuorumReached(Contents().ledger, slot, |peers|);
        return;
      }
      ghost var start := Contents();
      for i := 0 to |peers|
        invariant isLeader && Contents() == AfterPeers(start, self, peers[..i], slot, replies)
      {
        ReplicateToPeer(peers[i], slot, ReplyOf(replies, peers[i]));
        assert peers[..i + 1][..i] == peers[..i];
      }
      assert peers[..|peers|] == peers;
      ok := QuorumReached(Contents().ledger, slot, |peers|);
    }

    method SendBatchToPeer(peer: int, slot: Slot, reply: Reply)
      requires isLeader
      modifies `ackCounts, `ackFollowers, `commitIndex, `failedPeers
      ensures Contents() == AfterBatchPeer(old(Contents()), self, peer, slot, reply)
      ensures peer == self || peer in old(failedPeers) ==> Contents() == old(Contents())
      ensures peer != self && peer !in old(failedPeers) ==>
                if !reply.Ack? || reply.slot.offset < slot.offset then
                  Contents() == old(Contents()).(failed := old(failedPeers) + {peer})
                else
                  Contents() == old(Contents()).(ledger := Acked(old(Contents()).ledger,
                                                                 Slot(slot.part, reply.slot.offset), reply.broker))
    {
      if peer == self || peer in failedPeers {
        return;
      }
      if reply.Ack? && reply.slot.offset >= slot.offset {
        HandleAck(reply.broker, Slot(slot.part, reply.slot.offset));
      } else {
        MarkFollowerFailed(peer);
      }
    }

    /** replicate_batch */
    method ReplicateBatch(part: Part, first: nat, count: nat, replies: map<int, Reply>) returns (ok: bool)
      modifies `ackCounts, `ackFollowers, `commitIndex, `failedPeers
      ensures !isLeader || count == 0 ==> !ok && Contents() == old(Contents())
      ensures isLeader && count > 0 ==>
        var slot := Slot(part, first + count - 1);
        var start := old(Contents()).(ledger := Opened(old(Contents()).ledger, slot, self));
        && Contents() == AfterBatchPeers(start, self, peers, slot, replies)
        && ok == QuorumReached(Contents().ledger, slot, |peers|)
    {
      if !isLeader || count == 0 {
        return false;
      }
      var slot := Slot(part, first + count - 1);
      BeginExchange(slot);
      ghost var start := Contents();
      for i := 0 to |peers|
        invariant isLeader && Contents() == AfterBatchPeers(start, self, peers[..i], slot, replies)
      {
        SendBatchToPeer(peers[i], slot, ReplyOf(replies, peers[i]));
        assert peers[..i + 1][..i] == peers[..i];
      }
      assert peers[..|peers|] == peers;
      ok := QuorumReached(Contents().ledger, slot, |peers|);
    }

    /** mark_committed */
    method MarkCommitted(part: Part, offset: nat)
      modifies `ackCounts, `ackFollowers, `commitIndex, `failedPeers
      ensures Contents() == old(Contents()).(ledger := Committed(old(Contents()).ledger, part, offset))
    {
      var committed := if part in commitIndex then commitIndex[part] else 0;
      if offset > committed {
        committed := offset;
      }
      commitIndex := commitIndex[part := committed];
    }

    /** broadcast_commit: send the notice to the available peers and mark those it does not reach. */
    method BroadcastCommit(reached: set<int>)
      modifies `failedPeers
      ensures forall p :: p in failedPeers <==>
                p in old(failedPeers) || (isLeader && p in peers && p != self && p !in reached)
    {
      if !isLeader {
        return;
      }
      for i := 0 to |peers|
        invariant forall p :: p in failedPeers <==>
                    p in old(failedPeers) || (p in peers[..i] && p != self && p !in reached)
      {
        if peers[i] != self && peers[i] !in failedPeers {
          failedPeers := if peers[i] in reached then failedPeers - {peers[i]} else failedPeers + {peers[i]};
        }
        assert peers[..i + 1] == peers[..i] + [peers[i]];
      }
      assert peers[..|peers|] == peers;
    }

    /** maybe_elect_leader; silent are the peers not heard from within the heartbeat timeout. */
    method MaybeElectLeader(silent: set<int>)
      modifies `leader, `isLeader, `failedPeers
      ensures failedPeers == old(failedPeers) + silent
      ensures IsElected(self, peers, failedPeers, old(leader), leader)
      ensures old(isLeader <==> leader == self) ==> (isLeader <==> leader == self)
    {
      failedPeers := failedPeers + silent;
      var elected := ElectLeader(self, peers, failedPeers, leader);
      if leader != self && leader !in failedPeers {
        return;
      }
      leader := elected;
      isLeader := elected == self;
    }

    /** broadcast_heartbeat: elect, then mark each peer by whether the heartbeat reached it. */
    method BroadcastHeartbeat(silent: set<int>, reached: set<int>)
      modifies `leader, `isLeader, `failedPeers
      ensures IsElected(self, peers, old(failedPeers) + silent, old(leader), leader)
      ensures old(isLeader <==> leader == self) ==> (isLeader <==> leader == self)
      ensures forall p :: p in failedPeers <==>
                if p in peers && p != self then p !in reached else p in old(failedPeers) || p in silent
    {
      MaybeElectLeader(silent);
      failedPeers := failedPeers + silent;
      for i := 0 to |peers|
        modifies `failedPeers
        invariant forall p :: p in failedPeers <==>
                    if p in peers[..i] && p != self then p !in reached else p in old(failedPeers) || p in silent
      {
        if peers[i] != self {
          failedPeers := if peers[i] in reached then failedPeers - {peers[i]} else failedPeers + {peers[i]};
        }
        assert peers[..i + 1] == peers[..i] + [peers[i]];
      }
      assert peers[..|peers|] == peers;
    }
  }
}

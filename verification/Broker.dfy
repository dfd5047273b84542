/** The request handlers of a broker, one request at a time: storage, replication and consumer groups
    together. Replies of the network are parameters. */
module BrokerHandlers {
  import opened Bytes
  import opened Options
  import opened Replication
  import opened ReplicationManagers
  import opened ConsumerGroups
  import Cluster
  import ClusterSafety
  import CommittedReads

  type Message = string

  datatype Response = Response(ok: bool, text: string, offset: Option<nat>, offsets: seq<nat>)

  function Failure(reason: string): Response {
    Response(false, reason, None, [])
  }

  /** What others do during a produce: what peers answer, whether the count still stands at a quorum when the
      handler looks at it again, which peers the commit notices reach, and what the leader answers to a forward. */
  datatype Network = Network(replies: map<int, Reply>, waited: bool, notified: set<int>, forwarded: Response)

  class BrokerNode {
    const manager: ReplicationManager
    const groups: ConsumerGroupManager
    var logs: map<Part, seq<Message>>

    constructor (manager: ReplicationManager, groups: ConsumerGroupManager)
      ensures this.manager == manager && this.groups == groups && logs == map[]
    {
      this.manager, this.groups, logs := manager, groups, map[];
    }

    /** This broker as the cluster sees it. */
    function Seen(): Cluster.Broker
      reads this, manager
    {
      Cluster.Broker(manager.isLeader, logs, manager.Contents().ledger, None)
    }

    function Ledger(): Ledger
      reads manager
    {
      manager.Contents().ledger
    }

    function LogAt(part: Part): seq<Message>
      reads this
    {
      if part in logs then logs[part] else []
    }

    method StorageAppend(part: Part, message: Message) returns (offset: nat)
      modifies `logs
      ensures offset == |old(LogAt(part))|
      ensures logs == old(logs)[part := old(LogAt(part)) + [message]]
    {
      offset := |LogAt(part)|;
      logs := logs[part := LogAt(part) + [message]];
    }

    /** handle_fetch: the reply is what the broker serves at the offset, and the first violated condition names
        the error. */
    method HandleFetch(part: Part, offset: nat) returns (r: Response)
      ensures r.ok <==> part.topic != "" && part.index >= 0 && ClusterSafety.Fetch(Seen(), part, offset).Some?
      ensures r.ok ==> ClusterSafety.Fetch(Seen(), part, offset) == Some(r.text) && r.offset == Some(offset)
      ensures !r.ok ==> r.offset == None && r.offsets == []
                        && r.text == if part.topic == "" then "empty_topic"
                                     else if part.index < 0 then "invalid_partition"
                                     else if !IsCommitted(manager.Contents().ledger, part, offset)
                                         then "offset_not_committed"
                                     else "offset_not_found"
    {
      if part.topic == "" {
        return Failure("empty_topic");
      }
      if part.index < 0 {
        return Failure("invalid_partition");
      }
      if !IsCommitted(manager.Contents().ledger, part, offset) {
        return Failure("offset_not_committed");
      }
      var log := LogAt(part);
      if offset >= |log| || log[offset] == "" {
        return Failure("offset_not_found");
      }
      r := Response(true, log[offset], Some(offset), []);
    }

    /** Whether the exchange of the slot would reach the quorum now. */
    ghost predicate WouldReach(slot: Slot, net: Network)
      reads manager
    {
      Majority(manager.Contents().ledger, manager.failedPeers, manager.self, manager.peers, slot, net.replies)
    }

    /** Besides those marked failed before, exactly the peers that did not acknowledge are, and, after a commit,
        those its notice did not reach. */
    ghost predicate Marked(before: set<int>, net: Network, committed: bool)
      reads manager
    {
      forall p :: p in manager.failedPeers <==>
        p in before || (p in manager.peers && p != manager.self
                        && (!ReplyOf(net.replies, p).Ack? || (committed && p !in net.notified)))
    }

    /** Exactly the offsets of the partition up to this one became committed. */
    static ghost predicate CommittedUpTo(before: Ledger, after: Ledger, part: Part, last: nat) {
      forall q: Part, o: nat :: IsCommitted(after, q, o) <==> IsCommitted(before, q, o) || (q == part && o <= last)
    }

    /** The exchange of a slot leaves the commit index alone and, if peers acknowledge honestly, succeeds exactly
        when a majority does. */
    method Replicate(slot: Slot, net: Network) returns (ok: bool)
      requires manager.isLeader
      modifies manager
      ensures manager.isLeader && manager.commitIndex == old(manager.commitIndex)
      ensures Honest(manager.peers, net.replies, slot) ==> (ok <==> old(WouldReach(slot, net)))
      ensures Honest(manager.peers, net.replies, slot) ==> Marked(old(manager.failedPeers), net, false)
    {
      ghost var before := manager.Contents();
      ok := manager.ReplicateMessage(slot, net.replies);
      LoopKeepsCommits(before.(ledger := Opened(before.ledger, slot, manager.self)), manager.self, manager.peers, slot,
          net.replies);
      if Honest(manager.peers, net.replies, slot) {
        MajorityIff(before.ledger, before.failed, manager.self, manager.peers, slot, net.replies);
        AllFailedExact(before.(ledger := Opened(before.ledger, slot, manager.self)), manager.self, manager.peers, slot,
            net.replies);
      }
    }

    /** Marks an offset committed and tells the peers. */
    method CommitOne(part: Part, offset: nat, net: Network)
      modifies manager
      ensures manager.isLeader == old(manager.isLeader)
      ensures manager.Contents().ledger == Replication.Committed(old(manager.Contents()).ledger, part, offset)
      ensures forall p :: p in manager.failedPeers <==>
                p in old(manager.failedPeers)
                || (manager.isLeader && p in manager.peers && p != manager.self && p !in net.notified)
    {
      manager.MarkCommitted(part, offset);
      manager.BroadcastCommit(net.notified);
    }

    /** handle_produce on a leader, for an accepted request. A record that fails to reach the quorum stays
        in the log, uncommitted; one that succeeds can be read back at once. */
    method Produce(part: Part, message: Message, listing: seq<int>, net: Network) returns (r: Response)
      requires groups.Valid() && manager.isLeader && message != ""
      modifies `logs, manager, groups
      ensures groups.Valid() && manager.isLeader
      ensures logs == old(logs)[part := old(LogAt(part)) + [message]] && r.offset == Some(|old(LogAt(part))|)
      ensures groups.groups == Refreshed(old(groups.groups), part.topic, listing)
      ensures r.ok ==> r.text == "" && ClusterSafety.Fetch(Seen(), part, |old(LogAt(part))|) == Some(message)
      ensures r.ok ==> CommittedUpTo(old(Ledger()), Ledger(), part, |old(LogAt(part))|)
      ensures !r.ok ==> r.text in {"replication_failed", "quorum_timeout"}
                        && manager.commitIndex == old(manager.commitIndex)
      ensures r.offsets == []
      ensures var slot := Slot(part, |old(LogAt(part))|);
              Honest(manager.peers, net.replies, slot) ==>
                && (r.ok <==> old(WouldReach(slot, net)) && net.waited)
                && (r.text == "quorum_timeout" <==> old(WouldReach(slot, net)) && !net.waited)
                && Marked(old(manager.failedPeers), net, r.ok)
    {
      var offset := StorageAppend(part, message);
      groups.RefreshTopic(part.topic, listing);
      var replicated := Replicate(Slot(part, offset), net);
      if !replicated {
        return Response(false, "replication_failed", Some(offset), []);
      }
      if !net.waited {
        return Response(false, "quorum_timeout", Some(offset), []);
      }
      CommitOne(part, offset, net);
      r := Response(true, "", Some(offset), []);
    }

    /** handle_produce: forwarded unless this broker leads, refused without any effect when a condition is violated,
        and otherwise as above. */
    method HandleProduce(part: Part, message: Message, listing: seq<int>, net: Network) returns (r: Response)
      requires groups.Valid()
      modifies `logs, manager, groups
      ensures groups.Valid() && manager.isLeader == old(manager.isLeader)
      ensures !manager.isLeader ==> r == net.forwarded
      ensures manager.isLeader && (part.topic == "" || part.index < 0 || message == "") ==>
                !r.ok && r.offset == None && r.offsets == []
                && r.text == if part.topic == "" then "empty_topic"
                             else if part.index < 0 then "invalid_partition" else "empty_message"
      ensures !manager.isLeader || part.topic == "" || part.index < 0 || message == "" ==>
                logs == old(logs) && manager.Contents() == old(manager.Contents())
                    && groups.groups == old(groups.groups)
      ensures manager.isLeader && part.topic != "" && part.index >= 0 && message != "" ==>
                var slot := Slot(part, |old(LogAt(part))|);
                && logs == old(logs)[part := old(LogAt(part)) + [message]] && r.offset == Some(slot.offset)
                && groups.groups == Refreshed(old(groups.groups), part.topic, listing)
                && (r.ok ==> r.text == "" && ClusterSafety.Fetch(Seen(), part, slot.offset) == Some(message))
                && (r.ok ==> CommittedUpTo(old(Ledger()), Ledger(), part, slot.offset))
                && (!r.ok ==> r.text in {"replication_failed", "quorum_timeout"}
                              && manager.commitIndex == old(manager.commitIndex))
                && (Honest(manager.peers, net.replies, slot) ==>
                      && (r.ok <==> old(WouldReach(slot, net)) && net.waited)
                      && (r.text == "quorum_timeout" <==> old(WouldReach(slot, net)) && !net.waited)
                      && Marked(old(manager.failedPeers), net, r.ok))
    {
      if !manager.isLeader {
        return net.forwarded;
      }
      if part.topic == "" {
        return Failure("empty_topic");
      }
      if part.index < 0 {
        return Failure("invalid_partition");
      }
      if message == "" {
        return Failure("empty_message");
      }
      r := Produce(part, message, listing, net);
    }

    // ----- batches

    /** The local append loop: taken as one block, its offsets are consecutive. */
    method AppendAll(part: Part, messages: seq<Message>) returns (offsets: seq<nat>)
      modifies `logs
      ensures offsets == OffsetsFrom(|old(LogAt(part))|, |messages|)
      ensures LogAt(part) == old(LogAt(part)) + messages
      ensures forall p :: p != part ==> LogAt(p) == old(LogAt(p))
    {
      offsets := [];
      for i := 0 to |messages|
        invariant offsets == OffsetsFrom(|old(LogAt(part))|, i)
        invariant LogAt(part) == old(LogAt(part)) + messages[..i]
        invariant forall p :: p != part ==> LogAt(p) == old(LogAt(p))
      {
        var offset := StorageAppend(part, messages[i]);
        offsets := offsets + [offset];
      }
    }

    /** The commit loop over the offsets of a batch. */
    method CommitAll(part: Part, offsets: seq<nat>, net: Network)
      modifies manager
      ensures manager.isLeader == old(manager.isLeader)
      ensures manager.Contents().ledger == Cluster.CommitAll(old(manager.Contents()).ledger, part, offsets)
      ensures |offsets| > 0 ==> forall p :: p in manager.failedPeers <==>
                p in old(manager.failedPeers)
                || (manager.isLeader && p in manager.peers && p != manager.self && p !in net.notified)
    {
      for i := 0 to |offsets|
        invariant manager.isLeader == old(manager.isLeader)
        invariant forall p :: p in manager.failedPeers <==>
                    p in old(manager.failedPeers)
                    || (i > 0 && manager.isLeader && p in manager.peers && p != manager.self && p !in net.notified)
        invariant manager.Contents().ledger == Cluster.CommitAll(old(manager.Contents()).ledger, part, offsets[..i])
      {
        CommitOne(part, offsets[i], net);
        assert offsets[..i + 1][..i] == offsets[..i];
      }
      assert offsets[..|offsets|] == offsets;
    }

    /** For consecutive offsets that commits exactly what lies up to the last one. */
    method CommitBlock(part: Part, offsets: seq<nat>, ghost first: nat, net: Network)
      requires |offsets| > 0 && offsets == OffsetsFrom(first, |offsets|)
      modifies manager
      ensures manager.isLeader == old(manager.isLeader)
      ensures CommittedUpTo(old(Ledger()), Ledger(), part, first + |offsets| - 1)
      ensures forall p :: p in manager.failedPeers <==>
                p in old(manager.failedPeers)
                || (manager.isLeader && p in manager.peers && p != manager.self && p !in net.notified)
    {
      ghost var before := manager.Contents().ledger;
      CommitAll(part, offsets, net);
      BatchCommitted(before, part, first, |offsets|);
    }

    /** The exchange of a batch, which is counted at its last offset. */
    method ReplicateAll(part: Part, first: nat, count: nat, net: Network) returns (ok: bool)
      requires manager.isLeader && count > 0
      modifies manager
      ensures manager.isLeader && manager.commitIndex == old(manager.commitIndex)
      ensures var slot := Slot(part, first + count - 1);
              Honest(manager.peers, net.replies, slot) ==>
                (ok <==> old(WouldReach(slot, net))) && Marked(old(manager.failedPeers), net, false)
    {
      ghost var before, slot := manager.Contents(), Slot(part, first + count - 1);
      ghost var start := before.(ledger := Opened(before.ledger, slot, manager.self));
      ok := manager.ReplicateBatch(part, first, count, net.replies);
      BatchKeepsCommits(start, manager.self, manager.peers, slot, net.replies);
      if Honest(manager.peers, net.replies, slot) {
        MessageIsBatch(start, manager.self, manager.peers, slot, net.replies);
        AllFailedExact(start, manager.self, manager.peers, slot, net.replies);
        MajorityIff(before.ledger, before.failed, manager.self, manager.peers, slot, net.replies);
      }
    }

    /** handle_batch_produce on a leader, for an accepted batch: after success every record of it is served
        at its offset, save empty ones. */
    method ProduceBatch(part: Part, messages: seq<Message>, listing: seq<int>, net: Network) returns (r: Response)
      requires groups.Valid() && manager.isLeader && |messages| > 0
      modifies `logs, manager, groups
      ensures groups.Valid() && manager.isLeader
      ensures LogAt(part) == old(LogAt(part)) + messages && r.offset == Some(|LogAt(part)| - 1)
      ensures forall p :: p != part ==> LogAt(p) == old(LogAt(p))
      ensures r.ok ==> r.text == "" && |r.offsets| == |messages|
                       && forall i :: 0 <= i < |messages| ==> r.offsets[i] == |old(LogAt(part))| + i
      ensures r.ok ==> forall o :: |old(LogAt(part))| <= o < |LogAt(part)| && LogAt(part)[o] != "" ==>
                ClusterSafety.Fetch(Seen(), part, o) == Some(LogAt(part)[o])
      ensures r.ok ==> CommittedUpTo(old(Ledger()), Ledger(), part, |LogAt(part)| - 1)
      ensures !r.ok ==> r.text == "quorum_timeout" && r.offsets == []
                        && manager.commitIndex == old(manager.commitIndex)
      ensures groups.groups == Refreshed(old(groups.groups), part.topic, listing)
      ensures var slot := Slot(part, |old(LogAt(part))| + |messages| - 1);
              Honest(manager.peers, net.replies, slot) ==>
                (r.ok <==> old(WouldReach(slot, net)) && net.waited) && Marked(old(manager.failedPeers), net, r.ok)
    {
      var offsets := AppendAll(part, messages);
      groups.RefreshTopic(part.topic, listing);
      ghost var first := |old(LogAt(part))|;
      OffsetsElements(first, |messages|);
      var last := offsets[|offsets| - 1];
      var replicated := ReplicateAll(part, offsets[0], |messages|, net);
      if !replicated || !net.waited {
        return Response(false, "quorum_timeout", Some(last), []);
      }
      CommitBlock(part, offsets, first, net);
      r := Response(true, "", Some(last), offsets);
    }

    /** handle_batch_produce: an empty batch is refused before anything else, then it is forwarded unless
        this broker leads. */
    method HandleBatchProduce(part: Part, messages: seq<Message>, listing: seq<int>, net: Network) returns (r: Response)
      requires groups.Valid()
      modifies `logs, manager, groups
      ensures groups.Valid() && manager.isLeader == old(manager.isLeader)
      ensures |messages| == 0 ==> r == Response(false, "empty_batch", None, [])
      ensures |messages| > 0 && !manager.isLeader ==> r == net.forwarded
      ensures |messages| > 0 && manager.isLeader && (part.topic == "" || part.index < 0) ==>
                r == Response(false, "invalid_batch", None, [])
      ensures |messages| == 0 || !manager.isLeader || part.topic == "" || part.index < 0 ==>
                logs == old(logs) && manager.Contents() == old(manager.Contents())
                    && groups.groups == old(groups.groups)
      ensures |messages| > 0 && manager.isLeader && part.topic != "" && part.index >= 0 ==>
                var slot := Slot(part, |old(LogAt(part))| + |messages| - 1);
                && LogAt(part) == old(LogAt(part)) + messages && r.offset == Some(slot.offset)
                && (forall p :: p != part ==> LogAt(p) == old(LogAt(p)))
                && groups.groups == Refreshed(old(groups.groups), part.topic, listing)
                && (!r.ok ==> r.text == "quorum_timeout" && r.offsets == []
                              && manager.commitIndex == old(manager.commitIndex))
                && (r.ok ==> r.text == "" && |r.offsets| == |messages|
                             && forall i :: 0 <= i < |messages| ==> r.offsets[i] == |old(LogAt(part))| + i)
                && (r.ok ==> CommittedUpTo(old(Ledger()), Ledger(), part, slot.offset))
                && (Honest(manager.peers, net.replies, slot) ==>
                      (r.ok <==> old(WouldReach(slot, net)) && net.waited)
                      && Marked(old(manager.failedPeers), net, r.ok))
                && (r.ok ==> forall o :: |old(LogAt(part))| <= o < |LogAt(part)| && LogAt(part)[o] != "" ==>
                      ClusterSafety.Fetch(Seen(), part, o) == Some(LogAt(part)[o]))
    {
      if |messages| == 0 {
        return Failure("empty_batch");
      }
      if !manager.isLeader {
        return net.forwarded;
      }
      if part.topic == "" || part.index < 0 {
        return Failure("invalid_batch");
      }
      r := ProduceBatch(part, messages, listing, net);
    }

    // ----- consumer groups

    /** The group reads this topic, and the partition is in the share of the member. */
    static predicate OwnerOf(gs: Groups, group: string, member: string, part: Part) {
      group in gs && gs[group].topic == part.topic && member in gs[group].assignments
      && part.index in gs[group].assignments[member]
    }

    /** handle_group_fetch: only the owner of the partition is served, from the group's cursor, which the
        fetch does not move. */
    method HandleGroupFetch(group: string, member: string, part: Part, forwarded: Response) returns (r: Response)
      ensures !manager.isLeader ==> r == forwarded
      ensures manager.isLeader && (group == "" || member == "" || part.topic == "" || part.index < 0) ==>
                r == Response(false, "invalid_group_request", None, [])
      ensures manager.isLeader && group != "" && member != "" && part.topic != "" && part.index >= 0 ==>
                var at := if group in groups.groups then Cursor(groups.groups[group], part.index) else 0;
                if !OwnerOf(groups.groups, group, member, part) then
                  r == Response(false, "partition_not_assigned", None, [])
                else if ClusterSafety.Fetch(Seen(), part, at).Some? then
                  r.ok && ClusterSafety.Fetch(Seen(), part, at) == Some(r.text) && r.offset == Some(at)
                else r == Response(false, if IsCommitted(manager.Contents().ledger, part, at) then "offset_not_found"
                                          else "offset_not_committed", None, [])
    {
      if !manager.isLeader {
        return forwarded;
      }
      if group == "" || member == "" || part.topic == "" || part.index < 0 {
        return Failure("invalid_group_request");
      }
      if !IsAssigned(groups.groups, group, member, part.topic, part.index) {
        return Failure("partition_not_assigned");
      }
      r := HandleFetch(part, NextOffset(groups.groups, group, part.topic, part.index));
    }

    /** handle_commit_offset: the owner's commit moves the cursor past the offset, and nobody else's does. */
    method HandleCommitOffset(group: string, member: string, part: Part, offset: nat, forwarded: Response)
      returns (r: Response)
      requires groups.Valid()
      modifies groups
      ensures groups.Valid()
      ensures !manager.isLeader ==> r == forwarded && groups.groups == old(groups.groups)
      ensures manager.isLeader && (group == "" || member == "" || part.topic == "" || part.index < 0) ==>
                r == Response(false, "invalid_group_request", None, []) && groups.groups == old(groups.groups)
      ensures manager.isLeader && group != "" && member != "" && part.topic != "" && part.index >= 0 ==>
                if !OwnerOf(old(groups.groups), group, member, part) then
                  r == Response(false, "partition_not_assigned", None, []) && groups.groups == old(groups.groups)
                else
                  && r == Response(true, "", Some(offset), []) && groups.groups.Keys == old(groups.groups.Keys)
                  && (forall n :: n in groups.groups && n != group ==> groups.groups[n] == old(groups.groups)[n])
                  && var was, now := old(groups.groups)[group], groups.groups[group];
                     && now.(offsets := was.offsets) == was
                     && (forall p :: p != part.index ==> Cursor(now, p) == Cursor(was, p))
                     && (offset < TWO_64 - 1 ==> Cursor(now, part.index) == Max(Cursor(was, part.index), offset + 1))
                     && (offset == TWO_64 - 1 ==> Cursor(now, part.index) == Cursor(was, part.index))
    {
      if !manager.isLeader {
        return forwarded;
      }
      if group == "" || member == "" || part.topic == "" || part.index < 0 {
        return Failure("invalid_group_request");
      }
      var ok := groups.Commit(group, member, part.topic, part.index, offset);
      if !ok {
        return Failure("partition_not_assigned");
      }
      r := Response(true, "", Some(offset), []);
    }
  }

  lemma {:induction false} LoopKeepsCommits(v: View, self: int, peers: seq<int>, slot: Slot, replies: map<int, Reply>)
    ensures AfterPeers(v, self, peers, slot, replies).ledger.commits == v.ledger.commits
  {
    if |peers| > 0 {
      LoopKeepsCommits(v, self, peers[..|peers| - 1], slot, replies);
    }
  }

  lemma {:induction false} BatchKeepsCommits(v: View, self: int, peers: seq<int>, slot: Slot, replies: map<int, Reply>)
    ensures AfterBatchPeers(v, self, peers, slot, replies).ledger.commits == v.ledger.commits
  {
    if |peers| > 0 {
      BatchKeepsCommits(v, self, peers[..|peers| - 1], slot, replies);
    }
  }

  lemma AllFailedExact(v: View, self: int, peers: seq<int>, slot: Slot, replies: map<int, Reply>)
    requires Honest(peers, replies, slot)
    ensures forall p :: p in AfterPeers(v, self, peers, slot, replies).failed
              <==> p in v.failed || (p in peers && p != self && !ReplyOf(replies, p).Ack?)
  {
    forall p ensures p in AfterPeers(v, self, peers, slot, replies).failed
                     <==> p in v.failed || (p in peers && p != self && !ReplyOf(replies, p).Ack?) {
      FailedExact(v, self, peers, slot, replies, p);
    }
  }

  /** Committing a block of offsets one by one commits exactly what lies up to the last one. */
  lemma BatchCommitted(m: Ledger, part: Part, first: nat, n: nat)
    requires n > 0
    ensures BrokerNode.CommittedUpTo(m, Cluster.CommitAll(m, part, OffsetsFrom(first, n)), part, first + n - 1)
  {
    var offsets := OffsetsFrom(first, n);
    forall q: Part, o: nat
      ensures IsCommitted(Cluster.CommitAll(m, part, offsets), q, o) <==>
              IsCommitted(m, q, o) || (q == part && o <= first + n - 1)
    {
      CommittedReads.CommitAllExact(m, part, offsets, q, o);
      OffsetsReach(first, n, o);
    }
  }

  lemma OffsetsElements(first: nat, n: nat)
    requires n > 0
    ensures |OffsetsFrom(first, n)| == n && forall i :: 0 <= i < n ==> OffsetsFrom(first, n)[i] == first + i
  {
    OffsetsFromAt(first, n, 0);
    forall i | 0 <= i < n ensures OffsetsFrom(first, n)[i] == first + i {
      OffsetsFromAt(first, n, i);
    }
  }

  lemma OffsetsReach(first: nat, n: nat, o: nat)
    requires n > 0
    ensures CommittedReads.AnyFrom(OffsetsFrom(first, n), o) <==> o <= first + n - 1
  {
    OffsetsElements(first, n);
    assert OffsetsFrom(first, n)[n - 1] == first + n - 1;
  }
}

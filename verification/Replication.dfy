/** Acknowledgement counting, quorums and commit indexes of one broker. */
module Replication {

  datatype Part = Part(topic: string, index: int)

  /** A record position: the key of the acknowledgement maps. */
  datatype Slot = Slot(part: Part, offset: nat)

  /** ack_counts_, ack_followers_ and commit_index_by_log_ */
  datatype Ledger = Ledger(counts: map<Slot, nat>, followers: map<Slot, set<int>>, commits: map<Part, nat>)

  const EMPTY_LEDGER := Ledger(map[], map[], map[])

  function FollowersOf(m: Ledger, slot: Slot): set<int> {
    if slot in m.followers then m.followers[slot] else {}
  }

  function CountOf(m: Ledger, slot: Slot): nat {
    if slot in m.counts then m.counts[slot] else 0
  }

  /** The start of replicate_message and replicate_batch: the count restarts at one, while the set
      of followers that ever acknowledged the slot is kept and gains the leader itself. */
  function Opened(m: Ledger, slot: Slot, self: int): Ledger {
    m.(counts := m.counts[slot := 1], followers := m.followers[slot := FollowersOf(m, slot) + {self}])
  }

  /** handle_ack on a leader: a follower counts once. */
  function Acked(m: Ledger, slot: Slot, follower: int): Ledger {
    if follower in FollowersOf(m, slot) then m
    else m.(counts := m.counts[slot := CountOf(m, slot) + 1],
            followers := m.followers[slot := FollowersOf(m, slot) + {follower}])
  }

  function Quorum(peers: nat): nat {
    (1 + peers) / 2 + 1
  }

  /** quorum_reached */
  predicate QuorumReached(m: Ledger, slot: Slot, peers: nat) {
    slot in m.counts && m.counts[slot] >= Quorum(peers)
  }

  /** mark_committed: an absent commit index counts as zero. */
  function Committed(m: Ledger, part: Part, offset: nat): Ledger {
    var committed := if part in m.commits then m.commits[part] else 0;
    m.(commits := m.commits[part := if offset > committed then offset else committed])
  }

  predicate IsCommitted(m: Ledger, part: Part, offset: nat) {
    part in m.commits && offset <= m.commits[part]
  }

  /** Once an offset is committed it stays committed. */
  lemma CommitMonotone(m: Ledger, p: Part, o: nat, part: Part, offset: nat)
    requires IsCommitted(m, part, offset)
    ensures IsCommitted(Committed(m, p, o), part, offset)
  {
  }

  /** n offsets in a row */
  function OffsetsFrom(first: nat, n: nat): seq<nat> {
    if n == 0 then [] else OffsetsFrom(first, n - 1) + [first + n - 1]
  }

  lemma {:induction false} OffsetsFromAt(first: nat, n: nat, i: nat)
    requires i < n
    ensures |OffsetsFrom(first, n)| == n && OffsetsFrom(first, n)[i] == first + i
  {
    if i < n - 1 {
      OffsetsFromAt(first, n - 1, i);
    } else if n > 1 {
      OffsetsFromAt(first, n - 1, 0);
    }
  }

  // ----- what a count certifies

  /** The count of a slot is the number of distinct brokers credited during the current exchange:
      the leader and followers whose acknowledgement arrived. */
  ghost predicate Credits(m: Ledger, slot: Slot, credited: set<int>) {
    && slot in m.counts && m.counts[slot] == |credited|
    && credited <= FollowersOf(m, slot)
  }

  lemma OpenedCredits(m: Ledger, slot: Slot, self: int)
    ensures Credits(Opened(m, slot, self), slot, {self})
  {
  }

  /** An acknowledgement credits one more broker or, if it was seen before, nobody. */
  lemma AckedCredits(m: Ledger, slot: Slot, follower: int, credited: set<int>)
    requires Credits(m, slot, credited)
    ensures var now := if follower in FollowersOf(m, slot) then credited else credited + {follower};
            Credits(Acked(m, slot, follower), slot, now)
  {
  }

  lemma SubsetSize<T>(a: set<T>, b: set<T>)
    requires a <= b
    ensures |a| <= |b|
  {
    assert b == a + (b - a);
    assert |a + (b - a)| == |a| + |b - a|;
  }

  /** Any two quorums of one membership share a broker. The replicas counted may exceed the members,
      as they do when a broker lists itself among its peers. */
  lemma QuorumsIntersect(members: set<int>, a: set<int>, b: set<int>, peers: nat) returns (common: int)
    requires |members| <= 1 + peers && a <= members && b <= members
    requires |a| >= Quorum(peers) && |b| >= Quorum(peers)
    ensures common in a && common in b
  {
    assert |a + b| + |a * b| == |a| + |b|;
    SubsetSize(a + b, members);
    if forall x :: x in a ==> x !in b {
      assert false;
    }
    common :| common in a && common in b;
  }

  // ----- one whole exchange

  /** The acknowledgements that reach the leader during one exchange, in order. */
  function AfterAcks(m: Ledger, slot: Slot, acks: seq<int>): Ledger {
    if |acks| == 0 then m else Acked(AfterAcks(m, slot, acks[..|acks| - 1]), slot, acks[|acks| - 1])
  }

  function Exchange(m: Ledger, slot: Slot, self: int, acks: seq<int>): Ledger {
    AfterAcks(Opened(m, slot, self), slot, acks)
  }

  function Senders(acks: seq<int>): set<int> {
    if |acks| == 0 then {} else Senders(acks[..|acks| - 1]) + {acks[|acks| - 1]}
  }

  lemma {:induction false} SenderAcked(acks: seq<int>, f: int)
    requires f in Senders(acks)
    ensures f in acks
  {
    if f != acks[|acks| - 1] {
      SenderAcked(acks[..|acks| - 1], f);
    }
  }

  lemma {:induction false} ExchangeCredits(m: Ledger, slot: Slot, self: int, acks: seq<int>)
    returns (credited: set<int>)
    ensures Credits(Exchange(m, slot, self, acks), slot, credited)
    ensures self in credited && credited <= {self} + Senders(acks)
  {
    if |acks| == 0 {
      credited := {self};
      OpenedCredits(m, slot, self);
    } else {
      var front, last := acks[..|acks| - 1], acks[|acks| - 1];
      credited := ExchangeCredits(m, slot, self, front);
      var before := Exchange(m, slot, self, front);
      AckedCredits(before, slot, last, credited);
      if last !in FollowersOf(before, slot) {
        credited := credited + {last};
      }
    }
  }

  /** If an exchange reaches the quorum, that many distinct brokers, the leader among them, stand
      behind the slot: each of the others acknowledged it in this very exchange. */
  lemma QuorumIsCertified(m: Ledger, slot: Slot, self: int, acks: seq<int>, peers: nat) returns (credited: set<int>)
    requires QuorumReached(Exchange(m, slot, self, acks), slot, peers)
    ensures |credited| >= Quorum(peers)
    ensures self in credited && credited <= {self} + Senders(acks)
  {
    credited := ExchangeCredits(m, slot, self, acks);
  }
}

/** One cluster node: roles, terms, votes and the commit index.

    The functions on `Node` say what each handler does to the node; the class `Cluster` holds the
    same fields and updates them in place. */
module RaftNode {
  import opened Common

  type PeerId = nat
  type ShardId = nat

  function WrappingInc(i: U64): U64 {
    (i + 1) % U64_LIMIT
  }

  function WrappingDec(i: U64): U64 {
    (i + U64_LIMIT - 1) % U64_LIMIT
  }

  datatype Role = Wait | Candidate | VotedFor(peer: PeerId) | Follower(leader: PeerId) | Leader

  datatype Liveness = Seed | Alive | Suspected | Offline | Left

  datatype Peer = Peer(id: PeerId, shard: ShardId, liveness: Liveness, lastLog: RaftId, commitIndex: U64,
                       voteGranted: bool)
  {
    predicate IsHealthy() {
      liveness.Alive? || liveness.Suspected?
    }

    predicate IsOffline() {
      liveness.Offline? || liveness.Left?
    }
  }

  datatype Node = Node(
    id: PeerId, shard: ShardId, term: nat, lastLog: RaftId, uncommitted: U64, role: Role, peers: seq<Peer>)

  // ----- Logs

  /** A log ending in `mine` is not ahead of one ending in `theirs`. */
  predicate LogIsBehindOrEq(mine: RaftId, theirs: RaftId) {
    theirs.term > mine.term || (theirs.term == mine.term && WrappingInc(theirs.index) >= WrappingInc(mine.index))
  }

  predicate LogIsBehind(mine: RaftId, theirs: RaftId) {
    theirs.term > mine.term || (theirs.term == mine.term && WrappingInc(theirs.index) > WrappingInc(mine.index))
  }

  // ----- Counting peers

  function InShard(peers: seq<Peer>, shard: ShardId, n: nat): nat
    requires n <= |peers|
  {
    if n == 0 then 0 else InShard(peers, shard, n - 1) + (if peers[n - 1].shard == shard then 1 else 0)
  }

  function Granted(peers: seq<Peer>, shard: ShardId, n: nat): nat
    requires n <= |peers|
  {
    if n == 0 then 0
    else Granted(peers, shard, n - 1) + (if peers[n - 1].shard == shard && peers[n - 1].voteGranted then 1 else 0)
  }

  function Healthy(peers: seq<Peer>, shard: ShardId, n: nat): nat
    requires n <= |peers|
  {
    if n == 0 then 0
    else Healthy(peers, shard, n - 1) + (if peers[n - 1].shard == shard && peers[n - 1].IsHealthy() then 1 else 0)
  }

  predicate HasElectionQuorum(n: Node) {
    Healthy(n.peers, n.shard, |n.peers|) >= (InShard(n.peers, n.shard, |n.peers|) + 1) / 2
  }

  predicate HasMajority(n: Node) {
    1 + Granted(n.peers, n.shard, |n.peers|) > (InShard(n.peers, n.shard, |n.peers|) + 1) / 2
  }

  predicate Knows(n: Node, peer: PeerId) {
    exists i :: 0 <= i < |n.peers| && n.peers[i].id == peer
  }

  // ----- Role changes

  function Cleared(peers: seq<Peer>): seq<Peer> {
    seq(|peers|, i requires 0 <= i < |peers| => peers[i].(voteGranted := false))
  }

  function VoteFor(n: Node, peer: PeerId): Node {
    n.(role := VotedFor(peer), peers := Cleared(n.peers))
  }

  function StartElectionTimer(n: Node): Node {
    n.(role := Wait, peers := Cleared(n.peers))
  }

  function RunForElection(n: Node): Node {
    n.(role := Candidate, term := n.term + 1, peers := Cleared(n.peers))
  }

  function StepDown(n: Node, term: nat): Node {
    n.(role := Wait, term := term, peers := Cleared(n.peers))
  }

  function BecomeLeader(n: Node): Node {
    n.(role := Leader, uncommitted := n.lastLog.index, peers := Cleared(n.peers))
  }

  function FollowLeader(n: Node, peer: PeerId): Node {
    n.(role := Follower(peer), peers := Cleared(n.peers))
  }

  predicate CanGrantVote(n: Node, candidate: PeerId) {
    n.role.Wait? || n.role == VotedFor(candidate)
  }

  function WithVote(peers: seq<Peer>, shard: ShardId, voter: PeerId, n: nat): seq<Peer>
    requires n <= |peers|
  {
    seq(|peers|, i requires 0 <= i < |peers| =>
      if i < n && peers[i].shard == shard && peers[i].id == voter then peers[i].(voteGranted := true) else peers[i])
  }

  // ----- Handlers

  datatype Reply = Vote(term: nat, granted: bool) | UnregisteredPeer | StepDownReply(term: nat) | Forwarded

  function HandleVoteRequest(n: Node, from: PeerId, term: nat, last: RaftId): (Node, Reply) {
    if !Knows(n, from) then (n, UnregisteredPeer)
    else
      var n1 := if n.term < term then StepDown(n, term) else n;
      if n1.term == term && CanGrantVote(n1, from) && LogIsBehindOrEq(n1.lastLog, last) then
        (VoteFor(n1, from), Vote(n1.term, true))
      else (n1, Vote(n1.term, false))
  }

  function HandleVoteResponse(n: Node, from: PeerId, term: nat, granted: bool): Node {
    if n.term < term then StepDown(n, term)
    else if !n.role.Candidate? || !granted || n.term != term then n
    else
      var n1 := n.(peers := WithVote(n.peers, n.shard, from, |n.peers|));
      if HasMajority(n1) then BecomeLeader(n1) else n1
  }

  predicate PeerIsAhead(n: Node) {
    exists i :: 0 <= i < |n.peers| && n.peers[i].shard == n.shard && !n.peers[i].IsOffline()
                && LogIsBehind(n.lastLog, n.peers[i].lastLog)
  }

  function RequestVotes(n: Node, pendingRollback: bool): Node {
    if HasElectionQuorum(n) && !PeerIsAhead(n) && !pendingRollback then RunForElection(n)
    else StartElectionTimer(n)
  }

  function HandleBecomeFollower(n: Node, from: PeerId, term: nat, last: RaftId): (Node, Reply) {
    if !Knows(n, from) then (n, UnregisteredPeer)
    else
      var n1 := if n.term < term then n.(term := term) else n;
      if n1.term == term && LogIsBehindOrEq(n1.lastLog, last) then (FollowLeader(n1, from), Forwarded)
      else (n1, StepDownReply(n1.term))
  }

  function HandleAppendEntries(n: Node, from: PeerId, term: nat): (Node, Reply) {
    var n1 := if term > n.term then n.(term := term) else n;
    (n1, if n1.role == Follower(from) then Forwarded else StepDownReply(n1.term))
  }

  function HandleStepDown(n: Node, term: nat): Node {
    if term > n.term then StepDown(n, term) else StartElectionTimer(n)
  }

  // ----- Commit index

  /** An acknowledged index replaces a smaller one, or "no entry". */
  function Acknowledged(p: Peer, shard: ShardId, peer: PeerId, index: U64): Peer {
    if p.shard == shard && p.id == peer && (index > p.commitIndex || p.commitIndex == NO_INDEX) then
      p.(commitIndex := index)
    else p
  }

  function WithAck(peers: seq<Peer>, shard: ShardId, peer: PeerId, index: U64): seq<Peer> {
    seq(|peers|, i requires 0 <= i < |peers| => Acknowledged(peers[i], shard, peer, index))
  }

  /** Acknowledged indexes of the first `n` peers, shifted by one so that "no entry" is zero. */
  function PeerPositions(peers: seq<Peer>, shard: ShardId, n: nat): seq<U64>
    requires n <= |peers|
  {
    if n == 0 then []
    else
      var front := PeerPositions(peers, shard, n - 1);
      if peers[n - 1].shard == shard then front + [WrappingInc(peers[n - 1].commitIndex)] else front
  }

  function Positions(n: Node): seq<U64> {
    PeerPositions(n.peers, n.shard, |n.peers|) + [WrappingInc(n.uncommitted)]
  }

  ghost predicate Sorted(s: seq<U64>) {
    forall i, j :: 0 <= i < j < |s| ==> s[i] <= s[j]
  }

  function InsertSorted(x: U64, s: seq<U64>): (r: seq<U64>)
    requires Sorted(s)
    ensures Sorted(r) && |r| == |s| + 1
    ensures forall y :: y in r <==> y == x || y in s
  {
    if s == [] || x <= s[0] then [x] + s
    else
      var rest := InsertSorted(x, s[1..]);
      assert forall y :: y in rest ==> s[0] <= y;
      assert forall k :: 0 <= k < |rest| ==> rest[k] in rest;
      [s[0]] + rest
  }

  function Sort(s: seq<U64>): (r: seq<U64>)
    ensures Sorted(r) && |r| == |s|
  {
    if s == [] then [] else InsertSorted(s[0], Sort(s[1..]))
  }

  function CommitPosition(n: Node): U64 {
    var sorted := Sort(Positions(n));
    sorted[|sorted| / 2]
  }

  function AdvanceCommitIndex(n: Node, peer: PeerId, index: U64): Node {
    var n1 := n.(peers := WithAck(n.peers, n.shard, peer, index));
    var position := CommitPosition(n1);
    if position > WrappingInc(n1.lastLog.index) then
      n1.(lastLog := RaftId(n1.term, WrappingDec(position)))
    else n1
  }

  function AdvanceUncommittedIndex(n: Node, index: U64): Node {
    if index > n.uncommitted || n.uncommitted == NO_INDEX then n.(uncommitted := index) else n
  }

  class Cluster {
    const id: PeerId
    const shard: ShardId
    var term: nat
    var lastLog: RaftId
    var uncommitted: U64
    var role: Role
    var peers: seq<Peer>

    function View(): Node
      reads this
    {
      Node(id, shard, term, lastLog, uncommitted, role, peers)
    }

    constructor (n: Node)
      ensures View() == n
    {
      id, shard, term, lastLog, uncommitted, role, peers :=
        n.id, n.shard, n.term, n.lastLog, n.uncommitted, n.role, n.peers;
    }

    method ResetVotes()
      modifies this`peers
      ensures peers == Cleared(old(peers))
    {
      for i := 0 to |peers|
        invariant |peers| == |old(peers)|
        invariant forall k :: 0 <= k < i ==> peers[k] == old(peers)[k].(voteGranted := false)
        invariant forall k :: i <= k < |peers| ==> peers[k] == old(peers)[k]
      {
        peers := peers[i := peers[i].(voteGranted := false)];
      }
    }

    /** Records the vote of a peer and counts: this node votes for itself. */
    method CountVote(voter: PeerId) returns (won: bool)
      modifies this`peers
      ensures View() == old(View()).(peers := WithVote(old(peers), shard, voter, |old(peers)|))
      ensures won == HasMajority(View())
    {
      var total, votes := 0, 1;
      ghost var before := peers;
      ghost var after := WithVote(peers, shard, voter, |peers|);
      for i := 0 to |peers|
        invariant peers == WithVote(before, shard, voter, i)
        invariant total == InShard(after, shard, i)
        invariant votes == 1 + Granted(after, shard, i)
      {
        if peers[i].shard == shard {
          total := total + 1;
          if peers[i].id == voter {
            peers := peers[i := peers[i].(voteGranted := true)];
            votes := votes + 1;
          } else if peers[i].voteGranted {
            votes := votes + 1;
          }
        }
        assert peers == WithVote(before, shard, voter, i + 1);
      }
      won := votes > (total + 1) / 2;
    }

    method IsKnownPeer(peer: PeerId) returns (known: bool)
      ensures known == Knows(View(), peer)
    {
      known := false;
      for i := 0 to |peers|
        invariant known == exists k :: 0 <= k < i && peers[k].id == peer
      {
        if peers[i].id == peer {
          known := true;
        }
      }
    }

    method ShardStatus() returns (total: nat, healthy: nat)
      ensures total == InShard(peers, shard, |peers|)
      ensures healthy == Healthy(peers, shard, |peers|)
    {
      total, healthy := 0, 0;
      for i := 0 to |peers|
        invariant total == InShard(peers, shard, i)
        invariant healthy == Healthy(peers, shard, i)
      {
        if peers[i].shard == shard {
          if peers[i].IsHealthy() {
            healthy := healthy + 1;
          }
          total := total + 1;
        }
      }
    }

    method OnVoteRequest(from: PeerId, reqTerm: nat, last: RaftId) returns (reply: Reply)
      modifies this
      ensures (View(), reply) == HandleVoteRequest(old(View()), from, reqTerm, last)
    {
      var known := IsKnownPeer(from);
      if !known {
        return UnregisteredPeer;
      }
      if term < reqTerm {
        ResetVotes();
        term, role := reqTerm, Wait;
      }
      if term == reqTerm && CanGrantVote(View(), from) && LogIsBehindOrEq(lastLog, last) {
        role := VotedFor(from);
        ResetVotes();
        reply := Vote(term, true);
      } else {
        reply := Vote(term, false);
      }
    }

    method OnVoteResponse(from: PeerId, respTerm: nat, granted: bool)
      modifies this
      ensures View() == HandleVoteResponse(old(View()), from, respTerm, granted)
    {
      if term < respTerm {
        ResetVotes();
        term, role := respTerm, Wait;
        return;
      } else if !role.Candidate? || !granted || term != respTerm {
        return;
      }
      var won := CountVote(from);
      if won {
        uncommitted := lastLog.index;
        role := Leader;
        ResetVotes();
      }
    }

    method OnElectionDue(pendingRollback: bool)
      modifies this
      ensures View() == RequestVotes(old(View()), pendingRollback)
    {
      var total, healthy := ShardStatus();
      var ahead := PeerIsAhead(View());
      if healthy >= (total + 1) / 2 && !ahead && !pendingRollback {
        role := Candidate;
        term := term + 1;
      } else {
        role := Wait;
      }
      ResetVotes();
    }

    method OnBecomeFollower(from: PeerId, reqTerm: nat, last: RaftId) returns (reply: Reply)
      modifies this
      ensures (View(), reply) == HandleBecomeFollower(old(View()), from, reqTerm, last)
    {
      var known := IsKnownPeer(from);
      if !known {
        return UnregisteredPeer;
      }
      if term < reqTerm {
        term := reqTerm;
      }
      if term == reqTerm && LogIsBehindOrEq(lastLog, last) {
        role := Follower(from);
        ResetVotes();
        reply := Forwarded;
      } else {
        reply := StepDownReply(term);
      }
    }

    method OnAppendEntries(from: PeerId, reqTerm: nat) returns (reply: Reply)
      modifies this
      ensures (View(), reply) == HandleAppendEntries(old(View()), from, reqTerm)
    {
      if reqTerm > term {
        term := reqTerm;
      }
      reply := if role == Follower(from) then Forwarded else StepDownReply(term);
    }

    method OnStepDown(reqTerm: nat)
      modifies this
      ensures View() == HandleStepDown(old(View()), reqTerm)
    {
      if reqTerm > term {
        ResetVotes();
        term := reqTerm;
        role := Wait;
      } else {
        role := Wait;
        ResetVotes();
      }
    }

    /** Notes an acknowledgement and moves the commit index to the middle of the sorted indexes. */
    method OnAdvanceCommitIndex(peer: PeerId, index: U64)
      modifies this
      ensures View() == AdvanceCommitIndex(old(View()), peer, index)
    {
      var indexes: seq<U64> := [];
      ghost var before := peers;
      ghost var after := WithAck(peers, shard, peer, index);
      for i := 0 to |peers|
        invariant |peers| == |before|
        invariant forall k :: 0 <= k < i ==> peers[k] == after[k]
        invariant forall k :: i <= k < |peers| ==> peers[k] == before[k]
        invariant indexes == PeerPositions(after, shard, i)
        invariant View() == old(View()).(peers := peers)
      {
        if peers[i].shard == shard {
          if peers[i].id == peer && (index > peers[i].commitIndex || peers[i].commitIndex == NO_INDEX) {
            peers := peers[i := peers[i].(commitIndex := index)];
          }
          indexes := indexes + [WrappingInc(peers[i].commitIndex)];
        }
      }
      assert peers == after;
      ghost var n1 := old(View()).(peers := WithAck(old(peers), shard, peer, index));
      assert View() == n1;
      indexes := indexes + [WrappingInc(uncommitted)];
      assert indexes == Positions(n1);
      var sorted := Sort(indexes);
      var position := sorted[|sorted| / 2];
      if position > WrappingInc(lastLog.index) {
        lastLog := RaftId(term, WrappingDec(position));
      }
    }

    method OnAdvanceUncommittedIndex(index: U64)
      modifies this`uncommitted
      ensures View() == AdvanceUncommittedIndex(old(View()), index)
    {
      if index > uncommitted || uncommitted == NO_INDEX {
        uncommitted := index;
      }
    }
  }
}

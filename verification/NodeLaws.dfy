/** What the steps of a run do, said by the order of logs, by sets of members and by majorities: whom a node follows
    and votes for, when it runs for election, leads and steps down, and what it answers. */
module NodeLaws {
  import opened Common
  import opened RaftNode
  import opened Election

  // ----- The order of logs

  /** A log without entries comes before index 0. */
  function Place(index: U64): int {
    if index == NO_INDEX then -1 else index
  }

  /** A log that ends in `mine` is not after one that ends in `theirs`. */
  predicate NotAfter(mine: RaftId, theirs: RaftId) {
    mine.term < theirs.term || (mine.term == theirs.term && Place(mine.index) <= Place(theirs.index))
  }

  lemma OrderIs(mine: RaftId, theirs: RaftId)
    ensures LogIsBehindOrEq(mine, theirs) <==> NotAfter(mine, theirs)
    ensures LogIsBehind(mine, theirs) <==> !NotAfter(theirs, mine)
  {
  }

  function Max(a: int, b: int): int {
    if a < b then b else a
  }

  ghost predicate IsPeer(n: Node, peer: PeerId) {
    exists p :: p in n.peers && p.id == peer
  }

  lemma KnowsIs(n: Node, peer: PeerId)
    ensures Knows(n, peer) <==> IsPeer(n, peer)
  {
    if Knows(n, peer) {
      var i :| 0 <= i < |n.peers| && n.peers[i].id == peer;
      assert n.peers[i] in n.peers;
    }
  }

  /** Nothing is known of any peer's vote. */
  ghost predicate NoVotes(n: Node) {
    forall p :: p in n.peers ==> !p.voteGranted
  }

  /** Only the node changes, and of it neither log nor peers but for their votes. */
  ghost predicate OnlyRole(s: System, s': System, i: PeerId) {
    && i in s.nodes && s'.nodes.Keys == s.nodes.Keys
    && (forall j :: j in s.nodes && j != i ==> s'.nodes[j] == s.nodes[j])
    && s'.runs == s.runs && s'.wins == s.wins && s'.ballots == s.ballots && s'.reopened == s.reopened
    && OnlyVotes(s.nodes[i], s'.nodes[i])
  }

  ghost predicate OnlyVotes(n: Node, n': Node) {
    && n'.id == n.id && n'.shard == n.shard && n'.lastLog == n.lastLog && n'.uncommitted == n.uncommitted
    && |n'.peers| == |n.peers|
    && forall k :: 0 <= k < |n.peers| ==> n'.peers[k].(voteGranted := n.peers[k].voteGranted) == n.peers[k]
  }

  // ----- Whom a node follows

  ghost predicate Accepts(n: Node, m: Message)
    requires m.BecomeFollowerMsg?
  {
    IsPeer(n, m.from) && n.term <= m.term && NotAfter(n.lastLog, m.last)
  }

  /** A node follows a leader if and only if it knows it, is not in a later term and its log is not after the
      advertised one. Otherwise it keeps its role and answers with the later term, unless it does not know the peer. */
  lemma FollowsExactly(s: System, m: Message)
    requires m in s.messages && m.BecomeFollowerMsg? && m.to in s.nodes
    ensures var s', n := Next(s, Deliver(m)), s.nodes[m.to];
            && OnlyRole(s, s', m.to)
            && (Accepts(n, m) ==>
                  && s'.nodes[m.to].role == Follower(m.from) && s'.nodes[m.to].term == m.term && NoVotes(s'.nodes[m.to])
                  && s'.messages == s.messages)
            && (!Accepts(n, m) && IsPeer(n, m.from) ==>
                  var later := Max(n.term, m.term);
                  && s'.nodes[m.to] == n.(term := later)
                  && s'.messages == s.messages + {StepDownMsg(m.to, m.from, later)})
            && (!IsPeer(n, m.from) ==> s' == s)
            && (n.role != Follower(m.from) ==> (s'.nodes[m.to].role == Follower(m.from) <==> Accepts(n, m)))
  {
    var n := s.nodes[m.to];
    KnowsIs(n, m.from);
    OrderIs(n.lastLog, m.last);
    if !IsPeer(n, m.from) {
      assert Next(s, Deliver(m)).nodes == s.nodes;
    }
  }

  /** What the node answers. */
  lemma FollowReply(n: Node, m: Message)
    requires m.BecomeFollowerMsg?
    ensures var reply := HandleBecomeFollower(n, m.from, m.term, m.last).1;
            && (reply.Forwarded? <==> Accepts(n, m))
            && (reply.UnregisteredPeer? <==> !IsPeer(n, m.from))
            && !reply.Vote? && (reply.StepDownReply? ==> reply.term == Max(n.term, m.term))
  {
    KnowsIs(n, m.from);
    OrderIs(n.lastLog, m.last);
  }

  // ----- Whom a node votes for

  /** In a new term every node may vote; in the present one if it waits or has voted for the same candidate. */
  ghost predicate GrantsVote(n: Node, m: Message)
    requires m.VoteRequest?
  {
    && IsPeer(n, m.from) && NotAfter(n.lastLog, m.last)
    && (n.term < m.term || (n.term == m.term && (n.role == Wait || n.role == VotedFor(m.from))))
  }

  lemma VotesExactly(s: System, m: Message)
    requires m in s.messages && m.VoteRequest? && m.to in s.nodes
    ensures var s', n := Next(s, Deliver(m)), s.nodes[m.to];
            var later := Max(n.term, m.term);
            && OnlyRole(s, s'.(ballots := s.ballots), m.to)
            && (GrantsVote(n, m) ==>
                  && s'.nodes[m.to].role == VotedFor(m.from) && s'.nodes[m.to].term == m.term && NoVotes(s'.nodes[m.to])
                  && s'.messages == s.messages + {VoteReply(m.to, m.from, m.term, true)}
                  && s'.ballots == s.ballots + {Ballot(m.to, m.term, m.from, n.lastLog)})
            && (!GrantsVote(n, m) && IsPeer(n, m.from) ==>
                  && s'.nodes[m.to].role == (if n.term < m.term then Wait else n.role) && s'.nodes[m.to].term == later
                  && s'.messages == s.messages + {VoteReply(m.to, m.from, later, false)} && s'.ballots == s.ballots)
            && (!IsPeer(n, m.from) ==> s' == s)
  {
    var n := s.nodes[m.to];
    KnowsIs(n, m.from);
    OrderIs(n.lastLog, m.last);
    if !IsPeer(n, m.from) {
      assert Next(s, Deliver(m)).nodes == s.nodes;
    }
  }

  // ----- Terms that are over

  /** A node that is sent log records keeps its role; it answers with the later term unless it follows the sender. */
  lemma AnswersExactly(s: System, m: Message)
    requires m in s.messages && m.AppendEntriesMsg? && m.to in s.nodes
    ensures var s', n := Next(s, Deliver(m)), s.nodes[m.to];
            var later := Max(n.term, m.term);
            && s'.nodes == s.nodes[m.to := n.(term := later)]
            && s'.messages
               == s.messages + (if n.role == Follower(m.from) then {} else {StepDownMsg(m.to, m.from, later)})
            && s' == s.(nodes := s'.nodes, messages := s'.messages)
  {
  }

  lemma AnswerReply(n: Node, m: Message)
    requires m.AppendEntriesMsg?
    ensures var reply := HandleAppendEntries(n, m.from, m.term).1;
            && (reply.Forwarded? <==> n.role == Follower(m.from))
            && (!reply.Forwarded? ==> reply == StepDownReply(Max(n.term, m.term)))
  {
  }

  /** A node that is told of a later term waits in that term; one that is not waits in its own, and may then vote
      again. */
  lemma StepsDownExactly(s: System, m: Message)
    requires m in s.messages && m.StepDownMsg? && m.to in s.nodes
    ensures var s', n := Next(s, Deliver(m)), s.nodes[m.to];
            && OnlyRole(s, s'.(reopened := s.reopened), m.to) && s'.messages == s.messages
            && s'.nodes[m.to].role == Wait && s'.nodes[m.to].term == Max(n.term, m.term) && NoVotes(s'.nodes[m.to])
            && s'.reopened ==
               s.reopened + if m.term <= n.term && HasVoted(s, m.to, n.term) then {Turn(m.to, n.term)} else {}
  {
  }

  // ----- Majorities

  /** The node itself, and the peers of its shard that it takes to be alive. */
  function Reachable(n: Node): set<PeerId> {
    {n.id} + set p | p in n.peers && p.shard == n.shard && (p.liveness == Alive || p.liveness == Suspected) :: p.id
  }

  /** The node itself, and the peers of its shard that have voted for it, with one more. */
  function VotersWith(n: Node, voter: PeerId): set<PeerId> {
    {n.id} + set p | p in n.peers && p.shard == n.shard && (p.voteGranted || p.id == voter) :: p.id
  }

  ghost predicate IsMajority(some: set<PeerId>, members: set<PeerId>) {
    2 * |some * members| > |members|
  }

  function HealthyIds(peers: seq<Peer>, shard: ShardId, n: nat): set<PeerId>
    requires n <= |peers|
  {
    if n == 0 then {}
    else
      HealthyIds(peers, shard, n - 1)
        + if peers[n - 1].shard == shard && peers[n - 1].IsHealthy() then {peers[n - 1].id} else {}
  }

  lemma {:induction false} HealthyPeer(peers: seq<Peer>, shard: ShardId, n: nat, id: PeerId) returns (k: nat)
    requires n <= |peers| && id in HealthyIds(peers, shard, n)
    ensures k < n && peers[k].shard == shard && peers[k].IsHealthy() && peers[k].id == id
    decreases n
  {
    if peers[n - 1].shard == shard && peers[n - 1].IsHealthy() && peers[n - 1].id == id {
      k := n - 1;
    } else {
      k := HealthyPeer(peers, shard, n - 1, id);
    }
  }

  lemma {:induction false} IsHealthyId(peers: seq<Peer>, shard: ShardId, n: nat, k: nat)
    requires k < n <= |peers| && peers[k].shard == shard && peers[k].IsHealthy()
    ensures peers[k].id in HealthyIds(peers, shard, n)
    decreases n
  {
    if k < n - 1 {
      IsHealthyId(peers, shard, n - 1, k);
    }
  }

  lemma {:induction false} HealthyAre(peers: seq<Peer>, shard: ShardId, n: nat)
    requires n <= |peers| && forall j, k :: 0 <= j < k < |peers| ==> peers[j].id != peers[k].id
    ensures |HealthyIds(peers, shard, n)| == Healthy(peers, shard, n)
    decreases n
  {
    if n > 0 {
      HealthyAre(peers, shard, n - 1);
      if peers[n - 1].id in HealthyIds(peers, shard, n - 1) {
        var k := HealthyPeer(peers, shard, n - 1, peers[n - 1].id);
      }
    }
  }

  lemma ReachableIs(n: Node, id: PeerId)
    ensures id in Reachable(n) <==> id == n.id || id in HealthyIds(n.peers, n.shard, |n.peers|)
  {
    var ids := HealthyIds(n.peers, n.shard, |n.peers|);
    if id in ids {
      var k := HealthyPeer(n.peers, n.shard, |n.peers|, id);
      assert n.peers[k] in n.peers;
    }
    if id in Reachable(n) && id != n.id {
      var p :| p in n.peers && p.shard == n.shard && (p.liveness == Alive || p.liveness == Suspected) && p.id == id;
      var k :| 0 <= k < |n.peers| && n.peers[k] == p;
      IsHealthyId(n.peers, n.shard, |n.peers|, k);
    }
  }

  lemma HealthyIsMember(n: Node, i: PeerId, members: set<PeerId>, id: PeerId)
    requires Member(n, i, members) && id in HealthyIds(n.peers, n.shard, |n.peers|)
    ensures id in members && id != i
  {
    var k := HealthyPeer(n.peers, n.shard, |n.peers|, id);
    assert n.peers[k] in n.peers;
  }

  lemma ReachableAre(n: Node, i: PeerId, members: set<PeerId>)
    requires Member(n, i, members)
    ensures Reachable(n) <= members && |Reachable(n)| == Healthy(n.peers, n.shard, |n.peers|) + 1
  {
    var ids := HealthyIds(n.peers, n.shard, |n.peers|);
    HealthyAre(n.peers, n.shard, |n.peers|);
    forall id ensures id in Reachable(n) <==> id in ids + {i} {
      ReachableIs(n, id);
    }
    forall id | id in ids ensures id in members && id != i {
      HealthyIsMember(n, i, members, id);
    }
    assert Reachable(n) == ids + {i};
  }

  /** The quorum for running is a majority of the members. */
  lemma QuorumIsMajority(n: Node, i: PeerId, members: set<PeerId>)
    requires Member(n, i, members)
    ensures HasElectionQuorum(n) <==> IsMajority(Reachable(n), members)
  {
    ReachableAre(n, i, members);
    assert Reachable(n) * members == Reachable(n);
  }

  lemma VotersIs(n: Node, i: PeerId, members: set<PeerId>, id: PeerId)
    requires Member(n, i, members)
    ensures id in Voters(n) <==> id in VotersAmong(n.peers, n.shard, |n.peers|) + {i}
    ensures id in VotersAmong(n.peers, n.shard, |n.peers|) ==> id in members && id != i
  {
    var ids := VotersAmong(n.peers, n.shard, |n.peers|);
    VotersCounted(n.peers, n.shard, |n.peers|);
    if id in ids {
      var k :| 0 <= k < |n.peers| && n.peers[k].shard == n.shard && n.peers[k].voteGranted && n.peers[k].id == id;
      assert n.peers[k] in n.peers;
    }
    if id in Voters(n) && id != n.id {
      var p :| p in n.peers && p.shard == n.shard && p.voteGranted && p.id == id;
      var k :| 0 <= k < |n.peers| && n.peers[k] == p;
    }
  }

  lemma VotersAre(n: Node, i: PeerId, members: set<PeerId>)
    requires Member(n, i, members)
    ensures Voters(n) <= members && |Voters(n)| == Granted(n.peers, n.shard, |n.peers|) + 1
  {
    var ids := VotersAmong(n.peers, n.shard, |n.peers|);
    assert |ids| == Granted(n.peers, n.shard, |n.peers|) by {
      VotersCounted(n.peers, n.shard, |n.peers|);
    }
    forall id ensures id in Voters(n) <==> id in ids + {i}
              ensures id in ids ==> id in members && id != i
    {
      VotersIs(n, i, members, id);
    }
    assert Voters(n) == ids + {i};
  }

  lemma VotesWithOneMore(n: Node, voter: PeerId)
    ensures Voters(Counted(n, voter)) == VotersWith(n, voter)
  {
    var n1 := Counted(n, voter);
    forall id ensures id in Voters(n1) <==> id in VotersWith(n, voter) {
      if id in VotersWith(n, voter) && id != n.id {
        var p :| p in n.peers && p.shard == n.shard && (p.voteGranted || p.id == voter) && p.id == id;
        var k :| 0 <= k < |n.peers| && n.peers[k] == p;
        assert n1.peers[k] in n1.peers;
      }
      if id in Voters(n1) && id != n.id {
        var p :| p in n1.peers && p.shard == n.shard && p.voteGranted && p.id == id;
        var k :| 0 <= k < |n1.peers| && n1.peers[k] == p;
        assert n.peers[k] in n.peers;
      }
    }
  }

  /** The votes needed to lead are those of a majority of the members. */
  lemma MajorityIsExact(n: Node, i: PeerId, members: set<PeerId>, voter: PeerId)
    requires Member(n, i, members)
    ensures HasMajority(Counted(n, voter)) <==> IsMajority(VotersWith(n, voter), members)
  {
    var n1 := Counted(n, voter);
    MemberSame(n, n1, i, members);
    VotersAre(n1, i, members);
    VotesWithOneMore(n, voter);
    assert Voters(n1) * members == Voters(n1);
  }

  // ----- When a node runs for election

  /** The log of a peer that is not gone is after the node's own. */
  ghost predicate IsBehindPeer(n: Node) {
    exists p :: p in n.peers && p.shard == n.shard && p.liveness != Offline && p.liveness != Left
                && !NotAfter(p.lastLog, n.lastLog)
  }

  lemma BehindIs(n: Node)
    ensures PeerIsAhead(n) <==> IsBehindPeer(n)
  {
    forall p: Peer ensures LogIsBehind(n.lastLog, p.lastLog) <==> !NotAfter(p.lastLog, n.lastLog) {
      OrderIs(n.lastLog, p.lastLog);
    }
    if PeerIsAhead(n) {
      var i :| 0 <= i < |n.peers| && n.peers[i].shard == n.shard && !n.peers[i].IsOffline()
               && LogIsBehind(n.lastLog, n.peers[i].lastLog);
      assert n.peers[i] in n.peers;
    }
  }

  /** Of the nodes only one changes, and of that one neither log nor peers but for their votes, which are cleared. */
  ghost predicate OnlyNode(s: System, s': System, i: PeerId) {
    && i in s.nodes && s'.nodes.Keys == s.nodes.Keys
    && (forall j :: j in s.nodes && j != i ==> s'.nodes[j] == s.nodes[j])
    && OnlyVotes(s.nodes[i], s'.nodes[i]) && NoVotes(s'.nodes[i]) && s'.wins == s.wins
  }

  /** The node runs in the next term with its own vote, and has asked exactly the peers it has not given up. */
  ghost predicate HasRun(s: System, s': System, i: PeerId) {
    && OnlyNode(s, s', i)
    && var n := s.nodes[i];
    && s'.nodes[i].role == Candidate && s'.nodes[i].term == n.term + 1
    && (forall m :: m in s'.messages <==>
          m in s.messages || (m == VoteRequest(i, m.to, n.term + 1, n.lastLog) && IsAsked(n, m.to)))
    && s'.ballots == s.ballots + {Ballot(i, n.term + 1, i, n.lastLog)}
    && s'.runs == s.runs[Turn(i, n.term + 1) := n.lastLog] && s'.reopened == s.reopened
  }

  /** The node waits on in its term, in which it may vote again. */
  ghost predicate WaitsOn(s: System, s': System, i: PeerId) {
    && OnlyNode(s, s', i)
    && var n := s.nodes[i];
    && s'.nodes[i].role == Wait && s'.nodes[i].term == n.term && s'.messages == s.messages
    && s'.ballots == s.ballots && s'.runs == s.runs
    && s'.reopened == s.reopened + if HasVoted(s, i, n.term) then {Turn(i, n.term)} else {}
  }

  lemma RunIs(s: System, i: PeerId)
    requires i in s.nodes && s.nodes[i].id == i
    ensures HasRun(s, Run(s, i), i)
  {
    AskedAre(s.nodes[i]);
  }

  lemma WaitIs(s: System, i: PeerId)
    requires i in s.nodes
    ensures WaitsOn(s, RestartTimer(s, i), i)
  {
  }

  lemma RunsIf(n: Node, i: PeerId, members: set<PeerId>, pendingRollback: bool)
    requires Member(n, i, members)
    ensures RequestVotes(n, pendingRollback).role.Candidate? <==>
            IsMajority(Reachable(n), members) && !IsBehindPeer(n) && !pendingRollback
  {
    QuorumIsMajority(n, i, members);
    BehindIs(n);
  }

  /** When its timer runs out, a node runs if and only if it reaches a majority of the members, none of the peers it has
      not given up is ahead of it, and it has nothing to roll back. Otherwise it waits on. */
  lemma RunsExactly(s: System, i: PeerId, pendingRollback: bool)
    requires i in s.nodes && !s.nodes[i].role.Leader? && Member(s.nodes[i], i, s.nodes.Keys)
    ensures var s', n := Next(s, ElectionDue(i, pendingRollback)), s.nodes[i];
            if IsMajority(Reachable(n), s.nodes.Keys) && !IsBehindPeer(n) && !pendingRollback then HasRun(s, s', i)
            else WaitsOn(s, s', i)
  {
    RunsIf(s.nodes[i], i, s.nodes.Keys, pendingRollback);
    RunIs(s, i);
    WaitIs(s, i);
  }

  /** A peer of the shard that has not been given up. */
  ghost predicate IsAsked(n: Node, peer: PeerId) {
    exists p :: p in n.peers && p.id == peer && p.shard == n.shard && p.liveness != Offline && p.liveness != Left
  }

  lemma AskedAre(n: Node)
    ensures forall m: Message :: m in VoteRequests(n) <==>
                                 m == VoteRequest(n.id, m.to, n.term + 1, n.lastLog) && IsAsked(n, m.to)
  {
    forall m: Message
      ensures m in VoteRequests(n) <==> m == VoteRequest(n.id, m.to, n.term + 1, n.lastLog) && IsAsked(n, m.to)
    {
      if IsAsked(n, m.to) {
        var p :| p in n.peers && p.id == m.to && p.shard == n.shard && p.liveness != Offline && p.liveness != Left;
        assert !p.IsOffline();
      }
    }
  }

  // ----- When a node leads

  /** The node leads, from its log on, by the votes of `voters`. */
  ghost predicate Leads(s: System, s': System, i: PeerId, voters: set<PeerId>) {
    && i in s.nodes && i in s'.nodes
    && var n, n' := s.nodes[i], s'.nodes[i];
    && n'.role == Leader && n'.term == n.term && n'.uncommitted == n.lastLog.index && NoVotes(n')
    && OnlyVotes(n, n'.(uncommitted := n.uncommitted))
    && s' == s.(nodes := s.nodes[i := n'], wins := s.wins + {Win(i, n.term, voters)})
  }

  /** The node is still a candidate, and has the votes of `voters`. */
  ghost predicate Collects(s: System, s': System, i: PeerId, voters: set<PeerId>) {
    && i in s.nodes && i in s'.nodes
    && var n, n' := s.nodes[i], s'.nodes[i];
    && n'.role == Candidate && n'.term == n.term && VotersWith(n', i) == voters && OnlyVotes(n, n')
    && s' == s.(nodes := s.nodes[i := n'])
  }

  lemma LeadIs(s: System, i: PeerId, voter: PeerId)
    requires i in s.nodes
    ensures var n1 := Counted(s.nodes[i], voter);
            Leads(s, s.(nodes := s.nodes[i := BecomeLeader(n1)], wins := s.wins + {Win(i, n1.term, Voters(n1))}), i,
                  VotersWith(s.nodes[i], voter))
  {
    VotesWithOneMore(s.nodes[i], voter);
  }

  lemma CollectIs(s: System, i: PeerId, voter: PeerId)
    requires i in s.nodes && s.nodes[i].id == i && s.nodes[i].role == Candidate
    ensures Collects(s, s.(nodes := s.nodes[i := Counted(s.nodes[i], voter)]), i, VotersWith(s.nodes[i], voter))
  {
    VotesWithOneMore(s.nodes[i], voter);
    NoVoteOfItself(Counted(s.nodes[i], voter), i);
  }

  lemma CountsVote(s: System, m: Message)
    requires m.VoteReply? && m.to in s.nodes && Member(s.nodes[m.to], m.to, s.nodes.Keys) && Counts(s.nodes[m.to], m)
    ensures var voters := VotersWith(s.nodes[m.to], m.from);
            if IsMajority(voters, s.nodes.Keys) then Leads(s, ReceiveVoteReply(s, m), m.to, voters)
            else Collects(s, ReceiveVoteReply(s, m), m.to, voters)
  {
    var n := s.nodes[m.to];
    MajorityIsExact(n, m.to, s.nodes.Keys, m.from);
    CountedReply(s, m);
    if HasMajority(Counted(n, m.from)) {
      LeadIs(s, m.to, m.from);
      var s1 := s.(nodes := s.nodes[m.to := Counted(n, m.from)]);
      assert s1.nodes[m.to := BecomeLeader(Counted(n, m.from))] == s.nodes[m.to := BecomeLeader(Counted(n, m.from))];
    } else {
      CollectIs(s, m.to, m.from);
    }
  }

  lemma LaterVote(s: System, m: Message)
    requires m.VoteReply? && m.to in s.nodes && s.nodes[m.to].term < m.term
    ensures var s' := ReceiveVoteReply(s, m);
            && OnlyRole(s, s', m.to) && s'.messages == s.messages
            && s'.nodes[m.to].role == Wait && s'.nodes[m.to].term == m.term && NoVotes(s'.nodes[m.to])
  {
  }

  lemma IgnoredVote(s: System, m: Message)
    requires m.VoteReply? && m.to in s.nodes && s.nodes[m.to].term >= m.term && !Counts(s.nodes[m.to], m)
    ensures ReceiveVoteReply(s, m) == s
  {
    assert s.nodes[m.to := s.nodes[m.to]] == s.nodes;
  }

  /** A vote in a later term makes the node wait in that term. A vote that is granted in its own term counts while it is
      a candidate: it leads if and only if with this vote it has those of a majority. Other votes change nothing. */
  lemma LeadsExactly(s: System, m: Message)
    requires m in s.messages && m.VoteReply? && m.to in s.nodes && Member(s.nodes[m.to], m.to, s.nodes.Keys)
    ensures var s', n := Next(s, Deliver(m)), s.nodes[m.to];
            var voters := VotersWith(n, m.from);
            if n.term < m.term then
              && OnlyRole(s, s', m.to) && s'.messages == s.messages
              && s'.nodes[m.to].role == Wait && s'.nodes[m.to].term == m.term && NoVotes(s'.nodes[m.to])
            else if n.role != Candidate || !m.granted || n.term != m.term then s' == s
            else if IsMajority(voters, s.nodes.Keys) then Leads(s, s', m.to, voters)
            else Collects(s, s', m.to, voters)
  {
    var n := s.nodes[m.to];
    assert Next(s, Deliver(m)) == ReceiveVoteReply(s, m);
    if n.term < m.term {
      LaterVote(s, m);
    } else if Counts(n, m) {
      CountsVote(s, m);
    } else {
      IgnoredVote(s, m);
    }
  }

  lemma NoVoteOfItself(n: Node, i: PeerId)
    requires n.id == i
    ensures VotersWith(n, i) == Voters(n)
  {
    assert Voters(n) <= VotersWith(n, i);
    forall id | id in VotersWith(n, i) ensures id in Voters(n) {
      if id != n.id {
        var p :| p in n.peers && p.shard == n.shard && (p.voteGranted || p.id == i) && p.id == id;
      }
    }
  }

  // ----- What a leader notes

  /** Indexes are noted as the largest one told, the node's own and those of its peers; "no entry" is the smallest. */
  lemma NotesExactly(n: Node, peer: PeerId, index: U64)
    requires index != NO_INDEX
    ensures var n' := AdvanceUncommittedIndex(n, index);
            n' == n.(uncommitted := n'.uncommitted) && Place(n'.uncommitted) == Max(Place(n.uncommitted), index)
    ensures var n' := AdvanceCommitIndex(n, peer, index);
            && n' == n.(peers := n'.peers, lastLog := n'.lastLog) && |n'.peers| == |n.peers|
            && forall k :: 0 <= k < |n.peers| ==>
                 && n'.peers[k] == n.peers[k].(commitIndex := n'.peers[k].commitIndex)
                 && Place(n'.peers[k].commitIndex) ==
                    if n.peers[k].shard == n.shard && n.peers[k].id == peer
                    then Max(Place(n.peers[k].commitIndex), index)
                    else Place(n.peers[k].commitIndex)
  {
  }

  // ----- The handlers

  /** The laws are about what the handlers do to a node. */
  lemma StepsAreHandlers(s: System, step: Step)
    requires Enabled(s, step)
    ensures var s' := Next(s, step);
            match step
            case ElectionDue(i, pendingRollback) => s'.nodes[i] == RequestVotes(s.nodes[i], pendingRollback)
            case Deliver(VoteRequest(from, to, term, last)) =>
              var (n', reply) := HandleVoteRequest(s.nodes[to], from, term, last);
              && s'.nodes[to] == n'
              && (reply.Vote? ==> VoteReply(to, from, reply.term, reply.granted) in s'.messages)
              && (!reply.Vote? ==> reply == UnregisteredPeer && s'.messages == s.messages)
            case Deliver(VoteReply(from, to, term, granted)) =>
              s'.nodes[to] == HandleVoteResponse(s.nodes[to], from, term, granted)
            case Deliver(BecomeFollowerMsg(from, to, term, last)) =>
              s'.nodes[to] == HandleBecomeFollower(s.nodes[to], from, term, last).0
            case Deliver(AppendEntriesMsg(from, to, term)) =>
              s'.nodes[to] == HandleAppendEntries(s.nodes[to], from, term).0
            case Deliver(StepDownMsg(_, to, term)) => s'.nodes[to] == HandleStepDown(s.nodes[to], term)
            case UncommittedAdvances(i, index) => s'.nodes[i] == AdvanceUncommittedIndex(s.nodes[i], index)
            case CommitAdvances(i, peer, index) => s'.nodes[i] == AdvanceCommitIndex(s.nodes[i], peer, index)
            case LeaderSends(_) => s'.nodes == s.nodes
            case Gossip(i, peers) => s'.nodes[i] == s.nodes[i].(peers := peers)
            case UpdateLastLog(i, last) => s'.nodes[i] == s.nodes[i].(lastLog := last)
  {
  }
}

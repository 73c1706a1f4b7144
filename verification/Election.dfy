/** Elections of one shard with fixed members: a transition system over the handlers of
    `RaftNode`, with messages that may be delayed, reordered, repeated or lost, and a history of
    votes, candidacies and elected leaders. */
module Election {
  import opened Common
  import opened RaftNode

  datatype Message =
    | VoteRequest(from: PeerId, to: PeerId, term: nat, last: RaftId)
    | VoteReply(from: PeerId, to: PeerId, term: nat, granted: bool)
    | BecomeFollowerMsg(from: PeerId, to: PeerId, term: nat, last: RaftId)
    | AppendEntriesMsg(from: PeerId, to: PeerId, term: nat)
    | StepDownMsg(from: PeerId, to: PeerId, term: nat)

  /** A vote, with the last log entry of the voter at that moment. */
  datatype Ballot = Ballot(voter: PeerId, term: nat, candidate: PeerId, log: RaftId)

  datatype Turn = Turn(node: PeerId, term: nat)

  /** A node executed `become_leader`, counting the votes of `quorum`. */
  datatype Win = Win(node: PeerId, term: nat, quorum: set<PeerId>)

  datatype System = System(
    nodes: map<PeerId, Node>,
    messages: set<Message>,
    ballots: set<Ballot>,
    runs: map<Turn, RaftId>,   // candidacies and the log they advertised
    wins: set<Win>,
    reopened: set<Turn>)       // the election timer was restarted in a term already voted in

  datatype Step =
    | ElectionDue(node: PeerId, pendingRollback: bool)
    | Deliver(message: Message)
    | LeaderSends(message: Message)
    | Gossip(node: PeerId, peers: seq<Peer>)
    | UpdateLastLog(node: PeerId, last: RaftId)
    | UncommittedAdvances(node: PeerId, index: U64)
    | CommitAdvances(node: PeerId, peer: PeerId, index: U64)

  // ----- Transitions

  predicate HasVoted(s: System, node: PeerId, term: nat) {
    exists b :: b in s.ballots && b.voter == node && b.term == term
  }

  predicate HasBallot(s: System, voter: PeerId, term: nat, candidate: PeerId) {
    exists b :: b in s.ballots && b.voter == voter && b.term == term && b.candidate == candidate
  }

  function RestartTimer(s: System, i: PeerId): System
    requires i in s.nodes
  {
    var n := s.nodes[i];
    s.(nodes := s.nodes[i := StartElectionTimer(n)],
       reopened := s.reopened + if HasVoted(s, i, n.term) then {Turn(i, n.term)} else {})
  }

  function VoteRequests(n: Node): set<Message> {
    set p | p in n.peers && p.shard == n.shard && !p.IsOffline() :: VoteRequest(n.id, p.id, n.term + 1, n.lastLog)
  }

  function Run(s: System, i: PeerId): System
    requires i in s.nodes
  {
    var n := s.nodes[i];
    s.(nodes := s.nodes[i := RunForElection(n)],
       messages := s.messages + VoteRequests(n),
       runs := s.runs[Turn(i, n.term + 1) := n.lastLog],
       ballots := s.ballots + {Ballot(i, n.term + 1, i, n.lastLog)})
  }

  function ReceiveVoteRequest(s: System, m: Message): System
    requires m.VoteRequest? && m.to in s.nodes
  {
    var n := s.nodes[m.to];
    var (n', reply) := HandleVoteRequest(n, m.from, m.term, m.last);
    s.(nodes := s.nodes[m.to := n'],
       messages := s.messages + if reply.Vote? then {VoteReply(m.to, m.from, reply.term, reply.granted)} else {},
       ballots := s.ballots
                  + if reply.Vote? && reply.granted then {Ballot(m.to, reply.term, m.from, n.lastLog)} else {})
  }

  function Voters(n: Node): set<PeerId> {
    {n.id} + set p | p in n.peers && p.shard == n.shard && p.voteGranted :: p.id
  }

  function ReceiveVoteReply(s: System, m: Message): System
    requires m.VoteReply? && m.to in s.nodes
  {
    var n := s.nodes[m.to];
    var n' := HandleVoteResponse(n, m.from, m.term, m.granted);
    var counted := n.(peers := WithVote(n.peers, n.shard, m.from, |n.peers|));
    s.(nodes := s.nodes[m.to := n'],
       wins := s.wins + if n.role.Candidate? && n'.role.Leader? then {Win(m.to, n.term, Voters(counted))} else {})
  }

  function Answer(s: System, m: Message, n': Node, reply: Reply): System
    requires m.to in s.nodes
  {
    s.(nodes := s.nodes[m.to := n'],
       messages := s.messages + if reply.StepDownReply? then {StepDownMsg(m.to, m.from, reply.term)} else {})
  }

  function ReceiveStepDown(s: System, to: PeerId, term: nat): System
    requires to in s.nodes
  {
    var n := s.nodes[to];
    s.(nodes := s.nodes[to := HandleStepDown(n, term)],
       reopened := s.reopened + if term <= n.term && HasVoted(s, to, n.term) then {Turn(to, n.term)} else {})
  }

  function Receive(s: System, m: Message): System
    requires m.to in s.nodes
  {
    var n := s.nodes[m.to];
    match m
    case VoteRequest(_, _, _, _) => ReceiveVoteRequest(s, m)
    case VoteReply(_, _, _, _) => ReceiveVoteReply(s, m)
    case BecomeFollowerMsg(from, _, term, last) =>
      var (n', reply) := HandleBecomeFollower(n, from, term, last);
      Answer(s, m, n', reply)
    case AppendEntriesMsg(from, _, term) =>
      var (n', reply) := HandleAppendEntries(n, from, term);
      Answer(s, m, n', reply)
    case StepDownMsg(_, to, term) => ReceiveStepDown(s, to, term)
  }

  /** Gossip changes what a node believes about its peers, not who they are. */
  predicate SamePeers(old_: seq<Peer>, new_: seq<Peer>) {
    && |old_| == |new_|
    && forall i :: 0 <= i < |old_| ==>
         && new_[i].id == old_[i].id && new_[i].shard == old_[i].shard
         && new_[i].voteGranted == old_[i].voteGranted && new_[i].commitIndex == old_[i].commitIndex
  }

  /** No index that a leader is told of is "no entry": a process for a peer reports what it matched
      or what the peer has done only if there is an entry, as does a peer that leaves; and the ids
      of the leader's own writes are log indexes. */
  predicate Enabled(s: System, step: Step) {
    match step
    case ElectionDue(i, _) => i in s.nodes && !s.nodes[i].role.Leader?
    case Deliver(m) => m in s.messages && m.to in s.nodes
    case LeaderSends(m) =>
      (m.BecomeFollowerMsg? || m.AppendEntriesMsg?) && exists w :: w in s.wins && w.node == m.from && w.term == m.term
    case Gossip(i, peers) => i in s.nodes && SamePeers(s.nodes[i].peers, peers)
    case UpdateLastLog(i, _) => i in s.nodes
    case UncommittedAdvances(i, index) => i in s.nodes && index != NO_INDEX
    case CommitAdvances(i, _, index) => i in s.nodes && index != NO_INDEX
  }

  function Do(s: System, step: Step): System
    requires Enabled(s, step)
  {
    match step
    case ElectionDue(i, pendingRollback) =>
      if RequestVotes(s.nodes[i], pendingRollback).role.Candidate? then Run(s, i) else RestartTimer(s, i)
    case Deliver(m) => Receive(s, m)
    case LeaderSends(m) => s.(messages := s.messages + {m})
    case Gossip(i, peers) => s.(nodes := s.nodes[i := s.nodes[i].(peers := peers)])
    case UpdateLastLog(i, last) => s.(nodes := s.nodes[i := s.nodes[i].(lastLog := last)])
    case UncommittedAdvances(i, index) => s.(nodes := s.nodes[i := AdvanceUncommittedIndex(s.nodes[i], index)])
    case CommitAdvances(i, peer, index) => s.(nodes := s.nodes[i := AdvanceCommitIndex(s.nodes[i], peer, index)])
  }

  function Next(s: System, step: Step): System {
    if Enabled(s, step) then Do(s, step) else s
  }

  function Execute(s: System, steps: seq<Step>): System
    decreases |steps|
  {
    if steps == [] then s else Next(Execute(s, steps[..|steps| - 1]), steps[|steps| - 1])
  }

  // ----- Membership

  /** Every node lists the other members as its peers of the shard, each once. */
  ghost predicate Member(n: Node, i: PeerId, members: set<PeerId>) {
    && n.id == i && i in members
    && (forall j, k :: 0 <= j < k < |n.peers| ==> n.peers[j].id != n.peers[k].id)
    && (forall p :: p in n.peers && p.shard == n.shard ==> p.id in members && p.id != i)
    && InShard(n.peers, n.shard, |n.peers|) + 1 == |members|
  }

  ghost predicate Initial(s: System) {
    && (forall i :: i in s.nodes ==> Member(s.nodes[i], i, s.nodes.Keys) && s.nodes[i].role.Wait?)
    && s.messages == {} && s.ballots == {} && s.runs == map[] && s.wins == {} && s.reopened == {}
  }

  // ----- Invariant

  /** The role of a node that has voted for `candidate` in its present term. */
  predicate Settled(role: Role, node: PeerId, candidate: PeerId) {
    match role
    case Wait => false
    case VotedFor(peer) => peer == candidate
    case Candidate => candidate == node
    case Leader => candidate == node
    case Follower(_) => true
  }

  ghost predicate BallotsInv(s: System) {
    forall b :: b in s.ballots ==>
      && b.voter in s.nodes && b.term <= s.nodes[b.voter].term
      && Turn(b.candidate, b.term) in s.runs
      && LogIsBehindOrEq(b.log, s.runs[Turn(b.candidate, b.term)])
      && (b.term == s.nodes[b.voter].term && Turn(b.voter, b.term) !in s.reopened ==>
            Settled(s.nodes[b.voter].role, b.voter, b.candidate))
  }

  predicate SameTurn(b: Ballot, c: Ballot) {
    b.voter == c.voter && b.term == c.term
  }

  ghost predicate OneVote(s: System) {
    forall b, c :: b in s.ballots && c in s.ballots && SameTurn(b, c) && Turn(b.voter, b.term) !in s.reopened ==>
      b.candidate == c.candidate
  }

  ghost predicate RunsInv(s: System) {
    forall t :: t in s.runs ==> t.node in s.nodes && t.term <= s.nodes[t.node].term
  }

  ghost predicate MessagesInv(s: System) {
    && (forall m :: m in s.messages && m.VoteRequest? ==>
          Turn(m.from, m.term) in s.runs && s.runs[Turn(m.from, m.term)] == m.last)
    && (forall m :: m in s.messages && m.VoteReply? && m.granted ==> HasBallot(s, m.from, m.term, m.to))
  }

  /** The votes a candidate has collected for a term it runs in were cast in that term. */
  ghost predicate Collected(s: System, i: PeerId)
    requires i in s.nodes
  {
    var n := s.nodes[i];
    n.role.Candidate? && Turn(i, n.term) in s.runs ==>
      && HasBallot(s, i, n.term, i)
      && forall p :: p in n.peers && p.shard == n.shard && p.voteGranted ==> HasBallot(s, p.id, n.term, i)
  }

  ghost predicate NodesInv(s: System) {
    forall i :: i in s.nodes ==> Member(s.nodes[i], i, s.nodes.Keys) && Collected(s, i)
  }

  ghost predicate WinsInv(s: System) {
    forall w :: w in s.wins ==>
      && w.quorum <= s.nodes.Keys && 2 * |w.quorum| > |s.nodes.Keys|
      && Turn(w.node, w.term) in s.runs
      && forall q :: q in w.quorum ==> HasBallot(s, q, w.term, w.node)
  }

  ghost predicate Inv(s: System) {
    NodesInv(s) && BallotsInv(s) && OneVote(s) && RunsInv(s) && MessagesInv(s) && WinsInv(s)
  }

  lemma InitialInv(s: System)
    requires Initial(s)
    ensures Inv(s)
  {
  }

  // ----- Steps that cast no vote

  ghost predicate SameIds(a: seq<Peer>, b: seq<Peer>) {
    |a| == |b| && forall i :: 0 <= i < |a| ==> a[i].id == b[i].id && a[i].shard == b[i].shard
  }

  ghost predicate SameGrants(a: seq<Peer>, b: seq<Peer>) {
    |a| == |b| && forall i :: 0 <= i < |a| ==> a[i].voteGranted == b[i].voteGranted
  }

  lemma {:induction false} InShardSame(a: seq<Peer>, b: seq<Peer>, shard: ShardId, n: nat)
    requires SameIds(a, b) && n <= |a|
    ensures InShard(a, shard, n) == InShard(b, shard, n)
  {
    if n > 0 {
      InShardSame(a, b, shard, n - 1);
    }
  }

  lemma MemberSame(n: Node, n': Node, i: PeerId, members: set<PeerId>)
    requires Member(n, i, members)
    requires n'.id == n.id && n'.shard == n.shard && SameIds(n.peers, n'.peers)
    ensures Member(n', i, members)
  {
    InShardSame(n.peers, n'.peers, n.shard, |n.peers|);
    forall p | p in n'.peers && p.shard == n'.shard ensures p.id in members && p.id != i {
      var k :| 0 <= k < |n'.peers| && n'.peers[k] == p;
      assert n.peers[k] in n.peers;
    }
  }

  /** Node `i` goes to `n'` without voting: in an unchanged term it keeps its role, follows a
      leader, or falls back to waiting, the latter on record if it has voted in that term. */
  ghost predicate Moves(s: System, i: PeerId, n': Node) {
    && i in s.nodes
    && var n := s.nodes[i];
    && n'.id == n.id && n'.shard == n.shard && SameIds(n.peers, n'.peers)
    && n.term <= n'.term
    && (n'.term == n.term ==>
          || n'.role == n.role
          || n'.role.Follower?
          || (n'.role.Wait? && (HasVoted(s, i, n.term) ==> Turn(i, n.term) in s.reopened)))
    && (n'.role.Candidate? ==> n.role.Candidate? && SameGrants(n.peers, n'.peers))
  }

  ghost predicate NoVotes(ms: set<Message>) {
    forall m :: m in ms ==> !m.VoteRequest? && !(m.VoteReply? && m.granted)
  }

  lemma MoveCollected(s: System, i: PeerId, n': Node, s': System)
    requires Inv(s) && Moves(s, i, n')
    requires s'.nodes == s.nodes[i := n'] && s'.ballots == s.ballots && s'.runs == s.runs
    ensures Collected(s', i)
  {
    var n := s.nodes[i];
    if n'.role.Candidate? && Turn(i, n'.term) in s.runs {
      assert n.term == n'.term;
      assert Collected(s, i);
      assert HasBallot(s', i, n'.term, i);
      forall p | p in n'.peers && p.shard == n'.shard && p.voteGranted ensures HasBallot(s', p.id, n'.term, i) {
        var k :| 0 <= k < |n'.peers| && n'.peers[k] == p;
        assert n.peers[k] in n.peers;
        assert HasBallot(s, n.peers[k].id, n.term, i);
      }
    }
  }

  lemma BallotsKept(s: System, s': System)
    requires s.ballots <= s'.ballots
    ensures forall v, t, c :: HasBallot(s, v, t, c) ==> HasBallot(s', v, t, c)
  {
    forall v, t, c | HasBallot(s, v, t, c) ensures HasBallot(s', v, t, c) {
      var b :| b in s.ballots && b.voter == v && b.term == t && b.candidate == c;
      assert b in s'.ballots;
    }
  }

  lemma MoveNodes(s: System, i: PeerId, n': Node, s': System)
    requires Inv(s) && Moves(s, i, n')
    requires s'.nodes == s.nodes[i := n'] && s'.ballots == s.ballots && s'.runs == s.runs
    ensures NodesInv(s')
  {
    assert s'.nodes.Keys == s.nodes.Keys;
    MemberSame(s.nodes[i], n', i, s.nodes.Keys);
    MoveCollected(s, i, n', s');
    BallotsKept(s, s');
    forall j | j in s'.nodes ensures Member(s'.nodes[j], j, s'.nodes.Keys) && Collected(s', j) {
      if j != i {
        assert Collected(s, j);
      }
    }
  }

  lemma MoveBallots(s: System, i: PeerId, n': Node, s': System)
    requires Inv(s) && Moves(s, i, n')
    requires s'.nodes == s.nodes[i := n'] && s'.ballots == s.ballots && s'.runs == s.runs && s'.reopened == s.reopened
    ensures BallotsInv(s') && RunsInv(s')
  {
    forall b | b in s'.ballots && b.term == s'.nodes[b.voter].term && Turn(b.voter, b.term) !in s'.reopened
      ensures Settled(s'.nodes[b.voter].role, b.voter, b.candidate)
    {
      if b.voter == i && n'.term == s.nodes[i].term {
        assert HasVoted(s, i, n'.term);
      }
    }
  }

  lemma MoveInv(s: System, i: PeerId, n': Node, ms: set<Message>)
    requires Inv(s) && Moves(s, i, n') && NoVotes(ms)
    ensures Inv(s.(nodes := s.nodes[i := n'], messages := s.messages + ms))
  {
    var s' := s.(nodes := s.nodes[i := n'], messages := s.messages + ms);
    assert s'.nodes.Keys == s.nodes.Keys;
    MoveNodes(s, i, n', s');
    MoveBallots(s, i, n', s');
    KeptInv(s, s');
    assert MessagesInv(s');
  }

  /** What was recorded about votes and wins stays true when the history only grows. */
  lemma KeptInv(s: System, s': System)
    requires OneVote(s) && MessagesInv(s) && WinsInv(s)
    requires s'.nodes.Keys == s.nodes.Keys && s'.ballots == s.ballots && s'.wins == s.wins
    requires s'.runs == s.runs && s.reopened <= s'.reopened
    requires forall m :: m in s'.messages && m !in s.messages ==> !m.VoteRequest? && !(m.VoteReply? && m.granted)
    ensures OneVote(s') && MessagesInv(s') && WinsInv(s')
  {
    BallotsKept(s, s');
  }

  lemma ReopenInv(s: System, turns: set<Turn>)
    requires Inv(s)
    ensures Inv(s.(reopened := s.reopened + turns))
  {
    var s' := s.(reopened := s.reopened + turns);
    KeptInv(s, s');
    forall j | j in s'.nodes ensures Collected(s', j) {
      CollectedKept(s, s', j);
    }
  }

  lemma ReopenMove(s: System, i: PeerId, turns: set<Turn>)
    requires i in s.nodes && turns == if HasVoted(s, i, s.nodes[i].term) then {Turn(i, s.nodes[i].term)} else {}
    ensures var s', n' := s.(reopened := s.reopened + turns), StartElectionTimer(s.nodes[i]);
            && Moves(s', i, n')
            && RestartTimer(s, i) == s'.(nodes := s'.nodes[i := n'], messages := s'.messages + {})
  {
    var s' := s.(reopened := s.reopened + turns);
    assert HasVoted(s', i, s.nodes[i].term) <==> HasVoted(s, i, s.nodes[i].term);
  }

  lemma RestartTimerInv(s: System, i: PeerId)
    requires Inv(s) && i in s.nodes
    ensures Inv(RestartTimer(s, i))
  {
    var turns := if HasVoted(s, i, s.nodes[i].term) then {Turn(i, s.nodes[i].term)} else {};
    ReopenInv(s, turns);
    ReopenMove(s, i, turns);
    MoveInv(s.(reopened := s.reopened + turns), i, StartElectionTimer(s.nodes[i]), {});
  }

  // ----- Running for election

  lemma CollectedKept(s: System, s': System, j: PeerId)
    requires j in s.nodes && j in s'.nodes && s'.nodes[j] == s.nodes[j] && Collected(s, j)
    requires s.ballots <= s'.ballots
    requires Turn(j, s.nodes[j].term) in s'.runs ==> Turn(j, s.nodes[j].term) in s.runs
    ensures Collected(s', j)
  {
    BallotsKept(s, s');
  }

  lemma NodesKept(s: System, s': System, i: PeerId)
    requires NodesInv(s) && i in s.nodes
    requires i in s'.nodes && s'.nodes == s.nodes[i := s'.nodes[i]] && s.ballots <= s'.ballots
    requires forall t :: t in s'.runs && t.node != i ==> t in s.runs
    requires Member(s'.nodes[i], i, s.nodes.Keys) && Collected(s', i)
    ensures NodesInv(s')
  {
    assert s'.nodes.Keys == s.nodes.Keys;
    forall j | j in s'.nodes ensures Member(s'.nodes[j], j, s'.nodes.Keys) && Collected(s', j) {
      if j != i {
        CollectedKept(s, s', j);
      }
    }
  }

  lemma WinsKept(s: System, s': System)
    requires WinsInv(s) && s'.wins == s.wins && s'.nodes.Keys == s.nodes.Keys
    requires s.ballots <= s'.ballots && forall t :: t in s.runs ==> t in s'.runs
    ensures WinsInv(s')
  {
    BallotsKept(s, s');
  }

  lemma RunCollected(s: System, i: PeerId)
    requires i in s.nodes
    ensures Collected(Run(s, i), i)
  {
    var s', n := Run(s, i), s.nodes[i];
    assert Ballot(i, n.term + 1, i, n.lastLog) in s'.ballots;
    assert HasBallot(s', i, n.term + 1, i);
    assert forall p :: p in Cleared(n.peers) ==> !p.voteGranted;
  }

  lemma RunNodes(s: System, i: PeerId)
    requires NodesInv(s) && i in s.nodes
    ensures NodesInv(Run(s, i))
  {
    MemberSame(s.nodes[i], RunForElection(s.nodes[i]), i, s.nodes.Keys);
    RunCollected(s, i);
    NodesKept(s, Run(s, i), i);
  }

  lemma RunBallots(s: System, i: PeerId)
    requires BallotsInv(s) && RunsInv(s) && i in s.nodes
    ensures BallotsInv(Run(s, i)) && RunsInv(Run(s, i))
  {
    assert Turn(i, s.nodes[i].term + 1) !in s.runs;
  }

  lemma RunOneVote(s: System, i: PeerId)
    requires BallotsInv(s) && OneVote(s) && i in s.nodes
    ensures OneVote(Run(s, i))
  {
  }

  lemma RunMessages(s: System, i: PeerId)
    requires MessagesInv(s) && RunsInv(s) && i in s.nodes && s.nodes[i].id == i
    ensures MessagesInv(Run(s, i))
  {
    assert Turn(i, s.nodes[i].term + 1) !in s.runs;
    BallotsKept(s, Run(s, i));
  }

  lemma RunInv(s: System, i: PeerId)
    requires Inv(s) && i in s.nodes
    ensures Inv(Run(s, i))
  {
    RunNodes(s, i);
    RunBallots(s, i);
    RunOneVote(s, i);
    assert s.nodes[i].id == i by { assert Member(s.nodes[i], i, s.nodes.Keys); }
    RunMessages(s, i);
    WinsKept(s, Run(s, i));
  }

  // ----- Granting a vote

  function Grant(s: System, v: PeerId, c: PeerId): System
    requires v in s.nodes
  {
    var n := s.nodes[v];
    s.(nodes := s.nodes[v := VoteFor(n, c)],
       messages := s.messages + {VoteReply(v, c, n.term, true)},
       ballots := s.ballots + {Ballot(v, n.term, c, n.lastLog)})
  }

  ghost predicate MayGrant(s: System, v: PeerId, c: PeerId) {
    && v in s.nodes
    && CanGrantVote(s.nodes[v], c)
    && Turn(c, s.nodes[v].term) in s.runs
    && LogIsBehindOrEq(s.nodes[v].lastLog, s.runs[Turn(c, s.nodes[v].term)])
  }

  lemma GrantBallots(s: System, v: PeerId, c: PeerId)
    requires Inv(s) && MayGrant(s, v, c)
    ensures BallotsInv(Grant(s, v, c)) && RunsInv(Grant(s, v, c))
  {
    var s', n := Grant(s, v, c), s.nodes[v];
    forall b | b in s.ballots && b.voter == v && b.term == n.term && Turn(v, n.term) !in s.reopened
      ensures b.candidate == c
    {
      assert Settled(n.role, v, b.candidate);
    }
  }

  lemma GrantOneVote(s: System, v: PeerId, c: PeerId)
    requires Inv(s) && MayGrant(s, v, c)
    ensures OneVote(Grant(s, v, c))
  {
    var n := s.nodes[v];
    forall b | b in s.ballots && b.voter == v && b.term == n.term && Turn(v, n.term) !in s.reopened
      ensures b.candidate == c
    {
      assert Settled(n.role, v, b.candidate);
    }
  }

  lemma GrantMessages(s: System, v: PeerId, c: PeerId)
    requires MessagesInv(s) && MayGrant(s, v, c)
    ensures MessagesInv(Grant(s, v, c))
  {
    var s', n := Grant(s, v, c), s.nodes[v];
    BallotsKept(s, s');
    assert Ballot(v, n.term, c, n.lastLog) in s'.ballots;
    assert HasBallot(s', v, n.term, c);
  }

  lemma GrantInv(s: System, v: PeerId, c: PeerId)
    requires Inv(s) && MayGrant(s, v, c)
    ensures Inv(Grant(s, v, c))
  {
    var s', n := Grant(s, v, c), s.nodes[v];
    MemberSame(n, VoteFor(n, c), v, s.nodes.Keys);
    NodesKept(s, s', v);
    GrantBallots(s, v, c);
    GrantOneVote(s, v, c);
    WinsKept(s, s');
    GrantMessages(s, v, c);
  }

  lemma RefuseInv(s: System, m: Message)
    requires Inv(s) && m in s.messages && m.VoteRequest? && m.to in s.nodes
    requires var (n', reply) := HandleVoteRequest(s.nodes[m.to], m.from, m.term, m.last);
             !(reply.Vote? && reply.granted)
    ensures Inv(ReceiveVoteRequest(s, m))
  {
    var (n', reply) := HandleVoteRequest(s.nodes[m.to], m.from, m.term, m.last);
    var ms := if reply.Vote? then {VoteReply(m.to, m.from, reply.term, reply.granted)} else {};
    MoveInv(s, m.to, n', ms);
    var s' := ReceiveVoteRequest(s, m);
    assert s'.ballots == s.ballots;
    assert s' == s.(nodes := s.nodes[m.to := n'], messages := s.messages + ms);
  }

  /** A granted request is a possible step down followed by a granted vote. */
  lemma GrantedRequest(s: System, m: Message)
    requires MessagesInv(s) && m in s.messages && m.VoteRequest? && m.to in s.nodes
    requires HandleVoteRequest(s.nodes[m.to], m.from, m.term, m.last).1 == Vote(m.term, true)
    ensures
      var n := s.nodes[m.to];
      var n1 := if n.term < m.term then StepDown(n, m.term) else n;
      var s1 := s.(nodes := s.nodes[m.to := n1], messages := s.messages + {});
      MayGrant(s1, m.to, m.from) && ReceiveVoteRequest(s, m) == Grant(s1, m.to, m.from)
  {
    assert s.messages + {} == s.messages;
  }

  lemma VoteRequestInv(s: System, m: Message)
    requires Inv(s) && m in s.messages && m.VoteRequest? && m.to in s.nodes
    ensures Inv(ReceiveVoteRequest(s, m))
  {
    var n := s.nodes[m.to];
    if HandleVoteRequest(n, m.from, m.term, m.last).1 == Vote(m.term, true) {
      var n1 := if n.term < m.term then StepDown(n, m.term) else n;
      MoveInv(s, m.to, n1, {});
      GrantedRequest(s, m);
      GrantInv(s.(nodes := s.nodes[m.to := n1], messages := s.messages + {}), m.to, m.from);
    } else {
      RefuseInv(s, m);
    }
  }

  // ----- Counting votes

  function VotersAmong(peers: seq<Peer>, shard: ShardId, n: nat): set<PeerId>
    requires n <= |peers|
  {
    if n == 0 then {}
    else
      VotersAmong(peers, shard, n - 1) +
      if peers[n - 1].shard == shard && peers[n - 1].voteGranted then {peers[n - 1].id} else {}
  }

  lemma {:induction false} VotersCounted(peers: seq<Peer>, shard: ShardId, n: nat)
    requires n <= |peers|
    requires forall j, k :: 0 <= j < k < |peers| ==> peers[j].id != peers[k].id
    ensures |VotersAmong(peers, shard, n)| == Granted(peers, shard, n)
    ensures forall id :: id in VotersAmong(peers, shard, n) <==>
                         exists k :: 0 <= k < n && peers[k].shard == shard && peers[k].voteGranted && peers[k].id == id
  {
    if n > 0 {
      VotersCounted(peers, shard, n - 1);
    }
  }

  /** A node that counts a majority has the votes of more than half of the members. */
  lemma MajorityOfMembers(n: Node, i: PeerId, members: set<PeerId>)
    requires Member(n, i, members) && HasMajority(n)
    ensures Voters(n) <= members && 2 * |Voters(n)| > |members|
  {
    var k := |n.peers|;
    VotersCounted(n.peers, n.shard, k);
    var among := VotersAmong(n.peers, n.shard, k);
    forall id | id in among ensures id in Voters(n) && id in members && id != n.id {
      var j :| 0 <= j < k && n.peers[j].shard == n.shard && n.peers[j].voteGranted && n.peers[j].id == id;
      assert n.peers[j] in n.peers;
    }
    forall id | id in Voters(n) && id != n.id ensures id in among {
      var p :| p in n.peers && p.shard == n.shard && p.voteGranted && p.id == id;
      var j :| 0 <= j < k && n.peers[j] == p;
    }
    assert Voters(n) == among + {n.id};
  }

  function Counted(n: Node, voter: PeerId): Node {
    n.(peers := WithVote(n.peers, n.shard, voter, |n.peers|))
  }

  lemma CountCollected(s: System, i: PeerId, voter: PeerId)
    requires NodesInv(s) && i in s.nodes && s.nodes[i].role.Candidate?
    requires Turn(i, s.nodes[i].term) in s.runs && HasBallot(s, voter, s.nodes[i].term, i)
    ensures var s' := s.(nodes := s.nodes[i := Counted(s.nodes[i], voter)]);
            && NodesInv(s')
            && forall q :: q in Voters(Counted(s.nodes[i], voter)) ==> HasBallot(s, q, s.nodes[i].term, i)
  {
    var n, n' := s.nodes[i], Counted(s.nodes[i], voter);
    var s' := s.(nodes := s.nodes[i := n']);
    BallotsKept(s, s');
    assert Collected(s, i);
    forall p | p in n'.peers && p.shard == n'.shard && p.voteGranted
      ensures HasBallot(s, p.id, n.term, i) && HasBallot(s', p.id, n.term, i)
    {
      var k :| 0 <= k < |n'.peers| && n'.peers[k] == p;
      assert n.peers[k] in n.peers;
    }
    MemberSame(n, n', i, s.nodes.Keys);
    assert HasBallot(s', i, n.term, i);
    NodesKept(s, s', i);
  }

  lemma CountInv(s: System, i: PeerId, voter: PeerId)
    requires Inv(s) && i in s.nodes && s.nodes[i].role.Candidate?
    requires Turn(i, s.nodes[i].term) in s.runs && HasBallot(s, voter, s.nodes[i].term, i)
    ensures Inv(s.(nodes := s.nodes[i := Counted(s.nodes[i], voter)]))
  {
    CountCollected(s, i, voter);
    var s' := s.(nodes := s.nodes[i := Counted(s.nodes[i], voter)]);
    assert s'.nodes.Keys == s.nodes.Keys;
    KeptInv(s, s');
    assert BallotsInv(s') && RunsInv(s');
  }

  function Lead(s: System, i: PeerId): System
    requires i in s.nodes
  {
    var n := s.nodes[i];
    s.(nodes := s.nodes[i := BecomeLeader(n)], wins := s.wins + {Win(i, n.term, Voters(n))})
  }

  lemma LeadWins(s: System, i: PeerId)
    requires WinsInv(s) && i in s.nodes && Member(s.nodes[i], i, s.nodes.Keys) && HasMajority(s.nodes[i])
    requires Turn(i, s.nodes[i].term) in s.runs
    requires forall q :: q in Voters(s.nodes[i]) ==> HasBallot(s, q, s.nodes[i].term, i)
    ensures WinsInv(Lead(s, i))
  {
    var s' := Lead(s, i);
    assert s'.nodes.Keys == s.nodes.Keys;
    MajorityOfMembers(s.nodes[i], i, s.nodes.Keys);
    BallotsKept(s, s');
  }

  lemma LeadInv(s: System, i: PeerId)
    requires Inv(s) && i in s.nodes && s.nodes[i].role.Candidate? && HasMajority(s.nodes[i])
    requires Turn(i, s.nodes[i].term) in s.runs
    requires forall q :: q in Voters(s.nodes[i]) ==> HasBallot(s, q, s.nodes[i].term, i)
    ensures Inv(Lead(s, i))
  {
    var s', n := Lead(s, i), s.nodes[i];
    LeadWins(s, i);
    MemberSame(n, BecomeLeader(n), i, s.nodes.Keys);
    NodesKept(s, s', i);
    LeadVotes(s, i);
    LeadBallots(s, i);
  }

  lemma LeadVotes(s: System, i: PeerId)
    requires OneVote(s) && MessagesInv(s) && i in s.nodes
    ensures OneVote(Lead(s, i)) && MessagesInv(Lead(s, i))
  {
    BallotsKept(s, Lead(s, i));
  }

  lemma LeadBallots(s: System, i: PeerId)
    requires BallotsInv(s) && RunsInv(s) && i in s.nodes && s.nodes[i].role.Candidate?
    ensures BallotsInv(Lead(s, i)) && RunsInv(Lead(s, i))
  {
  }

  lemma ReplyBallot(s: System, m: Message)
    requires MessagesInv(s) && BallotsInv(s) && m in s.messages && m.VoteReply? && m.granted
    ensures HasBallot(s, m.from, m.term, m.to) && Turn(m.to, m.term) in s.runs
  {
  }

  predicate Counts(n: Node, m: Message)
    requires m.VoteReply?
  {
    n.role.Candidate? && m.granted && n.term == m.term
  }

  lemma IgnoredMove(s: System, m: Message)
    requires m.VoteReply? && m.to in s.nodes && !Counts(s.nodes[m.to], m)
    ensures var n' := HandleVoteResponse(s.nodes[m.to], m.from, m.term, m.granted);
            && Moves(s, m.to, n')
            && ReceiveVoteReply(s, m) == s.(nodes := s.nodes[m.to := n'], messages := s.messages + {})
  {
  }

  lemma IgnoredReply(s: System, m: Message)
    requires Inv(s) && m.VoteReply? && m.to in s.nodes && !Counts(s.nodes[m.to], m)
    ensures Inv(ReceiveVoteReply(s, m))
  {
    IgnoredMove(s, m);
    MoveInv(s, m.to, HandleVoteResponse(s.nodes[m.to], m.from, m.term, m.granted), {});
  }

  lemma CountedReply(s: System, m: Message)
    requires m.VoteReply? && m.to in s.nodes && Counts(s.nodes[m.to], m)
    ensures var s1 := s.(nodes := s.nodes[m.to := Counted(s.nodes[m.to], m.from)]);
            ReceiveVoteReply(s, m) == if HasMajority(s1.nodes[m.to]) then Lead(s1, m.to) else s1
  {
  }

  lemma VoteReplyInv(s: System, m: Message)
    requires Inv(s) && m in s.messages && m.VoteReply? && m.to in s.nodes
    ensures Inv(ReceiveVoteReply(s, m))
  {
    var n := s.nodes[m.to];
    if Counts(n, m) {
      ReplyBallot(s, m);
      var s1 := s.(nodes := s.nodes[m.to := Counted(n, m.from)]);
      CountInv(s, m.to, m.from);
      CountCollected(s, m.to, m.from);
      BallotsKept(s, s1);
      CountedReply(s, m);
      if HasMajority(s1.nodes[m.to]) {
        LeadInv(s1, m.to);
      }
    } else {
      IgnoredReply(s, m);
    }
  }

  // ----- Every run

  lemma LocalInv(s: System, i: PeerId, n': Node)
    requires Inv(s) && Moves(s, i, n')
    ensures Inv(s.(nodes := s.nodes[i := n']))
  {
    MoveInv(s, i, n', {});
    assert s.messages + {} == s.messages;
  }

  lemma ReceiveInv(s: System, m: Message)
    requires Inv(s) && m in s.messages && m.to in s.nodes
    ensures Inv(Receive(s, m))
  {
    var n := s.nodes[m.to];
    match m {
      case VoteRequest(_, _, _, _) => VoteRequestInv(s, m);
      case VoteReply(_, _, _, _) => VoteReplyInv(s, m);
      case BecomeFollowerMsg(from, _, term, last) =>
        var (n', reply) := HandleBecomeFollower(n, from, term, last);
        MoveInv(s, m.to, n', if reply.StepDownReply? then {StepDownMsg(m.to, m.from, reply.term)} else {});
      case AppendEntriesMsg(from, _, term) =>
        var (n', reply) := HandleAppendEntries(n, from, term);
        MoveInv(s, m.to, n', if reply.StepDownReply? then {StepDownMsg(m.to, m.from, reply.term)} else {});
      case StepDownMsg(_, to, term) => StepDownInv(s, to, term);
    }
  }

  lemma StepDownInv(s: System, to: PeerId, term: nat)
    requires Inv(s) && to in s.nodes
    ensures Inv(ReceiveStepDown(s, to, term))
  {
    var n := s.nodes[to];
    if term > n.term {
      LocalInv(s, to, StepDown(n, term));
      assert ReceiveStepDown(s, to, term) == s.(nodes := s.nodes[to := StepDown(n, term)]);
    } else {
      RestartTimerInv(s, to);
      assert ReceiveStepDown(s, to, term) == RestartTimer(s, to);
    }
  }

  lemma ElectionDueInv(s: System, i: PeerId, pendingRollback: bool)
    requires Inv(s) && Enabled(s, ElectionDue(i, pendingRollback))
    ensures Inv(Do(s, ElectionDue(i, pendingRollback)))
  {
    if RequestVotes(s.nodes[i], pendingRollback).role.Candidate? {
      RunInv(s, i);
    } else {
      RestartTimerInv(s, i);
    }
  }

  /** Steps that concern neither term nor role of a node. */
  lemma LocalStepInv(s: System, step: Step)
    requires Inv(s) && Enabled(s, step)
    requires step.Gossip? || step.UpdateLastLog? || step.UncommittedAdvances? || step.CommitAdvances?
    ensures Inv(Do(s, step))
  {
    var n := s.nodes[step.node];
    match step {
      case Gossip(i, peers) => LocalInv(s, i, n.(peers := peers));
      case UpdateLastLog(i, last) => LocalInv(s, i, n.(lastLog := last));
      case UncommittedAdvances(i, index) => LocalInv(s, i, AdvanceUncommittedIndex(n, index));
      case CommitAdvances(i, peer, index) => LocalInv(s, i, AdvanceCommitIndex(n, peer, index));
    }
  }

  lemma StepInv(s: System, step: Step)
    requires Inv(s) && Enabled(s, step)
    ensures Inv(Do(s, step))
  {
    match step {
      case ElectionDue(i, pendingRollback) => ElectionDueInv(s, i, pendingRollback);
      case Deliver(m) => ReceiveInv(s, m);
      case LeaderSends(m) =>
        SendInv(s, m);
      case Gossip(_, _) => LocalStepInv(s, step);
      case UpdateLastLog(_, _) => LocalStepInv(s, step);
      case UncommittedAdvances(_, _) => LocalStepInv(s, step);
      case CommitAdvances(_, _, _) => LocalStepInv(s, step);
    }
  }

  lemma SendInv(s: System, m: Message)
    requires Inv(s) && (m.BecomeFollowerMsg? || m.AppendEntriesMsg?)
    ensures Inv(s.(messages := s.messages + {m}))
  {
    var s' := s.(messages := s.messages + {m});
    KeptInv(s, s');
    BallotsKept(s, s');
    forall j | j in s'.nodes ensures Member(s'.nodes[j], j, s'.nodes.Keys) && Collected(s', j) {
      CollectedKept(s, s', j);
    }
  }

  lemma {:induction false} RunsKeepInv(s: System, steps: seq<Step>)
    requires Initial(s)
    ensures Inv(Execute(s, steps))
    decreases |steps|
  {
    if steps == [] {
      InitialInv(s);
    } else {
      var front, step := steps[..|steps| - 1], steps[|steps| - 1];
      RunsKeepInv(s, front);
      if Enabled(Execute(s, front), step) {
        StepInv(Execute(s, front), step);
      }
    }
  }

  lemma Intersect(a: set<PeerId>, b: set<PeerId>, members: set<PeerId>)
    requires a <= members && b <= members && |a| + |b| > |members|
    ensures exists m :: m in a && m in b
  {
    if a !! b {
      assert |a + b| == |a| + |b|;
      SubsetSize(a + b, members);
    }
  }

  lemma {:induction false} SubsetSize(a: set<PeerId>, b: set<PeerId>)
    requires a <= b
    ensures |a| <= |b|
  {
    if a != {} {
      var x :| x in a;
      SubsetSize(a - {x}, b - {x});
    }
  }

  /** In every run, two nodes elected in the same term have a common voter that restarted its
      election timer in that term after having voted in it. Without such a restart there is at
      most one leader per term. */
  lemma ElectionSafety(s0: System, steps: seq<Step>, w1: Win, w2: Win)
    requires Initial(s0)
    requires w1 in Execute(s0, steps).wins && w2 in Execute(s0, steps).wins
    requires w1.term == w2.term && w1.node != w2.node
    ensures exists m :: m in w1.quorum && m in w2.quorum && Turn(m, w1.term) in Execute(s0, steps).reopened
  {
    var s := Execute(s0, steps);
    RunsKeepInv(s0, steps);
    Intersect(w1.quorum, w2.quorum, s.nodes.Keys);
    var m :| m in w1.quorum && m in w2.quorum;
    var b :| b in s.ballots && b.voter == m && b.term == w1.term && b.candidate == w1.node;
    var c :| c in s.ballots && c.voter == m && c.term == w1.term && c.candidate == w2.node;
    assert SameTurn(b, c);
  }

  /** Every set of at least half of the members holds a voter of each elected node, and that
      voter's log was not ahead of the log the elected node advertised. */
  lemma ElectedLogDominates(s0: System, steps: seq<Step>, w: Win, half: set<PeerId>)
    requires Initial(s0) && w in Execute(s0, steps).wins
    requires half <= Execute(s0, steps).nodes.Keys && 2 * |half| >= |Execute(s0, steps).nodes.Keys|
    ensures var s := Execute(s0, steps);
            && Turn(w.node, w.term) in s.runs
            && exists b :: b in s.ballots && b.voter in half && b.term == w.term && b.candidate == w.node
                           && LogIsBehindOrEq(b.log, s.runs[Turn(w.node, w.term)])
  {
    var s := Execute(s0, steps);
    RunsKeepInv(s0, steps);
    Intersect(w.quorum, half, s.nodes.Keys);
    var m :| m in w.quorum && m in half;
    var b :| b in s.ballots && b.voter == m && b.term == w.term && b.candidate == w.node;
  }

  /** A node that has voted for `c` grants a vote to another candidate of the same term only
      after such a restart. */
  lemma SecondVoteNeedsRestart(s0: System, steps: seq<Step>, v: PeerId, c: PeerId, d: PeerId, last: RaftId)
    requires Initial(s0) && v in Execute(s0, steps).nodes
    requires HasBallot(Execute(s0, steps), v, Execute(s0, steps).nodes[v].term, c) && c != d
    ensures var s := Execute(s0, steps);
            var n := s.nodes[v];
            HandleVoteRequest(n, d, n.term, last).1 == Vote(n.term, true) ==> Turn(v, n.term) in s.reopened
  {
    RunsKeepInv(s0, steps);
  }

  // ----- The restart does break election safety

  const NO_LOG := RaftId(0, NO_INDEX)

  function FreshPeer(id: PeerId): Peer {
    Peer(id, 0, Alive, NO_LOG, NO_INDEX, false)
  }

  function FreshNode(id: PeerId, a: PeerId, b: PeerId): Node {
    Node(id, 0, 0, NO_LOG, NO_INDEX, Wait, [FreshPeer(a), FreshPeer(b)])
  }

  function Trio(): System {
    System(map[0 := FreshNode(0, 1, 2), 1 := FreshNode(1, 0, 2), 2 := FreshNode(2, 0, 1)], {}, {}, map[], {}, {})
  }

  /** The counts over the two peers of a node. */
  lemma PairCounts(peers: seq<Peer>, n: nat)
    requires |peers| == n == 2 && peers[0].shard == peers[1].shard == 0
    ensures InShard(peers, 0, n) == 2
    ensures peers[0].IsHealthy() && peers[1].IsHealthy() ==> Healthy(peers, 0, n) == 2
    ensures !peers[0].voteGranted && peers[1].voteGranted ==> Granted(peers, 0, n) == 1
  {
    assert InShard(peers, 0, n - 2) == 0 && Healthy(peers, 0, n - 2) == 0 && Granted(peers, 0, n - 2) == 0;
    assert InShard(peers, 0, n - 1) == 1;
    assert peers[0].IsHealthy() ==> Healthy(peers, 0, n - 1) == 1;
    assert !peers[0].voteGranted ==> Granted(peers, 0, n - 1) == 0;
  }

  lemma FreshMember(i: PeerId, a: PeerId, b: PeerId, members: set<PeerId>)
    requires members == {i, a, b} && |members| == 3 && i != a && i != b && a != b
    ensures Member(FreshNode(i, a, b), i, members)
  {
    var peers := FreshNode(i, a, b).peers;
    PairCounts(peers, |peers|);
  }

  lemma TrioInitial()
    ensures Initial(Trio())
  {
    var members: set<PeerId> := {0, 1, 2};
    assert Trio().nodes.Keys == members;
    FreshMember(0, 1, 2, members);
    FreshMember(1, 0, 2, members);
    FreshMember(2, 0, 1, members);
  }

  lemma ExecuteSnoc(s: System, steps: seq<Step>, step: Step)
    ensures Execute(s, steps + [step]) == Next(Execute(s, steps), step)
  {
    assert (steps + [step])[..|steps|] == steps;
  }

  /** A fresh node of the trio, one of whose peers may have become irrelevant, runs for term 1. */
  lemma FreshRuns(s: System, i: PeerId, a: PeerId, b: PeerId)
    requires i in s.nodes && s.nodes[i] == FreshNode(i, a, b)
    ensures Next(s, ElectionDue(i, false)) == Run(s, i)
    ensures RunForElection(FreshNode(i, a, b)) == FreshNode(i, a, b).(role := Candidate, term := 1)
    ensures VoteRequest(i, b, 1, NO_LOG) in Run(s, i).messages
  {
    var n := s.nodes[i];
    PairCounts(n.peers, |n.peers|);
    assert Cleared(n.peers) == n.peers;
    assert n.peers[1] in n.peers;
  }

  /** A candidate of the trio that has no vote yet is elected by the vote of its second peer. */
  lemma SecondVoteElects(s: System, i: PeerId, a: PeerId, b: PeerId)
    requires i in s.nodes && a != b && s.nodes[i] == FreshNode(i, a, b).(role := Candidate, term := 1)
    requires VoteReply(b, i, 1, true) in s.messages
    ensures var s' := Next(s, Deliver(VoteReply(b, i, 1, true)));
            && s'.nodes.Keys == s.nodes.Keys
            && (forall j :: j in s.nodes && j != i ==> s'.nodes[j] == s.nodes[j])
            && s'.messages == s.messages && s'.ballots == s.ballots && s.wins <= s'.wins
            && exists w :: w in s'.wins && w.node == i && w.term == 1
  {
    var n := s.nodes[i];
    var n1 := Counted(n, b);
    assert n1.peers == [FreshPeer(a), FreshPeer(b).(voteGranted := true)];
    PairCounts(n1.peers, |n1.peers|);
    var s' := Next(s, Deliver(VoteReply(b, i, 1, true)));
    assert Win(i, 1, Voters(n1)) in s'.wins;
  }

  ghost predicate OthersKept(s: System, s': System, i: PeerId) {
    && s'.nodes.Keys == s.nodes.Keys && (forall j :: j in s.nodes && j != i ==> s'.nodes[j] == s.nodes[j])
    && s.messages <= s'.messages && s'.wins == s.wins
  }

  lemma WaitingGrants(s: System, c: PeerId, t: nat)
    requires c in {0, 1} && t <= 1 && 2 in s.nodes && s.nodes[2] == FreshNode(2, 0, 1).(term := t)
    requires VoteRequest(c, 2, 1, NO_LOG) in s.messages
    ensures var s' := Next(s, Deliver(VoteRequest(c, 2, 1, NO_LOG)));
            && OthersKept(s, s', 2)
            && s'.nodes[2] == FreshNode(2, 0, 1).(term := 1, role := VotedFor(c))
            && VoteReply(2, c, 1, true) in s'.messages
  {
    var n := s.nodes[2];
    assert n.peers[c].id == c;
    assert Cleared(n.peers) == n.peers;
  }

  lemma VoterRestarts(s: System, c: PeerId)
    requires 2 in s.nodes && s.nodes[2] == FreshNode(2, 0, 1).(term := 1, role := VotedFor(c))
    ensures var s' := Next(s, ElectionDue(2, true));
            OthersKept(s, s', 2) && s'.nodes[2] == FreshNode(2, 0, 1).(term := 1)
  {
    assert Cleared(s.nodes[2].peers) == s.nodes[2].peers;
  }

  /** Node `c`, still fresh, runs, and node 2, which waits, elects it. */
  lemma ElectedByTwo(s0: System, steps: seq<Step>, c: PeerId, other: PeerId, t: nat) returns (steps': seq<Step>, w: Win)
    requires {c, other} == {0, 1} && c != other && t <= 1
    requires var s := Execute(s0, steps);
             && s.nodes.Keys == {0, 1, 2} && s.nodes[c] == FreshNode(c, other, 2)
             && s.nodes[2] == FreshNode(2, 0, 1).(term := t)
    ensures var s, s' := Execute(s0, steps), Execute(s0, steps');
            && s'.nodes.Keys == {0, 1, 2} && s'.nodes[other] == s.nodes[other]
            && s'.nodes[2] == FreshNode(2, 0, 1).(term := 1, role := VotedFor(c))
            && s.wins <= s'.wins && w in s'.wins && w.node == c && w.term == 1
  {
    var s := Execute(s0, steps);
    var request, reply := VoteRequest(c, 2, 1, NO_LOG), VoteReply(2, c, 1, true);
    FreshRuns(s, c, other, 2);
    var s1 := Run(s, c);
    WaitingGrants(s1, c, t);
    var s2 := Next(s1, Deliver(request));
    SecondVoteElects(s2, c, other, 2);
    w :| w in Next(s2, Deliver(reply)).wins && w.node == c && w.term == 1;
    steps' := steps + [ElectionDue(c, false)] + [Deliver(request)] + [Deliver(reply)];
    ExecuteSnoc(s0, steps, ElectionDue(c, false));
    ExecuteSnoc(s0, steps + [ElectionDue(c, false)], Deliver(request));
    ExecuteSnoc(s0, steps + [ElectionDue(c, false)] + [Deliver(request)], Deliver(reply));
  }

  lemma ElectedTwice(s: System) returns (steps: seq<Step>, w1: Win, w2: Win)
    requires s.nodes.Keys == {0, 1, 2} && s.nodes[0] == FreshNode(0, 1, 2) && s.nodes[1] == FreshNode(1, 0, 2)
    requires s.nodes[2] == FreshNode(2, 0, 1)
    ensures w1 in Execute(s, steps).wins && w2 in Execute(s, steps).wins
    ensures w1.term == w2.term == 1 && w1.node == 0 && w2.node == 1
  {
    steps, w1 := ElectedByTwo(s, [], 0, 1, 0);
    ExecuteSnoc(s, steps, ElectionDue(2, true));
    VoterRestarts(Execute(s, steps), 0);
    steps, w2 := ElectedByTwo(s, steps + [ElectionDue(2, true)], 1, 0, 1);
  }

  /** Three fresh nodes can elect two leaders in term 1: node 2 votes for node 0, restarts its
      timer, and votes for node 1. */
  lemma TwoLeadersInOneTerm() returns (steps: seq<Step>, w1: Win, w2: Win)
    ensures Initial(Trio())
    ensures w1 in Execute(Trio(), steps).wins && w2 in Execute(Trio(), steps).wins
    ensures w1.term == w2.term && w1.node != w2.node
  {
    TrioInitial();
    assert Trio().nodes.Keys == {0, 1, 2};
    steps, w1, w2 := ElectedTwice(Trio());
  }
}

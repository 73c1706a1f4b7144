/** Runs of whole elections: one in which a leader commits by what it noted of a peer in an earlier term, and one in
    which a node that has committed an entry has to follow a leader that does not have it. */
module Reelection {
  import opened Common
  import opened RaftNode
  import opened Election
  import CommitIndex
  import opened Acknowledgements
  import opened StaleNotes

  // ----- Steps of an election

  lemma {:induction false} ExecuteConcat(s: System, a: seq<Step>, b: seq<Step>)
    ensures Execute(s, a + b) == Execute(Execute(s, a), b)
    decreases |b|
  {
    if b == [] {
      assert a + b == a;
    } else {
      var m := |b| - 1;
      ExecuteConcat(s, a, b[..m]);
      assert (a + b)[..|a| + m] == a + b[..m];
    }
  }

  /** A node runs for election. */
  lemma Runs(s: System, c: PeerId, p: Peer)
    requires c in s.nodes && s.nodes[c].id == c && !s.nodes[c].role.Leader?
    requires HasElectionQuorum(s.nodes[c]) && !PeerIsAhead(s.nodes[c])
    requires p in s.nodes[c].peers && p.shard == s.nodes[c].shard && !p.IsOffline()
    ensures Next(s, ElectionDue(c, false)) == Run(s, c)
    ensures VoteRequest(c, p.id, s.nodes[c].term + 1, s.nodes[c].lastLog) in Run(s, c).messages
  {
  }

  /** A node of an earlier term whose log is not ahead grants its vote. */
  lemma Grants(s: System, c: PeerId, v: PeerId, t: nat, last: RaftId)
    requires v in s.nodes && VoteRequest(c, v, t, last) in s.messages
    requires Knows(s.nodes[v], c) && s.nodes[v].term < t && LogIsBehindOrEq(s.nodes[v].lastLog, last)
    ensures var s' := Next(s, Deliver(VoteRequest(c, v, t, last)));
            && s'.nodes == s.nodes[v := VoteFor(StepDown(s.nodes[v], t), c)]
            && s.messages <= s'.messages && VoteReply(v, c, t, true) in s'.messages && s'.wins == s.wins
  {
  }

  /** A candidate counts a vote. */
  lemma Counts(s: System, c: PeerId, v: PeerId, t: nat)
    requires c in s.nodes && s.nodes[c].role.Candidate? && s.nodes[c].term == t
             && VoteReply(v, c, t, true) in s.messages
    ensures var s' := Next(s, Deliver(VoteReply(v, c, t, true)));
            var n := s.nodes[c];
            var n1 := n.(peers := WithVote(n.peers, n.shard, v, |n.peers|));
            && s'.nodes == s.nodes[c := if HasMajority(n1) then BecomeLeader(n1) else n1]
            && s'.messages == s.messages && s.wins <= s'.wins
            && (HasMajority(n1) ==> HasWon(s', c, t))
  {
    var n := s.nodes[c];
    var n1 := n.(peers := WithVote(n.peers, n.shard, v, |n.peers|));
    var s' := Next(s, Deliver(VoteReply(v, c, t, true)));
    if HasMajority(n1) {
      assert Win(c, t, Voters(n1)) in s'.wins;
    }
  }

  ghost predicate HasWon(s: System, c: PeerId, t: nat) {
    exists w :: w in s.wins && w.node == c && w.term == t
  }

  lemma WonBefore(s: System, s': System, c: PeerId, t: nat)
    requires HasWon(s, c, t) && s.wins <= s'.wins
    ensures HasWon(s', c, t)
  {
  }

  // ----- Peers

  function PeersOf(ids: seq<PeerId>, notes: seq<U64>): seq<Peer>
    requires |ids| == |notes|
  {
    seq(|ids|, k requires 0 <= k < |ids| => Peer(ids[k], 0, Alive, NO_LOG, notes[k], false))
  }

  lemma {:induction false} AllHealthy(peers: seq<Peer>, n: nat)
    requires n <= |peers| && forall k :: 0 <= k < |peers| ==> peers[k].shard == 0 && peers[k].IsHealthy()
    ensures InShard(peers, 0, n) == n && Healthy(peers, 0, n) == n
  {
    if n > 0 {
      AllHealthy(peers, n - 1);
    }
  }

  lemma {:induction false} GrantedTo(peers: seq<Peer>, n: nat, g: nat)
    requires n <= |peers| && forall k :: 0 <= k < |peers| ==> peers[k].shard == 0 && (peers[k].voteGranted <==> k < g)
    ensures Granted(peers, 0, n) == if n < g then n else g
  {
    if n > 0 {
      GrantedTo(peers, n - 1, g);
    }
  }

  /** The peers after the first `g` of them have granted their votes. */
  function WithGrants(peers: seq<Peer>, g: nat): seq<Peer> {
    seq(|peers|, k requires 0 <= k < |peers| => peers[k].(voteGranted := k < g))
  }

  lemma NextGrant(ids: seq<PeerId>, notes: seq<U64>, g: nat)
    requires |ids| == |notes| && g < |ids| && forall j, k :: 0 <= j < k < |ids| ==> ids[j] != ids[k]
    ensures var peers := PeersOf(ids, notes);
            WithVote(WithGrants(peers, g), 0, ids[g], |peers|) == WithGrants(peers, g + 1)
  {
  }

  /** A node of a shard of five or three, all alive. */
  ghost predicate IsNode(n: Node, ids: seq<PeerId>, notes: seq<U64>) {
    && |ids| == |notes| && (|ids| == 2 || |ids| == 4)
    && (forall j, k :: 0 <= j < k < |ids| ==> ids[j] != ids[k])
    && n.shard == 0 && n.peers == PeersOf(ids, notes)
  }

  lemma CanRun(n: Node, ids: seq<PeerId>, notes: seq<U64>)
    requires IsNode(n, ids, notes)
    ensures HasElectionQuorum(n) && !PeerIsAhead(n)
  {
    AllHealthy(n.peers, |n.peers|);
    assert !LogIsBehind(n.lastLog, NO_LOG);
  }

  /** As many votes as half of the peers give a majority. */
  lemma MajorityBy(n: Node, ids: seq<PeerId>, notes: seq<U64>, g: nat)
    requires IsNode(n, ids, notes) && g <= |ids|
    ensures var n1 := n.(peers := WithGrants(n.peers, g)); HasMajority(n1) <==> 2 * g >= |ids|
  {
    var peers := WithGrants(n.peers, g);
    AllHealthy(peers, |peers|);
    GrantedTo(peers, |peers|, g);
  }

  /** Node `v` would vote for `c` in a term. */
  ghost predicate WouldVote(s: System, v: PeerId, c: PeerId, t: nat, last: RaftId) {
    v in s.nodes && v != c && Knows(s.nodes[v], c) && s.nodes[v].term < t && LogIsBehindOrEq(s.nodes[v].lastLog, last)
  }

  /** A candidate that has `g` votes. */
  function Candidacy(n: Node, ids: seq<PeerId>, notes: seq<U64>, g: nat): Node
    requires |ids| == |notes|
  {
    n.(role := Candidate, peers := WithGrants(PeersOf(ids, notes), g))
  }

  lemma ClearedGrants(ids: seq<PeerId>, notes: seq<U64>, g: nat)
    requires |ids| == |notes|
    ensures Cleared(WithGrants(PeersOf(ids, notes), g)) == PeersOf(ids, notes)
    ensures Cleared(PeersOf(ids, notes)) == WithGrants(PeersOf(ids, notes), 0) == PeersOf(ids, notes)
  {
  }

  /** The voter after its vote. */
  function Voted(n: Node, c: PeerId, t: nat): Node {
    VoteFor(StepDown(n, t), c)
  }

  function AskForVote(c: PeerId, v: PeerId, t: nat, last: RaftId): seq<Step> {
    [Deliver(VoteRequest(c, v, t, last)), Deliver(VoteReply(v, c, t, true))]
  }

  lemma ExecuteTwo(s: System, a: Step, b: Step)
    ensures Execute(s, [a, b]) == Next(Next(s, a), b)
  {
    assert [a, b][..1] == [a] && [a][..0] == [];
    assert Execute(s, []) == s;
    assert Execute(s, [a]) == Next(s, a);
  }

  lemma VoteCounted(s: System, n: Node, ids: seq<PeerId>, notes: seq<U64>, g: nat, c: PeerId, v: PeerId)
    requires |ids| == |notes| && IsNode(n.(peers := PeersOf(ids, notes)), ids, notes) && n.id == c
    requires c in s.nodes && s.nodes[c] == Candidacy(n, ids, notes, g) && 2 * g < |ids| && v == ids[g]
    requires VoteReply(v, c, n.term, true) in s.messages
    ensures var s', n1 := Next(s, Deliver(VoteReply(v, c, n.term, true))), Candidacy(n, ids, notes, g + 1);
            && s'.nodes == s.nodes[c := if 2 * (g + 1) >= |ids| then BecomeLeader(n1) else n1]
            && s'.messages == s.messages && s.wins <= s'.wins && (2 * (g + 1) >= |ids| ==> HasWon(s', c, n.term))
  {
    Counts(s, c, v, n.term);
    NextGrant(ids, notes, g);
    MajorityBy(n.(role := Candidate, peers := PeersOf(ids, notes)), ids, notes, g + 1);
  }

  /** One more vote, before the majority and with it. */
  lemma OneMoreVote(s: System, n: Node, ids: seq<PeerId>, notes: seq<U64>, g: nat, c: PeerId, v: PeerId)
    requires |ids| == |notes| && IsNode(n.(peers := PeersOf(ids, notes)), ids, notes) && n.id == c
    requires c in s.nodes && s.nodes[c] == Candidacy(n, ids, notes, g) && 2 * g < |ids| && v == ids[g]
    requires WouldVote(s, v, c, n.term, n.lastLog) && VoteRequest(c, v, n.term, n.lastLog) in s.messages
    ensures var s', n1 := Execute(s, AskForVote(c, v, n.term, n.lastLog)), Candidacy(n, ids, notes, g + 1);
            && s'.nodes == s.nodes[v := Voted(s.nodes[v], c, n.term)]
                           [c := if 2 * (g + 1) >= |ids| then BecomeLeader(n1) else n1]
            && s.messages <= s'.messages && s.wins <= s'.wins && (2 * (g + 1) >= |ids| ==> HasWon(s', c, n.term))
  {
    var request, reply := VoteRequest(c, v, n.term, n.lastLog), VoteReply(v, c, n.term, true);
    Grants(s, c, v, n.term, n.lastLog);
    VoteCounted(Next(s, Deliver(request)), n, ids, notes, g, c, v);
    ExecuteTwo(s, Deliver(request), Deliver(reply));
  }

  lemma StartsToRun(s: System, ids: seq<PeerId>, notes: seq<U64>, c: PeerId, v: PeerId)
    requires c in s.nodes && s.nodes[c].id == c && IsNode(s.nodes[c], ids, notes) && !s.nodes[c].role.Leader?
             && v in ids
    ensures var s1 := Execute(s, [ElectionDue(c, false)]);
            var n := s.nodes[c];
            && s1.nodes == s.nodes[c := Candidacy(n.(term := n.term + 1), ids, notes, 0)]
            && VoteRequest(c, v, n.term + 1, n.lastLog) in s1.messages && s1.wins == s.wins && s.messages <= s1.messages
  {
    var n := s.nodes[c];
    CanRun(n, ids, notes);
    var k :| 0 <= k < |ids| && ids[k] == v;
    assert n.peers[k] in n.peers;
    Runs(s, c, n.peers[k]);
    ClearedGrants(ids, notes, 0);
    assert [ElectionDue(c, false)][..0] == [] && Execute(s, []) == s;
  }

  /** What an elected node looks like. */
  function Leading(n: Node): Node {
    n.(role := Leader, term := n.term + 1, uncommitted := n.lastLog.index)
  }

  lemma BecomesLeading(n: Node, ids: seq<PeerId>, notes: seq<U64>, g: nat)
    requires |ids| == |notes| && n.peers == PeersOf(ids, notes)
    ensures BecomeLeader(Candidacy(n.(term := n.term + 1), ids, notes, g)) == Leading(n)
  {
    ClearedGrants(ids, notes, g);
  }

  /** In a shard of three one vote is enough. */
  lemma ElectedByOne(s: System, ids: seq<PeerId>, notes: seq<U64>, c: PeerId) returns (steps: seq<Step>)
    requires c in s.nodes && s.nodes[c].id == c && IsNode(s.nodes[c], ids, notes) && !s.nodes[c].role.Leader?
    requires |ids| == 2 && WouldVote(s, ids[0], c, s.nodes[c].term + 1, s.nodes[c].lastLog)
    ensures var s', t := Execute(s, steps), s.nodes[c].term + 1;
            && s'.nodes == s.nodes[ids[0] := Voted(s.nodes[ids[0]], c, t)][c := Leading(s.nodes[c])]
            && s.wins <= s'.wins && HasWon(s', c, t)
  {
    var n, v := s.nodes[c], ids[0];
    var n1 := n.(term := n.term + 1);
    StartsToRun(s, ids, notes, c, v);
    var s1 := Execute(s, [ElectionDue(c, false)]);
    assert WouldVote(s1, v, c, n1.term, n1.lastLog);
    OneMoreVote(s1, n1, ids, notes, 0, c, v);
    BecomesLeading(n, ids, notes, 1);
    steps := [ElectionDue(c, false)] + AskForVote(c, v, n1.term, n1.lastLog);
    ExecuteConcat(s, [ElectionDue(c, false)], AskForVote(c, v, n1.term, n1.lastLog));
  }

  /** In a shard of five two votes are. */
  lemma ElectedByTwoOf(s: System, ids: seq<PeerId>, notes: seq<U64>, c: PeerId) returns (steps: seq<Step>)
    requires c in s.nodes && s.nodes[c].id == c && IsNode(s.nodes[c], ids, notes) && !s.nodes[c].role.Leader?
    requires |ids| == 4
    requires var t, last := s.nodes[c].term + 1, s.nodes[c].lastLog;
             WouldVote(s, ids[0], c, t, last) && WouldVote(s, ids[1], c, t, last)
    ensures var s', t := Execute(s, steps), s.nodes[c].term + 1;
            && s'.nodes == s.nodes[ids[0] := Voted(s.nodes[ids[0]], c, t)][ids[1] := Voted(s.nodes[ids[1]], c, t)]
                           [c := Leading(s.nodes[c])]
            && s.wins <= s'.wins && HasWon(s', c, t)
  {
    var n, v, v' := s.nodes[c], ids[0], ids[1];
    var n1 := n.(term := n.term + 1);
    StartsToRun(s, ids, notes, c, v);
    StartsToRun(s, ids, notes, c, v');
    var s1 := Execute(s, [ElectionDue(c, false)]);
    assert WouldVote(s1, v, c, n1.term, n1.lastLog);
    OneMoreVote(s1, n1, ids, notes, 0, c, v);
    var first, second := AskForVote(c, v, n1.term, n1.lastLog), AskForVote(c, v', n1.term, n1.lastLog);
    var s2 := Execute(s1, first);
    assert v' != v && s2.nodes[v'] == s.nodes[v'];
    assert WouldVote(s2, v', c, n1.term, n1.lastLog);
    OneMoreVote(s2, n1, ids, notes, 1, c, v');
    BecomesLeading(n, ids, notes, 2);
    steps := [ElectionDue(c, false)] + first + second;
    ExecuteConcat(s, [ElectionDue(c, false)], first);
    ExecuteConcat(s, [ElectionDue(c, false)] + first, second);
    var s3 := Execute(s2, second);
    assert s3.nodes == s.nodes[v := Voted(s.nodes[v], c, n1.term)][v' := Voted(s.nodes[v'], c, n1.term)]
                       [c := Leading(n)];
  }

  // ----- Fresh shards

  const NOTHING: seq<U64> := [NO_INDEX, NO_INDEX, NO_INDEX, NO_INDEX]

  function Fresh(i: PeerId, ids: seq<PeerId>): Node
    requires |ids| <= 4
  {
    Node(i, 0, 0, NO_LOG, NO_INDEX, Wait, PeersOf(ids, NOTHING[..|ids|]))
  }

  lemma FreshIsMember(i: PeerId, ids: seq<PeerId>, members: set<PeerId>)
    requires |ids| <= 4 && |members| == |ids| + 1 && i in members
    requires forall j, k :: 0 <= j < k < |ids| ==> ids[j] != ids[k]
    requires forall k :: 0 <= k < |ids| ==> ids[k] in members && ids[k] != i
    ensures Member(Fresh(i, ids), i, members)
  {
    AllHealthy(Fresh(i, ids).peers, |ids|);
  }

  // ----- A note from an earlier term

  const MEMBERS: set<PeerId> := {0, 1, 2, 3, 4}

  function Others(i: PeerId): seq<PeerId> {
    if i == 0 then [1, 2, 3, 4] else if i == 1 then [0, 2, 3, 4] else if i == 2 then [0, 1, 3, 4]
    else if i == 3 then [0, 1, 2, 4] else [0, 1, 2, 3]
  }

  function Five(): System {
    System(map i | i in MEMBERS :: Fresh(i, Others(i)), {}, {}, map[], {}, {})
  }

  lemma OthersAre(i: PeerId)
    requires i in MEMBERS
    ensures forall j, k :: 0 <= j < k < |Others(i)| ==> Others(i)[j] != Others(i)[k]
    ensures forall k :: 0 <= k < |Others(i)| ==> Others(i)[k] in MEMBERS && Others(i)[k] != i
  {
  }

  lemma FiveInitial()
    ensures Initial(Five()) && Five().nodes.Keys == MEMBERS
  {
    assert |MEMBERS| == 5;
    forall i | i in MEMBERS ensures Member(Five().nodes[i], i, MEMBERS) {
      OthersAre(i);
      FreshIsMember(i, Others(i), MEMBERS);
    }
    assert Five().nodes.Keys == MEMBERS;
  }

  function StepOf(i: PeerId, e: Event): Step {
    match e
    case Own(index) => UncommittedAdvances(i, index)
    case Reported(peer, index) => CommitAdvances(i, peer, index)
  }

  function StepsOf(i: PeerId, events: seq<Event>): seq<Step> {
    seq(|events|, k requires 0 <= k < |events| => StepOf(i, events[k]))
  }

  lemma EventIsStep(s: System, i: PeerId, e: Event)
    requires i in s.nodes && e.index != NO_INDEX
    ensures var s' := Next(s, StepOf(i, e));
            s'.nodes == s.nodes[i := Hears(s.nodes[i], e)] && s'.wins == s.wins && s'.messages == s.messages
  {
  }

  /** What a node is told are steps of a run. */
  lemma {:induction false} EventsAreSteps(s: System, i: PeerId, events: seq<Event>)
    requires i in s.nodes && AreIndexes(events)
    ensures var s' := Execute(s, StepsOf(i, events));
            && s'.nodes == s.nodes[i := After(s.nodes[i], events)] && s'.wins == s.wins && s'.messages == s.messages
    decreases |events|
  {
    if events == [] {
      assert s.nodes == s.nodes[i := s.nodes[i]];
    } else {
      var front, e := events[..|events| - 1], events[|events| - 1];
      assert e in events && forall x :: x in front ==> x in events;
      EventsAreSteps(s, i, front);
      var s1 := Execute(s, StepsOf(i, front));
      EventIsStep(s1, i, e);
      assert StepsOf(i, events) == StepsOf(i, front) + [StepOf(i, e)];
      ExecuteSnoc(s, StepsOf(i, front), StepOf(i, e));
      assert s1.nodes[i := Hears(s1.nodes[i], e)] == s.nodes[i := After(s.nodes[i], events)];
    }
  }

  /** One report of a new entry does not commit it in a shard of five. */
  lemma OneReport(n: Node)
    requires IsNode(n, [1, 2, 3, 4], NOTHING) && n.id == 0 && n.lastLog == NO_LOG && n.uncommitted == NO_INDEX
    ensures After(n, [Own(0), Reported(1, 0)])
         == n.(uncommitted := 0, peers := PeersOf([1, 2, 3, 4], [0, NO_INDEX, NO_INDEX, NO_INDEX]))
  {
    var n1 := n.(uncommitted := 0, peers := PeersOf([1, 2, 3, 4], [0, NO_INDEX, NO_INDEX, NO_INDEX]));
    assert [Own(0), Reported(1, 0)][..1] == [Own(0)] && [Own(0)][..0] == [];
    assert After(n, []) == n && After(n, [Own(0)]) == n.(uncommitted := 0);
    assert WithAck(n.peers, 0, 1, 0) == n1.peers;
    TwoOfFive(n1);
  }

  lemma TwoOfFive(n: Node)
    requires IsNode(n, [1, 2, 3, 4], [0, NO_INDEX, NO_INDEX, NO_INDEX]) && n.uncommitted == 0
    ensures CommitPosition(n) == 0
  {
    var p := n.peers;
    assert PeerPositions(p, 0, 0) == [];
    assert PeerPositions(p, 0, 1) == [1];
    assert PeerPositions(p, 0, 2) == [1, 0];
    assert PeerPositions(p, 0, 3) == [1, 0, 0];
    assert PeerPositions(p, 0, 4) == [1, 0, 0, 0];
    assert Positions(n) == [1, 0, 0, 0, 1];
    CommitIndex.PickIsLargestHalf(n);
    CountTwo(CommitPosition(n));
  }

  lemma CountTwo(w: nat)
    ensures w > 0 ==> CommitIndex.CountGe([1, 0, 0, 0, 1], w) <= 2
  {
    assert CommitIndex.CountGe([1], w) <= 1;
    assert [0, 1][1..] == [1] && [0, 0, 1][1..] == [0, 1] && [0, 0, 0, 1][1..] == [0, 0, 1];
    assert [1, 0, 0, 0, 1][1..] == [0, 0, 0, 1];
    if w > 0 {
      assert CommitIndex.CountGe([0, 1], w) <= 1;
      assert CommitIndex.CountGe([0, 0, 1], w) <= 1;
      assert CommitIndex.CountGe([0, 0, 0, 1], w) <= 1;
    }
  }

  /** Node `c` runs twice in a row. */
  lemma RunsTwice(s: System, c: PeerId, i: PeerId)
    requires c in s.nodes && c in MEMBERS && s.nodes[c] == Fresh(c, Others(c)) && i in Others(c)
    ensures var due := [ElectionDue(c, false)];
            var s' := Execute(s, due + due);
            && s'.nodes == s.nodes[c := Candidacy(Fresh(c, Others(c)).(term := 2), Others(c), NOTHING, 0)]
            && VoteRequest(c, i, 2, NO_LOG) in s'.messages && s'.wins == s.wins
  {
    var ids, due := Others(c), [ElectionDue(c, false)];
    OthersAre(c);
    assert NOTHING[..4] == NOTHING;
    assert IsNode(Fresh(c, ids), ids, NOTHING);
    StartsToRun(s, ids, NOTHING, c, i);
    var s1 := Execute(s, due);
    ClearedGrants(ids, NOTHING, 0);
    assert s1.nodes[c] == Fresh(c, ids).(role := Candidate, term := 1);
    assert IsNode(s1.nodes[c], ids, NOTHING);
    StartsToRun(s1, ids, NOTHING, c, i);
    ExecuteConcat(s, due, due);
  }

  /** It makes a leader of the first term step down. */
  lemma StepsDown(s: System, c: PeerId, i: PeerId) returns (steps: seq<Step>)
    requires c in s.nodes && i in s.nodes && c != i && s.nodes[c] == Fresh(c, Others(c)) && c in MEMBERS
             && i in Others(c)
    requires Knows(s.nodes[i], c) && s.nodes[i].term == 1 && s.nodes[i].lastLog == NO_LOG
    ensures var s' := Execute(s, steps);
            && s'.nodes.Keys == s.nodes.Keys
            && (forall k :: k in s.nodes && k != c && k != i ==> s'.nodes[k] == s.nodes[k])
            && s'.nodes[i] == Voted(s.nodes[i], c, 2) && s.wins <= s'.wins
  {
    var due, request := [ElectionDue(c, false)], VoteRequest(c, i, 2, NO_LOG);
    RunsTwice(s, c, i);
    var s2 := Execute(s, due + due);
    Grants(s2, c, i, 2, NO_LOG);
    steps := due + due + [Deliver(request)];
    ExecuteSnoc(s, due + due, Deliver(request));
  }

  lemma StillKnows(n: Node, c: PeerId, t: nat)
    requires Knows(n, c)
    ensures Knows(Voted(n, c, t), c)
  {
    var k :| 0 <= k < |n.peers| && n.peers[k].id == c;
    assert Voted(n, c, t).peers[k].id == c;
  }

  /** Nodes 1 and 2 would vote for node 0 in any term after `t`. */
  ghost predicate IsReady(s: System, t: nat) {
    && s.nodes.Keys == MEMBERS
    && forall v :: v in {1, 2} ==> Knows(s.nodes[v], 0) && s.nodes[v].term <= t && s.nodes[v].lastLog == NO_LOG
  }

  const IDS: seq<PeerId> := [1, 2, 3, 4]

  lemma Elected(s: System, notes: seq<U64>) returns (steps: seq<Step>)
    requires 0 in s.nodes && IsReady(s, s.nodes[0].term)
    requires var n := s.nodes[0]; n.id == 0 && IsNode(n, IDS, notes) && !n.role.Leader? && n.lastLog == NO_LOG
    ensures var s', n := Execute(s, steps), s.nodes[0];
            && IsReady(s', n.term + 1) && s'.nodes[0] == Leading(n) && s'.nodes[3] == s.nodes[3]
            && HasWon(s', 0, n.term + 1)
  {
    var n := s.nodes[0];
    assert IDS[0] == 1 && IDS[1] == 2;
    assert WouldVote(s, 1, 0, n.term + 1, NO_LOG) && WouldVote(s, 2, 0, n.term + 1, NO_LOG);
    steps := ElectedByTwoOf(s, IDS, notes, 0);
    StillKnows(s.nodes[1], 0, n.term + 1);
    StillKnows(s.nodes[2], 0, n.term + 1);
  }

  const NOTED: seq<U64> := [0, NO_INDEX, NO_INDEX, NO_INDEX]

  /** One report, and the end of the first term. */
  lemma NotedAndDown(s: System) returns (steps: seq<Step>)
    requires IsReady(s, 1) && s.nodes[3] == Fresh(3, Others(3))
    requires var n := s.nodes[0];
             n.id == 0 && IsNode(n, IDS, NOTHING) && n.term == 1 && n.lastLog == NO_LOG && n.uncommitted == NO_INDEX
    ensures var s' := Execute(s, steps);
            && IsReady(s', 2)
            && s'.nodes[0] ==
               s.nodes[0].(uncommitted := 0, term := 2, role := VotedFor(3), peers := PeersOf(IDS, NOTED))
  {
    var events := [Own(0), Reported(1, 0)];
    EventsAreSteps(s, 0, events);
    OneReport(s.nodes[0]);
    var s1 := Execute(s, StepsOf(0, events));
    assert s1.nodes[0].peers[2].id == 3;
    assert Others(3)[0] == 0;
    var down := StepsDown(s1, 3, 0);
    ClearedGrants(IDS, NOTED, 0);
    steps := StepsOf(0, events) + down;
    ExecuteConcat(s, StepsOf(0, events), down);
  }

  lemma FiveAreReady()
    ensures IsReady(Five(), 0) && Five().nodes[0] == Fresh(0, IDS) && Five().nodes[3] == Fresh(3, Others(3))
    ensures IsNode(Fresh(0, IDS), IDS, NOTHING)
  {
    var s := Five();
    FiveInitial();
    OthersAre(0);
    assert NOTHING[..4] == NOTHING;
    assert s.nodes[1].peers[0].id == 0 && s.nodes[2].peers[0].id == 0;
  }

  /** Node 0 is elected in the third term, with peer 1 noted from its first. */
  lemma ReelectedWithNote() returns (steps: seq<Step>)
    ensures var s := Execute(Five(), steps);
            && s.nodes.Keys == MEMBERS && HasWon(s, 0, 3)
            && s.nodes[0] == Node(0, 0, 3, NO_LOG, NO_INDEX, Leader, PeersOf(IDS, NOTED))
  {
    var s0 := Five();
    FiveAreReady();
    var first := Elected(s0, NOTHING);
    var s1 := Execute(s0, first);
    var down := NotedAndDown(s1);
    var s2 := Execute(s1, down);
    var again := Elected(s2, NOTED);
    steps := first + down + again;
    ExecuteConcat(s0, first, down);
    ExecuteConcat(s0, first + down, again);
  }

  lemma NotedIsMember(n: Node)
    requires n == Node(0, 0, 3, NO_LOG, NO_INDEX, Leader, PeersOf(IDS, NOTED))
    ensures Member(n, 0, MEMBERS) && !NoneBeyond(n) && !OnlyFirst(n, MEMBERS)
  {
    AllHealthy(n.peers, 4);
    assert |MEMBERS| == 5;
    assert n.peers[0].commitIndex == 0;
    OthersAre(0);
  }

  /** A run of five fresh nodes: node 0 is elected, hears of its first entry from one peer, which is not enough, steps
      down and is elected again. It then commits an entry that less than half of the members have reported since. */
  lemma UnreportedCommit() returns (steps: seq<Step>, events: seq<Event>)
    ensures Initial(Five())
    ensures var s := Execute(Five(), steps);
            && s.nodes.Keys == MEMBERS && HasWon(s, 0, 3) && s.nodes[0].role == Leader
            && ArePlausible(s.nodes[0], 0, MEMBERS, events) && !IsReported(s.nodes[0], 0, MEMBERS, events)
            && Execute(s, StepsOf(0, events)).nodes == s.nodes[0 := After(s.nodes[0], events)]
  {
    FiveInitial();
    steps := ReelectedWithNote();
    var s := Execute(Five(), steps);
    var n := s.nodes[0];
    NotedIsMember(n);
    events := CommittedUnreported(n, 0, MEMBERS);
    PlausibleAreIndexes(n, 0, MEMBERS, events);
    EventsAreSteps(s, 0, events);
  }

  // ----- A leader that does not have what was committed

  function Three(): System {
    System(map[0 := Fresh(0, [1, 2]), 1 := Fresh(1, [2, 0]), 2 := Fresh(2, [0, 1])], {}, {}, map[], {}, {})
  }

  lemma ThreeInitial()
    ensures Initial(Three())
  {
    var members: set<PeerId> := {0, 1, 2};
    assert Three().nodes.Keys == members && |members| == 3;
    FreshIsMember(0, [1, 2], members);
    FreshIsMember(1, [2, 0], members);
    FreshIsMember(2, [0, 1], members);
  }

  const NONE: seq<U64> := [NO_INDEX, NO_INDEX]

  lemma ThreeAreNodes()
    ensures IsNode(Fresh(0, [1, 2]), [1, 2], NONE) && IsNode(Fresh(1, [2, 0]), [2, 0], NONE)
    ensures Knows(Fresh(1, [2, 0]), 0) && Knows(Fresh(2, [0, 1]), 1) && Knows(Fresh(0, [1, 2]), 1)
  {
    assert NOTHING[..2] == NONE;
    assert Fresh(1, [2, 0]).peers[1].id == 0 && Fresh(2, [0, 1]).peers[1].id == 1 && Fresh(0, [1, 2]).peers[0].id == 1;
  }

  lemma CountPair(x: U64, w: nat)
    ensures CommitIndex.CountGe([0, x, x], w) == (if 0 >= w then 1 else 0) + if x >= w then 2 else 0
  {
    assert [0, x, x][1..] == [x, x] && [x, x][1..] == [x];
    assert CommitIndex.CountGe([x], w) == if x >= w then 1 else 0;
    assert CommitIndex.CountGe([x, x], w) == if x >= w then 2 else 0;
  }

  /** The node and its second peer are enough in a shard of three. */
  lemma TwoOfThree(n: Node, v: U64)
    requires v != NO_INDEX && IsNode(n, [1, 2], [NO_INDEX, v]) && n.uncommitted == v
    ensures CommitPosition(n) == v + 1
  {
    var p := n.peers;
    assert PeerPositions(p, 0, 0) == [];
    assert PeerPositions(p, 0, 1) == [0];
    assert PeerPositions(p, 0, 2) == [0, v + 1];
    assert Positions(n) == [0, v + 1, v + 1];
    CommitIndex.PickIsLargestHalf(n);
    CountPair(v + 1, CommitPosition(n));
    CountPair(v + 1, v + 1);
  }

  lemma ReportOfNext(n: Node, v: U64, note: U64)
    requires v != NO_INDEX && IsNode(n, [1, 2], [NO_INDEX, note]) && n.lastLog.index == note && n.uncommitted == v
    requires v == if note == NO_INDEX then 0 else note + 1
    ensures AdvanceCommitIndex(n, 2, v)
         == n.(lastLog := RaftId(n.term, v), peers := PeersOf([1, 2], [NO_INDEX, v]))
  {
    var n1 := n.(peers := PeersOf([1, 2], [NO_INDEX, v]));
    assert WithAck(n.peers, 0, 2, v) == n1.peers;
    TwoOfThree(n1, v);
    assert WrappingInc(note) == v && WrappingDec(v + 1) == v;
  }

  function NextEvents(v: U64): seq<Event> {
    [Own(v), Reported(2, v)]
  }

  /** Node 0 writes its next entry and hears of it from peer 2. */
  lemma CommitsNext(n: Node, v: U64, note: U64)
    requires v != NO_INDEX && IsNode(n, [1, 2], [NO_INDEX, note]) && n.uncommitted == n.lastLog.index == note
    requires v == if note == NO_INDEX then 0 else note + 1
    ensures After(n, NextEvents(v))
         == n.(uncommitted := v, lastLog := RaftId(n.term, v), peers := PeersOf([1, 2], [NO_INDEX, v]))
  {
    var n1 := n.(uncommitted := v);
    assert NextEvents(v)[..1] == [Own(v)] && [Own(v)][..0] == [];
    assert After(n, []) == n;
    assert After(n, [Own(v)]) == n1;
    ReportOfNext(n1, v, note);
  }

  lemma CommitsOne(s: System, v: U64, note: U64)
    requires 0 in s.nodes && v != NO_INDEX && v == if note == NO_INDEX then 0 else note + 1
    requires var n := s.nodes[0]; IsNode(n, [1, 2], [NO_INDEX, note]) && n.uncommitted == n.lastLog.index == note
    ensures var s', n := Execute(s, StepsOf(0, NextEvents(v))), s.nodes[0];
            && s'.nodes == s.nodes[0 := n.(uncommitted := v, lastLog := RaftId(n.term, v),
                                           peers := PeersOf([1, 2], [NO_INDEX, v]))]
            && s'.wins == s.wins
  {
    EventsAreSteps(s, 0, NextEvents(v));
    CommitsNext(s.nodes[0], v, note);
  }

  function Told(last: RaftId): seq<Step> {
    [UpdateLastLog(1, last), UpdateLastLog(2, last)]
  }

  lemma OthersAreTold(s: System, last: RaftId)
    requires 1 in s.nodes && 2 in s.nodes
    ensures var s' := Execute(s, Told(last));
            && s'.nodes == s.nodes[1 := s.nodes[1].(lastLog := last)][2 := s.nodes[2].(lastLog := last)]
            && s'.wins == s.wins
  {
    ExecuteTwo(s, UpdateLastLog(1, last), UpdateLastLog(2, last));
  }

  /** Node 0 has committed two entries, and the others know of the first. */
  lemma CommitsTwo(s: System) returns (steps: seq<Step>)
    requires s.nodes.Keys == {0, 1, 2}
    requires var n := s.nodes[0];
             IsNode(n, [1, 2], NONE) && n.lastLog == NO_LOG && n.uncommitted == NO_INDEX && n.term == 1
    ensures var s', first := Execute(s, steps), RaftId(1, 0);
            && s'.nodes.Keys == {0, 1, 2} && s'.wins == s.wins
            && s'.nodes[0].lastLog == RaftId(1, 1) && s'.nodes[0].term == 1
            && s'.nodes[0].peers == PeersOf([1, 2], [NO_INDEX, 1])
            && s'.nodes[1] == s.nodes[1].(lastLog := first) && s'.nodes[2] == s.nodes[2].(lastLog := first)
  {
    var e1, told, e2 := StepsOf(0, NextEvents(0)), Told(RaftId(1, 0)), StepsOf(0, NextEvents(1));
    CommitsOne(s, 0, NO_INDEX);
    var s1 := Execute(s, e1);
    OthersAreTold(s1, RaftId(1, 0));
    var s2 := Execute(s1, told);
    assert IsNode(s2.nodes[0], [1, 2], [NO_INDEX, 0]);
    CommitsOne(s2, 1, 0);
    steps := e1 + told + e2;
    ExecuteConcat(s, e1, told);
    ExecuteConcat(s, e1 + told, e2);
  }

  /** A later leader, whose process has put the new term beside its old index, is followed. */
  lemma Follows(s: System, last: RaftId) returns (steps: seq<Step>)
    requires 0 in s.nodes && Knows(s.nodes[0], 1) && s.nodes[0].term < 2 && HasWon(s, 1, 2)
    requires LogIsBehindOrEq(s.nodes[0].lastLog, last)
    ensures var s' := Execute(s, steps);
            s'.nodes == s.nodes[0 := FollowLeader(s.nodes[0].(term := 2), 1)] && s'.wins == s.wins
  {
    var m := BecomeFollowerMsg(1, 0, 2, last);
    steps := [LeaderSends(m), Deliver(m)];
    ExecuteTwo(s, LeaderSends(m), Deliver(m));
  }

  /** A run of three fresh nodes: node 0 is elected and commits two entries, the second one by the report of node 2.
      Node 1, which knows of the first only, is then elected by node 2, as votes go by what is known to be committed,
      and node 0 follows it when it is sent the first index with the new term. */
  lemma OutvotedLeader() returns (steps: seq<Step>)
    ensures Initial(Three())
    ensures var s := Execute(Three(), steps);
            && s.nodes.Keys == {0, 1, 2} && HasWon(s, 0, 1) && HasWon(s, 1, 2)
            && s.nodes[0].lastLog == RaftId(1, 1) && s.nodes[0].role == Follower(1)
            && s.nodes[1].lastLog == RaftId(1, 0) && s.nodes[1].role == Leader
  {
    ThreeInitial();
    var s0 := Three();
    assert s0.nodes.Keys == {0, 1, 2};
    steps := Outvotes(s0);
  }

  lemma Outvotes(s0: System) returns (steps: seq<Step>)
    requires s0.nodes == map[0 := Fresh(0, [1, 2]), 1 := Fresh(1, [2, 0]), 2 := Fresh(2, [0, 1])]
    ensures var s := Execute(s0, steps);
            && s.nodes.Keys == {0, 1, 2} && HasWon(s, 0, 1) && HasWon(s, 1, 2)
            && s.nodes[0].lastLog == RaftId(1, 1) && s.nodes[0].role == Follower(1)
            && s.nodes[1].lastLog == RaftId(1, 0) && s.nodes[1].role == Leader
  {
    ThreeAreNodes();
    var a := ElectedByOne(s0, [1, 2], NONE, 0);
    var s1 := Execute(s0, a);
    var b := CommitsTwo(s1);
    var s2 := Execute(s1, b);
    ClearedGrants([2, 0], NONE, 0);
    var c := ElectedByOne(s2, [2, 0], NONE, 1);
    var s3 := Execute(s2, c);
    assert s3.nodes[0] == s2.nodes[0];
    assert s3.nodes[0].peers[0].id == 1;
    var d := Follows(s3, RaftId(2, 0));
    var s4 := Execute(s3, d);
    WonBefore(s1, s4, 0, 1);
    steps := a + b + c + d;
    ExecuteConcat(s0, a, b);
    ExecuteConcat(s0, a + b, c);
    ExecuteConcat(s0, a + b + c, d);
  }
}

/** The commit index: which index the leader picks from the acknowledged ones, and how the nodes
    that acknowledged it relate to the voters of later leaders. */
module CommitIndex {
  import opened Common
  import opened RaftNode
  import opened Election

  /** How many positions are at least `w`. */
  function CountGe(s: seq<U64>, w: nat): nat {
    if s == [] then 0 else (if s[0] >= w then 1 else 0) + CountGe(s[1..], w)
  }

  lemma {:induction false} CountInsert(x: U64, s: seq<U64>, w: nat)
    requires Sorted(s)
    ensures CountGe(InsertSorted(x, s), w) == CountGe(s, w) + if x >= w then 1 else 0
    decreases |s|
  {
    if s == [] || x <= s[0] {
      assert ([x] + s)[1..] == s;
    } else {
      CountInsert(x, s[1..], w);
      assert InsertSorted(x, s)[1..] == InsertSorted(x, s[1..]);
    }
  }

  lemma {:induction false} CountSort(s: seq<U64>, w: nat)
    ensures CountGe(Sort(s), w) == CountGe(s, w)
    decreases |s|
  {
    if s != [] {
      CountSort(s[1..], w);
      CountInsert(s[0], Sort(s[1..]), w);
    }
  }

  lemma {:induction false} CountBounds(s: seq<U64>, k: nat, w: nat)
    requires Sorted(s) && k < |s|
    ensures w <= s[k] ==> CountGe(s, w) >= |s| - k
    ensures w > s[k] ==> CountGe(s, w) < |s| - k
    decreases |s|
  {
    if k > 0 {
      CountBounds(s[1..], k - 1, w);
    } else {
      CountAll(s, w);
      CountAll(s[1..], w);
    }
  }

  lemma {:induction false} CountAll(s: seq<U64>, w: nat)
    ensures CountGe(s, w) <= |s|
    ensures (forall i :: 0 <= i < |s| ==> s[i] >= w) ==> CountGe(s, w) == |s|
    decreases |s|
  {
    if s != [] {
      CountAll(s[1..], w);
    }
  }

  /** The picked position is the largest one that at least half of the members have reached. */
  lemma PickIsLargestHalf(n: Node)
    ensures var s, v := Positions(n), CommitPosition(n);
            && 2 * CountGe(s, v) >= |s|
            && forall w: nat :: w > v ==> 2 * CountGe(s, w) < |s|
  {
    var s := Positions(n);
    var sorted := Sort(s);
    var k := |sorted| / 2;
    CountSort(s, sorted[k]);
    CountBounds(sorted, k, sorted[k]);
    forall w: nat | w > sorted[k] ensures 2 * CountGe(s, w) < |s| {
      CountSort(s, w);
      CountBounds(sorted, k, w);
    }
  }

  /** The members that have acknowledged a position, the node itself by its own log. */
  function AckersAmong(peers: seq<Peer>, shard: ShardId, n: nat, w: nat): set<PeerId>
    requires n <= |peers|
  {
    if n == 0 then {}
    else
      AckersAmong(peers, shard, n - 1, w) +
      if peers[n - 1].shard == shard && WrappingInc(peers[n - 1].commitIndex) >= w then {peers[n - 1].id} else {}
  }

  function Ackers(n: Node, w: nat): set<PeerId> {
    AckersAmong(n.peers, n.shard, |n.peers|, w) + if WrappingInc(n.uncommitted) >= w then {n.id} else {}
  }

  lemma {:induction false} CountSnoc(s: seq<U64>, x: U64, w: nat)
    ensures CountGe(s + [x], w) == CountGe(s, w) + if x >= w then 1 else 0
    decreases |s|
  {
    if s == [] {
      assert s + [x] == [x];
    } else {
      CountSnoc(s[1..], x, w);
      assert (s + [x])[1..] == s[1..] + [x];
    }
  }

  lemma {:induction false} AckersCounted(peers: seq<Peer>, shard: ShardId, n: nat, w: nat)
    requires n <= |peers|
    requires forall j, k :: 0 <= j < k < |peers| ==> peers[j].id != peers[k].id
    ensures |AckersAmong(peers, shard, n, w)| == CountGe(PeerPositions(peers, shard, n), w)
    ensures |PeerPositions(peers, shard, n)| == InShard(peers, shard, n)
    ensures forall id :: id in AckersAmong(peers, shard, n, w) ==>
                         exists k :: 0 <= k < n && peers[k].shard == shard && peers[k].id == id
  {
    if n > 0 {
      AckersCounted(peers, shard, n - 1, w);
      CountSnoc(PeerPositions(peers, shard, n - 1), WrappingInc(peers[n - 1].commitIndex), w);
    }
  }

  /** At least half of the members have acknowledged the picked position. */
  lemma AckersAreHalf(n: Node, i: PeerId, members: set<PeerId>)
    requires Member(n, i, members)
    ensures Ackers(n, CommitPosition(n)) <= members
    ensures 2 * |Ackers(n, CommitPosition(n))| >= |members|
  {
    var v, k := CommitPosition(n), |n.peers|;
    PickIsLargestHalf(n);
    AckersCounted(n.peers, n.shard, k, v);
    CountSnoc(PeerPositions(n.peers, n.shard, k), WrappingInc(n.uncommitted), v);
    var among := AckersAmong(n.peers, n.shard, k, v);
    forall id | id in among ensures id in members && id != n.id {
      var j :| 0 <= j < k && n.peers[j].shard == n.shard && n.peers[j].id == id;
      assert n.peers[j] in n.peers;
    }
  }

  lemma IncDec(p: U64)
    ensures WrappingInc(WrappingDec(p)) == p
  {
    if p == 0 {
      assert WrappingDec(p) == U64_LIMIT - 1;
    } else {
      assert WrappingDec(p) == p - 1;
    }
  }

  lemma CommitMembers(n: Node, i: PeerId, members: set<PeerId>, peer: PeerId, index: U64)
    requires Member(n, i, members)
    ensures var n1 := n.(peers := WithAck(n.peers, n.shard, peer, index));
            var n' := AdvanceCommitIndex(n, peer, index);
            && Member(n', i, members)
            && CommitPosition(n') == CommitPosition(n1)
  {
    var n' := AdvanceCommitIndex(n, peer, index);
    MemberSame(n, n', i, members);
  }

  /** A commit step never lowers the commit index; if it raises it, the new index is one that at
      least half of the members have acknowledged, and it is put under the current term. */
  lemma CommitStep(n: Node, i: PeerId, members: set<PeerId>, peer: PeerId, index: U64)
    requires Member(n, i, members)
    ensures var n' := AdvanceCommitIndex(n, peer, index);
            && Member(n', i, members)
            && WrappingInc(n'.lastLog.index) >= WrappingInc(n.lastLog.index)
            && (n'.lastLog != n.lastLog ==>
                  && n'.lastLog.term == n.term
                  && WrappingInc(n'.lastLog.index) == CommitPosition(n') > WrappingInc(n.lastLog.index)
                  && 2 * |Ackers(n', CommitPosition(n'))| >= |members|)
  {
    CommitMembers(n, i, members, peer, index);
    AckersAreHalf(AdvanceCommitIndex(n, peer, index), i, members);
    IncDec(CommitPosition(n.(peers := WithAck(n.peers, n.shard, peer, index))));
  }

  // ----- Positions over whole runs

  /** Every peer has acknowledged at least as much as before. */
  ghost predicate AcksKept(n: Node, n': Node) {
    && n'.shard == n.shard && |n'.peers| == |n.peers|
    && forall k :: 0 <= k < |n.peers| ==>
         && n'.peers[k].shard == n.peers[k].shard
         && WrappingInc(n'.peers[k].commitIndex) >= WrappingInc(n.peers[k].commitIndex)
  }

  ghost predicate OwnKept(n: Node, n': Node) {
    WrappingInc(n'.uncommitted) >= WrappingInc(n.uncommitted)
  }

  /** The own position moves forward only. */
  lemma UncommittedGrows(n: Node, index: U64)
    requires index != NO_INDEX
    ensures OwnKept(n, AdvanceUncommittedIndex(n, index))
    ensures WrappingInc(AdvanceUncommittedIndex(n, index).uncommitted) >= WrappingInc(index)
  {
  }

  lemma AckGrows(n: Node, peer: PeerId, index: U64)
    requires index != NO_INDEX
    ensures AcksKept(n, AdvanceCommitIndex(n, peer, index)) && OwnKept(n, AdvanceCommitIndex(n, peer, index))
  {
  }

  /** The step makes the node a leader. */
  predicate IsElected(s: System, step: Step, i: PeerId)
    requires i in s.nodes
  {
    !s.nodes[i].role.Leader? && i in Next(s, step).nodes && Next(s, step).nodes[i].role.Leader?
  }

  lemma MessageKeepsAcks(s: System, m: Message, i: PeerId)
    requires i in s.nodes && m.to in s.nodes
    ensures Receive(s, m).nodes.Keys == s.nodes.Keys
    ensures AcksKept(s.nodes[i], Receive(s, m).nodes[i])
    ensures (Receive(s, m).nodes[i].role.Leader? ==> s.nodes[i].role.Leader?) ==>
            OwnKept(s.nodes[i], Receive(s, m).nodes[i])
  {
  }

  lemma StepKeepsAcks(s: System, step: Step, i: PeerId)
    requires i in s.nodes
    ensures Next(s, step).nodes.Keys == s.nodes.Keys
    ensures AcksKept(s.nodes[i], Next(s, step).nodes[i])
    ensures !IsElected(s, step, i) ==> OwnKept(s.nodes[i], Next(s, step).nodes[i])
  {
    if Enabled(s, step) {
      match step {
        case Deliver(m) => MessageKeepsAcks(s, m, i);
        case CommitAdvances(j, peer, index) => AckGrows(s.nodes[j], peer, index);
        case UncommittedAdvances(j, index) => UncommittedGrows(s.nodes[j], index);
        case _ =>
      }
    }
  }

  /** In every run, from any moment on, what a node has noted as acknowledged by a peer never
      shrinks, also across elections. */
  lemma {:induction false} AcksNeverShrink(s: System, steps: seq<Step>, i: PeerId)
    requires i in s.nodes
    ensures Execute(s, steps).nodes.Keys == s.nodes.Keys
    ensures AcksKept(s.nodes[i], Execute(s, steps).nodes[i])
    decreases |steps|
  {
    if steps != [] {
      AcksNeverShrink(s, steps[..|steps| - 1], i);
      StepKeepsAcks(Execute(s, steps[..|steps| - 1]), steps[|steps| - 1], i);
    }
  }

  ghost predicate NeverElected(s: System, steps: seq<Step>, i: PeerId) {
    forall k :: 0 <= k < |steps| ==>
      i in Execute(s, steps[..k]).nodes && !IsElected(Execute(s, steps[..k]), steps[k], i)
  }

  lemma {:induction false} OwnNeverShrinks(s: System, steps: seq<Step>, i: PeerId)
    requires i in s.nodes && NeverElected(s, steps, i)
    ensures i in Execute(s, steps).nodes && OwnKept(s.nodes[i], Execute(s, steps).nodes[i])
    decreases |steps|
  {
    if steps != [] {
      var front := steps[..|steps| - 1];
      forall k | 0 <= k < |front|
        ensures i in Execute(s, front[..k]).nodes && !IsElected(Execute(s, front[..k]), front[k], i)
      {
        assert front[..k] == steps[..k];
      }
      OwnNeverShrinks(s, front, i);
      StepKeepsAcks(Execute(s, front), steps[|steps| - 1], i);
    }
  }

  lemma {:induction false} PositionsGrow(n: Node, n': Node, k: nat, w: nat)
    requires AcksKept(n, n') && k <= |n.peers|
    ensures |PeerPositions(n'.peers, n'.shard, k)| == |PeerPositions(n.peers, n.shard, k)|
    ensures CountGe(PeerPositions(n'.peers, n'.shard, k), w) >= CountGe(PeerPositions(n.peers, n.shard, k), w)
    decreases k
  {
    if k > 0 {
      PositionsGrow(n, n', k - 1, w);
      CountSnoc(PeerPositions(n.peers, n.shard, k - 1), WrappingInc(n.peers[k - 1].commitIndex), w);
      CountSnoc(PeerPositions(n'.peers, n'.shard, k - 1), WrappingInc(n'.peers[k - 1].commitIndex), w);
    }
  }

  /** The pick is monotone in what it is picked from. */
  lemma PickGrows(n: Node, n': Node)
    requires AcksKept(n, n') && OwnKept(n, n')
    ensures CommitPosition(n') >= CommitPosition(n)
  {
    var v := CommitPosition(n);
    PickIsLargestHalf(n);
    PickIsLargestHalf(n');
    PositionsGrow(n, n', |n.peers|, v);
    CountSnoc(PeerPositions(n.peers, n.shard, |n.peers|), WrappingInc(n.uncommitted), v);
    CountSnoc(PeerPositions(n'.peers, n'.shard, |n.peers|), WrappingInc(n'.uncommitted), v);
  }

  /** In every run, the position that a node would commit never shrinks, unless the node is elected
      in between and starts over from its own last log entry. */
  lemma CommitPositionNeverShrinks(s: System, steps: seq<Step>, i: PeerId)
    requires i in s.nodes && NeverElected(s, steps, i)
    ensures i in Execute(s, steps).nodes
    ensures CommitPosition(Execute(s, steps).nodes[i]) >= CommitPosition(s.nodes[i])
  {
    AcksNeverShrink(s, steps, i);
    OwnNeverShrinks(s, steps, i);
    PickGrows(s.nodes[i], Execute(s, steps).nodes[i]);
  }

  /** In every run, whatever position a node would commit now, every elected node of any term has
      a voter among the members that acknowledged it. */
  lemma CommitMeetsVotes(s0: System, steps: seq<Step>, i: PeerId, w: Win)
    requires Initial(s0) && i in Execute(s0, steps).nodes && w in Execute(s0, steps).wins
    ensures var s := Execute(s0, steps);
            exists m :: m in Ackers(s.nodes[i], CommitPosition(s.nodes[i])) && m in w.quorum
                        && HasBallot(s, m, w.term, w.node)
  {
    var s := Execute(s0, steps);
    RunsKeepInv(s0, steps);
    var n := s.nodes[i];
    AckersAreHalf(n, i, s.nodes.Keys);
    Intersect(Ackers(n, CommitPosition(n)), w.quorum, s.nodes.Keys);
  }
}

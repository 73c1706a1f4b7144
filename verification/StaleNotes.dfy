/** Indexes that a leader has noted of its peers in an earlier term: exactly when they make it commit something that
    half of the members have not reported since its election, and a run in which they do. */
module StaleNotes {
  import opened Common
  import opened RaftNode
  import Election
  import opened CommitIndex
  import opened Acknowledgements
  import Replication
  import Rounds

  // ----- What has been reported since an election

  /** The members that have reported a position or a later one, the node itself by its own log. */
  ghost function Reporters(n: Node, i: PeerId, members: set<PeerId>, events: seq<Event>, w: nat): set<PeerId> {
    set m | m in members
            && ((m == i && WrappingInc(After(n, events).uncommitted) >= w) || HasReported(events, m, w))
  }

  /** Whatever the node has committed newly has been reported by half of the members. */
  ghost predicate IsReported(n: Node, i: PeerId, members: set<PeerId>, events: seq<Event>) {
    var w := WrappingInc(After(n, events).lastLog.index);
    w != WrappingInc(n.lastLog.index) ==> 2 * |Reporters(n, i, members, events, w)| >= |members|
  }

  /** Reports come from the other members, and are of entries that the node has. */
  predicate IsPlausible(n: Node, i: PeerId, members: set<PeerId>, e: Event) {
    && e.index != NO_INDEX
    && (e.Reported? ==> e.peer in members && e.peer != i && n.uncommitted != NO_INDEX && e.index <= n.uncommitted)
  }

  predicate ArePlausible(n: Node, i: PeerId, members: set<PeerId>, events: seq<Event>) {
    forall k :: 0 <= k < |events| ==> IsPlausible(After(n, events[..k]), i, members, events[k])
  }

  /** No peer is noted beyond what the node knows to be committed. */
  predicate NoneBeyond(n: Node) {
    forall k :: 0 <= k < |n.peers| && n.peers[k].shard == n.shard ==>
      WrappingInc(n.peers[k].commitIndex) <= WrappingInc(n.lastLog.index)
  }

  /** Nothing is committed, no peer is noted beyond the first index, and there are at most four members. */
  predicate OnlyFirst(n: Node, members: set<PeerId>) {
    && |members| <= 4 && n.lastLog.index == NO_INDEX
    && forall k :: 0 <= k < |n.peers| && n.peers[k].shard == n.shard ==> WrappingInc(n.peers[k].commitIndex) <= 1
  }

  lemma SubsetSize(a: set<PeerId>, b: set<PeerId>)
    requires a <= b
    ensures |a| <= |b|
  {
    assert b == a + (b - a);
  }

  lemma {:induction false} PlausibleAreIndexes(n: Node, i: PeerId, members: set<PeerId>, events: seq<Event>)
    requires ArePlausible(n, i, members, events)
    ensures AreIndexes(events)
  {
    forall e | e in events ensures e.index != NO_INDEX {
      var k :| 0 <= k < |events| && events[k] == e;
    }
  }

  lemma ReportedBy(n: Node, i: PeerId, members: set<PeerId>, events: seq<Event>)
    requires Election.Member(n, i, members) && AreIndexes(events)
    requires var w := WrappingInc(After(n, events).lastLog.index);
             w != WrappingInc(n.lastLog.index) ==> StartsBelow(n, w)
    ensures IsReported(n, i, members, events)
  {
    var w := WrappingInc(After(n, events).lastLog.index);
    if w != WrappingInc(n.lastLog.index) {
      var half := CommittedIsReported(n, i, members, events);
      SubsetSize(half, Reporters(n, i, members, events, w));
    }
  }

  lemma BelowIsReported(n: Node, i: PeerId, members: set<PeerId>, events: seq<Event>)
    requires Election.Member(n, i, members) && AreIndexes(events) && NoneBeyond(n)
    ensures IsReported(n, i, members, events)
  {
    CommitGrows(n, events);
    ReportedBy(n, i, members, events);
  }

  // ----- The first index in small shards

  lemma {:induction false} CommitNeedsReport(n: Node, events: seq<Event>)
    requires forall e :: e in events ==> e.Own?
    ensures After(n, events).lastLog == n.lastLog
    decreases |events|
  {
    if events != [] {
      assert events[|events| - 1] in events;
      CommitNeedsReport(n, events[..|events| - 1]);
    }
  }

  lemma {:induction false} OwnGrows(n: Node, events: seq<Event>, k: nat)
    requires AreIndexes(events) && k <= |events|
    ensures WrappingInc(After(n, events).uncommitted) >= WrappingInc(After(n, events[..k]).uncommitted)
    decreases |events|
  {
    if k == |events| {
      assert events[..k] == events;
    } else {
      var front, e := events[..|events| - 1], events[|events| - 1];
      assert e in events && forall x :: x in front ==> x in events;
      assert front[..k] == events[..k];
      OwnGrows(n, front, k);
      match e {
        case Own(index) => UncommittedGrows(After(n, front), index);
        case Reported(peer, index) => AckGrows(After(n, front), peer, index);
      }
    }
  }

  lemma SomeReport(n: Node, events: seq<Event>) returns (k: nat)
    requires After(n, events).lastLog != n.lastLog
    ensures k < |events| && events[k].Reported?
  {
    if forall e :: e in events ==> e.Own? {
      CommitNeedsReport(n, events);
    }
    k :| 0 <= k < |events| && events[k].Reported?;
  }

  lemma AtLeastOne(index: U64)
    requires index != NO_INDEX
    ensures WrappingInc(index) >= 1
  {
  }

  /** A commit needs a report, and a report needs an entry of the node. */
  lemma FirstReporter(n: Node, i: PeerId, members: set<PeerId>, events: seq<Event>) returns (m: PeerId)
    requires ArePlausible(n, i, members, events) && After(n, events).lastLog != n.lastLog
    ensures m in members && m != i && HasReported(events, m, 1) && WrappingInc(After(n, events).uncommitted) >= 1
  {
    PlausibleAreIndexes(n, i, members, events);
    var k := SomeReport(n, events);
    var e := events[k];
    assert IsPlausible(After(n, events[..k]), i, members, e);
    OwnGrows(n, events, k);
    AtLeastOne(After(n, events[..k]).uncommitted);
    AtLeastOne(e.index);
    m := e.peer;
    assert Reported(m, e.index) in events;
  }

  lemma FirstIsReported(n: Node, i: PeerId, members: set<PeerId>, events: seq<Event>)
    requires Election.Member(n, i, members) && ArePlausible(n, i, members, events) && OnlyFirst(n, members)
    ensures IsReported(n, i, members, events)
  {
    PlausibleAreIndexes(n, i, members, events);
    var w := WrappingInc(After(n, events).lastLog.index);
    if w == 1 {
      var m := FirstReporter(n, i, members, events);
      var reporters := Reporters(n, i, members, events, w);
      assert i in reporters && m in reporters;
      SubsetSize({i, m}, reporters);
    } else {
      ReportedBy(n, i, members, events);
    }
  }

  // ----- A peer that is noted beyond

  /** What half of the members have acknowledged is picked. */
  lemma HalfIsPicked(n: Node, i: PeerId, members: set<PeerId>, w: nat)
    requires Election.Member(n, i, members) && 2 * |Ackers(n, w)| >= |members|
    ensures CommitPosition(n) >= w
  {
    var k := |n.peers|;
    PickIsLargestHalf(n);
    AckersCounted(n.peers, n.shard, k, w);
    CountSnoc(PeerPositions(n.peers, n.shard, k), WrappingInc(n.uncommitted), w);
    var among := AckersAmong(n.peers, n.shard, k, w);
    assert |Ackers(n, w)| <= |among| + 1;
    if WrappingInc(n.uncommitted) < w {
      assert Ackers(n, w) == among;
    }
  }

  lemma {:induction false} PeerAcks(peers: seq<Peer>, shard: ShardId, n: nat, w: nat, k: nat)
    requires k < n <= |peers| && peers[k].shard == shard && WrappingInc(peers[k].commitIndex) >= w
    ensures peers[k].id in AckersAmong(peers, shard, n, w)
    decreases n
  {
    if k < n - 1 {
      PeerAcks(peers, shard, n - 1, w, k);
    }
  }

  lemma ReportCommits(n: Node, peer: PeerId, index: U64)
    ensures var n' := AdvanceCommitIndex(n, peer, index); WrappingInc(n'.lastLog.index) >= CommitPosition(n')
  {
    var n1 := n.(peers := WithAck(n.peers, n.shard, peer, index));
    IncDec(CommitPosition(n1));
    assert Positions(AdvanceCommitIndex(n, peer, index)) == Positions(n1);
  }

  ghost predicate IsNoted(n: Node, n': Node, k: nat, w: nat) {
    && k < |n.peers| && n'.shard == n.shard && |n'.peers| == |n.peers|
    && n'.peers[k].shard == n.peers[k].shard && n'.peers[k].id == n.peers[k].id
    && WrappingInc(n'.peers[k].commitIndex) >= w
  }

  lemma StaysNoted(n: Node, n': Node, e: Event, k: nat, w: nat)
    requires IsNoted(n, n', k, w) && e.index != NO_INDEX
    ensures IsNoted(n, Hears(n', e), k, w)
  {
    if e.Reported? {
      AckGrows(n', e.peer, e.index);
    }
  }

  lemma IsNotedNow(n: Node, n': Node, index: U64, k: nat)
    requires IsNoted(n, n', k, 0) && n.peers[k].shard == n.shard && index != NO_INDEX
    ensures IsNoted(n, Hears(n', Reported(n.peers[k].id, index)), k, WrappingInc(index))
  {
  }

  /** A peer has been noted with a position, before or by a report. */
  lemma {:induction false} NotedAtLeast(n: Node, events: seq<Event>, k: nat, w: nat)
    requires AreIndexes(events) && k < |n.peers| && n.peers[k].shard == n.shard
    requires WrappingInc(n.peers[k].commitIndex) >= w || HasReported(events, n.peers[k].id, w)
    ensures IsNoted(n, After(n, events), k, w)
    decreases |events|
  {
    if events != [] {
      var front, e := events[..|events| - 1], events[|events| - 1];
      assert e in events && forall x :: x in front ==> x in events;
      assert forall x :: x in events ==> x in front || x == e;
      var id := n.peers[k].id;
      if WrappingInc(n.peers[k].commitIndex) >= w || HasReported(front, id, w) {
        NotedAtLeast(n, front, k, w);
        StaysNoted(n, After(n, front), e, k, w);
      } else {
        NotedAtLeast(n, front, k, 0);
        var index :| Reported(id, index) in events && WrappingInc(index) >= w;
        assert e == Reported(id, index);
        IsNotedNow(n, After(n, front), index, k);
      }
    }
  }

  lemma SameSize(a: set<PeerId>, b: set<PeerId>)
    requires a <= b && |a| == |b|
    ensures a == b
  {
    assert b == a + (b - a);
    assert |b - a| == 0;
  }

  /** The other members are the peers of the shard. */
  lemma PeerOf(n: Node, i: PeerId, members: set<PeerId>, m: PeerId) returns (k: nat)
    requires Election.Member(n, i, members) && m in members && m != i
    ensures k < |n.peers| && n.peers[k].shard == n.shard && n.peers[k].id == m
  {
    var among := AckersAmong(n.peers, n.shard, |n.peers|, 0);
    AckersCounted(n.peers, n.shard, |n.peers|, 0);
    CountAll(PeerPositions(n.peers, n.shard, |n.peers|), 0);
    forall id | id in among ensures id in members - {i} {
      var j :| 0 <= j < |n.peers| && n.peers[j].shard == n.shard && n.peers[j].id == id;
      assert n.peers[j] in n.peers;
    }
    assert |members - {i}| == |members| - 1;
    SameSize(among, members - {i});
    AckerIsPeer(n.peers, n.shard, |n.peers|, 0, m);
    k :| 0 <= k < |n.peers| && n.peers[k].shard == n.shard && n.peers[k].id == m;
  }

  /** The member counts for a position: the node by its own log, another by what is noted of it or reported. */
  ghost predicate CountsFor(n: Node, i: PeerId, events: seq<Event>, m: PeerId, w: nat) {
    || (m == i && WrappingInc(After(n, events).uncommitted) >= w)
    || (exists k :: 0 <= k < |n.peers| && n.peers[k].shard == n.shard && n.peers[k].id == m
                    && (WrappingInc(n.peers[k].commitIndex) >= w || HasReported(events, m, w)))
  }

  lemma CounterAcks(n: Node, i: PeerId, members: set<PeerId>, events: seq<Event>, m: PeerId, w: nat)
    requires Election.Member(n, i, members) && AreIndexes(events) && CountsFor(n, i, events, m, w)
    ensures m in Ackers(After(n, events), w)
  {
    var n' := After(n, events);
    NotedIsReported(n, events);
    if !(m == i && WrappingInc(n'.uncommitted) >= w) {
      var k :| 0 <= k < |n.peers| && n.peers[k].shard == n.shard && n.peers[k].id == m
               && (WrappingInc(n.peers[k].commitIndex) >= w || HasReported(events, m, w));
      NotedAtLeast(n, events, k, w);
      PeerAcks(n'.peers, n'.shard, |n'.peers|, w, k);
    }
  }

  /** If half of the members count for a position, the last report makes the node commit it. */
  lemma CommitsAnyway(n: Node, i: PeerId, members: set<PeerId>, events: seq<Event>, half: set<PeerId>, w: nat)
    requires Election.Member(n, i, members) && AreIndexes(events) && events != [] && events[|events| - 1].Reported?
    requires 2 * |half| >= |members| && forall m :: m in half ==> CountsFor(n, i, events, m, w)
    ensures WrappingInc(After(n, events).lastLog.index) >= w
  {
    var n', last := After(n, events), events[|events| - 1];
    StaysMember(n, events, i, members);
    forall m | m in half ensures m in Ackers(n', w) {
      CounterAcks(n, i, members, events, m, w);
    }
    SubsetSize(half, Ackers(n', w));
    HalfIsPicked(n', i, members, w);
    ReportCommits(After(n, events[..|events| - 1]), last.peer, last.index);
  }

  lemma TooFewReport(n: Node, i: PeerId, members: set<PeerId>, events: seq<Event>, few: set<PeerId>, w: nat)
    requires WrappingInc(After(n, events).lastLog.index) >= w > WrappingInc(n.lastLog.index) && 2 * |few| < |members|
    requires forall m :: m in Reporters(n, i, members, events, w) ==> m in few
    ensures !IsReported(n, i, members, events)
  {
    var w' := WrappingInc(After(n, events).lastLog.index);
    forall m | m in Reporters(n, i, members, events, w') ensures m in few {
      assert m in Reporters(n, i, members, events, w);
    }
    SubsetSize(Reporters(n, i, members, events, w'), few);
  }

  // ----- The events

  function Reports(ids: seq<PeerId>, v: U64): seq<Event> {
    seq(|ids|, k requires 0 <= k < |ids| => Reported(ids[k], v))
  }

  lemma {:induction false} AfterFirst(n: Node, e: Event, events: seq<Event>)
    ensures After(n, [e] + events) == After(Hears(n, e), events)
    decreases |events|
  {
    if events == [] {
      assert [e] + events == [e] && [e][..0] == [];
    } else {
      var m := |events| - 1;
      var all := [e] + events;
      AfterFirst(n, e, events[..m]);
      assert all[..|all| - 1] == [e] + events[..m] && all[|all| - 1] == events[m];
      assert After(n, all) == Hears(After(n, [e] + events[..m]), events[m]);
    }
  }

  lemma {:induction false} OwnStays(n: Node, events: seq<Event>)
    requires forall e :: e in events ==> e.Reported?
    ensures After(n, events).uncommitted == n.uncommitted
    decreases |events|
  {
    if events != [] {
      assert events[|events| - 1] in events;
      OwnStays(n, events[..|events| - 1]);
    }
  }

  /** After its own entry the node is told of entries up to that one. */
  lemma OwnThenReports(n: Node, i: PeerId, members: set<PeerId>, v: U64, reports: seq<Event>)
    requires v != NO_INDEX
    requires forall e :: e in reports ==> e.Reported? && e.peer in members && e.peer != i && e.index <= v
    ensures var n' := After(n, [Own(v)] + reports);
            n'.uncommitted == AdvanceUncommittedIndex(n, v).uncommitted
    ensures ArePlausible(n, i, members, [Own(v)] + reports)
  {
    var events, n1 := [Own(v)] + reports, AdvanceUncommittedIndex(n, v);
    AfterFirst(n, Own(v), reports);
    OwnStays(n1, reports);
    forall k | 0 <= k < |events| ensures IsPlausible(After(n, events[..k]), i, members, events[k]) {
      if k > 0 {
        var front := reports[..k - 1];
        assert events[..k] == [Own(v)] + front && events[k] == reports[k - 1];
        assert forall e :: e in front ==> e in reports;
        AfterFirst(n, Own(v), front);
        OwnStays(n1, front);
        assert events[k] in reports;
      }
    }
  }

  lemma {:induction false} ChooseSome(s: set<PeerId>, k: nat) returns (ids: seq<PeerId>, r: set<PeerId>)
    requires k <= |s|
    ensures r <= s && |r| == k && |ids| == k && forall m :: m in ids <==> m in r
    decreases k
  {
    if k == 0 {
      ids, r := [], {};
    } else {
      ids, r := ChooseSome(s, k - 1);
      assert s == r + (s - r);
      assert s - r != {};
      var m :| m in s - r;
      ids, r := ids + [m], r + {m};
    }
  }

  /** The events: the node writes the entry that a peer is noted with, and all but one of those needed beside the two
      report it; if that is not the first entry, the peer reports the first one. */
  function EventsFor(v: U64, ids: seq<PeerId>, j: PeerId): seq<Event> {
    [Own(v)] + (Reports(ids, v) + if v > 0 then [Reported(j, 0)] else [])
  }

  lemma ReportsOfOthers(n: Node, i: PeerId, members: set<PeerId>, v: U64, ids: seq<PeerId>, j: PeerId)
    requires v != NO_INDEX && j in members && j != i && (forall m :: m in ids ==> m in members && m != i)
    ensures ArePlausible(n, i, members, EventsFor(v, ids, j))
    ensures After(n, EventsFor(v, ids, j)).uncommitted == AdvanceUncommittedIndex(n, v).uncommitted
  {
    var reports := Reports(ids, v) + if v > 0 then [Reported(j, 0)] else [];
    forall e | e in reports ensures e.Reported? && e.peer in members && e.peer != i && e.index <= v {
      if e in Reports(ids, v) {
        var k :| 0 <= k < |ids| && Reports(ids, v)[k] == e;
        assert ids[k] in ids;
      }
    }
    OwnThenReports(n, i, members, v, reports);
  }

  lemma WhoReports(v: U64, ids: seq<PeerId>, j: PeerId, m: PeerId)
    requires v != NO_INDEX
    ensures HasReported(EventsFor(v, ids, j), m, WrappingInc(v)) <==> m in ids
  {
    var events := EventsFor(v, ids, j);
    if m in ids {
      var k :| 0 <= k < |ids| && ids[k] == m;
      assert Reports(ids, v)[k] == Reported(m, v);
      assert events[1 + k] == Reported(m, v);
    }
    if HasReported(events, m, WrappingInc(v)) {
      var index :| Reported(m, index) in events && WrappingInc(index) >= WrappingInc(v);
      assert Reported(m, index) in Reports(ids, v);
      var k :| 0 <= k < |ids| && Reports(ids, v)[k] == Reported(m, index);
      assert ids[k] in ids;
    }
  }

  lemma EndsWithReport(v: U64, ids: seq<PeerId>, j: PeerId)
    requires ids != [] || v > 0
    ensures var events := EventsFor(v, ids, j); events != [] && events[|events| - 1].Reported?
  {
  }

  lemma NoteCounts(n: Node, i: PeerId, members: set<PeerId>, k: nat, ids: seq<PeerId>, m: PeerId)
    requires Election.Member(n, i, members) && k < |n.peers| && n.peers[k].shard == n.shard
    requires var v := n.peers[k].commitIndex;
             v != NO_INDEX && WrappingInc(AdvanceUncommittedIndex(n, v).uncommitted) >= WrappingInc(v)
    requires forall x :: x in ids ==> x in members && x != i
    requires m == i || m == n.peers[k].id || m in ids
    ensures var v := n.peers[k].commitIndex; CountsFor(n, i, EventsFor(v, ids, n.peers[k].id), m, WrappingInc(v))
  {
    var j, v := n.peers[k].id, n.peers[k].commitIndex;
    assert n.peers[k] in n.peers;
    ReportsOfOthers(n, i, members, v, ids, j);
    if m in ids {
      WhoReports(v, ids, j, m);
      var p := PeerOf(n, i, members, m);
    }
  }

  /** With three or more members. */
  lemma CommittedByNote(n: Node, i: PeerId, members: set<PeerId>, k: nat) returns (events: seq<Event>)
    requires Election.Member(n, i, members) && n.uncommitted == n.lastLog.index && |members| >= 3
    requires k < |n.peers| && n.peers[k].shard == n.shard
    requires WrappingInc(n.peers[k].commitIndex) > WrappingInc(n.lastLog.index)
    requires |members| >= 5 || n.peers[k].commitIndex > 0
    ensures ArePlausible(n, i, members, events) && !IsReported(n, i, members, events)
  {
    var j, v := n.peers[k].id, n.peers[k].commitIndex;
    assert n.peers[k] in n.peers;
    var others := members - {i, j};
    assert members == others + {i, j};
    var ids, r := ChooseSome(others, (|members| + 1) / 2 - 2);
    events := EventsFor(v, ids, j);
    ReportsOfOthers(n, i, members, v, ids, j);
    UncommittedGrows(n, v);
    EndsWithReport(v, ids, j);
    NotedIsCommitted(n, i, members, k, ids, r);
    forall m | m in Reporters(n, i, members, events, WrappingInc(v)) ensures m in r + {i} {
      WhoReports(v, ids, j, m);
    }
    assert |r + {i}| == |r| + 1;
    TooFewReport(n, i, members, events, r + {i}, WrappingInc(v));
  }

  lemma TwoMore(r: set<PeerId>, i: PeerId, j: PeerId)
    requires i !in r && j !in r && i != j
    ensures |r + {i, j}| == |r| + 2
  {
    assert r + {i, j} == r + {i} + {j};
  }

  /** All that are needed count for what the peer is noted with. */
  lemma AllCount(n: Node, i: PeerId, members: set<PeerId>, k: nat, ids: seq<PeerId>, r: set<PeerId>)
    requires Election.Member(n, i, members) && k < |n.peers| && n.peers[k].shard == n.shard
    requires r <= members - {i} && (forall m :: m in ids <==> m in r)
    requires var v := n.peers[k].commitIndex;
             v != NO_INDEX && WrappingInc(AdvanceUncommittedIndex(n, v).uncommitted) >= WrappingInc(v)
    ensures var j, v := n.peers[k].id, n.peers[k].commitIndex;
            forall m :: m in r + {i, j} ==> CountsFor(n, i, EventsFor(v, ids, j), m, WrappingInc(v))
  {
    var j, v := n.peers[k].id, n.peers[k].commitIndex;
    forall m | m in r + {i, j} ensures CountsFor(n, i, EventsFor(v, ids, j), m, WrappingInc(v)) {
      NoteCounts(n, i, members, k, ids, m);
    }
  }

  lemma NotedIsCommitted(n: Node, i: PeerId, members: set<PeerId>, k: nat, ids: seq<PeerId>, r: set<PeerId>)
    requires Election.Member(n, i, members) && k < |n.peers| && n.peers[k].shard == n.shard
    requires r <= members - {i, n.peers[k].id} && (forall m :: m in ids <==> m in r)
    requires 2 * (|r| + 2) >= |members| && n.peers[k].id != i && n.peers[k].id in members
    requires var v := n.peers[k].commitIndex;
             && v != NO_INDEX && WrappingInc(AdvanceUncommittedIndex(n, v).uncommitted) >= WrappingInc(v)
             && (ids != [] || v > 0)
    ensures var v := n.peers[k].commitIndex;
            WrappingInc(After(n, EventsFor(v, ids, n.peers[k].id)).lastLog.index) >= WrappingInc(v)
  {
    var j, v := n.peers[k].id, n.peers[k].commitIndex;
    var events := EventsFor(v, ids, j);
    ReportsOfOthers(n, i, members, v, ids, j);
    PlausibleAreIndexes(n, i, members, events);
    EndsWithReport(v, ids, j);
    AllCount(n, i, members, k, ids, r);
    TwoMore(r, i, j);
    CommitsAnyway(n, i, members, events, r + {i, j}, WrappingInc(v));
  }

  /** With two members: the peer's report of the first entry makes the node commit what the peer is noted with. */
  lemma CommittedByTheOther(n: Node, i: PeerId, members: set<PeerId>, k: nat) returns (events: seq<Event>)
    requires Election.Member(n, i, members) && n.uncommitted == n.lastLog.index && |members| == 2
    requires k < |n.peers| && n.peers[k].shard == n.shard && n.peers[k].commitIndex > 0
    requires WrappingInc(n.peers[k].commitIndex) > WrappingInc(n.lastLog.index)
    ensures ArePlausible(n, i, members, events) && !IsReported(n, i, members, events)
  {
    var j, w := n.peers[k].id, WrappingInc(n.peers[k].commitIndex);
    assert n.peers[k] in n.peers;
    events := [Own(0)] + [Reported(j, 0)];
    OwnThenReports(n, i, members, 0, [Reported(j, 0)]);
    PlausibleAreIndexes(n, i, members, events);
    assert CountsFor(n, i, events, j, w);
    CommitsAnyway(n, i, members, events, {j}, w);
    assert forall e :: e in events ==> e.index == 0;
    assert forall m :: !HasReported(events, m, w);
    TooFewReport(n, i, members, events, {}, w);
  }

  lemma CommittedUnreported(n: Node, i: PeerId, members: set<PeerId>) returns (events: seq<Event>)
    requires Election.Member(n, i, members) && n.uncommitted == n.lastLog.index
    requires !NoneBeyond(n) && !OnlyFirst(n, members)
    ensures ArePlausible(n, i, members, events) && !IsReported(n, i, members, events)
  {
    var k :| 0 <= k < |n.peers| && n.peers[k].shard == n.shard
             && WrappingInc(n.peers[k].commitIndex) > WrappingInc(n.lastLog.index)
             && (|members| >= 5 || n.peers[k].commitIndex > 0);
    assert n.peers[k] in n.peers && {i, n.peers[k].id} <= members;
    SubsetSize({i, n.peers[k].id}, members);
    if |members| == 2 {
      events := CommittedByTheOther(n, i, members, k);
    } else {
      events := CommittedByNote(n, i, members, k);
    }
  }

  /** Whatever a node that has just been elected is told, each new commit has been reported by half of the members
      since: this holds if and only if no peer was noted beyond what the node knows to be committed, or there are at
      most four members, nothing is committed and none was noted beyond the first index. */
  lemma NewCommitsAreReported(n: Node, i: PeerId, members: set<PeerId>)
    requires Election.Member(n, i, members) && n.uncommitted == n.lastLog.index
    ensures (forall events :: ArePlausible(n, i, members, events) ==> IsReported(n, i, members, events)) <==>
            NoneBeyond(n) || OnlyFirst(n, members)
  {
    if NoneBeyond(n) || OnlyFirst(n, members) {
      forall events | ArePlausible(n, i, members, events) ensures IsReported(n, i, members, events) {
        if NoneBeyond(n) {
          PlausibleAreIndexes(n, i, members, events);
          BelowIsReported(n, i, members, events);
        } else {
          FirstIsReported(n, i, members, events);
        }
      }
    } else {
      var events := CommittedUnreported(n, i, members);
    }
  }

  /** Durability since an election: if no peer was noted beyond what the node knows to be committed, and the reports are
      honest, half of the members have held whatever it commits newly. */
  lemma HeldSinceElection(n: Node, i: PeerId, members: set<PeerId>, events: seq<Event>, held: Event -> Holding,
                          h: Event -> Replication.Histories, l: Rounds.Leader)
    returns (half: set<PeerId>)
    requires Election.Member(n, i, members) && AreIndexes(events) && AreHonest(events, held, h, l) && NoneBeyond(n)
    requires WrappingInc(After(n, events).lastLog.index) != WrappingInc(n.lastLog.index)
    ensures half <= members && 2 * |half| >= |members|
    ensures var n' := After(n, events);
            var c := n'.lastLog.index;
            forall m :: m in half ==>
              || (m == i && n'.uncommitted != NO_INDEX && n'.uncommitted >= c)
              || HasHeld(events, held, h, l, m, c)
  {
    CommitGrows(n, events);
    half := CommittedIsHeld(n, i, members, events, held, h, l);
  }
}

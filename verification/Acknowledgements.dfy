/** What acknowledgements are worth: which indexes a follower reports as done, and which members hold
    what the leader commits. */
module Acknowledgements {
  import opened Common
  import opened RaftNode
  import Election
  import opened CommitIndex
  import KeyOrder
  import LogStore
  import Replica
  import FollowerCommit
  import FollowerProcess
  import UndoLog
  import Rounds
  import Replication
  import Restarts
  import StaleKey
  import Matching
  import Exchange
  import LogShipping
  import ChangeLog

  // ----- What a follower reports

  /** What a member held when it reported an index: its log, its documents and its pending records, with
      the leader's log and documents of that time. */
  datatype Holding = Holding(log: LogStore.LogDb, docs: Replica.Tables, pending: seq<Replica.Pending>,
                             leader: Rounds.Leader)

  /** The index is that of an entry of the leader, at which the member is in sync. */
  ghost predicate Holds(x: Holding, h: Replication.Histories, index: U64) {
    && index != NO_INDEX && index <= x.leader.last && Replication.HasEntry(x.leader.log, index)
    && Replication.InSync(x.log, x.docs, x.pending, x.leader, h, index)
  }

  function HoldingOf(f: FollowerProcess.Follower, l: Rounds.Leader): Holding
    reads f
  {
    Holding(f.log, f.docs, f.pending, l)
  }

  /** The report at the end of every round is honest. */
  method ReportRound(l: Rounds.Leader, f: FollowerProcess.Follower, ks: seq<KeyOrder.Key>, p: U64, commit: U64,
                     batchSize: nat, maxBatchSize: nat, ghost h: Replication.Histories) returns (index: U64)
    requires Rounds.WellFormed(l) && Replication.Explains(l, h) && Replication.AllFit(l, maxBatchSize)
    requires KeyOrder.IsScan(ks, l.log.raft.Keys) && (p == NO_INDEX || p < l.last)
    requires f.Valid() && Replication.InSync(f.log, f.docs, f.pending, l, h, p)
    requires f.floor <= UndoLog.Floor(p) && (f.pending != [] ==> p != NO_INDEX && f.uncommitted == p)
    modifies f
    ensures Holds(HoldingOf(f, l), h, index)
  {
    var _ := Replication.RunRound(l, f, ks, p, commit, batchSize, maxBatchSize, h);
    index := f.uncommitted;
  }

  /** The two logs have no gaps, and wherever they agree the follower diverges from there on. */
  ghost predicate IsMatchable(st: Replica.Store, l: Rounds.Leader, h: Replication.Histories,
                              own: U64 -> Replication.Histories, maxBatchSize: nat)
  {
    && Matching.IsLog(l.log.raft.Keys) && Matching.IsLog(st.log.raft.Keys)
    && forall p: U64 :: p == NO_INDEX || Matching.Agree(l.log.raft.Keys, st.log.raft.Keys, p) ==>
         StaleKey.IsDivergent(st, l, h, own(p), p, maxBatchSize)
  }

  method UndoAndReport(l: Rounds.Leader, f: FollowerProcess.Follower, matched: U64, commit: U64, batchSize: nat,
                       maxBatchSize: nat, ghost h: Replication.Histories, ghost own: Replication.Histories)
    returns (index: U64)
    requires StaleKey.IsDivergent(f.View(), l, h, own, matched, maxBatchSize) && f.rollback == map[]
    requires Replication.AllFit(l, maxBatchSize) && (matched == NO_INDEX || matched < l.last)
    modifies f
    ensures Holds(HoldingOf(f, l), h, index)
  {
    var start := StaleKey.RollBackAndGoOn(l, f, matched, maxBatchSize, h, own);
    f.floor := UndoLog.Floor(start);
    var ks := KeyOrder.Iterate(l.log.raft.Keys);
    index := ReportRound(l, f, ks, start, commit, batchSize, maxBatchSize, h);
  }

  /** Where the leader has a follower undo its entries, the report after the next round is honest. */
  method ReportAfterUndo(l: Rounds.Leader, f: FollowerProcess.Follower, last: KeyOrder.Key, commit: U64, batchSize: nat,
                         maxBatchSize: nat, ghost h: Replication.Histories, ghost own: U64 -> Replication.Histories)
    returns (m: Matching.Match, index: U64)
    requires IsMatchable(f.View(), l, h, own, maxBatchSize) && Replication.AllFit(l, maxBatchSize)
             && f.rollback == map[]
    modifies f
    ensures m.Undo? ==> Holds(HoldingOf(f, l), h, index)
  {
    ghost var prev;
    m, prev := Matching.FindMatch(l.log.raft.Keys, f.log.raft.Keys, last);
    index := NO_INDEX;
    if m.Undo? {
      assert StaleKey.IsDivergent(f.View(), l, h, own(NO_INDEX), NO_INDEX, maxBatchSize);
      assert m.matched.Some? ==> m.matched.value in l.log.raft && m.matched.value.a < l.last < U64_LIMIT;
      var matched: U64 := if m.matched.Some? then m.matched.value.a else NO_INDEX;
      index := UndoAndReport(l, f, matched, commit, batchSize, maxBatchSize, h, own(matched));
    }
  }

  // ----- What is reported where an entry is found in both logs

  /** The log has entries after an index. */
  ghost predicate GoesOn(log: LogStore.LogDb, p: U64) {
    exists k :: k in log.raft && k.a > p
  }

  lemma EndsThere(log: LogStore.LogDb, p: U64)
    requires Rounds.Listed(log) && p != NO_INDEX
    ensures log == Rounds.Prefix(log, p) <==> !GoesOn(log, p)
  {
    if !GoesOn(log, p) {
      forall k | k in log.changes ensures k.c <= p {
        var e :| Rounds.IsListed(log, e, k);
      }
      assert log.raft == Rounds.Prefix(log, p).raft && log.changes == Rounds.Prefix(log, p).changes;
    } else {
      var k :| k in log.raft && k.a > p;
      assert k !in Rounds.Prefix(log, p).raft;
    }
  }

  /** A follower without entries of its own is in sync. */
  lemma NothingToUndo(log: LogStore.LogDb, docs: Replica.Tables, l: Rounds.Leader, h: Replication.Histories,
                      own: Replication.Histories, p: U64, s: LogStore.Slot)
    requires Replication.Explains(l, h) && Replication.DivergesAt(log, docs, l, h, own, p)
    requires log == Rounds.Prefix(log, p) && p != NO_INDEX
    ensures Replication.SlotInSync(docs, [], l, h, s, p)
  {
    var t := Replica.TableOf(docs, s);
    assert Replica.Effective(t, [], s) == Ok(t);
    if s.collection != LogStore.THREAD {
      Replication.UndoneIsOnTrack(log, docs, l, h, own, p, s);
      assert LogStore.RangeKeys(log.changes.Keys, s, p, NO_INDEX) == {};
      assert LogStore.ChangesIn(log.changes, s, p, NO_INDEX) == [];
      Exchange.SimpleRollback(t, ChangeLog.EMPTY_CHANGES, Replica.TableOf(l.docs, s), s);
      assert t - {} == t;
    }
  }

  /** The report made where an entry of the follower is found in the leader's log: it is honest if and only if the
      follower has no further entries. */
  lemma ReportAtMatch(log: LogStore.LogDb, docs: Replica.Tables, l: Rounds.Leader, h: Replication.Histories,
                      own: Replication.Histories, p: U64)
    requires Rounds.WellFormed(l) && Replication.Explains(l, h) && Rounds.Listed(log)
    requires p != NO_INDEX && Replication.HasEntry(l.log, p) && Replication.DivergesAt(log, docs, l, h, own, p)
    ensures Holds(Holding(log, docs, [], l), h, p) <==> !GoesOn(log, p)
  {
    EndsThere(log, p);
    if !GoesOn(log, p) {
      forall s ensures Replication.SlotInSync(docs, [], l, h, s, p) {
        NothingToUndo(log, docs, l, h, own, p, s);
      }
    } else if Holds(Holding(log, docs, [], l), h, p) {
      Restarts.PrefixOfPrefix(l.log, p, p);
    }
  }

  /** The same after a restart: the new process reports the end of its log, honestly if and only if nothing is missed
      of the changes between what was applied or due and that index. */
  lemma ReportAfterRestart(st: Replica.Store, l: Rounds.Leader, h: Replication.Histories, b: U64, ends: seq<U64>,
                           p: U64, c: U64)
    requires Rounds.WellFormed(l) && Replication.Explains(l, h) && (p == NO_INDEX || p <= l.last)
    requires st.log == Rounds.Prefix(l.log, p) && st.commitKey == Some(c)
    requires Restarts.PendingRounds(st, l, h, b, ends, p, c)
    requires var e := Restarts.Earlier(c, p); e != NO_INDEX && Replication.HasEntry(l.log, e)
    ensures FollowerCommit.Outcome(st, NO_INDEX, true).Ok?
    ensures var e, r := Restarts.Earlier(c, p), Restarts.LastDue(b, ends, c);
            var done := FollowerCommit.Outcome(st, NO_INDEX, true).value;
            Holds(Holding(done.log, done.docs, done.pending, l), h, e) <==>
            forall s: LogStore.Slot :: s.collection != LogStore.THREAD ==>
              Restarts.NothingMissed(Replica.TableOf(st.docs, s), FollowerCommit.DueRecords(st, c), l, h, s, r, e)
  {
    Restarts.RestartIsExact(st, l, h, b, ends, p, c);
  }

  lemma {:induction false} EntriesStay(w: LogShipping.Writer, us: seq<LogShipping.LogUpdate>)
    ensures w.db.raft.Keys <= LogShipping.WriteAll(w, us).db.raft.Keys
    decreases |us|
  {
    if us != [] {
      EntriesStay(w, us[..|us| - 1]);
    }
  }

  /** Log records that are sent from there do not remove an entry that the leader does not have, and while it is there
      the follower is not in sync at any index, whatever its documents. */
  method ShipOnto(l: Rounds.Leader, f: FollowerProcess.Follower, p: U64, batchSize: nat, ghost k: KeyOrder.Key)
    requires Rounds.WellFormed(l) && p != NO_INDEX && p < l.last && k in f.log.raft && k !in l.log.raft
    modifies f`log, f`uncommitted, f`mergeIndex
    ensures k in f.log.raft
    ensures forall docs, pending, h, i :: !Holds(Holding(f.log, docs, pending, l), h, i)
  {
    var ks := KeyOrder.Iterate(l.log.raft.Keys);
    ghost var w := LogShipping.Writer(f.log, f.uncommitted, NO_INDEX, {});
    ghost var sent, stop;
    var changed;
    changed, sent, stop := Rounds.ShipRound(l, f, ks, p, batchSize);
    EntriesStay(w, sent);
    assert k in f.log.raft;
    forall i: U64 ensures f.log != Rounds.Prefix(l.log, i) {
      assert k !in Rounds.Prefix(l.log, i).raft;
    }
  }

  /** The round that follows where an entry is found in both logs: the report at its end is honest if and only if the
      follower has no entry of its own after that one. */
  method ReportAfterMatch(l: Rounds.Leader, f: FollowerProcess.Follower, p: U64, commit: U64, batchSize: nat,
                          maxBatchSize: nat, ghost h: Replication.Histories, ghost own: Replication.Histories)
    returns (index: U64)
    requires Rounds.WellFormed(l) && Replication.Explains(l, h) && Replication.AllFit(l, maxBatchSize)
    requires p != NO_INDEX && p < l.last && Replication.DivergesAt(f.log, f.docs, l, h, own, p) && f.pending == []
    requires Rounds.Listed(f.log) && forall k :: k in f.log.raft && k.a > p ==> k !in l.log.raft
    modifies f
    ensures Holds(HoldingOf(f, l), h, index) <==> !GoesOn(old(f.log), p)
  {
    var ks := KeyOrder.Iterate(f.log.raft.Keys);
    var goesOn := ks != [] && ks[|ks| - 1].a > p;
    LastTells(f.log, ks, p);
    if goesOn {
      assert ks[|ks| - 1] in ks;
      ShipOnto(l, f, p, batchSize, ks[|ks| - 1]);
      index := f.uncommitted;
    } else {
      EndsThere(f.log, p);
      forall s ensures Replication.SlotInSync(f.docs, f.pending, l, h, s, p) {
        NothingToUndo(f.log, f.docs, l, h, own, p, s);
      }
      ks := KeyOrder.Iterate(l.log.raft.Keys);
      f.floor := UndoLog.Floor(p);
      index := ReportRound(l, f, ks, p, commit, batchSize, maxBatchSize, h);
    }
  }

  lemma LastTells(log: LogStore.LogDb, ks: seq<KeyOrder.Key>, p: U64)
    requires KeyOrder.IsScan(ks, log.raft.Keys)
    ensures GoesOn(log, p) <==> ks != [] && ks[|ks| - 1].a > p
  {
    if ks != [] {
      assert ks[|ks| - 1] in ks;
      forall k | k in log.raft ensures k.a <= ks[|ks| - 1].a {
        var i :| 0 <= i < |ks| && ks[i] == k;
      }
    }
  }

  /** Such a follower: its second entry is of an older term than the leader's. It accepts the leader because of the
      newer term, is matched at the first entry, since that is the last one the leader has committed, and keeps its
      second entry beside the leader's. */
  method UnnoticedEntry(term: nat, d: nat, own: nat, batchSize: nat, maxBatchSize: nat)
    returns (l: Rounds.Leader, f: FollowerProcess.Follower, m: Matching.Match)
    requires d != 5 && own != 5
    ensures Rounds.WellFormed(l) && LogIsBehindOrEq(RaftId(term, 1), RaftId(term + 1, 0))
    ensures m == Matching.Exact(KeyOrder.Key(0, 1, 0)) && KeyOrder.Key(1, term, 0) in f.log.raft
    ensures forall docs, pending, h, i :: !Holds(Holding(f.log, docs, pending, l), h, i)
  {
    var st, matched;
    ghost var h, ours, prev;
    l, st, matched, h, ours := StaleKey.TwoLogs(term, d, own, maxBatchSize);
    f := new FollowerProcess.Follower(st);
    assert f.View() == st;
    TwoAreLogs(term, own);
    TwoAreLogs(term + 1, d);
    m, prev := Matching.FindMatch(l.log.raft.Keys, f.log.raft.Keys, KeyOrder.Key(0, term + 1, 0));
    MatchedAtFirst(f.log.raft.Keys, term, prev);
    ShipOnto(l, f, matched, batchSize, KeyOrder.Key(1, term, 0));
  }

  lemma MatchedAtFirst(follower: set<KeyOrder.Key>, term: nat, prev: Option<KeyOrder.Key>)
    requires follower == {KeyOrder.Key(0, 1, 0), KeyOrder.Key(1, term, 0)}
    requires Matching.IsPrev(follower, KeyOrder.Key(0, term + 1, 0), prev)
    ensures prev == Some(KeyOrder.Key(0, 1, 0))
  {
    assert KeyOrder.Key(0, 1, 0) in follower;
    assert !KeyOrder.Before(KeyOrder.Key(0, term + 1, 0), KeyOrder.Key(0, 1, 0));
  }

  lemma TwoAreLogs(term: nat, d: nat)
    ensures var keys := StaleKey.TwoEntries(term, d).raft.Keys;
            Matching.IsLog(keys) && keys == {KeyOrder.Key(0, 1, 0), KeyOrder.Key(1, term, 0)}
  {
    var keys := StaleKey.TwoEntries(term, d).raft.Keys;
    assert keys == {KeyOrder.Key(0, 1, 0), KeyOrder.Key(1, term, 0)};
    assert Matching.HasIndex(keys, 0) && Matching.HasIndex(keys, 1);
  }

  // ----- What a leader commits

  /** What a leader is told: that its own log has grown, or what a peer reports. */
  datatype Event = Own(index: U64) | Reported(peer: PeerId, index: U64)

  function Hears(n: Node, event: Event): Node {
    match event
    case Own(index) => AdvanceUncommittedIndex(n, index)
    case Reported(peer, index) => AdvanceCommitIndex(n, peer, index)
  }

  function After(n: Node, events: seq<Event>): Node {
    if events == [] then n else Hears(After(n, events[..|events| - 1]), events[|events| - 1])
  }

  predicate AreIndexes(events: seq<Event>) {
    forall e :: e in events ==> e.index != NO_INDEX
  }

  /** The peers are the same ones, and what is noted of a peer is what was noted before or what it has
      reported. */
  ghost predicate IsBacked(n: Node, n': Node, events: seq<Event>) {
    && n'.id == n.id && n'.shard == n.shard && |n'.peers| == |n.peers|
    && forall k :: 0 <= k < |n.peers| ==>
         && n'.peers[k].id == n.peers[k].id && n'.peers[k].shard == n.peers[k].shard
         && (n'.peers[k].commitIndex == n.peers[k].commitIndex
             || Reported(n.peers[k].id, n'.peers[k].commitIndex) in events)
  }

  lemma {:induction false} NotedIsReported(n: Node, events: seq<Event>)
    ensures IsBacked(n, After(n, events), events)
    decreases |events|
  {
    if events != [] {
      NotedIsReported(n, events[..|events| - 1]);
      assert events[|events| - 1] in events;
      assert forall e :: e in events[..|events| - 1] ==> e in events;
    }
  }

  lemma HearsMore(n: Node, event: Event)
    requires event.index != NO_INDEX
    ensures CommitPosition(Hears(n, event)) >= CommitPosition(n)
    ensures WrappingInc(Hears(n, event).lastLog.index) == WrappingInc(n.lastLog.index)
            || WrappingInc(Hears(n, event).lastLog.index) == CommitPosition(Hears(n, event))
  {
    match event {
      case Own(index) => UncommittedGrows(n, index);
      case Reported(peer, index) =>
        AckGrows(n, peer, index);
        IncDec(CommitPosition(n.(peers := WithAck(n.peers, n.shard, peer, index))));
    }
    PickGrows(n, Hears(n, event));
  }

  /** What has been committed, at any time since, is at most what half of the members acknowledge now. */
  lemma {:induction false} CommittedIsAcknowledged(n: Node, events: seq<Event>)
    requires AreIndexes(events)
    ensures var n' := After(n, events);
            || WrappingInc(n'.lastLog.index) == WrappingInc(n.lastLog.index)
            || WrappingInc(n'.lastLog.index) <= CommitPosition(n')
    decreases |events|
  {
    if events != [] {
      var front, e := events[..|events| - 1], events[|events| - 1];
      assert e in events && forall x :: x in front ==> x in events;
      CommittedIsAcknowledged(n, front);
      HearsMore(After(n, front), e);
    }
  }

  lemma {:induction false} AckerIsPeer(peers: seq<Peer>, shard: ShardId, n: nat, w: nat, id: PeerId)
    requires n <= |peers| && id in AckersAmong(peers, shard, n, w)
    ensures exists k :: 0 <= k < n && peers[k].shard == shard && peers[k].id == id
                        && WrappingInc(peers[k].commitIndex) >= w
    decreases n
  {
    if id in AckersAmong(peers, shard, n - 1, w) {
      AckerIsPeer(peers, shard, n - 1, w, id);
    }
  }

  /** The member has reported the position or a later one. */
  ghost predicate HasReported(events: seq<Event>, m: PeerId, w: nat) {
    exists index :: Reported(m, index) in events && WrappingInc(index) >= w
  }

  /** No peer was noted, before these events, with the position or a later one. */
  predicate StartsBelow(n: Node, w: nat) {
    forall k :: 0 <= k < |n.peers| && n.peers[k].shard == n.shard ==> WrappingInc(n.peers[k].commitIndex) < w
  }

  lemma AckerHasReported(n: Node, events: seq<Event>, m: PeerId, v: nat, w: nat)
    requires var n' := After(n, events); m in AckersAmong(n'.peers, n'.shard, |n'.peers|, v)
    requires w <= v && StartsBelow(n, w)
    ensures HasReported(events, m, w)
  {
    var n' := After(n, events);
    NotedIsReported(n, events);
    AckerIsPeer(n'.peers, n'.shard, |n'.peers|, v, m);
    var k :| 0 <= k < |n'.peers| && n'.peers[k].shard == n'.shard && n'.peers[k].id == m
             && WrappingInc(n'.peers[k].commitIndex) >= v;
    assert Reported(m, n'.peers[k].commitIndex) in events;
  }

  lemma StaysMember(n: Node, events: seq<Event>, i: PeerId, members: set<PeerId>)
    requires Election.Member(n, i, members)
    ensures Election.Member(After(n, events), i, members)
  {
    NotedIsReported(n, events);
    Election.MemberSame(n, After(n, events), i, members);
  }

  /** Whatever a leader has committed since some moment, at least half of the members have reported
      it or a later index since then, the leader itself by its own log; provided that no peer was
      noted with such an index before. */
  lemma CommittedIsReported(n: Node, i: PeerId, members: set<PeerId>, events: seq<Event>) returns (half: set<PeerId>)
    requires Election.Member(n, i, members) && AreIndexes(events)
    requires WrappingInc(After(n, events).lastLog.index) != WrappingInc(n.lastLog.index)
    requires StartsBelow(n, WrappingInc(After(n, events).lastLog.index))
    ensures half <= members && 2 * |half| >= |members|
    ensures var n' := After(n, events);
            var w := WrappingInc(n'.lastLog.index);
            forall m :: m in half ==> (m == i && WrappingInc(n'.uncommitted) >= w) || HasReported(events, m, w)
  {
    var n' := After(n, events);
    var v, w := CommitPosition(n'), WrappingInc(n'.lastLog.index);
    CommittedIsAcknowledged(n, events);
    StaysMember(n, events, i, members);
    AckersAreHalf(n', i, members);
    half := Ackers(n', v);
    forall m | m in half ensures (m == i && WrappingInc(n'.uncommitted) >= w) || HasReported(events, m, w) {
      if m in AckersAmong(n'.peers, n'.shard, |n'.peers|, v) {
        AckerHasReported(n, events, m, v, w);
      }
    }
  }

  // ----- The two together

  /** The log of the leader has grown from one moment to another. */
  ghost predicate HasGrown(l: Rounds.Leader, l': Rounds.Leader) {
    l.last <= l'.last && Rounds.Prefix(l'.log, l.last) == l.log
  }

  /** Every report was honest, and made to the leader when its log was not longer than now. */
  ghost predicate AreHonest(events: seq<Event>, held: Event -> Holding, h: Event -> Replication.Histories,
                            l: Rounds.Leader)
  {
    forall e :: e in events && e.Reported? ==> Holds(held(e), h(e), e.index) && HasGrown(held(e).leader, l)
  }

  /** A member that has reported an index held the leader's log up to every earlier one. */
  lemma HeldPrefix(x: Holding, h: Replication.Histories, index: U64, l: Rounds.Leader, c: U64)
    requires Holds(x, h, index) && HasGrown(x.leader, l) && c != NO_INDEX && c <= index
    ensures Rounds.Prefix(x.log, c) == Rounds.Prefix(l.log, c)
  {
    Restarts.PrefixOfPrefix(l.log, x.leader.last, index);
    Restarts.PrefixOfPrefix(l.log, index, c);
  }

  /** The member has held the leader's log up to `c`, in sync at that index or a later one that it reported. */
  ghost predicate HasHeld(events: seq<Event>, held: Event -> Holding, h: Event -> Replication.Histories,
                          l: Rounds.Leader, m: PeerId, c: U64)
  {
    exists e :: e in events && e.Reported? && e.peer == m && e.index >= c
                && Rounds.Prefix(held(e).log, c) == Rounds.Prefix(l.log, c)
                && Replication.InSync(held(e).log, held(e).docs, held(e).pending, held(e).leader, h(e), e.index)
  }

  lemma PositionOrder(index: U64, c: U64)
    requires c != NO_INDEX && WrappingInc(index) >= WrappingInc(c)
    ensures index != NO_INDEX && index >= c
  {
  }

  lemma ReporterHasHeld(events: seq<Event>, held: Event -> Holding, h: Event -> Replication.Histories,
                        l: Rounds.Leader, m: PeerId, c: U64)
    requires AreIndexes(events) && AreHonest(events, held, h, l)
    requires c != NO_INDEX && HasReported(events, m, WrappingInc(c))
    ensures HasHeld(events, held, h, l, m, c)
  {
    var index :| Reported(m, index) in events && WrappingInc(index) >= WrappingInc(c);
    var e := Reported(m, index);
    PositionOrder(index, c);
    HeldPrefix(held(e), h(e), index, l, c);
  }

  /** Durability: whatever a leader commits, at least half of the members have held its log up to the
      committed index, in sync at that index or a later one; the leader itself has it in its log. */
  lemma CommittedIsHeld(n: Node, i: PeerId, members: set<PeerId>, events: seq<Event>, held: Event -> Holding,
                        h: Event -> Replication.Histories, l: Rounds.Leader)
    returns (half: set<PeerId>)
    requires Election.Member(n, i, members) && AreIndexes(events) && AreHonest(events, held, h, l)
    requires WrappingInc(After(n, events).lastLog.index) != WrappingInc(n.lastLog.index)
    requires StartsBelow(n, WrappingInc(After(n, events).lastLog.index))
    ensures After(n, events).lastLog.index != NO_INDEX
    ensures half <= members && 2 * |half| >= |members|
    ensures var n' := After(n, events);
            var c := n'.lastLog.index;
            forall m :: m in half ==>
              || (m == i && n'.uncommitted != NO_INDEX && n'.uncommitted >= c)
              || HasHeld(events, held, h, l, m, c)
  {
    half := CommittedIsReported(n, i, members, events);
    var c, own := After(n, events).lastLog.index, After(n, events).uncommitted;
    CommitGrows(n, events);
    if WrappingInc(own) >= WrappingInc(c) {
      PositionOrder(own, c);
    }
    forall m | m in half && HasReported(events, m, WrappingInc(c)) ensures HasHeld(events, held, h, l, m, c) {
      ReporterHasHeld(events, held, h, l, m, c);
    }
  }

  lemma {:induction false} CommitGrows(n: Node, events: seq<Event>)
    requires AreIndexes(events)
    ensures WrappingInc(After(n, events).lastLog.index) >= WrappingInc(n.lastLog.index)
    decreases |events|
  {
    if events != [] {
      var front, e := events[..|events| - 1], events[|events| - 1];
      assert e in events && forall x :: x in front ==> x in events;
      CommitGrows(n, front);
      if e.Reported? {
        var n0 := After(n, front);
        IncDec(CommitPosition(n0.(peers := WithAck(n0.peers, n0.shard, e.peer, e.index))));
      }
    }
  }
}

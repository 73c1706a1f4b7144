/** Runs in which a follower restarts with a stored commit index that a rollback has left behind. */
module StaleKey {
  import opened Common
  import opened KeyOrder
  import opened ChangeLog
  import opened DocumentSync
  import opened LogStore
  import opened LogShipping
  import opened Replica
  import opened FollowerCommit
  import opened FollowerProcess
  import opened UndoLog
  import opened Rounds
  import opened Exchange
  import opened Replication
  import opened Restarts

  // ----- Runs that miss something

  lemma EndIsNotBefore(log: LogDb, l: Leader, matched: U64, c: U64)
    requires IsEnd(log, c) && Prefix(log, matched) == Prefix(l.log, matched)
             && (forall k :: k in log.raft ==> k.a < NO_INDEX)
    requires matched == NO_INDEX || exists k :: k in l.log.raft && k.a == matched
    ensures Floor(matched) <= Floor(c)
  {
    if matched != NO_INDEX {
      var k :| k in l.log.raft && k.a == matched;
      assert k in Prefix(log, matched).raft;
    }
  }

  /** A process begins on a store in sync at `b` whose log is the leader's up to `p`. */
  method StartFrom(l: Leader, f: Follower, ghost b: U64, ghost p: U64, ghost h: Histories) returns (ok: bool)
    requires WellFormed(l) && Explains(l, h) && (p == NO_INDEX || p <= l.last) && Floor(b) <= Floor(p)
    requires f.log == Prefix(l.log, p) && f.commitKey.Some? && f.pending == [] && Floor(b) <= Floor(f.commitKey.value)
    requires forall s :: SlotInSync(f.docs, [], l, h, s, b)
    modifies f
    ensures ok && f.pending == [] && f.docs == old(f.docs) && f.rollback == old(f.rollback)
    ensures var e := Earlier(old(f.commitKey.value), p);
            && f.log == Prefix(l.log, e)
            && (InSync(f.log, f.docs, f.pending, l, h, e) <==>
                forall s: Slot :: s.collection != THREAD ==> NothingMissed(TableOf(f.docs, s), [], l, h, s, b, e))
    ensures IsEnd(f.log, f.uncommitted) && f.commitKey == Some(f.uncommitted)
  {
    ghost var c := f.commitKey.value;
    RestartIsExact(f.View(), l, h, b, [], p, c);
    assert DueRecords(f.View(), c) == [] && CommitAll(f.docs, []) == Ok(f.docs) && LastDue(b, [], c) == b;
    ok := f.Start();
  }

  /** A divergent follower that has nothing pending and has stored the index of its last entry. */
  ghost predicate IsDivergent(st: Store, l: Leader, h: Histories, own: Histories, matched: U64, maxBatchSize: nat) {
    && WellFormed(l) && Explains(l, h)
    && (matched == NO_INDEX || exists k :: k in l.log.raft && k.a == matched)
    && DivergesAt(st.log, st.docs, l, h, own, matched) && RollbackFits(st.log, l, matched, maxBatchSize)
    && st.pending == [] && st.commitKey.Some? && IsEnd(st.log, st.commitKey.value)
  }

  /** The index that is stored once a follower has been rolled back: the one from before, unless the
      rollback ends in an error, because there was nothing to undo or nothing is left of the log. */
  ghost function KeptKey(log: LogDb, l: Leader, matched: U64, c: U64): U64 {
    if NoNetEffect(log, matched) || Prefix(l.log, matched).raft == map[] then matched else c
  }

  /** A process begins on a store that has been rolled back, and stores the index of the matched entry. */
  method StartAtMatched(l: Leader, f: Follower, matched: U64, ghost h: Histories)
    requires WellFormed(l) && Explains(l, h) && (matched == NO_INDEX || matched <= l.last)
    requires matched == NO_INDEX || exists k :: k in l.log.raft && k.a == matched
    requires f.log == Prefix(l.log, matched) && f.commitKey.Some? && Floor(matched) <= Floor(f.commitKey.value)
    requires f.pending == [] && forall s :: SlotInSync(f.docs, [], l, h, s, matched)
    modifies f
    ensures f.pending == [] && f.docs == old(f.docs) && f.rollback == old(f.rollback) && f.log == old(f.log)
    ensures f.uncommitted == matched && f.commitKey == Some(matched)
  {
    assert Earlier(f.commitKey.value, matched) == matched;
    var _ := StartFrom(l, f, matched, matched, h);
    EndOfPrefix(l.log, matched, f.uncommitted);
  }

  /** The rollback of a divergent follower, which leaves the stored index as it is. If it ends in an
      error, the process ends, and the next one stores the index of the matched entry. */
  method RollBackAndGoOn(l: Leader, f: Follower, matched: U64, maxBatchSize: nat, ghost h: Histories,
                         ghost own: Histories)
    returns (index: U64)
    requires IsDivergent(f.View(), l, h, own, matched, maxBatchSize) && f.rollback == map[]
    modifies f
    ensures f.rollback == map[] && f.pending == [] && f.log == Prefix(l.log, matched)
    ensures forall s :: SlotInSync(f.docs, [], l, h, s, matched)
    ensures forall s: Slot :: s.collection != THREAD ==> IsUndone(old(f.log), TableOf(f.docs, s), l, h, matched, s)
    ensures f.commitKey == Some(KeptKey(old(f.log), l, matched, old(f.commitKey.value)))
    ensures Floor(matched) <= Floor(f.commitKey.value)
    ensures index == matched
  {
    EndIsNotBefore(f.log, l, matched, f.commitKey.value);
    var reply := MergeLog(l, f, matched, maxBatchSize, h, own);
    assert f.pending == [] && forall s :: SlotInSync(f.docs, f.pending, l, h, s, matched);
    if !reply.Finished? || reply.lastLog.None? {
      StartAtMatched(l, f, matched, h);
      index := f.uncommitted;
    } else {
      index := reply.lastLog.value.index;
    }
  }

  /** The log records of a round. */
  method ReceivePart(l: Leader, f: Follower, matched: U64, batchSize: nat) returns (ghost q: U64)
    requires WellFormed(l) && (matched == NO_INDEX || matched < l.last) && f.pending == []
             && f.log == Prefix(l.log, matched)
    modifies f`log, f`uncommitted, f`mergeIndex, f`floor
    ensures f.log == Prefix(l.log, q) && q <= l.last && (matched == NO_INDEX || matched < q) && q != NO_INDEX
  {
    f.floor := Floor(matched);
    var ks := Iterate(l.log.raft.Keys);
    var _ := ReceiveRound(l, f, ks, matched, batchSize);
    q := f.uncommitted;
  }

  /** A document that the leader's changes after the matched entry and up to another concern, told from the follower's
      own changes `m`, the states of the leader before and after those changes and now, and the documents that later
      changes concern. Fetched, it must not have come into being since; deleted, it must not have been and still be
      there; otherwise it must have stayed, and be as the leader has it now unless it is to change again. */
  predicate Stands(m: Merged, before: Table, after: Table, later: set<DocId>, leader: Table, d: DocId) {
    if d in m.deletes + m.updates then d in leader ==> d in after
    else if d in m.inserts then !(d in after && d in leader)
    else
      && (d in before ==> d in after) && (d in after && d in leader ==> d in before)
      && (d !in later ==> Get(before, d) == Get(leader, d))
  }

  /** No document that the changes up to `e` concern is lost by going on from there after a rollback. */
  ghost predicate NothingLost(log: LogDb, l: Leader, h: Histories, s: Slot, matched: U64, e: U64) {
    && Position(l, s, matched) < |h(s)| && Position(l, s, e) < |h(s)|
    && forall d :: d in TouchedBy(Between(l, s, matched, e)) ==>
         Stands(OwnFold(log, s, matched), h(s)[Position(l, s, matched)], h(s)[Position(l, s, e)],
                TouchedBy(ChangesIn(l.log.changes, s, Floor(e), l.last)), TableOf(l.docs, s), d)
  }

  lemma UndoneSettles(m: Merged, before: Table, after: Table, later: set<DocId>, leader: Table, d: DocId)
    requires d !in later ==> Get(after, d) == Get(leader, d)
    ensures Settles(Undone(m, before, leader, d), after, later, leader, d) <==>
            Stands(m, before, after, later, leader, d)
  {
  }

  /** Documents that no later change concerns are as the leader has them now. */
  lemma LaterStates(l: Leader, h: Histories, s: Slot, e: U64, d: DocId)
    requires Explains(l, h) && s.collection != THREAD && (e == NO_INDEX || e <= l.last)
    ensures Position(l, s, e) < |h(s)|
    ensures d !in TouchedBy(ChangesIn(l.log.changes, s, Floor(e), l.last)) ==>
              Get(h(s)[Position(l, s, e)], d) == Get(TableOf(l.docs, s), d)
  {
    assert IsHistory(l, h, s);
    HistoryFrom(l, h, s, e);
    var rest := ChangesIn(l.log.changes, s, Floor(e), l.last);
    if d !in TouchedBy(rest) {
      Untouched(h(s)[Position(l, s, e)..], rest, d);
    }
  }

  lemma MissedIsLost(log: LogDb, t: Table, l: Leader, h: Histories, s: Slot, matched: U64, e: U64)
    requires Explains(l, h) && s.collection != THREAD && (e == NO_INDEX || e <= l.last)
    requires IsUndone(log, t, l, h, matched, s)
    ensures NothingMissed(t, [], l, h, s, matched, e) <==> NothingLost(log, l, h, s, matched, e)
  {
    var m, before, later := OwnFold(log, s, matched), h(s)[Position(l, s, matched)],
                            TouchedBy(ChangesIn(l.log.changes, s, Floor(e), l.last));
    forall d
      ensures Position(l, s, e) < |h(s)|
      ensures IsSettled(DocAfter(Get(t, d), [], s, d), l, h, s, e, d) <==>
              Stands(m, before, h(s)[Position(l, s, e)], later, TableOf(l.docs, s), d)
    {
      LaterStates(l, h, s, e, d);
      UndoneSettles(m, before, h(s)[Position(l, s, e)], later, TableOf(l.docs, s), d);
    }
  }

  /** A rollback, then log records of a round, then a restart before any document has arrived: for
      every divergent follower, the new process goes on from the earlier of the stored index, which
      the rollback has left as it was, and the end of the log, and is in sync there exactly if nothing
      is lost, as told from the two logs and the leader's states alone. */
  method RollbackThenRestart(l: Leader, f: Follower, matched: U64, batchSize: nat, maxBatchSize: nat,
                             ghost h: Histories, ghost own: Histories) returns (ok: bool, ghost c: U64, ghost q: U64)
    requires IsDivergent(f.View(), l, h, own, matched, maxBatchSize) && f.rollback == map[]
    requires matched == NO_INDEX || matched < l.last
    modifies f
    ensures ok && f.pending == [] && f.rollback == map[] && f.commitKey == Some(f.uncommitted)
            && IsEnd(f.log, f.uncommitted)
    ensures c == KeptKey(old(f.log), l, matched, old(f.commitKey.value))
    ensures q <= l.last && (matched == NO_INDEX || matched < q) && f.log == Prefix(l.log, Earlier(c, q))
    ensures forall s :: SlotInSync(f.docs, [], l, h, s, matched)
    ensures InSync(f.log, f.docs, f.pending, l, h, Earlier(c, q)) <==>
            forall s: Slot :: s.collection != THREAD ==> NothingLost(old(f.log), l, h, s, matched, Earlier(c, q))
  {
    ghost var log0 := f.log;
    var index := RollBackAndGoOn(l, f, matched, maxBatchSize, h, own);
    c := f.commitKey.value;
    q := ReceivePart(l, f, index, batchSize);
    ok := StartFrom(l, f, matched, q, h);
    forall s: Slot | s.collection != THREAD
      ensures NothingMissed(TableOf(f.docs, s), [], l, h, s, matched, Earlier(c, q)) <==>
              NothingLost(log0, l, h, s, matched, Earlier(c, q))
    {
      MissedIsLost(log0, TableOf(f.docs, s), l, h, s, matched, Earlier(c, q));
    }
  }

  // ----- Such a run

  const SLOT := Slot(1, MAILBOX)
  const DOC := Doc(0, [])

  function Insertion(d: DocId): Change {
    ChangeLog.Entry([JmapId(0, d)], [], [], [])
  }

  /** Two entries, each of which inserts one document; the second is of the given term. */
  function TwoEntries(term: nat, d: DocId): LogDb {
    var entry := LogValue(Item(1, {MAILBOX}), 0);
    LogDb(map[Key(0, 1, 0) := entry, Key(1, term, 0) := entry],
          map[ChangeKey(SLOT, 0) := ChangeValue(Insertion(5), 0), ChangeKey(SLOT, 1) := ChangeValue(Insertion(d), 0)])
  }

  function Inserted(d: DocId): Tables {
    map[SLOT := map[5 := DOC, d := DOC]]
  }

  function History2(d: DocId): Histories {
    s => if s == SLOT then [map[], map[5 := DOC], map[5 := DOC, d := DOC]] else [map[]]
  }

  function History1(d: DocId): Histories {
    s => if s == SLOT then [map[5 := DOC], map[5 := DOC, d := DOC]] else [map[]]
  }

  lemma OneChange(changes: map<Key, ChangeValue>, s: Slot, lo: int, hi: nat, k: Key)
    requires k in changes && RangeKeys(changes.Keys, s, lo, hi) == {k}
    ensures ChangesIn(changes, s, lo, hi) == [changes[k].change]
  {
    SortedUnique(Scan({k}), [k]);
  }

  lemma NoChange(term: nat, d: DocId, s: Slot, lo: int, hi: nat)
    requires s != SLOT
    ensures ChangesIn(TwoEntries(term, d).changes, s, lo, hi) == []
  {
    assert RangeKeys(TwoEntries(term, d).changes.Keys, s, lo, hi) == {};
  }

  lemma ChangesOfTwo(term: nat, d: DocId)
    ensures var changes := TwoEntries(term, d).changes;
            && ChangesIn(changes, SLOT, -1, 0) == [Insertion(5)]
            && ChangesIn(changes, SLOT, 0, 1) == [Insertion(d)]
            && ChangesIn(changes, SLOT, 0, NO_INDEX) == [Insertion(d)]
            && ChangesIn(changes, SLOT, -1, 1) == [Insertion(5), Insertion(d)]
  {
    var changes := TwoEntries(term, d).changes;
    var a, b := ChangeKey(SLOT, 0), ChangeKey(SLOT, 1);
    assert changes.Keys == {a, b};
    assert RangeKeys(changes.Keys, SLOT, -1, 0) == {a} && RangeKeys(changes.Keys, SLOT, 0, 1) == {b};
    assert RangeKeys(changes.Keys, SLOT, 0, NO_INDEX) == {b};
    OneChange(changes, SLOT, -1, 0, a);
    OneChange(changes, SLOT, 0, 1, b);
    OneChange(changes, SLOT, 0, NO_INDEX, b);
    ChangesInSplit(changes, SLOT, -1, 0, 1);
  }

  lemma DocsOfOne(d: DocId)
    ensures Docs([JmapId(0, d)]) == {d} && Docs([]) == {}
  {
    assert JmapId(0, d) in [JmapId(0, d)];
  }

  lemma Inserts(t: Table, d: DocId)
    requires d !in t
    ensures Describes(t, Insertion(d), t[d := DOC])
  {
    DocsOfOne(d);
  }

  lemma MergeOfOne(d: DocId)
    ensures Merge([Insertion(d)]) == Merged({d}, {}, {})
  {
    DocsOfOne(d);
    assert [Insertion(d)][..0] == [] && Merge([]) == EMPTY_CHANGES;
    AbsorbClosed(EMPTY_CHANGES, Insertion(d));
  }

  lemma TwoIsWellFormed(term: nat, d: DocId)
    ensures WellFormed(Leader(TwoEntries(term, d), Inserted(d), 1))
  {
    var log := TwoEntries(term, d);
    assert SLOT in ItemSlots(1, {MAILBOX});
    assert Key(1, term, 0) in log.raft && Key(0, 1, 0) in log.raft;
    forall k | k in log.changes ensures exists e :: IsListed(log, e, k) {
      var e := if k.c == 0 then Key(0, 1, 0) else Key(1, term, 0);
      assert IsListed(log, e, k);
    }
  }

  lemma TwoIsUnmixed(term: nat, d: DocId)
    ensures Unmixed(TwoEntries(term, d).changes)
  {
    DocsOfOne(5);
    DocsOfOne(d);
  }

  lemma HistoryOfTwo(d: DocId)
    requires d != 5
    ensures History(History2(d)(SLOT), [Insertion(5), Insertion(d)]) && History(History1(d)(SLOT), [Insertion(d)])
  {
    Inserts(map[], 5);
    Inserts(map[5 := DOC], d);
  }

  lemma TwoIsExplained(term: nat, d: DocId)
    requires d != 5
    ensures Explains(Leader(TwoEntries(term, d), Inserted(d), 1), History2(d))
  {
    var l, h := Leader(TwoEntries(term, d), Inserted(d), 1), History2(d);
    TwoIsUnmixed(term, d);
    forall s: Slot | s.collection != THREAD ensures IsHistory(l, h, s) {
      if s == SLOT {
        ChangesOfTwo(term, d);
        HistoryOfTwo(d);
      } else {
        NoChange(term, d, s, -1, 1);
      }
    }
  }

  lemma SamePrefix(term: nat, d: DocId, term': nat, d': DocId)
    ensures Prefix(TwoEntries(term, d), 0) == Prefix(TwoEntries(term', d'), 0)
  {
    assert Prefix(TwoEntries(term, d), 0).raft == Prefix(TwoEntries(term', d'), 0).raft;
    assert Prefix(TwoEntries(term, d), 0).changes == Prefix(TwoEntries(term', d'), 0).changes;
  }

  lemma WholePrefix(term: nat, d: DocId)
    ensures Prefix(TwoEntries(term, d), 1) == TwoEntries(term, d)
  {
    assert Prefix(TwoEntries(term, d), 1).raft == TwoEntries(term, d).raft;
    assert Prefix(TwoEntries(term, d), 1).changes == TwoEntries(term, d).changes;
  }

  lemma OwnHistoryIs(log: LogDb, docs: Tables, l: Leader, h: Histories, own: Histories, matched: U64, s: Slot,
                     cs: seq<Change>, n: nat)
    requires ChangesIn(log.changes, s, Floor(matched), NO_INDEX) == cs && History(own(s), cs)
    requires matched != NO_INDEX && |ChangesIn(l.log.changes, s, -1, matched)| == n < |h(s)| && own(s)[0] == h(s)[n]
    requires own(s)[|own(s)| - 1] == TableOf(docs, s)
    ensures OwnHistory(log, docs, l, h, own, matched, s)
  {
  }

  lemma HistoriesMeetAt(l: Leader, log: LogDb, docs: Tables, h: Histories, own: Histories, d: DocId, first: seq<Change>)
    requires ChangesIn(log.changes, SLOT, 0, NO_INDEX) == [Insertion(d)] && History(own(SLOT), [Insertion(d)])
    requires ChangesIn(l.log.changes, SLOT, -1, 0) == first && |first| == 1
    requires |own(SLOT)| == 2 && |h(SLOT)| == 3 && own(SLOT)[0] == h(SLOT)[1] && own(SLOT)[1] == TableOf(docs, SLOT)
    ensures OwnHistory(log, docs, l, h, own, 0, SLOT)
  {
    OwnHistoryIs(log, docs, l, h, own, 0, SLOT, [Insertion(d)], 1);
  }

  lemma HistoriesMeet(l: Leader, term: nat, d: DocId, term': nat, d': DocId, s: Slot)
    requires l == Leader(TwoEntries(term', d'), Inserted(d'), 1) && d != 5 && s != SLOT
    ensures OwnHistory(TwoEntries(term, d), Inserted(d), l, History2(d'), History1(d), 0, s)
  {
    NoChange(term, d, s, 0, NO_INDEX);
    NoChange(term', d', s, -1, 0);
    assert Position(l, s, 0) == 0 && TableOf(Inserted(d), s) == map[];
  }

  lemma TwoAreIndexed(term: nat, d: DocId)
    ensures var log := TwoEntries(term, d);
            (forall k :: k in log.raft ==> k.a < NO_INDEX) && (forall k :: k in log.changes ==> k.c <= NO_INDEX)
  {
  }

  lemma LateChange(term: nat, d: DocId)
    ensures ChangesIn(TwoEntries(term, d).changes, SLOT, 0, NO_INDEX) == [Insertion(d)]
  {
    ChangesOfTwo(term, d);
  }

  lemma FirstChange(term: nat, d: DocId)
    ensures ChangesIn(TwoEntries(term, d).changes, SLOT, -1, 0) == [Insertion(5)]
  {
    ChangesOfTwo(term, d);
  }

  lemma ListsMeet(docs: Tables, own: Histories, h: Histories, d: DocId, d': DocId)
    requires docs == Inserted(d) && own == History1(d) && h == History2(d') && d != 5
    ensures History(own(SLOT), [Insertion(d)])
    ensures |own(SLOT)| == 2 && |h(SLOT)| == 3 && own(SLOT)[0] == h(SLOT)[1] && own(SLOT)[1] == TableOf(docs, SLOT)
  {
    HistoryOfTwo(d);
  }

  lemma SlotsMeet(l: Leader, log: LogDb, docs: Tables, own: Histories, h: Histories, term: nat, d: DocId, term': nat,
                  d': DocId)
    requires l == Leader(TwoEntries(term', d'), Inserted(d'), 1) && d != 5
    requires log == TwoEntries(term, d) && docs == Inserted(d) && own == History1(d) && h == History2(d')
    ensures OwnHistory(log, docs, l, h, own, 0, SLOT)
  {
    LateChange(term, d);
    FirstChange(term', d');
    ListsMeet(docs, own, h, d, d');
    HistoriesMeetAt(l, log, docs, h, own, d, [Insertion(5)]);
  }

  /** A follower with the same first entry and another second one. */
  lemma TwoDiverge(l: Leader, log: LogDb, docs: Tables, own: Histories, h: Histories, term: nat, d: DocId, term': nat,
                   d': DocId)
    requires l == Leader(TwoEntries(term', d'), Inserted(d'), 1) && d != 5
    requires log == TwoEntries(term, d) && docs == Inserted(d) && own == History1(d) && h == History2(d')
    ensures DivergesAt(log, docs, l, h, own, 0)
  {
    TwoIsUnmixed(term, d);
    TwoAreIndexed(term, d);
    SamePrefix(term, d, term', d');
    forall s: Slot | s.collection != THREAD ensures OwnHistory(log, docs, l, h, own, 0, s) {
      if s == SLOT {
        SlotsMeet(l, log, docs, own, h, term, d, term', d');
      } else {
        HistoriesMeet(l, term, d, term', d', s);
      }
    }
  }

  lemma TwoRollBack(term: nat, d: DocId, s: Slot)
    ensures RollbackRecord(TwoEntries(term, d).changes, s, 0, true) ==
            if s == SLOT then Merged({d}, {}, {}) else EMPTY_CHANGES
  {
    if s == SLOT {
      ChangesOfTwo(term, d);
      MergeOfOne(d);
    } else {
      NoChange(term, d, s, 0, NO_INDEX);
    }
  }

  lemma TwoRollbackFits(l: Leader, term: nat, d: DocId, maxBatchSize: nat)
    ensures RollbackFits(TwoEntries(term, d), l, 0, maxBatchSize)
    ensures !NoNetEffect(TwoEntries(term, d), 0)
  {
    forall s ensures Requests(RollbackRequest(RollbackRecord(TwoEntries(term, d).changes, s, 0, true))) == [] {
      TwoRollBack(term, d, s);
    }
    TwoRollBack(term, d, SLOT);
    assert !RollbackRecord(TwoEntries(term, d).changes, SLOT, 0, true).IsEmpty();
  }

  lemma TwoMissed(l: Leader, term: nat, d: DocId)
    requires l == Leader(TwoEntries(term, d), Inserted(d), 1) && d != 5
    ensures var n := Position(l, SLOT, 0);
            n < |History2(d)(SLOT)| && d !in History2(d)(SLOT)[n] && d in TableOf(l.docs, SLOT)
  {
    ChangesOfTwo(term, d);
    assert History2(d)(SLOT)[1] == map[5 := DOC];
  }

  lemma TwoEnds(term: nat, d: DocId)
    ensures IsEnd(TwoEntries(term, d), 1)
    ensures exists k :: k in TwoEntries(term, d).raft && k.a == 0
    ensures Prefix(TwoEntries(term, d), 0).raft != map[]
  {
    assert Key(1, term, 0) in TwoEntries(term, d).raft && Key(0, 1, 0) in TwoEntries(term, d).raft;
    assert Key(0, 1, 0) in Prefix(TwoEntries(term, d), 0).raft;
  }

  /** A leader and a follower that agree on their first entry; `d` is the document of the leader's
      second one. */
  method TwoLogs(term: nat, d: DocId, own: DocId, maxBatchSize: nat)
    returns (l: Leader, st: Store, matched: U64, ghost h: Histories, ghost ours: Histories)
    requires d != 5 && own != 5
    ensures l.log == TwoEntries(term + 1, d) && st.log == TwoEntries(term, own) && matched == 0
    ensures IsDivergent(st, l, h, ours, matched, maxBatchSize)
    ensures matched != NO_INDEX && matched + 1 == l.last && st.commitKey == Some(l.last)
            && Prefix(l.log, l.last) == l.log
    ensures KeptKey(st.log, l, matched, l.last) == l.last
    ensures var n := Position(l, SLOT, matched); n < |h(SLOT)| && d !in h(SLOT)[n] && d in TableOf(l.docs, SLOT)
  {
    l, matched := Leader(TwoEntries(term + 1, d), Inserted(d), 1), 0;
    st := Store(TwoEntries(term, own), Inserted(own), [], Some(1));
    h, ours := History2(d), History1(own);
    TwoIsWellFormed(term + 1, d);
    TwoIsExplained(term + 1, d);
    TwoDiverge(l, st.log, st.docs, ours, h, term, own, term + 1, d);
    TwoRollbackFits(l, term, own, maxBatchSize);
    TwoEnds(term, own);
    TwoEnds(term + 1, d);
    WholePrefix(term + 1, d);
    TwoMissed(l, term + 1, d);
  }

  // ----- The run

  lemma StillMissed(docs: Tables, l: Leader, h: Histories, matched: U64, s: Slot, d: DocId)
    requires s.collection != THREAD && SlotInSync(docs, [], l, h, s, matched)
    requires var n := Position(l, s, matched); n < |h(s)| && d !in h(s)[n] && d in TableOf(l.docs, s)
    ensures d !in TableOf(docs, s) && !Replicated(l.log, docs, l)
  {
    assert Effective(TableOf(docs, s), [], s) == Ok(TableOf(docs, s));
  }

  /** The run: the follower's second entry is undone, the leader's arrives, the process restarts, and
      goes on at the end of the leader's log although the document of that entry is missing. */
  method LoseDocument(term: nat, d: DocId, own: DocId, batchSize: nat, maxBatchSize: nat)
    returns (l: Leader, f: Follower)
    requires d != 5 && own != 5
    ensures WellFormed(l) && f.log == l.log && f.uncommitted == l.last && f.pending == []
    ensures d in TableOf(l.docs, SLOT) && d !in TableOf(f.docs, SLOT) && !Replicated(f.log, f.docs, l)
  {
    var st, matched;
    ghost var h, ours;
    l, st, matched, h, ours := TwoLogs(term, d, own, maxBatchSize);
    f := new Follower(st);
    assert f.View() == st;
    MissLast(l, f, matched, batchSize, maxBatchSize, h, ours, SLOT, d);
  }

  lemma EndOfLeader(l: Leader, c: U64)
    requires WellFormed(l) && IsEnd(l.log, c)
    ensures c == l.last
  {
    var k :| k in l.log.raft && k.a == l.last;
  }

  /** The same for every follower whose stored index is that of the leader's last entry, which is
      the only one to come: it misses every document that this entry has brought into being. */
  method MissLast(l: Leader, f: Follower, matched: U64, batchSize: nat, maxBatchSize: nat,
                  ghost h: Histories, ghost own: Histories, ghost s: Slot, ghost d: DocId)
    requires IsDivergent(f.View(), l, h, own, matched, maxBatchSize) && f.rollback == map[]
    requires matched != NO_INDEX && matched + 1 == l.last && Prefix(l.log, l.last) == l.log
    requires f.commitKey == Some(l.last) && KeptKey(f.log, l, matched, l.last) == l.last
    requires s.collection != THREAD
    requires var n := Position(l, s, matched); n < |h(s)| && d !in h(s)[n] && d in TableOf(l.docs, s)
    modifies f
    ensures f.log == l.log && f.uncommitted == l.last && f.pending == []
    ensures d !in TableOf(f.docs, s) && !Replicated(f.log, f.docs, l)
  {
    var ok;
    ghost var c, q;
    ok, c, q := RollbackThenRestart(l, f, matched, batchSize, maxBatchSize, h, own);
    assert c == l.last && q == l.last && Earlier(c, q) == l.last;
    StillMissed(f.docs, l, h, matched, s, d);
    EndOfLeader(l, f.uncommitted);
  }

  // ----- What is missed stays missed

  predicate IsWithin(m: Merged, ids: set<DocId>) {
    m.inserts <= ids && m.updates <= ids && m.deletes <= ids
  }

  lemma AbsorbedIsTouched(m: Merged, c: Change, ids: set<DocId>)
    requires IsWithin(m, ids) && (c.Entry? ==> DistinctDocs(c.inserts) && DistinctDocs(c.deletes))
    ensures IsWithin(Absorb(m, c), ids + Touched(c))
  {
    if c.Entry? {
      AbsorbClosed(m, c);
      assert Moved(c.inserts, c.deletes) <= Docs(c.inserts);
    }
  }

  lemma {:induction false} MergedIsTouched(h: seq<Table>, cs: seq<Change>)
    requires History(h, cs)
    ensures IsWithin(Merge(cs), TouchedBy(cs))
    decreases |cs|
  {
    if cs != [] {
      var n := |cs| - 1;
      MergedIsTouched(h[..n + 1], cs[..n]);
      assert cs == cs[..n] + [cs[n]];
      TouchedBySnoc(cs[..n], cs[n]);
      assert Describes(h[n], cs[n], h[n + 1]);
      AbsorbedIsTouched(Merge(cs[..n]), cs[n], TouchedBy(cs[..n]));
    }
  }

  /** Applying a round changes only documents that its changes concern. */
  lemma CatchUpKeepsOthers(t: Table, h: seq<Table>, cs: seq<Change>, leader: Table, isMail: bool, d: DocId)
    requires History(h, cs) && CatchUp(t, Merge(cs), leader, isMail).Ok? && d !in TouchedBy(cs)
    ensures Get(CatchUp(t, Merge(cs), leader, isMail).value, d) == Get(t, d)
  {
    var m := Merge(cs);
    MergedIsTouched(h, cs);
    FetchEffect(t - m.deletes, leader, Merged(m.inserts, m.updates, {}), false, isMail);
  }

  /** Documents outside a set are kept as they are. */
  ghost predicate KeepsOthers(t: Result<Table>, t': Result<Table>, touched: set<DocId>) {
    t'.Ok? ==> t.Ok? && forall d :: d !in touched ==> Get(t'.value, d) == Get(t.value, d)
  }

  lemma SlotKeepsOthers(l: Leader, h: Histories, s: Slot, p: U64, q: U64, t: Result<Table>)
    requires Explains(l, h) && s.collection != THREAD && q <= l.last && (p == NO_INDEX || p <= q) && q != NO_INDEX
    ensures var cs := ChangesIn(l.log.changes, s, Floor(p), q);
            KeepsOthers(t, CaughtUp(t, Merge(cs), TableOf(l.docs, s), s), TouchedBy(cs))
  {
    var cs, rest := ChangesIn(l.log.changes, s, Floor(p), q), ChangesIn(l.log.changes, s, q, l.last);
    assert IsHistory(l, h, s);
    HistoryFrom(l, h, s, p);
    ChangesInSplit(l.log.changes, s, Floor(p), q, l.last);
    var part := RoundHistory(h(s), Position(l, s, p), cs, rest);
    if t.Ok? && CaughtUp(t, Merge(cs), TableOf(l.docs, s), s).Ok? {
      forall d | d !in TouchedBy(cs)
        ensures Get(CaughtUp(t, Merge(cs), TableOf(l.docs, s), s).value, d) == Get(t.value, d)
      {
        CatchUpKeepsOthers(t.value, part, cs, TableOf(l.docs, s), s.collection == MAIL, d);
      }
    }
  }

  /** Fetching the documents of a round, whether the follower is in sync or not. */
  method FetchAnyway(l: Leader, f: Follower, changed: set<Slot>, p: U64, maxBatchSize: nat, ghost h: Histories)
    requires WellFormed(l) && Explains(l, h) && AllFit(l, maxBatchSize) && (p == NO_INDEX || p < f.uncommitted)
    requires f.Valid() && f.floor < f.uncommitted && Shipped(l, p, f.uncommitted, f.log, f.mergeIndex, changed)
    modifies f`pending, f`sequenceId
    ensures f.Valid()
    ensures forall s: Slot :: s.collection != THREAD ==>
              KeepsOthers(old(f.Target(s)), f.Target(s),
                          TouchedBy(ChangesIn(l.log.changes, s, Floor(p), f.uncommitted)))
  {
    var work := ListWork(changed);
    ghost var q, todo, before := f.uncommitted, Todo(work), f.pending;
    ghost var rounds := RoundsOf(l, todo, p, q);
    forall s ensures s in rounds ==> rounds[s] == f.Round(s) {
      IsRoundOf(l, p, q, f.log, f.mergeIndex, changed, todo, s);
    }
    FetchRound(l, f, work, maxBatchSize, rounds);
    forall s: Slot | s.collection != THREAD
      ensures KeepsOthers(Effective(TableOf(f.docs, s), before, s), f.Target(s),
                          TouchedBy(ChangesIn(l.log.changes, s, Floor(p), q)))
    {
      SlotKeepsOthers(l, h, s, p, q, Effective(TableOf(f.docs, s), before, s));
      assert f.Target(s) == Effective(TableOf(f.docs, s), f.pending, s);
    }
  }

  /** A later round with a leader whose log has grown, whether the follower is in sync or not: in every
      slot it leaves all documents alone that no change of the round concerns. What a restart has
      missed is therefore asked for again only if it is changed again. */
  method LaterRound(l: Leader, f: Follower, ks: seq<Key>, p: U64, batchSize: nat, maxBatchSize: nat, ghost h: Histories)
    requires WellFormed(l) && Explains(l, h) && AllFit(l, maxBatchSize) && IsScan(ks, l.log.raft.Keys)
    requires p == NO_INDEX || p < l.last
    requires f.Valid() && f.log == Prefix(l.log, p) && (f.pending != [] ==> p != NO_INDEX && f.uncommitted == p)
    requires f.floor <= Floor(p)
    modifies f
    ensures f.Valid() && f.log == Prefix(l.log, f.uncommitted) && f.uncommitted <= l.last && Floor(p) < f.uncommitted
    ensures forall s: Slot :: s.collection != THREAD ==>
              KeepsOthers(old(f.Target(s)), f.Target(s),
                          TouchedBy(ChangesIn(l.log.changes, s, Floor(p), f.uncommitted)))
  {
    var changed := ReceiveRound(l, f, ks, p, batchSize);
    FetchAnyway(l, f, changed, p, maxBatchSize, h);
  }
}

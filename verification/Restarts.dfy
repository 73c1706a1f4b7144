/** Restarts of a follower: to which index the recovery of a new process leads, exactly when the
    documents are in sync there, and why rounds may be interrupted at any store write. */
module Restarts {
  import opened Common
  import opened KeyOrder
  import opened ChangeLog
  import opened DocumentSync
  import opened LogStore
  import opened LogShipping
  import opened Replica
  import opened FollowerCommit
  import opened FollowerProcess
  import opened UndoLog
  import opened Rounds
  import opened Exchange
  import opened Replication

  // ----- What recovery leaves of the log

  /** Every change record after an index is listed by an entry of the log. */
  ghost predicate ListedAfter(log: LogDb, c: U64) {
    forall k :: k in log.changes && IsLate(k, c) ==> exists e :: IsListed(log, e, k)
  }

  lemma TruncatedIsPrefix(log: LogDb, c: U64)
    requires ListedAfter(log, c)
    ensures Truncated(log, c) == Prefix(log, c)
  {
    var removed := Removed(log, c);
    forall k | k in log.changes ensures k in ChangeKeysOf(log, removed) <==> IsLate(k, c) {
      if IsLate(k, c) {
        var e :| IsListed(log, e, k);
        assert e in removed && ChangeKey(SlotOf(k), e.a) == k;
      }
    }
    assert Truncated(log, c).raft == Prefix(log, c).raft;
    assert Truncated(log, c).changes == Prefix(log, c).changes;
  }

  lemma PrefixIsListed(log: LogDb, p: U64, c: U64)
    requires Listed(log)
    ensures ListedAfter(Prefix(log, p), c)
  {
    forall k | k in Prefix(log, p).changes ensures exists e :: IsListed(Prefix(log, p), e, k) {
      var e :| IsListed(log, e, k);
      assert IsListed(Prefix(log, p), e, k);
    }
  }

  /** The earlier of two indexes, "no entry" being the earliest. */
  function Earlier(c: U64, p: U64): U64 {
    if c == NO_INDEX || p == NO_INDEX then NO_INDEX else if c < p then c else p
  }

  lemma PrefixOfPrefix(log: LogDb, p: U64, c: U64)
    ensures Prefix(Prefix(log, p), c) == Prefix(log, Earlier(c, p))
  {
    assert Prefix(Prefix(log, p), c).raft == Prefix(log, Earlier(c, p)).raft;
    assert Prefix(Prefix(log, p), c).changes == Prefix(log, Earlier(c, p)).changes;
  }

  // ----- Documents that are settled

  /** The changes of a slot after `r` and up to `e`. */
  function Between(l: Leader, s: Slot, r: U64, e: U64): seq<Change> {
    if e == NO_INDEX then [] else ChangesIn(l.log.changes, s, Floor(r), e)
  }

  /** The document is there if the leader had it in an earlier state and still has it, it is not
      there if the leader did not have it, and it is the leader's unless a later change concerns it. */
  predicate Settles(x: Lookup, state: Table, later: set<DocId>, leader: Table, d: DocId) {
    && (x.Present? ==> d in state)
    && (d in state && d in leader ==> x.Present?)
    && (d !in later ==> x == Get(leader, d))
  }

  lemma TracksIsSettled(t: Table, state: Table, rest: seq<Change>, leader: Table)
    ensures Tracks(t, state, rest, leader) <==> forall d :: Settles(Get(t, d), state, TouchedBy(rest), leader, d)
  {
    if forall d :: Settles(Get(t, d), state, TouchedBy(rest), leader, d) {
      forall d
        ensures d in t ==> d in state
        ensures d in state && d in leader ==> d in t
        ensures d !in TouchedBy(rest) ==> Get(t, d) == Get(leader, d)
      {
        assert Settles(Get(t, d), state, TouchedBy(rest), leader, d);
      }
    }
  }

  /** A document of a slot is settled at index `e`. */
  ghost predicate IsSettled(x: Lookup, l: Leader, h: Histories, s: Slot, e: U64, d: DocId)
    requires Position(l, s, e) < |h(s)|
  {
    Settles(x, h(s)[Position(l, s, e)], TouchedBy(ChangesIn(l.log.changes, s, Floor(e), l.last)), TableOf(l.docs, s), d)
  }

  lemma OnTrackIsSettled(t: Table, l: Leader, h: Histories, s: Slot, e: U64)
    requires Explains(l, h) && s.collection != THREAD && (e == NO_INDEX || e <= l.last)
    ensures Position(l, s, e) < |h(s)|
    ensures OnTrack(t, l, h, s, e) <==> forall d :: IsSettled(Get(t, d), l, h, s, e, d)
  {
    assert IsHistory(l, h, s);
    HistoryFrom(l, h, s, e);
    var state, rest, leader := h(s)[Position(l, s, e)], ChangesIn(l.log.changes, s, Floor(e), l.last),
                               TableOf(l.docs, s);
    TracksIsSettled(t, state, rest, leader);
    assert forall d :: IsSettled(Get(t, d), l, h, s, e, d) <==> Settles(Get(t, d), state, TouchedBy(rest), leader, d);
  }

  /** The changes from `r` to the end are those up to `e` and those after it. */
  lemma BetweenSplits(l: Leader, h: Histories, s: Slot, r: U64, e: U64)
    requires IsHistory(l, h, s) && Floor(r) <= Floor(e) && (e == NO_INDEX || e <= l.last)
    ensures var part, rest := Between(l, s, r, e), ChangesIn(l.log.changes, s, Floor(e), l.last);
            && ChangesIn(l.log.changes, s, Floor(r), l.last) == part + rest
            && Position(l, s, e) == Position(l, s, r) + |part|
  {
    HistoryFrom(l, h, s, r);
    HistoryFrom(l, h, s, e);
    if e == NO_INDEX {
      assert r == NO_INDEX;
      assert [] + ChangesIn(l.log.changes, s, Floor(e), l.last) == ChangesIn(l.log.changes, s, Floor(e), l.last);
    } else {
      ChangesInSplit(l.log.changes, s, Floor(r), e, l.last);
    }
  }

  lemma SettlesLater(x: Lookup, u: Table, state: Table, state': Table, part: seq<Change>, rest: seq<Change>,
                     leader: Table, d: DocId)
    requires Tracks(u, state, part + rest, leader) && x == Get(u, d)
    requires Get(state, d) == Get(state', d) && d !in TouchedBy(part)
    ensures Settles(x, state', TouchedBy(rest), leader, d)
  {
    TouchedByConcat(part, rest);
  }

  /** A document that no change between `r` and `e` concerns is settled at `e` if it was at `r`. */
  lemma SettledElsewhere(t: Table, u: Table, l: Leader, h: Histories, s: Slot, r: U64, e: U64, d: DocId)
    requires Explains(l, h) && s.collection != THREAD && Floor(r) <= Floor(e) && (e == NO_INDEX || e <= l.last)
    requires OnTrack(u, l, h, s, r) && Get(t, d) == Get(u, d) && d !in TouchedBy(Between(l, s, r, e))
    ensures Position(l, s, e) < |h(s)| && IsSettled(Get(t, d), l, h, s, e, d)
  {
    assert IsHistory(l, h, s);
    var part, rest := Between(l, s, r, e), ChangesIn(l.log.changes, s, Floor(e), l.last);
    var n, n' := Position(l, s, r), Position(l, s, e);
    BetweenSplits(l, h, s, r, e);
    HistoryFrom(l, h, s, r);
    var states := RoundHistory(h(s), n, part, rest);
    Untouched(states, part, d);
    assert n' < |h(s)| && Get(h(s)[n], d) == Get(h(s)[n'], d);
    SettlesLater(Get(t, d), u, h(s)[n], h(s)[n'], part, rest, TableOf(l.docs, s), d);
  }

  // ----- Recovery

  /** The due records bring a slot to index `r`; documents that later changes up to `e` concern may
      be in any state, as a round that was interrupted leaves them. */
  ghost predicate Brings(t: Result<Table>, l: Leader, h: Histories, s: Slot, r: U64, e: U64) {
    t.Ok? && (s.collection != THREAD ==>
      && Floor(r) <= Floor(e)
      && exists u :: OnTrack(u, l, h, s, r)
                     && forall d :: d !in TouchedBy(Between(l, s, r, e)) ==> Get(t.value, d) == Get(u, d))
  }

  /** Every document of the slot that a change after `r` and up to `e` concerns is settled at `e`, by what is stored
      of it and the due records that write or remove it. */
  ghost predicate NothingMissed(t: Table, due: seq<Pending>, l: Leader, h: Histories, s: Slot, r: U64, e: U64) {
    && Position(l, s, e) < |h(s)|
    && forall d :: d in TouchedBy(Between(l, s, r, e)) ==> IsSettled(DocAfter(Get(t, d), due, s, d), l, h, s, e, d)
  }

  ghost predicate AreSettled(t: Table, l: Leader, h: Histories, s: Slot, r: U64, e: U64) {
    && Position(l, s, e) < |h(s)|
    && forall d :: d in TouchedBy(Between(l, s, r, e)) ==> IsSettled(Get(t, d), l, h, s, e, d)
  }

  lemma OnTrackLater(t: Table, l: Leader, h: Histories, s: Slot, r: U64, e: U64)
    requires Explains(l, h) && s.collection != THREAD && (e == NO_INDEX || e <= l.last) && Brings(Ok(t), l, h, s, r, e)
    ensures OnTrack(t, l, h, s, e) <==> AreSettled(t, l, h, s, r, e)
  {
    OnTrackIsSettled(t, l, h, s, e);
    var u :| OnTrack(u, l, h, s, r) && forall d :: d !in TouchedBy(Between(l, s, r, e)) ==> Get(t, d) == Get(u, d);
    forall d | d !in TouchedBy(Between(l, s, r, e)) ensures IsSettled(Get(t, d), l, h, s, e, d) {
      SettledElsewhere(t, u, l, h, s, r, e, d);
    }
  }

  lemma SettledByDoc(t0: Table, due: seq<Pending>, t: Table, l: Leader, h: Histories, s: Slot, r: U64, e: U64)
    requires Effective(t0, due, s) == Ok(t)
    ensures AreSettled(t, l, h, s, r, e) <==> NothingMissed(t0, due, l, h, s, r, e)
  {
    forall d ensures Get(t, d) == DocAfter(Get(t0, d), due, s, d) {
      EffectiveByDoc(t0, due, s, d);
    }
  }

  lemma SlotRecovers(t0: Table, due: seq<Pending>, t: Table, l: Leader, h: Histories, s: Slot, r: U64, e: U64)
    requires Explains(l, h) && s.collection != THREAD && (e == NO_INDEX || e <= l.last)
    requires Effective(t0, due, s) == Ok(t) && Brings(Ok(t), l, h, s, r, e)
    ensures OnTrack(t, l, h, s, e) <==> NothingMissed(t0, due, l, h, s, r, e)
  {
    OnTrackLater(t, l, h, s, r, e);
    SettledByDoc(t0, due, t, l, h, s, r, e);
  }

  lemma RecoveredLog(st: Store, l: Leader, p: U64, c: U64)
    requires WellFormed(l) && st.log == Prefix(l.log, p)
    ensures Truncated(st.log, c) == Prefix(l.log, Earlier(c, p))
  {
    PrefixIsListed(l.log, p, c);
    TruncatedIsPrefix(st.log, c);
    PrefixOfPrefix(l.log, p, c);
  }

  /** Recovery, for every store whose log is the leader's up to `p`, with any stored index `c` and
      any pending records: it leads to the earlier of the two, and there the documents are in sync
      exactly if no document is amiss that a change concerns which is neither applied nor due. For
      each slot, `reached` tells how far applied and due changes go. */
  lemma RecoveryLeadsTo(st: Store, l: Leader, h: Histories, p: U64, c: U64, reached: Slot -> U64)
    requires WellFormed(l) && Explains(l, h) && (p == NO_INDEX || p <= l.last)
    requires st.log == Prefix(l.log, p) && st.commitKey == Some(c)
    requires forall s ::
             Brings(Effective(TableOf(st.docs, s), DueRecords(st, c), s), l, h, s, reached(s), Earlier(c, p))
    ensures CommitAll(st.docs, DueRecords(st, c)).Ok?
    ensures var e, docs := Earlier(c, p), CommitAll(st.docs, DueRecords(st, c)).value;
            && Outcome(st, NO_INDEX, true) == Ok(Store(Prefix(l.log, e), docs, [], None))
            && (InSync(Prefix(l.log, e), docs, [], l, h, e) <==>
                forall s: Slot :: s.collection != THREAD ==>
                  NothingMissed(TableOf(st.docs, s), DueRecords(st, c), l, h, s, reached(s), e))
  {
    var e, due := Earlier(c, p), DueRecords(st, c);
    forall s ensures Effective(TableOf(st.docs, s), due, s).Ok? {
      assert Brings(Effective(TableOf(st.docs, s), due, s), l, h, s, reached(s), e);
    }
    CommitIsSlotwise(st.docs, due);
    RecoveredLog(st, l, p, c);
    var docs := CommitAll(st.docs, due).value;
    forall s
      ensures SlotInSync(docs, [], l, h, s, e) <==>
              s.collection != THREAD ==> NothingMissed(TableOf(st.docs, s), due, l, h, s, reached(s), e)
    {
      assert Effective(TableOf(docs, s), [], s) == Ok(TableOf(docs, s));
      assert Brings(Effective(TableOf(st.docs, s), due, s), l, h, s, reached(s), e);
      if s.collection != THREAD {
        SlotRecovers(TableOf(st.docs, s), due, TableOf(docs, s), l, h, s, reached(s), e);
      }
    }
  }

  // ----- Recovery with whole rounds pending

  /** The last of the rounds that end at or before `c`, or else `b`. */
  function LastDue(b: U64, ends: seq<U64>, c: U64): U64 {
    if ends == [] then b
    else if c != NO_INDEX && ends[|ends| - 1] <= c then ends[|ends| - 1]
    else LastDue(b, ends[..|ends| - 1], c)
  }

  /** The documents are in sync at `b`, and the pending records that are due at `c` are those of
      whole rounds: with the records up to `ends[i]` they are in sync at `ends[i]`. */
  ghost predicate PendingRounds(st: Store, l: Leader, h: Histories, b: U64, ends: seq<U64>, p: U64, c: U64) {
    && Floor(b) <= Floor(p) && Floor(b) <= Floor(c)
    && (forall i :: 0 <= i < |ends| ==> ends[i] != NO_INDEX && Floor(b) < ends[i] <= Floor(p))
    && (forall i, j :: 0 <= i < j < |ends| ==> ends[i] < ends[j])
    && (forall s :: SlotInSync(st.docs, [], l, h, s, b))
    && (forall i, s :: 0 <= i < |ends| ==> SlotInSync(st.docs, DueRecords(st, ends[i]), l, h, s, ends[i]))
    && (forall k :: 0 <= k < |st.pending| && c != NO_INDEX && st.pending[k].index <= c ==> st.pending[k].index in ends)
  }

  lemma {:induction false} DueSame(ps: seq<Pending>, c: U64, r: U64)
    requires forall k :: 0 <= k < |ps| ==> (c != NO_INDEX && ps[k].index <= c <==> r != NO_INDEX && ps[k].index <= r)
    ensures Due(ps, c) == Due(ps, r)
  {
    if ps != [] {
      DueSame(ps[1..], c, r);
    }
  }

  lemma NoneDue(ps: seq<Pending>, c: U64)
    requires c == NO_INDEX || forall i :: 0 <= i < |ps| ==> ps[i].index > c
    ensures Due(ps, c) == 0
  {
  }

  lemma {:induction false} LastDueIs(b: U64, ends: seq<U64>, c: U64)
    requires forall i, j :: 0 <= i < j < |ends| ==> ends[i] < ends[j]
    ensures var r := LastDue(b, ends, c);
            && (r == b || (r in ends && c != NO_INDEX && r <= c))
            && (forall x :: x in ends && c != NO_INDEX && x <= c ==> r in ends && x <= r <= c)
  {
    if ends != [] {
      var front := ends[..|ends| - 1];
      LastDueIs(b, front, c);
      assert forall x :: x in ends <==> x in front || x == ends[|ends| - 1];
    }
  }

  /** What is due at `c` brings every slot to the end of the last round due. */
  lemma DueRounds(st: Store, l: Leader, h: Histories, b: U64, ends: seq<U64>, p: U64, c: U64, s: Slot)
    requires PendingRounds(st, l, h, b, ends, p, c)
    ensures var r := LastDue(b, ends, c);
            && Floor(r) <= Floor(Earlier(c, p))
            && SlotInSync(st.docs, DueRecords(st, c), l, h, s, r)
  {
    var r := LastDue(b, ends, c);
    LastDueIs(b, ends, c);
    if exists x :: x in ends && c != NO_INDEX && x <= c {
      var i :| 0 <= i < |ends| && ends[i] == r;
      DueSame(st.pending, c, r);
      assert SlotInSync(st.docs, DueRecords(st, ends[i]), l, h, s, ends[i]);
    } else {
      NoneDue(st.pending, c);
      assert DueRecords(st, c) == [];
      assert SlotInSync(st.docs, [], l, h, s, b);
    }
  }

  /** A restart, for every store whose documents are in sync at `b`, whose log is the leader's up to
      `p` and whose pending records, as far as due, are whole rounds: the recovery leads to the
      earlier of stored index and `p`, and is in sync there exactly if it misses nothing of the
      changes between the last round applied or due and that index. */
  lemma RestartIsExact(st: Store, l: Leader, h: Histories, b: U64, ends: seq<U64>, p: U64, c: U64)
    requires WellFormed(l) && Explains(l, h) && (p == NO_INDEX || p <= l.last)
    requires st.log == Prefix(l.log, p) && st.commitKey == Some(c) && PendingRounds(st, l, h, b, ends, p, c)
    ensures CommitAll(st.docs, DueRecords(st, c)).Ok?
    ensures var e, r, docs := Earlier(c, p), LastDue(b, ends, c), CommitAll(st.docs, DueRecords(st, c)).value;
            && Outcome(st, NO_INDEX, true) == Ok(Store(Prefix(l.log, e), docs, [], None))
            && (InSync(Prefix(l.log, e), docs, [], l, h, e) <==>
                forall s: Slot :: s.collection != THREAD ==>
                  NothingMissed(TableOf(st.docs, s), DueRecords(st, c), l, h, s, r, e))
  {
    var e, r := Earlier(c, p), LastDue(b, ends, c);
    forall s ensures Brings(Effective(TableOf(st.docs, s), DueRecords(st, c), s), l, h, s, r, e) {
      DueRounds(st, l, h, b, ends, p, c, s);
    }
    RecoveryLeadsTo(st, l, h, p, c, _ => r);
  }

  /** In particular if there are no such changes. */
  lemma NothingUnapplied(st: Store, l: Leader, h: Histories, b: U64, ends: seq<U64>, p: U64, c: U64)
    requires WellFormed(l) && Explains(l, h) && (p == NO_INDEX || p <= l.last)
    requires st.log == Prefix(l.log, p) && st.commitKey == Some(c) && PendingRounds(st, l, h, b, ends, p, c)
    requires forall s: Slot :: s.collection != THREAD ==> Between(l, s, LastDue(b, ends, c), Earlier(c, p)) == []
    ensures Outcome(st, NO_INDEX, true).Ok?
    ensures var done := Outcome(st, NO_INDEX, true).value; InSync(done.log, done.docs, [], l, h, Earlier(c, p))
  {
    RestartIsExact(st, l, h, b, ends, p, c);
    var e, r, due := Earlier(c, p), LastDue(b, ends, c), DueRecords(st, c);
    forall s: Slot | s.collection != THREAD ensures NothingMissed(TableOf(st.docs, s), due, l, h, s, r, e) {
      assert IsHistory(l, h, s);
      HistoryFrom(l, h, s, e);
      assert TouchedBy([]) == {};
    }
  }

  /** The check beforehand: with a stored index that is the one of the documents, a restart in the
      middle of any round leads back to that index, in sync. */
  lemma KeyOfDocuments(st: Store, l: Leader, h: Histories, b: U64, p: U64)
    requires WellFormed(l) && Explains(l, h) && (p == NO_INDEX || p <= l.last) && Floor(b) <= Floor(p)
    requires st.log == Prefix(l.log, p) && st.commitKey == Some(b) && forall s :: SlotInSync(st.docs, [], l, h, s, b)
    requires b == NO_INDEX || forall i :: 0 <= i < |st.pending| ==> st.pending[i].index > b
    ensures Outcome(st, NO_INDEX, true) == Ok(Store(Prefix(l.log, b), st.docs, [], None))
    ensures InSync(Prefix(l.log, b), st.docs, [], l, h, b)
  {
    assert Earlier(b, p) == b && LastDue(b, [], b) == b;
    forall s: Slot | s.collection != THREAD ensures Between(l, s, b, b) == [] {
      assert b != NO_INDEX ==> RangeKeys(l.log.changes.Keys, s, b, b) == {};
    }
    NothingUnapplied(st, l, h, b, [], p, b);
    NoneDue(st.pending, b);
    assert DueRecords(st, b) == [] && CommitAll(st.docs, []) == Ok(st.docs);
  }

  /** A document that unapplied changes have brought into being, and that the leader still has, is
      lost. */
  lemma UnappliedInsert(st: Store, l: Leader, h: Histories, b: U64, ends: seq<U64>, p: U64, c: U64, s: Slot, d: DocId)
    requires WellFormed(l) && Explains(l, h) && (p == NO_INDEX || p <= l.last)
    requires st.log == Prefix(l.log, p) && st.commitKey == Some(c) && PendingRounds(st, l, h, b, ends, p, c)
    requires var r, e := LastDue(b, ends, c), Earlier(c, p);
             && s.collection != THREAD && Position(l, s, r) < |h(s)| && Position(l, s, e) < |h(s)|
             && d !in h(s)[Position(l, s, r)] && d in h(s)[Position(l, s, e)] && d in TableOf(l.docs, s)
    ensures Outcome(st, NO_INDEX, true).Ok?
    ensures var done := Outcome(st, NO_INDEX, true).value;
            d !in TableOf(done.docs, s) && !InSync(done.log, done.docs, [], l, h, Earlier(c, p))
  {
    RestartIsExact(st, l, h, b, ends, p, c);
    var e, docs := Earlier(c, p), CommitAll(st.docs, DueRecords(st, c)).value;
    CommitIsSlotwise(st.docs, DueRecords(st, c));
    DueRounds(st, l, h, b, ends, p, c, s);
    assert d !in TableOf(docs, s);
    assert Effective(TableOf(docs, s), [], s) == Ok(TableOf(docs, s));
    assert !SlotInSync(docs, [], l, h, s, e);
  }

  // ----- Restarts while catching up

  /** The last entry of a prefix that ends with an entry. */
  lemma EndOfPrefix(log: LogDb, c: U64, last: U64)
    requires c == NO_INDEX || exists k :: k in log.raft && k.a == c
    requires var raft := Prefix(log, c).raft;
             && (raft == map[] ==> last == NO_INDEX)
             && (raft != map[] ==> (exists k :: k in raft && k.a == last) && forall k :: k in raft ==> k.a <= last)
    ensures last == c
  {
    var raft := Prefix(log, c).raft;
    if c == NO_INDEX {
      assert raft.Keys == {};
    } else {
      var k :| k in log.raft && k.a == c;
      assert k in raft;
    }
  }

  /** The stored index is that of the last entry of the log, as every process leaves it at its start. */
  ghost predicate IsEnd(log: LogDb, c: U64) {
    && (log.raft == map[] ==> c == NO_INDEX)
    && (log.raft != map[] ==> (exists k :: k in log.raft && k.a == c) && forall k :: k in log.raft ==> k.a <= c)
  }

  /** The log agrees with the leader's up to the stored index `c`, whatever has been written of later
      entries is listed by them, nothing up to `c` is pending, and the documents are in sync there. */
  ghost predicate Survives(st: Store, l: Leader, h: Histories, c: U64) {
    && st.commitKey == Some(c) && Prefix(st.log, c) == Prefix(l.log, c) && ListedAfter(st.log, c)
    && (c == NO_INDEX || exists k :: k in l.log.raft && k.a == c)
    && (forall i :: 0 <= i < |st.pending| ==> st.pending[i].index > Floor(c))
    && forall s :: SlotInSync(st.docs, [], l, h, s, c)
  }

  /** From such a store, in the middle of any round, recovery leads back to the stored index. */
  lemma SurvivorRecovers(st: Store, l: Leader, h: Histories, c: U64)
    requires Survives(st, l, h, c)
    ensures Outcome(st, NO_INDEX, true) == Ok(Store(Prefix(l.log, c), st.docs, [], None))
  {
    NoneDue(st.pending, c);
    TruncatedIsPrefix(st.log, c);
    assert st.pending[..0] == [];
  }

  lemma RecoverableSurvives(st: Store, floor: int, l: Leader, h: Histories, p: U64)
    requires WellFormed(l) && st.log == Prefix(l.log, p) && Recoverable(st.docs, st.commitKey, floor, l, h, p)
    requires forall i :: 0 <= i < |st.pending| ==> st.pending[i].index > floor
    ensures Survives(st, l, h, st.commitKey.value)
  {
    PrefixOfPrefix(l.log, p, st.commitKey.value);
    PrefixIsListed(l.log, p, st.commitKey.value);
  }

  /** A new follower process on the store that the old one left. */
  method Restart(l: Leader, f: Follower, ghost c: U64, ghost h: Histories) returns (ok: bool)
    requires WellFormed(l) && Survives(f.View(), l, h, c) && InOrder(f.pending)
    requires f.floor == Floor(c) && forall k :: k in f.log.raft ==> k.a < NO_INDEX
    modifies f
    ensures ok && f.Valid() && f.pending == [] && InSync(f.log, f.docs, f.pending, l, h, f.uncommitted)
    ensures f.uncommitted == c && Recoverable(f.docs, f.commitKey, f.floor, l, h, f.uncommitted)
  {
    SurvivorRecovers(f.View(), l, h, c);
    ok := f.Start();
    EndOfPrefix(l.log, c, f.commit);
  }
}

/** The replication theorem: after an exchange the follower holds the leader's log and documents. */
module Replication {
  import opened Common
  import opened KeyOrder
  import opened ChangeLog
  import opened DocumentSync
  import opened LogStore
  import opened LogShipping
  import opened Replica
  import opened FollowerCommit
  import opened FollowerProcess
  import opened UndoLog
  import opened Rounds
  import opened Exchange

  /** For every slot, the tables that its change records led through. */
  type Histories = Slot -> seq<Table>

  /** What one record inserts and updates at once, it also deletes: no id is both fresh and
      updated in one record. */
  ghost predicate IsUnmixed(c: Change) {
    c.Entry? ==> Docs(c.inserts) * Docs(c.updates) <= Docs(c.deletes)
  }

  ghost predicate Unmixed(changes: map<Key, ChangeValue>) {
    forall k :: k in changes ==> IsUnmixed(changes[k].change)
  }

  lemma {:induction false} NoneBornUpdated(cs: seq<Change>)
    requires forall c :: c in cs ==> IsUnmixed(c)
    ensures BornUpdated(cs) == {}
    decreases |cs|
  {
    if cs != [] {
      assert forall c :: c in cs[..|cs| - 1] ==> c in cs;
      NoneBornUpdated(cs[..|cs| - 1]);
      assert cs[|cs| - 1] in cs;
    }
  }

  lemma ChangesUnmixed(changes: map<Key, ChangeValue>, s: Slot, lo: int, hi: nat)
    requires Unmixed(changes)
    ensures BornUpdated(ChangesIn(changes, s, lo, hi)) == {}
  {
    var ks := Scan(RangeKeys(changes.Keys, s, lo, hi));
    var cs := ChangesIn(changes, s, lo, hi);
    forall c | c in cs ensures IsUnmixed(c) {
      var i :| 0 <= i < |cs| && cs[i] == c;
      assert ks[i] in ks && cs[i] == changes[ks[i]].change;
    }
    NoneBornUpdated(cs);
  }

  /** The leader's documents are what its change records, one after the other, made of nothing. */
  ghost predicate Explains(l: Leader, h: Histories) {
    && Unmixed(l.log.changes)
    && forall s: Slot :: s.collection != THREAD ==> IsHistory(l, h, s)
  }

  ghost predicate IsHistory(l: Leader, h: Histories, s: Slot) {
    && History(h(s), ChangesIn(l.log.changes, s, -1, l.last))
    && h(s)[|h(s)| - 1] == TableOf(l.docs, s)
  }

  /** Position in a slot's history after the records up to an index. */
  function Position(l: Leader, s: Slot, p: U64): nat {
    if p == NO_INDEX then 0 else |ChangesIn(l.log.changes, s, -1, p)|
  }

  /** A table that stands for the leader's state at index `p`. */
  ghost predicate OnTrack(t: Table, l: Leader, h: Histories, s: Slot, p: U64) {
    var rest := ChangesIn(l.log.changes, s, Floor(p), l.last);
    && |h(s)| == Position(l, s, p) + |rest| + 1
    && Tracks(t, h(s)[Position(l, s, p)], rest, TableOf(l.docs, s))
  }

  /** The history of a slot from index `p` on. */
  lemma HistoryFrom(l: Leader, h: Histories, s: Slot, p: U64)
    requires IsHistory(l, h, s) && (p == NO_INDEX || p <= l.last)
    ensures |h(s)| == Position(l, s, p) + |ChangesIn(l.log.changes, s, Floor(p), l.last)| + 1
    ensures History(h(s)[Position(l, s, p)..], ChangesIn(l.log.changes, s, Floor(p), l.last))
  {
    var cs, rest := ChangesIn(l.log.changes, s, -1, l.last), ChangesIn(l.log.changes, s, Floor(p), l.last);
    RestOfChanges(l, s, p, cs, rest);
    HistoryTail(h(s), cs, Position(l, s, p), rest);
  }

  lemma RestOfChanges(l: Leader, s: Slot, p: U64, cs: seq<Change>, rest: seq<Change>)
    requires p == NO_INDEX || p <= l.last
    requires cs == ChangesIn(l.log.changes, s, -1, l.last) && rest == ChangesIn(l.log.changes, s, Floor(p), l.last)
    ensures Position(l, s, p) <= |cs| && cs[Position(l, s, p)..] == rest
  {
    if p != NO_INDEX {
      ChangesInSplit(l.log.changes, s, -1, p, l.last);
    }
  }

  lemma HistoryTail(h: seq<Table>, cs: seq<Change>, n: nat, rest: seq<Change>)
    requires History(h, cs) && n <= |cs| && cs[n..] == rest
    ensures History(h[n..], rest)
  {
    forall i | 0 <= i < |rest| ensures Describes(h[n..][i], rest[i], h[n..][i + 1]) {
      assert rest[i] == cs[n + i];
    }
  }

  /** The first part of a history. */
  lemma RoundHistory(h: seq<Table>, from: nat, round: seq<Change>, rest: seq<Change>) returns (part: seq<Table>)
    requires from <= |h| && History(h[from..], round + rest)
    ensures from + |round| < |h| && History(part, round) && part[0] == h[from] && part[|round|] == h[from + |round|]
  {
    part := h[from..from + |round| + 1];
    forall i | 0 <= i < |round| ensures Describes(part[i], round[i], part[i + 1]) {
      assert (round + rest)[i] == round[i] && part[i] == h[from..][i] && part[i + 1] == h[from..][i + 1];
    }
  }

  /** What the rest of a history does not touch is as the leader has it. */
  lemma RestHistory(h: seq<Table>, from: nat, round: seq<Change>, rest: seq<Change>)
    requires |h| == from + |round| + |rest| + 1 && History(h[from..], round + rest)
    ensures forall d :: d !in TouchedBy(rest) ==> Get(h[from + |round|], d) == Get(h[|h| - 1], d)
  {
    var part := h[from + |round|..];
    forall i | 0 <= i < |rest| ensures Describes(part[i], rest[i], part[i + 1]) {
      var j := |round| + i;
      assert (round + rest)[j] == rest[i] && part[i] == h[from..][j] && part[i + 1] == h[from..][j + 1];
    }
    forall d | d !in TouchedBy(rest) ensures Get(part[0], d) == Get(part[|rest|], d) {
      Untouched(part, rest, d);
    }
  }

  /** Catching up on the first records of a history leads to the state after them. */
  lemma TracksOn(h: seq<Table>, from: nat, round: seq<Change>, rest: seq<Change>, leader: Table, t: Table, isMail: bool)
    requires |h| == from + |round| + |rest| + 1 && History(h[from..], round + rest) && h[|h| - 1] == leader
    requires Tracks(t, h[from], round + rest, leader) && BornUpdated(round) == {}
    ensures var r := CatchUp(t, Merge(round), leader, isMail);
            r.Ok? && Tracks(r.value, h[from + |round|], rest, leader)
  {
    var part := RoundHistory(h, from, round, rest);
    RestHistory(h, from, round, rest);
    CatchUpTracks(t, part, round, rest, leader, isMail);
  }

  /** Catching up on the records after `p` and up to `q` leads from the state at `p` to that at `q`. */
  lemma RoundTracks(l: Leader, h: Histories, s: Slot, p: U64, q: U64, t: Table)
    requires Explains(l, h) && s.collection != THREAD && q <= l.last && (p == NO_INDEX || p <= q) && q != NO_INDEX
    requires OnTrack(t, l, h, s, p)
    ensures var r :=
            CatchUp(t, Merge(ChangesIn(l.log.changes, s, Floor(p), q)), TableOf(l.docs, s), s.collection == MAIL);
            r.Ok? && OnTrack(r.value, l, h, s, q)
  {
    var round, rest := ChangesIn(l.log.changes, s, Floor(p), q), ChangesIn(l.log.changes, s, q, l.last);
    ChangesInSplit(l.log.changes, s, Floor(p), q, l.last);
    assert IsHistory(l, h, s);
    HistoryFrom(l, h, s, p);
    HistoryFrom(l, h, s, q);
    ChangesUnmixed(l.log.changes, s, Floor(p), q);
    TracksOn(h(s), Position(l, s, p), round, rest, TableOf(l.docs, s), t, s.collection == MAIL);
  }

  /** At the leader's last index nothing is missing. */
  lemma TrackEnds(l: Leader, h: Histories, s: Slot, t: Table)
    requires OnTrack(t, l, h, s, l.last) && l.last != NO_INDEX
    ensures t == TableOf(l.docs, s)
  {
    assert RangeKeys(l.log.changes.Keys, s, l.last, l.last) == {};
    assert ChangesIn(l.log.changes, s, l.last, l.last) == [];
    assert TouchedBy([]) == {};
    SameTable(t, TableOf(l.docs, s));
  }

  // ----- Rounds until the leader's last index

  /** The documents of a slot together with its pending records stand for the leader's state at `p`. */
  ghost predicate SlotInSync(docs: Tables, pending: seq<Pending>, l: Leader, h: Histories, s: Slot, p: U64) {
    var t := Effective(TableOf(docs, s), pending, s);
    t.Ok? && (s.collection != THREAD ==> OnTrack(t.value, l, h, s, p))
  }

  ghost predicate InSync(log: LogDb, docs: Tables, pending: seq<Pending>, l: Leader, h: Histories, p: U64) {
    log == Prefix(l.log, p) && forall s :: SlotInSync(docs, pending, l, h, s, p)
  }

  /** Whatever a round may ask for fits into one batch. */
  ghost predicate AllFit(l: Leader, maxBatchSize: nat) {
    forall s, lo, hi ::
      Fits(TableOf(l.docs, s), Merge(ChangesIn(l.log.changes, s, lo, hi)).(deletes := {}), maxBatchSize)
  }

  lemma SlotAdvances(l: Leader, h: Histories, s: Slot, p: U64, q: U64, docs: Tables, before: seq<Pending>,
                     after: seq<Pending>,
                     rounds: map<Slot, Merged>, todo: set<Slot>)
    requires Explains(l, h) && q <= l.last && (p == NO_INDEX || p <= q) && q != NO_INDEX
    requires SlotInSync(docs, before, l, h, s, p) && todo <= rounds.Keys
    requires Advanced(docs, before, after, l.docs, rounds, todo, None)
    requires s in todo ==> s.collection != THREAD && rounds[s] == Merge(ChangesIn(l.log.changes, s, Floor(p), q))
    requires s !in todo && s.collection != THREAD ==> ChangesIn(l.log.changes, s, Floor(p), q) == []
    ensures SlotInSync(docs, after, l, h, s, q)
  {
    if s.collection != THREAD {
      var t := Effective(TableOf(docs, s), before, s);
      RoundTracks(l, h, s, p, q, t.value);
      if s !in todo {
        NoRound(t.value, TableOf(l.docs, s), s.collection == MAIL);
      }
    }
  }

  /** A round without changes changes nothing. */
  lemma NoRound(t: Table, leader: Table, isMail: bool)
    ensures CatchUp(t, Merge([]), leader, isMail) == Ok(t)
  {
    assert Requests(EMPTY_CHANGES) == [] && t - {} == t;
    assert WriteBatch(t, [], isMail) == t;
  }

  /** The follower's log after a round, and what it makes of it. */
  lemma RoundShipped(l: Leader, ks: seq<Key>, p: U64, stop: Key, w: Writer, w': Writer)
    requires WellFormed(l) && IsScan(ks, l.log.raft.Keys)
    requires stop in l.log.raft && IsAfter(stop, p) && stop.a < NO_INDEX
    requires w.db == Prefix(l.log, p) && w.mergeIndex == NO_INDEX && w.changed == {}
    requires w' == WriteAll(w, Rest(l.log, ks, p, [], stop.a))
    ensures w'.db == Prefix(l.log, stop.a) && w'.last == stop.a
    ensures Floor(p) < w'.mergeIndex < NO_INDEX
    ensures forall e :: e in Span(l.log, p, stop.a) ==> w'.mergeIndex <= e.a
    ensures w'.changed == SlotsOf(l.log, Span(l.log, p, stop.a))
  {
    WriteRest(w, l.log, ks, p, stop.a, stop);
    PrefixGrows(l, p, stop.a, w, w');
    assert stop in Span(l.log, p, stop.a);
    RoundStart(l, p, stop.a, w, w');
  }

  /** The log records after `p` and up to `q` have been written; the round began at `first` and
      concerned the slots `changed`. */
  ghost predicate Shipped(l: Leader, p: U64, q: U64, log: LogDb, first: U64, changed: set<Slot>) {
    && log == Prefix(l.log, q) && q <= l.last && q != NO_INDEX && Floor(p) < first < NO_INDEX
    && (forall e :: e in Span(l.log, p, q) ==> first <= e.a)
    && changed == SlotsOf(l.log, Span(l.log, p, q))
  }

  method ReceiveRound(l: Leader, f: Follower, ks: seq<Key>, p: U64, batchSize: nat) returns (changed: set<Slot>)
    requires WellFormed(l) && IsScan(ks, l.log.raft.Keys) && (p == NO_INDEX || p < l.last)
    requires f.Valid() && f.log == Prefix(l.log, p) && (f.pending != [] ==> p != NO_INDEX && f.uncommitted == p)
    requires f.floor <= Floor(p)
    modifies f`log, f`uncommitted, f`mergeIndex
    ensures f.Valid() && f.floor < f.uncommitted && Shipped(l, p, f.uncommitted, f.log, f.mergeIndex, changed)
    ensures p == NO_INDEX || p < f.uncommitted
    ensures exists k :: k in f.log.raft && k.a == f.uncommitted
  {
    ghost var w := Writer(f.log, f.uncommitted, NO_INDEX, {});
    ghost var sent, stop;
    changed, sent, stop := ShipRound(l, f, ks, p, batchSize);
    RoundShipped(l, ks, p, stop, w, Writer(f.log, f.uncommitted, f.mergeIndex, changed));
    assert stop in f.log.raft;
  }

  ghost function RoundsOf(l: Leader, todo: set<Slot>, p: U64, q: U64): map<Slot, Merged> {
    map s | s in todo :: Merge(ChangesIn(l.log.changes, s, Floor(p), q))
  }

  lemma IsRoundOf(l: Leader, p: U64, q: U64, log: LogDb, first: U64, changed: set<Slot>, todo: set<Slot>, s: Slot)
    requires WellFormed(l) && Shipped(l, p, q, log, first, changed)
    requires todo == set s | s in changed && s.collection != THREAD
    ensures s in todo ==> RoundsOf(l, todo, p, q)[s] == Merge(ChangesBetween(log.changes, s, first, q))
    ensures s !in todo && s.collection != THREAD ==> ChangesIn(l.log.changes, s, Floor(p), q) == []
  {
    RoundIsSpan(l, p, q, first, s);
  }

  method FetchDocuments(l: Leader, f: Follower, changed: set<Slot>, p: U64, maxBatchSize: nat, ghost h: Histories)
    requires WellFormed(l) && Explains(l, h) && AllFit(l, maxBatchSize) && (p == NO_INDEX || p < f.uncommitted)
    requires f.Valid() && f.floor < f.uncommitted && Shipped(l, p, f.uncommitted, f.log, f.mergeIndex, changed)
    requires forall s :: SlotInSync(f.docs, f.pending, l, h, s, p)
    modifies f`pending, f`sequenceId
    ensures old(f.pending) <= f.pending
    ensures f.Valid() && forall s :: SlotInSync(f.docs, f.pending, l, h, s, f.uncommitted)
  {
    var work := ListWork(changed);
    ghost var q, todo, before := f.uncommitted, Todo(work), f.pending;
    ghost var rounds := RoundsOf(l, todo, p, q);
    forall s ensures s in rounds ==> rounds[s] == f.Round(s) {
      IsRoundOf(l, p, q, f.log, f.mergeIndex, changed, todo, s);
    }
    FetchRound(l, f, work, maxBatchSize, rounds);
    forall s ensures SlotInSync(f.docs, f.pending, l, h, s, q) {
      IsRoundOf(l, p, q, f.log, f.mergeIndex, changed, todo, s);
      SlotAdvances(l, h, s, p, q, f.docs, before, f.pending, rounds, todo);
    }
  }

  lemma StillInSync(docs: Tables, pending: seq<Pending>, l: Leader, h: Histories, p: U64)
    requires forall s :: SlotInSync(docs, pending, l, h, s, p)
    ensures CommitAll(docs, pending).Ok?
    ensures forall s :: SlotInSync(CommitAll(docs, pending).value, [], l, h, s, p)
  {
    CommitIsSlotwise(docs, pending);
    forall s ensures Effective(TableOf(docs, s), pending, s).Ok? {
      assert SlotInSync(docs, pending, l, h, s, p);
    }
    var docs' := CommitAll(docs, pending).value;
    forall s ensures SlotInSync(docs', [], l, h, s, p) {
      assert SlotInSync(docs, pending, l, h, s, p);
      assert Effective(TableOf(docs', s), [], s) == Ok(TableOf(docs', s));
    }
  }

  /** After a restart the follower would be in sync at its stored commit index, which lies at or
      before `p`. */
  ghost predicate Recoverable(docs: Tables, commitKey: Option<U64>, floor: int, l: Leader, h: Histories, p: U64) {
    && commitKey.Some? && floor == Floor(commitKey.value) && floor <= Floor(p)
    && (commitKey.value == NO_INDEX || exists k :: k in l.log.raft && k.a == commitKey.value)
    && forall s :: SlotInSync(docs, [], l, h, s, commitKey.value)
  }

  /** The follower holds the leader's log and, but for threads, its documents. */
  ghost predicate Replicated(log: LogDb, docs: Tables, l: Leader) {
    log == l.log && forall s: Slot :: s.collection != THREAD ==> TableOf(docs, s) == TableOf(l.docs, s)
  }

  lemma InSyncIsReplicated(log: LogDb, docs: Tables, l: Leader, h: Histories)
    requires WellFormed(l) && InSync(log, docs, [], l, h, l.last)
    ensures Replicated(log, docs, l)
  {
    forall s: Slot | s.collection != THREAD ensures TableOf(docs, s) == TableOf(l.docs, s) {
      assert SlotInSync(docs, [], l, h, s, l.last);
      assert Effective(TableOf(docs, s), [], s) == Ok(TableOf(docs, s));
      TrackEnds(l, h, s, TableOf(docs, s));
    }
    forall k | k in l.log.changes ensures k.c <= l.last {
      var e :| IsListed(l.log, e, k);
    }
    assert Prefix(l.log, l.last) == l.log;
  }

  /** A later round leaves a follower recoverable; a commit makes it so. */
  lemma StaysRecoverable(docs: Tables, commitKey: Option<U64>, floor: int, l: Leader, h: Histories, p: U64, q: U64)
    requires Recoverable(docs, commitKey, floor, l, h, p) && Floor(p) <= Floor(q)
    ensures Recoverable(docs, commitKey, floor, l, h, q)
  {
  }

  lemma CommittedIsRecoverable(log: LogDb, docs: Tables, l: Leader, h: Histories, q: U64)
    requires InSync(log, docs, [], l, h, q) && q != NO_INDEX && exists k :: k in log.raft && k.a == q
    ensures Recoverable(docs, Some(q), q, l, h, q)
  {
    var k :| k in log.raft && k.a == q;
    assert k in l.log.raft;
  }

  /** Commits what is due; a follower in sync never fails to. */
  method CommitRound(l: Leader, f: Follower, ghost p: U64, ghost h: Histories) returns (ok: bool)
    requires f.Valid() && InSync(f.log, f.docs, f.pending, l, h, f.uncommitted) && f.uncommitted != NO_INDEX
    requires f.floor <= Floor(p) <= f.uncommitted
    requires exists k :: k in f.log.raft && k.a == f.uncommitted
    modifies f`log, f`docs, f`pending, f`commitKey, f`commit, f`floor
    ensures ok && f.Valid() && f.floor <= f.uncommitted
    ensures f.log == old(f.log) && InSync(f.log, f.docs, f.pending, l, h, f.uncommitted)
    ensures f.IsDue() ==> f.pending == []
    ensures Recoverable(old(f.docs), old(f.commitKey), old(f.floor), l, h, p) ==>
              Recoverable(f.docs, f.commitKey, f.floor, l, h, f.uncommitted)
  {
    StillInSync(f.docs, f.pending, l, h, f.uncommitted);
    ok := f.CommitUpdates();
    if f.IsDue() {
      f.floor := f.uncommitted;
      CommittedIsRecoverable(f.log, f.docs, l, h, f.uncommitted);
    } else if Recoverable(f.docs, f.commitKey, f.floor, l, h, p) {
      StaysRecoverable(f.docs, f.commitKey, f.floor, l, h, p, f.uncommitted);
    }
  }

  ghost predicate HasEntry(log: LogDb, index: U64) {
    exists k :: k in log.raft && k.a == index
  }

  /** What follows once the log records of a round have arrived. */
  method EndRound(l: Leader, f: Follower, changed: set<Slot>, p: U64, maxBatchSize: nat, ghost h: Histories)
    returns (ok: bool)
    requires WellFormed(l) && Explains(l, h) && AllFit(l, maxBatchSize) && (p == NO_INDEX || p < f.uncommitted)
    requires f.Valid() && f.floor < f.uncommitted && f.floor <= Floor(p)
             && Shipped(l, p, f.uncommitted, f.log, f.mergeIndex, changed)
    requires forall s :: SlotInSync(f.docs, f.pending, l, h, s, p)
    requires HasEntry(f.log, f.uncommitted)
    modifies f`log, f`docs, f`pending, f`commitKey, f`commit, f`floor, f`sequenceId
    ensures f.log == old(f.log)
    ensures ok && f.Valid() && f.floor <= f.uncommitted && InSync(f.log, f.docs, f.pending, l, h, f.uncommitted)
    ensures Recoverable(old(f.docs), old(f.commitKey), old(f.floor), l, h, p) ==>
              Recoverable(f.docs, f.commitKey, f.floor, l, h, f.uncommitted)
  {
    FetchDocuments(l, f, changed, p, maxBatchSize, h);
    ok := CommitRound(l, f, p, h);
  }

  /** One round: ship, fetch, and commit if the leader has committed that far. */
  method RunRound(l: Leader, f: Follower, ks: seq<Key>, p: U64, commit: U64, batchSize: nat, maxBatchSize: nat,
                  ghost h: Histories)
    returns (ok: bool)
    requires WellFormed(l) && Explains(l, h) && AllFit(l, maxBatchSize) && IsScan(ks, l.log.raft.Keys)
    requires p == NO_INDEX || p < l.last
    requires f.Valid() && InSync(f.log, f.docs, f.pending, l, h, p)
    requires f.floor <= Floor(p) && (f.pending != [] ==> p != NO_INDEX && f.uncommitted == p)
    modifies f
    ensures ok && f.Valid() && f.floor <= f.uncommitted && InSync(f.log, f.docs, f.pending, l, h, f.uncommitted)
    ensures f.uncommitted <= l.last && f.uncommitted != NO_INDEX && (p == NO_INDEX || p < f.uncommitted)
    ensures HasEntry(f.log, f.uncommitted)
    ensures Recoverable(old(f.docs), old(f.commitKey), old(f.floor), l, h, p) ==>
              Recoverable(f.docs, f.commitKey, f.floor, l, h, f.uncommitted)
  {
    f.leaderCommit := commit;
    var changed := ReceiveRound(l, f, ks, p, batchSize);
    ok := EndRound(l, f, changed, p, maxBatchSize, h);
  }

  lemma LastEntry(l: Leader)
    requires WellFormed(l)
    ensures l.last != NO_INDEX && exists k :: k in Prefix(l.log, l.last).raft && k.a == l.last
  {
    var k :| k in l.log.raft && k.a == l.last;
    assert k in Prefix(l.log, l.last).raft;
  }

  /** The leader has nothing more to send, and has committed all of its log. */
  method FinalCommit(l: Leader, f: Follower, ghost h: Histories) returns (ok: bool)
    requires WellFormed(l) && f.Valid() && f.uncommitted == l.last && InSync(f.log, f.docs, f.pending, l, h, l.last)
    requires f.floor <= Floor(l.last)
    modifies f
    ensures ok && f.pending == [] && Replicated(f.log, f.docs, l)
  {
    LastEntry(l);
    f.leaderCommit := l.last;
    ok := CommitRound(l, f, l.last, h);
    InSyncIsReplicated(f.log, f.docs, l, h);
  }

  /** Rounds until the leader's last index, and the commit when the leader has committed it. */
  method FinishRounds(l: Leader, f: Follower, commit: U64, batchSize: nat, maxBatchSize: nat, ghost h: Histories)
    returns (ok: bool)
    requires WellFormed(l) && Explains(l, h) && AllFit(l, maxBatchSize)
    requires f.Valid() && InSync(f.log, f.docs, f.pending, l, h, f.uncommitted)
    requires f.floor <= Floor(f.uncommitted) && (f.uncommitted == NO_INDEX ==> f.pending == [])
    requires f.uncommitted == NO_INDEX || f.uncommitted <= l.last
    modifies f
    ensures ok && f.pending == [] && Replicated(f.log, f.docs, l)
  {
    var ks := Iterate(l.log.raft.Keys);
    while f.uncommitted != l.last
      invariant f.uncommitted == NO_INDEX || f.uncommitted <= l.last
      invariant f.Valid() && InSync(f.log, f.docs, f.pending, l, h, f.uncommitted)
      invariant f.floor <= Floor(f.uncommitted) && (f.uncommitted == NO_INDEX ==> f.pending == [])
      decreases if f.uncommitted == NO_INDEX then l.last + 1 else l.last - f.uncommitted
    {
      ok := RunRound(l, f, ks, f.uncommitted, commit, batchSize, maxBatchSize, h);
    }
    ok := FinalCommit(l, f, h);
  }

  /** From any state in sync at an index, rounds of any size lead to the leader's last index. When
      the leader then has committed that index, the follower is a replica. */
  method CatchUpWith(l: Leader, f: Follower, start: U64, commit: U64, batchSize: nat, maxBatchSize: nat,
                     ghost h: Histories)
    returns (ok: bool)
    requires WellFormed(l) && Explains(l, h) && AllFit(l, maxBatchSize)
    requires start == NO_INDEX || start < l.last
    requires f.Valid() && f.pending == [] && InSync(f.log, f.docs, f.pending, l, h, start)
    modifies f
    ensures ok && f.pending == [] && Replicated(f.log, f.docs, l)
  {
    var ks := Iterate(l.log.raft.Keys);
    f.floor := Floor(start);
    ok := RunRound(l, f, ks, start, commit, batchSize, maxBatchSize, h);
    ok := FinishRounds(l, f, commit, batchSize, maxBatchSize, h);
  }

  // ----- From a divergent follower to a replica

  /** The follower's log agrees with the leader's up to `matched`, and from the leader's documents
      at that point the rest of its own log led to its documents. */
  ghost predicate DivergesAt(log: LogDb, docs: Tables, l: Leader, h: Histories, own: Histories, matched: U64) {
    && Prefix(log, matched) == Prefix(l.log, matched) && (matched == NO_INDEX || matched <= l.last)
    && (forall k :: k in log.raft ==> k.a < NO_INDEX) && (forall k :: k in log.changes ==> k.c <= NO_INDEX)
    && Unmixed(log.changes)
    && forall s: Slot :: s.collection != THREAD ==> OwnHistory(log, docs, l, h, own, matched, s)
  }

  ghost predicate OwnHistory(log: LogDb, docs: Tables, l: Leader, h: Histories, own: Histories, matched: U64, s: Slot) {
    && History(own(s), ChangesIn(log.changes, s, Floor(matched), NO_INDEX))
    && Position(l, s, matched) < |h(s)| && own(s)[0] == h(s)[Position(l, s, matched)]
    && own(s)[|own(s)| - 1] == TableOf(docs, s)
  }

  /** Undoing a slot's own records leads back to the leader's state at the matched index. */
  lemma UndoneIsOnTrack(log: LogDb, docs: Tables, l: Leader, h: Histories, own: Histories, matched: U64, s: Slot)
    requires Explains(l, h) && DivergesAt(log, docs, l, h, own, matched) && s.collection != THREAD
    ensures var r :=
            Rollback(TableOf(docs, s), Merge(ChangesIn(log.changes, s, Floor(matched), NO_INDEX)), TableOf(l.docs, s),
                     s.collection == MAIL);
            r.Ok? && OnTrack(r.value, l, h, s, matched)
  {
    var n := Position(l, s, matched);
    var ours, theirs := ChangesIn(log.changes, s, Floor(matched), NO_INDEX),
                        ChangesIn(l.log.changes, s, Floor(matched), l.last);
    assert IsHistory(l, h, s) && OwnHistory(log, docs, l, h, own, matched, s);
    HistoryFrom(l, h, s, matched);
    ChangesUnmixed(log.changes, s, Floor(matched), NO_INDEX);
    var tail := h(s)[n..];
    assert tail[0] == h(s)[n] && tail[|theirs|] == TableOf(l.docs, s);
    RollbackTracks(own(s), ours, tail, theirs, s.collection == MAIL);
  }

  lemma CutIsPrefix(log: LogDb, after: U64)
    ensures LogDb(log.raft - LateEntries(log, after), log.changes - Late(log, after)) == Prefix(log, after)
  {
    assert log.raft - LateEntries(log, after) == Prefix(log, after).raft;
    assert log.changes - Late(log, after) == Prefix(log, after).changes;
  }

  /** Whatever a rollback may ask for fits into one batch. */
  ghost predicate RollbackFits(log: LogDb, l: Leader, matched: U64, maxBatchSize: nat) {
    forall s :: Fits(TableOf(l.docs, s), RollbackRequest(RollbackRecord(log.changes, s, matched, true)), maxBatchSize)
  }

  /** What undoing a slot's own records, given as their folded bitmaps, leaves of a document: what they updated or
      deleted is fetched from the leader, what they inserted is deleted, and the rest is as at the matched entry. */
  function Undone(m: Merged, state: Table, leader: Table, d: DocId): Lookup {
    if d in m.deletes + m.updates then Get(leader, d) else if d in m.inserts then Absent else Get(state, d)
  }

  /** The records of a follower that are not the leader's, as their folded bitmaps. */
  function OwnFold(log: LogDb, s: Slot, matched: U64): Merged {
    Merge(ChangesIn(log.changes, s, Floor(matched), NO_INDEX))
  }

  ghost predicate IsUndone(log: LogDb, t: Table, l: Leader, h: Histories, matched: U64, s: Slot) {
    && Position(l, s, matched) < |h(s)|
    && forall d :: Get(t, d) == Undone(OwnFold(log, s, matched), h(s)[Position(l, s, matched)], TableOf(l.docs, s), d)
  }

  /** At the end of a rollback every slot has been rolled back by the fold of its own records. */
  lemma RolledTable(log: LogDb, docs0: Tables, before: map<Key, Merged>, docs: Tables, l: Leader, matched: U64, s: Slot)
    requires Prepared(log.changes, matched, true, map[], before)
    requires Rolling(docs0, before, l.docs, docs, map[], None) && s.collection != THREAD
    ensures Rollback(TableOf(docs0, s), OwnFold(log, s, matched), TableOf(l.docs, s), s.collection == MAIL)
            == Ok(TableOf(docs, s))
  {
    var m := RollbackRecord(log.changes, s, matched, true);
    assert m == OwnFold(log, s, matched);
    assert GetRecord(before, RollbackKey(s)) == if m.IsEmpty() then None else Some(m);
    if m.IsEmpty() {
      SimpleRollback(TableOf(docs0, s), m, TableOf(l.docs, s), s);
    }
  }

  lemma RolledIsInSync(log: LogDb, docs0: Tables, before: map<Key, Merged>, docs: Tables,
                       l: Leader, h: Histories, own: Histories, matched: U64, s: Slot)
    requires Explains(l, h) && DivergesAt(log, docs0, l, h, own, matched)
    requires Prepared(log.changes, matched, true, map[], before)
    requires Rolling(docs0, before, l.docs, docs, map[], None)
    ensures SlotInSync(docs, [], l, h, s, matched)
  {
    assert Effective(TableOf(docs, s), [], s) == Ok(TableOf(docs, s));
    if s.collection != THREAD {
      UndoneIsOnTrack(log, docs0, l, h, own, matched, s);
      RolledTable(log, docs0, before, docs, l, matched, s);
    }
  }

  lemma RolledIsUndone(log: LogDb, t0: Table, t: Table, l: Leader, h: Histories, own: seq<Table>, matched: U64, s: Slot)
    requires Rollback(t0, OwnFold(log, s, matched), TableOf(l.docs, s), s.collection == MAIL) == Ok(t)
    requires History(own, ChangesIn(log.changes, s, Floor(matched), NO_INDEX)) && own[|own| - 1] == t0
    requires Position(l, s, matched) < |h(s)| && own[0] == h(s)[Position(l, s, matched)]
    ensures IsUndone(log, t, l, h, matched, s)
  {
    RollbackEffect(own, ChangesIn(log.changes, s, Floor(matched), NO_INDEX), TableOf(l.docs, s), s.collection == MAIL);
  }

  lemma AllAreRolled(log: LogDb, docs0: Tables, before: map<Key, Merged>, docs: Tables,
                     l: Leader, h: Histories, own: Histories, matched: U64)
    requires Explains(l, h) && DivergesAt(log, docs0, l, h, own, matched)
    requires Prepared(log.changes, matched, true, map[], before)
    requires Rolling(docs0, before, l.docs, docs, map[], None)
    ensures forall s :: SlotInSync(docs, [], l, h, s, matched)
    ensures forall s: Slot :: s.collection != THREAD ==> IsUndone(log, TableOf(docs, s), l, h, matched, s)
  {
    forall s ensures SlotInSync(docs, [], l, h, s, matched) {
      RolledIsInSync(log, docs0, before, docs, l, h, own, matched, s);
    }
    forall s: Slot | s.collection != THREAD ensures IsUndone(log, TableOf(docs, s), l, h, matched, s) {
      RolledTable(log, docs0, before, docs, l, matched, s);
      assert OwnHistory(log, docs0, l, h, own, matched, s);
      RolledIsUndone(log, TableOf(docs0, s), TableOf(docs, s), l, h, own(s), matched, s);
    }
  }

  lemma NeverUnrollable(log: LogDb, docs0: Tables, before: map<Key, Merged>, l: Leader, h: Histories, own: Histories,
                        matched: U64)
    requires Explains(l, h) && DivergesAt(log, docs0, l, h, own, matched)
    requires Prepared(log.changes, matched, true, map[], before)
    ensures !Unrollable(docs0, before, l.docs)
  {
    forall s | RollbackKey(s) in before
      ensures RolledBack(TableOf(docs0, s), before[RollbackKey(s)], TableOf(l.docs, s), s).Ok?
    {
      if s.collection != THREAD {
        UndoneIsOnTrack(log, docs0, l, h, own, matched, s);
        assert GetRecord(before, RollbackKey(s)).Some?;
      }
    }
  }

  lemma RecordsAreRollable(log: LogDb, before: map<Key, Merged>, l: Leader, matched: U64, maxBatchSize: nat)
    requires Prepared(log.changes, matched, true, map[], before) && RollbackFits(log, l, matched, maxBatchSize)
    ensures Rollable(before, l.docs, maxBatchSize)
  {
    forall k | k in before ensures k.c == 0 {
      assert GetRecord(before, k).Some?;
    }
    forall s | RollbackKey(s) in before
      ensures Fits(TableOf(l.docs, s), RollbackRequest(before[RollbackKey(s)]), maxBatchSize)
    {
      assert GetRecord(before, RollbackKey(s)) == Some(before[RollbackKey(s)]);
    }
  }

  /** There is nothing to undo after an index. */
  ghost predicate NoNetEffect(log: LogDb, matched: U64) {
    forall s :: RollbackRecord(log.changes, s, matched, true).IsEmpty()
  }

  lemma NoRecords(log: LogDb, matched: U64, before: map<Key, Merged>)
    requires Prepared(log.changes, matched, true, map[], before)
    ensures before == map[] <==> NoNetEffect(log, matched)
  {
    forall s ensures RollbackRecord(log.changes, s, matched, true).IsEmpty() <==> RollbackKey(s) !in before {
      assert GetRecord(before, RollbackKey(s)).None? <==> RollbackRecord(log.changes, s, matched, true).IsEmpty();
    }
    if NoNetEffect(log, matched) {
      forall k: Key ensures k !in before {
        if k.c == 0 {
          assert k == RollbackKey(Slot(k.a, k.b));
        } else {
          assert GetRecord(before, k).None?;
        }
      }
      assert before == map[];
    }
  }

  /** Works off the records of a divergent suffix. */
  method UndoRecords(l: Leader, f: Follower, matched: U64, maxBatchSize: nat, ghost log: LogDb, ghost h: Histories,
                     ghost own: Histories)
    returns (reply: Reply)
    requires Explains(l, h) && DivergesAt(log, f.docs, l, h, own, matched)
    requires RollbackFits(log, l, matched, maxBatchSize)
    requires Prepared(log.changes, matched, true, map[], f.rollback) && forall k :: k in f.log.raft ==> k.a < NO_INDEX
    modifies f`rollback, f`docs
    ensures f.rollback == map[] && Rolling(old(f.docs), old(f.rollback), l.docs, f.docs, map[], None)
    ensures (reply.Finished? || reply.Failed?) && (reply.Failed? <==> old(f.rollback) == map[])
    ensures reply.Finished? ==> IsLastLog(f.log, reply.lastLog)
  {
    if f.rollback == map[] {
      assert Rolling(f.docs, map[], l.docs, f.docs, map[], None);
      reply := Failed;
    } else {
      RecordsAreRollable(log, f.rollback, l, matched, maxBatchSize);
      NeverUnrollable(log, f.docs, f.rollback, l, h, own, matched);
      reply := RollBack(f, l.docs, maxBatchSize);
    }
  }

  /** Cuts a divergent suffix off the log and works off its records, which were `before`. */
  method CutAndUndo(l: Leader, f: Follower, matched: U64, maxBatchSize: nat, ghost h: Histories, ghost own: Histories)
    returns (reply: Reply, ghost before: map<Key, Merged>)
    requires Explains(l, h) && DivergesAt(f.log, f.docs, l, h, own, matched)
             && RollbackFits(f.log, l, matched, maxBatchSize)
    requires f.rollback == map[] && f.pending == []
    modifies f`log, f`rollback, f`docs
    ensures f.log == Prefix(old(f.log), matched) && f.rollback == map[]
    ensures Prepared(old(f.log).changes, matched, true, map[], before)
    ensures Rolling(old(f.docs), before, l.docs, f.docs, map[], None)
    ensures reply.Finished? || reply.Failed?
    ensures reply.Failed? <==> NoNetEffect(old(f.log), matched)
    ensures reply.Finished? ==> IsLastLog(f.log, reply.lastLog)
  {
    ghost var log0 := f.log;
    PrepareRollback(f, matched, true);
    CutIsPrefix(log0, matched);
    before := f.rollback;
    NoRecords(log0, matched, before);
    reply := UndoRecords(l, f, matched, maxBatchSize, log0, h, own);
  }

  /** `handle_merge_log` and the rollback it starts. A suffix without any net effect leaves no
      record, which the follower reports as an error; even then its log is cut and its documents
      stand for the leader's state at the matched index. */
  method MergeLog(l: Leader, f: Follower, matched: U64, maxBatchSize: nat, ghost h: Histories, ghost own: Histories)
    returns (reply: Reply)
    requires Explains(l, h) && DivergesAt(f.log, f.docs, l, h, own, matched)
             && RollbackFits(f.log, l, matched, maxBatchSize)
    requires f.rollback == map[] && f.pending == []
    modifies f`log, f`rollback, f`docs
    ensures InSync(f.log, f.docs, f.pending, l, h, matched) && f.rollback == map[]
    ensures reply.Finished? || reply.Failed?
    ensures reply.Failed? <==> NoNetEffect(old(f.log), matched)
    ensures reply.Finished? ==> IsLastLog(f.log, reply.lastLog)
    ensures reply.Finished? && reply.lastLog.Some? && HasEntry(l.log, matched) ==> reply.lastLog.value.index == matched
    ensures forall s: Slot :: s.collection != THREAD ==> IsUndone(old(f.log), TableOf(f.docs, s), l, h, matched, s)
  {
    ghost var log0, docs0 := f.log, f.docs;
    ghost var before;
    reply, before := CutAndUndo(l, f, matched, maxBatchSize, h, own);
    AllAreRolled(log0, docs0, before, f.docs, l, h, own, matched);
    ReportsMatched(l, matched, f.log, reply);
  }

  lemma ReportsMatched(l: Leader, matched: U64, log: LogDb, reply: Reply)
    requires log == Prefix(l.log, matched) && forall k :: k in log.raft ==> k.a < NO_INDEX
    requires reply.Finished? ==> IsLastLog(log, reply.lastLog)
    ensures reply.Finished? && reply.lastLog.Some? && HasEntry(l.log, matched) ==> reply.lastLog.value.index == matched
  {
    if reply.Finished? && HasEntry(l.log, matched) {
      LastIsMatched(l.log, matched, reply.lastLog);
    }
  }

  lemma LastIsMatched(log: LogDb, matched: U64, r: Option<RaftId>)
    requires IsLastLog(Prefix(log, matched), r) && HasEntry(log, matched)
    requires forall k :: k in Prefix(log, matched).raft ==> k.a < NO_INDEX
    ensures r.Some? ==> r.value.index == matched
  {
    var k :| k in log.raft && k.a == matched;
    assert matched != NO_INDEX ==> k in Prefix(log, matched).raft;
  }

  /** The index of the last entry, or "no entry". */
  function IndexOf(r: Option<RaftId>): U64 {
    if r.None? then NO_INDEX else r.value.index
  }

  lemma EndsEarlier(l: Leader, matched: U64, r: Option<RaftId>)
    requires WellFormed(l) && IsLastLog(Prefix(l.log, matched), r) && (matched == NO_INDEX || matched <= l.last)
    ensures Floor(IndexOf(r)) <= Floor(matched) && (IndexOf(r) == NO_INDEX || IndexOf(r) <= l.last)
    ensures forall k :: k in l.log.raft ==> (IsKept(k, matched) <==> IsKept(k, IndexOf(r)))
    ensures forall k :: k in l.log.changes ==> !(Floor(IndexOf(r)) < k.c <= Floor(matched))
  {
    var e := IndexOf(r);
    forall k | k in l.log.raft ensures IsKept(k, matched) <==> IsKept(k, e) {
      if IsKept(k, matched) {
        assert k in Prefix(l.log, matched).raft;
      }
    }
    forall k | k in l.log.changes ensures !(Floor(e) < k.c <= Floor(matched)) {
      var entry :| IsListed(l.log, entry, k);
      assert IsKept(entry, matched) <==> IsKept(entry, e);
    }
  }

  /** A follower that is in sync at an index is so at the last entry up to there. */
  lemma InSyncAtEnd(log: LogDb, docs: Tables, l: Leader, h: Histories, matched: U64, r: Option<RaftId>)
    requires WellFormed(l) && InSync(log, docs, [], l, h, matched) && (matched == NO_INDEX || matched <= l.last)
    requires IsLastLog(log, r)
    ensures InSync(log, docs, [], l, h, IndexOf(r)) && (IndexOf(r) == NO_INDEX || IndexOf(r) <= l.last)
  {
    var e := IndexOf(r);
    EndsEarlier(l, matched, r);
    SamePrefix(l.log, matched, e);
    forall s ensures SlotInSync(docs, [], l, h, s, e) {
      assert SlotInSync(docs, [], l, h, s, matched);
      SameChanges(l, s, matched, e);
    }
  }

  lemma SamePrefix(log: LogDb, p: U64, e: U64)
    requires Floor(e) <= Floor(p) && forall k :: k in log.raft ==> (IsKept(k, p) <==> IsKept(k, e))
    requires forall k :: k in log.changes ==> !(Floor(e) < k.c <= Floor(p))
    ensures Prefix(log, p) == Prefix(log, e)
  {
    assert Prefix(log, p).raft == Prefix(log, e).raft;
    assert Prefix(log, p).changes == Prefix(log, e).changes;
  }

  lemma SameChanges(l: Leader, s: Slot, p: U64, e: U64)
    requires Floor(e) <= Floor(p) && (p == NO_INDEX || p <= l.last)
    requires forall k :: k in l.log.changes ==> !(Floor(e) < k.c <= Floor(p))
    ensures ChangesIn(l.log.changes, s, Floor(p), l.last) == ChangesIn(l.log.changes, s, Floor(e), l.last)
    ensures Position(l, s, p) == Position(l, s, e)
  {
    var keys := l.log.changes.Keys;
    assert RangeKeys(keys, s, Floor(p), l.last) == RangeKeys(keys, s, Floor(e), l.last);
    if p != NO_INDEX && e != NO_INDEX {
      assert RangeKeys(keys, s, -1, p) == RangeKeys(keys, s, -1, e);
    } else if p != NO_INDEX {
      assert RangeKeys(keys, s, -1, p) == {};
    }
  }

  /** Replication: whatever a follower's log and documents have become after the point up to which
      its log matches the leader's, rolling back and catching up make it a replica: the same log,
      and the same documents in every collection but threads. */
  method Replicate(l: Leader, f: Follower, matched: U64, commit: U64, batchSize: nat, maxBatchSize: nat,
                   ghost h: Histories, ghost own: Histories) returns (ok: bool)
    requires WellFormed(l) && Explains(l, h) && AllFit(l, maxBatchSize)
    requires DivergesAt(f.log, f.docs, l, h, own, matched) && RollbackFits(f.log, l, matched, maxBatchSize)
    requires f.rollback == map[] && f.pending == []
    modifies f
    ensures ok && Replicated(f.log, f.docs, l) && f.pending == []
  {
    var reply := MergeLog(l, f, matched, maxBatchSize, h, own);
    // Without a report the next process finds the end of its log.
    var last := if reply.Finished? then reply.lastLog else None;
    if last.None? {
      last := LastLog(f.log);
    }
    InSyncAtEnd(f.log, f.docs, l, h, matched, last);
    if IndexOf(last) == l.last {
      // The leader has nothing to send.
      InSyncIsReplicated(f.log, f.docs, l, h);
      ok := true;
    } else {
      ok := CatchUpWith(l, f, IndexOf(last), commit, batchSize, maxBatchSize, h);
    }
  }
}

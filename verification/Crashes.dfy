/** Crashes within a round: after any message of log records, after any pending record, and after
    any store write of a commit. */
module Crashes {
  import opened Common
  import opened KeyOrder
  import opened ChangeLog
  import opened DocumentSync
  import opened LogStore
  import opened LogShipping
  import opened Replica
  import opened FollowerCommit
  import opened FollowerProcess
  import opened UndoLog
  import opened Rounds
  import opened Exchange
  import opened Replication
  import opened Restarts

  // ----- What has been written of the log after part of a round

  /** The key of the last entry among some updates. */
  function LastLogged(us: seq<LogUpdate>): Option<Key> {
    if us == [] then None
    else if us[|us| - 1].LogRecord? then Some(RaftKey(us[|us| - 1].id))
    else LastLogged(us[..|us| - 1])
  }

  /** The update is an entry of the log after `start`, or a change record that the entry before it
      lists. */
  ghost predicate IsListedUpdate(db: LogDb, start: U64, before: seq<LogUpdate>, u: LogUpdate) {
    match u
    case LogRecord(id, log) =>
      RaftKey(id) in db.raft && db.raft[RaftKey(id)] == log && id.index < NO_INDEX && IsAfter(RaftKey(id), start)
    case ChangeRecord(slot, _) =>
      var k := LastLogged(before);
      k.Some? && k.value in db.raft && slot in EntrySlots(db.raft[k.value].entry)
  }

  ghost predicate AreListed(db: LogDb, start: U64, us: seq<LogUpdate>) {
    forall i :: 0 <= i < |us| ==> IsListedUpdate(db, start, us[..i], us[i])
  }

  lemma {:induction false} LastLoggedConcat(us: seq<LogUpdate>, vs: seq<LogUpdate>)
    ensures LastLogged(us + vs) == if LastLogged(vs).Some? then LastLogged(vs) else LastLogged(us)
    decreases |vs|
  {
    if vs == [] {
      assert us + vs == us;
    } else {
      assert (us + vs)[..|us + vs| - 1] == us + vs[..|vs| - 1];
      LastLoggedConcat(us, vs[..|vs| - 1]);
    }
  }

  lemma {:induction false} BeginsWithEntry(vs: seq<LogUpdate>, n: nat)
    requires 0 < n <= |vs| && vs[0].LogRecord?
    ensures LastLogged(vs[..n]).Some?
    decreases n
  {
    if n > 1 {
      BeginsWithEntry(vs, n - 1);
      assert vs[..n][..n - 1] == vs[..n - 1];
    }
  }

  lemma ListedConcat(db: LogDb, start: U64, us: seq<LogUpdate>, vs: seq<LogUpdate>)
    requires AreListed(db, start, us) && AreListed(db, start, vs) && (vs != [] ==> vs[0].LogRecord?)
    ensures AreListed(db, start, us + vs)
  {
    forall i | 0 <= i < |us + vs| ensures IsListedUpdate(db, start, (us + vs)[..i], (us + vs)[i]) {
      if i < |us| {
        assert (us + vs)[..i] == us[..i];
      } else {
        var j := i - |us|;
        assert (us + vs)[..i] == us + vs[..j];
        LastLoggedConcat(us, vs[..j]);
        if j > 0 {
          BeginsWithEntry(vs, j);
        }
      }
    }
  }

  ghost predicate AreChanges(us: seq<LogUpdate>, slots: set<Slot>) {
    forall u :: u in us ==> u.ChangeRecord? && u.slot in slots
  }

  lemma {:induction false} ItemChanges(db: LogDb, account: AccountId, collections: set<Collection>, id: nat)
    ensures AreChanges(ChangeUpdates(db, account, collections, id), ItemSlots(account, collections))
    decreases |collections|
  {
    if collections != {} {
      var c := Highest(collections);
      ItemChanges(db, account, collections - {c}, id);
      assert Slot(account, c) in ItemSlots(account, collections);
      assert ItemSlots(account, collections - {c}) <= ItemSlots(account, collections);
    }
  }

  lemma {:induction false} SnapshotChanges(db: LogDb, groups: AccountGroups, id: nat)
    ensures AreChanges(GroupUpdates(db, groups, id), GroupSlots(groups))
    decreases GroupsSize(groups)
  {
    if groups != [] {
      var (collections, accounts) := groups[|groups| - 1];
      if accounts == [] {
        SnapshotChanges(db, groups[..|groups| - 1], id);
      } else {
        PopShrinks(groups);
        ItemChanges(db, accounts[|accounts| - 1], collections, id);
        SnapshotChanges(db, PopAccount(groups), id);
      }
    }
  }

  lemma {:induction false} OneEntryLogged(log: LogUpdate, changes: seq<LogUpdate>, n: nat, slots: set<Slot>)
    requires log.LogRecord? && AreChanges(changes, slots) && n <= |changes|
    ensures LastLogged([log] + changes[..n]) == Some(RaftKey(log.id))
    decreases n
  {
    if n > 0 {
      OneEntryLogged(log, changes, n - 1, slots);
      assert ([log] + changes[..n])[..n] == [log] + changes[..n - 1];
      assert changes[n - 1] in changes;
    } else {
      assert [log] + changes[..0] == [log];
    }
  }

  lemma WholeIsListed(db: LogDb, start: U64, k: Key)
    requires k in db.raft && k.a < NO_INDEX && k.c == 0 && IsAfter(k, start)
    ensures AreListed(db, start, Whole(db, k))
  {
    var log, changes := LogRecord(RaftId(k.b, k.a), db.raft[k]), EntryUpdates(db, db.raft[k].entry, k.a);
    match db.raft[k].entry {
      case Item(account, collections) => ItemChanges(db, account, collections, k.a);
      case SnapshotOf(groups) => SnapshotChanges(db, groups, k.a);
    }
    var us := [log] + changes;
    assert Whole(db, k) == us;
    forall i | 0 <= i < |us| ensures IsListedUpdate(db, start, us[..i], us[i]) {
      if i > 0 {
        assert us[..i] == [log] + changes[..i - 1] && us[i] == changes[i - 1] && changes[i - 1] in changes;
        OneEntryLogged(log, changes, i - 1, EntrySlots(db.raft[k].entry));
      }
    }
  }

  lemma {:induction false} StreamIsListed(db: LogDb, ks: seq<Key>, i: nat, start: U64, to: U64)
    requires ValidLog(db) && i <= |ks| && forall k :: k in ks ==> k in db.raft && k.a < NO_INDEX
    ensures AreListed(db, start, Stream(db, ks, i, start, to))
    ensures Stream(db, ks, i, start, to) != [] ==> Stream(db, ks, i, start, to)[0].LogRecord?
    decreases |ks| - i
  {
    if i < |ks| {
      StreamIsListed(db, ks, i + 1, start, to);
      assert ks[i] in ks;
      if IsAfter(ks[i], start) {
        WholeIsListed(db, start, ks[i]);
        StreamNext(db, ks, i, start, to);
        ListedConcat(db, start, Whole(db, ks[i]), if ks[i].a == to then [] else Stream(db, ks, i + 1, start, to));
      }
    }
  }

  /** A log that agrees with the leader's up to `c` and holds nothing after it but entries of the
      leader and change records that they list. */
  ghost predicate IsPartial(log: LogDb, db: LogDb, c: U64) {
    && Prefix(log, c) == Prefix(db, c) && ListedAfter(log, c)
    && forall k :: k in log.raft ==> k.a < NO_INDEX && k in db.raft && log.raft[k] == db.raft[k]
  }

  lemma WriteLog(log: LogDb, db: LogDb, c: U64, k: Key)
    requires IsPartial(log, db, c) && k in db.raft && Floor(c) < k.a < NO_INDEX
    ensures IsPartial(log.(raft := log.raft[k := db.raft[k]]), db, c)
  {
    var log' := log.(raft := log.raft[k := db.raft[k]]);
    assert Prefix(log', c).raft == Prefix(log, c).raft && Prefix(log', c).changes == Prefix(log, c).changes;
    forall x | x in log'.changes && IsLate(x, c) ensures exists e :: IsListed(log', e, x) {
      var e :| IsListed(log, e, x);
      assert IsListed(log', e, x);
    }
  }

  lemma WriteChange(log: LogDb, db: LogDb, c: U64, e: Key, slot: Slot, v: ChangeValue)
    requires IsPartial(log, db, c) && e in log.raft && Floor(c) < e.a && slot in EntrySlots(log.raft[e].entry)
    ensures IsPartial(log.(changes := log.changes[ChangeKey(slot, e.a) := v]), db, c)
  {
    var log' := log.(changes := log.changes[ChangeKey(slot, e.a) := v]);
    assert Prefix(log', c).raft == Prefix(log, c).raft && Prefix(log', c).changes == Prefix(log, c).changes;
    forall x | x in log'.changes && IsLate(x, c) ensures exists y :: IsListed(log', y, x) {
      if x == ChangeKey(slot, e.a) {
        assert SlotOf(x) == slot && IsListed(log', e, x);
      } else {
        var y :| IsListed(log, y, x);
        assert IsListed(log', y, x);
      }
    }
  }

  /** Whatever part of the stream has been written, the log can be recovered. */
  lemma {:induction false} WrittenIsPartial(w: Writer, db: LogDb, start: U64, c: U64, us: seq<LogUpdate>, n: nat)
    requires AreListed(db, start, us) && n <= |us| && Floor(c) <= Floor(start) && IsPartial(w.db, db, c)
    ensures var w' := WriteAll(w, us[..n]);
            && IsPartial(w'.db, db, c)
            && (LastLogged(us[..n]).Some? ==>
                  var k := LastLogged(us[..n]).value; k in w'.db.raft && w'.last == k.a && Floor(c) < k.a)
    decreases n
  {
    if n > 0 {
      WrittenIsPartial(w, db, start, c, us, n - 1);
      assert us[..n][..n - 1] == us[..n - 1];
      assert IsListedUpdate(db, start, us[..n - 1], us[n - 1]);
      var w' := WriteAll(w, us[..n - 1]);
      match us[n - 1] {
        case LogRecord(id, log) => WriteLog(w'.db, db, c, RaftKey(id));
        case ChangeRecord(slot, v) => WriteChange(w'.db, db, c, LastLogged(us[..n - 1]).value, slot, v);
      }
    } else {
      assert us[..0] == [];
    }
  }

  // ----- A crash while log records arrive

  /** At most `messages` batches of a round; the follower writes each of them at once. */
  method ShipPart(l: Leader, f: Follower, ks: seq<Key>, start: U64, batchSize: nat, messages: nat)
    returns (ghost sent: seq<LogUpdate>)
    requires WellFormed(l) && IsScan(ks, l.log.raft.Keys)
    requires exists k :: k in l.log.raft && k.a == l.last && IsAfter(k, start)
    requires start != l.last
    modifies f`log, f`uncommitted, f`mergeIndex
    ensures sent <= Rest(l.log, ks, start, [], l.last)
    ensures f.log == WriteAll(Writer(old(f.log), old(f.uncommitted), NO_INDEX, {}), sent).db
  {
    f.mergeIndex := NO_INDEX;
    ghost var w0 := Writer(f.log, f.uncommitted, NO_INDEX, {});
    ghost var goal :| goal in l.log.raft && goal.a == l.last && IsAfter(goal, start);
    var pending: AccountGroups, last, done := [], start, false;
    var changed: set<Slot> := {};
    sent := [];
    var i := 0;
    while i < messages && !done
      invariant Rest(l.log, ks, start, [], l.last) == sent + Rest(l.log, ks, last, pending, l.last)
      invariant Writer(f.log, f.uncommitted, f.mergeIndex, changed) == WriteAll(w0, sent)
      invariant GroupsRecorded(l.log, pending, last)
      invariant last != l.last ==> IsAfter(goal, last)
    {
      var b := GetLogEntries(l.log, ks, last, l.last, pending, batchSize);
      if b.Err? {
        assert false;
      }
      ghost var rest := Rest(l.log, ks, b.value.last, b.value.pending, l.last);
      Assoc(sent, b.value.updates, rest);
      WriteConcat(w0, sent, b.value.updates);
      changed, done := f.HandleUpdateLog(changed, b.value.updates, b.value.eof);
      sent, last, pending := sent + b.value.updates, b.value.last, b.value.pending;
      i := i + 1;
    }
  }

  lemma PrefixIsPartial(l: Leader, p: U64, c: U64)
    requires WellFormed(l) && Floor(c) <= Floor(p)
    ensures IsPartial(Prefix(l.log, p), l.log, c)
  {
    PrefixOfPrefix(l.log, p, c);
    PrefixIsListed(l.log, p, c);
  }

  lemma ShippedIsPartial(l: Leader, ks: seq<Key>, p: U64, c: U64, w: Writer, sent: seq<LogUpdate>)
    requires WellFormed(l) && IsScan(ks, l.log.raft.Keys) && Floor(c) <= Floor(p) && p != l.last
    requires w.db == Prefix(l.log, p) && sent <= Rest(l.log, ks, p, [], l.last)
    ensures IsPartial(WriteAll(w, sent).db, l.log, c)
  {
    var us := Rest(l.log, ks, p, [], l.last);
    assert us == Stream(l.log, ks, 0, p, l.last);
    StreamIsListed(l.log, ks, 0, p, l.last);
    PrefixIsPartial(l, p, c);
    assert us[..|sent|] == sent;
    WrittenIsPartial(w, l.log, p, c, us, |sent|);
  }

  method CrashShipping(l: Leader, f: Follower, ks: seq<Key>, p: U64, batchSize: nat, messages: nat, ghost h: Histories)
    returns (ok: bool)
    requires WellFormed(l) && IsScan(ks, l.log.raft.Keys) && (p == NO_INDEX || p < l.last)
    requires f.Valid() && f.log == Prefix(l.log, p) && Recoverable(f.docs, f.commitKey, f.floor, l, h, p)
    modifies f
    ensures ok && f.Valid() && f.pending == [] && InSync(f.log, f.docs, f.pending, l, h, f.uncommitted)
    ensures Some(f.uncommitted) == old(f.commitKey) && Recoverable(f.docs, f.commitKey, f.floor, l, h, f.uncommitted)
  {
    ghost var c, w := f.commitKey.value, Writer(f.log, f.uncommitted, NO_INDEX, {});
    ghost var sent := ShipPart(l, f, ks, p, batchSize, messages);
    ShippedIsPartial(l, ks, p, c, w, sent);
    assert Survives(f.View(), l, h, c);
    ok := Restart(l, f, c, h);
  }

  // ----- A crash while documents arrive

  lemma LaterIsRecoverable(docs: Tables, commitKey: Option<U64>, floor: int, l: Leader, h: Histories, p: U64, q: U64)
    requires Recoverable(docs, commitKey, floor, l, h, p) && q != NO_INDEX && (p == NO_INDEX || p < q)
    ensures Recoverable(docs, commitKey, floor, l, h, q)
  {
    StaysRecoverable(docs, commitKey, floor, l, h, p, q);
  }

  /** A new process on a store with the first of the pending records. */
  method RestartWith(l: Leader, f: Follower, records: nat, ghost h: Histories) returns (ok: bool)
    requires WellFormed(l) && f.Valid() && f.log == Prefix(l.log, f.uncommitted)
    requires Recoverable(f.docs, f.commitKey, f.floor, l, h, f.uncommitted)
    modifies f
    ensures ok && f.Valid() && f.pending == [] && InSync(f.log, f.docs, f.pending, l, h, f.uncommitted)
    ensures Some(f.uncommitted) == old(f.commitKey) && Recoverable(f.docs, f.commitKey, f.floor, l, h, f.uncommitted)
  {
    if records < |f.pending| {
      f.pending := f.pending[..records];
    }
    RecoverableSurvives(f.View(), f.floor, l, h, f.uncommitted);
    ok := Restart(l, f, f.commitKey.value, h);
  }

  /** Pending records are only ever added at the end, so that a crash leaves some of them. */
  method CrashFetching(l: Leader, f: Follower, ks: seq<Key>, p: U64, batchSize: nat, maxBatchSize: nat, records: nat,
                       ghost h: Histories) returns (ok: bool)
    requires WellFormed(l) && Explains(l, h) && AllFit(l, maxBatchSize) && IsScan(ks, l.log.raft.Keys)
    requires p == NO_INDEX || p < l.last
    requires f.Valid() && InSync(f.log, f.docs, f.pending, l, h, p)
             && Recoverable(f.docs, f.commitKey, f.floor, l, h, p)
    requires f.pending != [] ==> p != NO_INDEX && f.uncommitted == p
    modifies f
    ensures ok && f.Valid() && f.pending == [] && InSync(f.log, f.docs, f.pending, l, h, f.uncommitted)
    ensures Some(f.uncommitted) == old(f.commitKey) && Recoverable(f.docs, f.commitKey, f.floor, l, h, f.uncommitted)
  {
    var changed := ReceiveRound(l, f, ks, p, batchSize);
    var stored := |f.pending| + records;
    FetchDocuments(l, f, changed, p, maxBatchSize, h);
    LaterIsRecoverable(f.docs, f.commitKey, f.floor, l, h, p, f.uncommitted);
    ok := RestartWith(l, f, stored, h);
  }

  // ----- A crash while a commit is carried out

  /** The store after any of the writes of a commit, but for none. */
  lemma StoppedCommit(st: Store, q: U64, n: nat)
    requires Outcome(st, q, false).Ok? && q != NO_INDEX && InOrder(st.pending) && 0 < n <= |CommitWrites(st, q, false)|
    ensures var st' := ExecAll(st, CommitWrites(st, q, false)[..n]);
            InOrder(st'.pending) && st'.log == st.log && st'.commitKey == Some(q)
  {
    WritesReachOutcome(st, q, false, n);
  }

  lemma ResetOutcome(st: Store, q: U64)
    requires st.commitKey == Some(q) && Outcome(st, NO_INDEX, true).Ok?
    ensures var done := Outcome(st, NO_INDEX, true).value; done == Store(Truncated(st.log, q), done.docs, [], None)
  {
  }

  lemma WholeOutcome(st: Store, q: U64)
    requires q != NO_INDEX && CommitAll(st.docs, st.pending).Ok?
    requires forall i :: 0 <= i < |st.pending| ==> st.pending[i].index <= q
    ensures Outcome(st, q, false).Ok? && Outcome(st, q, false).value.docs == CommitAll(st.docs, st.pending).value
  {
    DueWhole(st.pending, q);
    assert st.pending[..|st.pending|] == st.pending;
  }

  /** Recovery then completes the commit. */
  lemma CommitSurvives(st: Store, l: Leader, q: U64, n: nat)
    requires WellFormed(l) && st.log == Prefix(l.log, q) && CommitAll(st.docs, st.pending).Ok? && q != NO_INDEX
    requires forall i :: 0 <= i < |st.pending| ==> Shaped(st.pending[i].work) && st.pending[i].index <= q
    requires InOrder(st.pending) && Outcome(st, q, false).Ok? && 0 < n <= |CommitWrites(st, q, false)|
    ensures var st' := ExecAll(st, CommitWrites(st, q, false)[..n]);
            Outcome(st', NO_INDEX, true) == Ok(Store(st.log, CommitAll(st.docs, st.pending).value, [], None))
  {
    WholeOutcome(st, q);
    CrashTolerantCommit(st, q, false, n);
    StoppedCommit(st, q, n);
    ResetOutcome(ExecAll(st, CommitWrites(st, q, false)[..n]), q);
    PrefixIsListed(l.log, q, q);
    TruncatedIsPrefix(st.log, q);
    PrefixOfPrefix(l.log, q, q);
  }

  /** A new process on a store from which recovery completes the commit up to `q`. */
  method CompleteCommit(l: Leader, f: Follower, ghost q: U64, ghost docs: Tables, ghost h: Histories) returns (ok: bool)
    requires WellFormed(l) && InOrder(f.pending) && f.commitKey == Some(q) && f.log == Prefix(l.log, q)
    requires q != NO_INDEX && HasEntry(f.log, q) && forall s :: SlotInSync(docs, [], l, h, s, q)
    requires Outcome(f.View(), NO_INDEX, true) == Ok(Store(Prefix(l.log, q), docs, [], None))
    modifies f
    ensures ok && f.Valid() && f.pending == [] && f.uncommitted == q && f.log == old(f.log)
    ensures InSync(f.log, f.docs, f.pending, l, h, q) && Recoverable(f.docs, f.commitKey, f.floor, l, h, q)
  {
    ok := f.Start();
    assert HasEntry(l.log, q);
    EndOfPrefix(l.log, q, f.uncommitted);
    f.floor := Floor(q);
    CommittedIsRecoverable(f.log, f.docs, l, h, q);
  }

  method CrashCommitting(l: Leader, f: Follower, writes: nat, ghost h: Histories) returns (ok: bool)
    requires WellFormed(l) && f.Valid() && InSync(f.log, f.docs, f.pending, l, h, f.uncommitted)
             && f.uncommitted != NO_INDEX
    requires Recoverable(f.docs, f.commitKey, f.floor, l, h, f.uncommitted)
    requires HasEntry(f.log, f.uncommitted)
    modifies f
    ensures ok && f.Valid() && f.pending == [] && InSync(f.log, f.docs, f.pending, l, h, f.uncommitted)
    ensures Some(f.uncommitted) == old(f.commitKey) || f.uncommitted == old(f.uncommitted)
    ensures Recoverable(f.docs, f.commitKey, f.floor, l, h, f.uncommitted)
  {
    ghost var q := f.uncommitted;
    StillInSync(f.docs, f.pending, l, h, q);
    WholeOutcome(f.View(), q);
    var ws := CommitWrites(f.View(), f.uncommitted, false);
    if 0 < writes <= |ws| {
      CommitSurvives(f.View(), l, q, writes);
      StoppedCommit(f.View(), q, writes);
      ghost var docs := CommitAll(f.docs, f.pending).value;
      var st := ExecAll(f.View(), ws[..writes]);
      f.log, f.docs, f.pending, f.commitKey := st.log, st.docs, st.pending, st.commitKey;
      ok := CompleteCommit(l, f, q, docs, h);
    } else {
      ok := RestartWith(l, f, |f.pending|, h);
    }
  }

  // ----- Every sequence of rounds and crashes

  /** What may happen while a follower catches up: a round, a crash between rounds, and a crash within
      one, after some messages, pending records or writes of its commit. */
  datatype Event =
    | Round(commit: U64, batchSize: nat)
    | Crash
    | CrashInLog(batchSize: nat, messages: nat)
    | CrashInDocuments(batchSize: nat, records: nat)
    | CrashInCommit(writes: nat)

  ghost predicate IsCatchingUp(f: Follower, l: Leader, h: Histories)
    reads f
  {
    && (if f.uncommitted == NO_INDEX then f.pending == []
        else f.uncommitted <= l.last && HasEntry(f.log, f.uncommitted))
    && f.Valid() && InSync(f.log, f.docs, f.pending, l, h, f.uncommitted)
    && Recoverable(f.docs, f.commitKey, f.floor, l, h, f.uncommitted)
  }

  lemma EntryOfPrefix(l: Leader, h: Histories, commitKey: Option<U64>, floor: int, docs: Tables, p: U64)
    requires WellFormed(l) && Recoverable(docs, commitKey, floor, l, h, p)
    ensures var c := commitKey.value; c == NO_INDEX || (c <= l.last && HasEntry(Prefix(l.log, c), c))
  {
    if commitKey.value != NO_INDEX {
      var k :| k in l.log.raft && k.a == commitKey.value;
      assert k in Prefix(l.log, commitKey.value).raft;
    }
  }

  method Happens(l: Leader, f: Follower, ks: seq<Key>, event: Event, maxBatchSize: nat, ghost h: Histories)
    requires WellFormed(l) && Explains(l, h) && AllFit(l, maxBatchSize) && IsScan(ks, l.log.raft.Keys)
    requires IsCatchingUp(f, l, h)
    modifies f
    ensures IsCatchingUp(f, l, h)
  {
    var ok;
    EntryOfPrefix(l, h, f.commitKey, f.floor, f.docs, f.uncommitted);
    match event {
      case Round(commit, batchSize) =>
        if f.uncommitted != l.last {
          ok := RunRound(l, f, ks, f.uncommitted, commit, batchSize, maxBatchSize, h);
        }
      case Crash =>
        ok := RestartWith(l, f, |f.pending|, h);
      case CrashInLog(batchSize, messages) =>
        if f.uncommitted != l.last {
          ok := CrashShipping(l, f, ks, f.uncommitted, batchSize, messages, h);
        }
      case CrashInDocuments(batchSize, records) =>
        if f.uncommitted != l.last {
          ok := CrashFetching(l, f, ks, f.uncommitted, batchSize, maxBatchSize, records, h);
        }
      case CrashInCommit(writes) =>
        if f.uncommitted != NO_INDEX {
          ok := CrashCommitting(l, f, writes, h);
        }
    }
  }

  /** Catching up despite restarts: whatever rounds and crashes happen, also in the middle of rounds,
      the follower can go on, and becomes a replica in the end. */
  method CatchUpDespiteRestarts(l: Leader, f: Follower, events: seq<Event>, maxBatchSize: nat, ghost h: Histories)
    returns (ok: bool)
    requires WellFormed(l) && Explains(l, h) && AllFit(l, maxBatchSize) && IsCatchingUp(f, l, h)
    modifies f
    ensures ok && f.pending == [] && Replicated(f.log, f.docs, l)
  {
    var ks := Iterate(l.log.raft.Keys);
    for i := 0 to |events|
      invariant IsCatchingUp(f, l, h)
    {
      Happens(l, f, ks, events[i], maxBatchSize, h);
    }
    ok := FinishRounds(l, f, l.last, 0, maxBatchSize, h);
  }
}

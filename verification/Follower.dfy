/** The follower process: the operations that change its store and its indexes. */
module FollowerProcess {
  import opened Common
  import opened KeyOrder
  import opened ChangeLog
  import opened DocumentSync
  import opened LogStore
  import opened LogShipping
  import opened Replica
  import opened FollowerCommit

  // ----- Keys listed by log entries

  /** The slots of a snapshot, read off directly. */
  function AllSlots(groups: AccountGroups): set<Slot> {
    set g, a, c | g in groups && a in g.1 && c in g.0 :: Slot(a, c)
  }

  lemma {:induction false} GroupSlotsAreAll(groups: AccountGroups)
    ensures GroupSlots(groups) == AllSlots(groups)
    decreases GroupsSize(groups)
  {
    if groups != [] {
      var n := |groups| - 1;
      var (collections, accounts) := groups[n];
      var front := groups[..n];
      assert groups == front + [(collections, accounts)];
      if accounts == [] {
        GroupSlotsAreAll(front);
        assert forall g :: g in groups ==> g in front || g == (collections, accounts);
        assert AllSlots(groups) == AllSlots(front);
      } else {
        PopShrinks(groups);
        GroupSlotsAreAll(PopAccount(groups));
        PopSlots(groups);
      }
    }
  }

  lemma PopSlots(groups: AccountGroups)
    requires groups != [] && groups[|groups| - 1].1 != []
    ensures var (collections, accounts) := groups[|groups| - 1];
            AllSlots(groups) == ItemSlots(accounts[|accounts| - 1], collections) + AllSlots(PopAccount(groups))
  {
    var n := |groups| - 1;
    var (collections, accounts) := groups[n];
    var m := |accounts| - 1;
    var less := PopAccount(groups);
    var short := (collections, accounts[..m]);
    assert less == groups[..n] + [short] && groups == groups[..n] + [groups[n]];
    forall g, a, c | g in groups && a in g.1 && c in g.0
      ensures Slot(a, c) in ItemSlots(accounts[m], collections) + AllSlots(less)
    {
      if g in groups[..n] {
        assert g in less;
      } else if a != accounts[m] {
        assert short in less && a in accounts[..m];
      }
    }
    forall g, a, c | g in less && a in g.1 && c in g.0 ensures Slot(a, c) in AllSlots(groups) {
      if g in groups[..n] {
        assert g in groups;
      } else {
        assert a in accounts && groups[n] in groups;
      }
    }
    forall c | c in collections ensures Slot(accounts[m], c) in AllSlots(groups) {
      assert groups[n] in groups && accounts[m] in accounts;
    }
  }

  /** The change keys of one account, for every collection. */
  method AccountKeys(account: AccountId, collections: set<Collection>, index: nat) returns (keys: set<Key>)
    ensures keys == SlotKeys(ItemSlots(account, collections), index)
  {
    keys := {};
    var todo := collections;
    while todo != {}
      invariant todo <= collections
      invariant keys == SlotKeys(ItemSlots(account, collections - todo), index)
      decreases |todo|
    {
      var c := Highest(todo);
      assert collections - (todo - {c}) == (collections - todo) + {c};
      assert ItemSlots(account, (collections - todo) + {c}) ==
             ItemSlots(account, collections - todo) + {Slot(account, c)};
      keys := keys + {ChangeKey(Slot(account, c), index)};
      todo := todo - {c};
    }
    assert collections - todo == collections;
  }

  method GroupKeys(collections: set<Collection>, accounts: seq<AccountId>, index: nat) returns (keys: set<Key>)
    ensures keys == SlotKeys(AllSlots([(collections, accounts)]), index)
  {
    keys := {};
    for i := 0 to |accounts|
      invariant keys == SlotKeys(AllSlots([(collections, accounts[..i])]), index)
    {
      var more := AccountKeys(accounts[i], collections, index);
      assert accounts[..i + 1] == accounts[..i] + [accounts[i]];
      assert AllSlots([(collections, accounts[..i + 1])]) ==
             AllSlots([(collections, accounts[..i])]) + ItemSlots(accounts[i], collections);
      keys := keys + more;
    }
    assert accounts[..|accounts|] == accounts;
  }

  lemma AllSlotsSnoc(groups: AccountGroups, g: (set<Collection>, seq<AccountId>))
    ensures AllSlots(groups + [g]) == AllSlots(groups) + AllSlots([g])
  {
    assert forall x :: x in groups + [g] <==> x in groups || x == g;
  }

  /** The keys of the change records that an entry lists. */
  method ListedKeys(entry: LogStore.Entry, index: nat) returns (keys: set<Key>)
    ensures keys == SlotKeys(EntrySlots(entry), index)
  {
    match entry {
      case Item(account, collections) =>
        keys := AccountKeys(account, collections, index);
      case SnapshotOf(groups) =>
        keys := {};
        for i := 0 to |groups|
          invariant keys == SlotKeys(AllSlots(groups[..i]), index)
        {
          var more := GroupKeys(groups[i].0, groups[i].1, index);
          assert groups[..i + 1] == groups[..i] + [groups[i]];
          AllSlotsSnoc(groups[..i], groups[i]);
          SlotKeysUnion(AllSlots(groups[..i]), AllSlots([groups[i]]), index);
          keys := keys + more;
        }
        assert groups[..|groups|] == groups;
        GroupSlotsAreAll(groups);
    }
  }

  /** The keys that a reset deletes: entries after `upTo` and the change records they list. */
  method KeysAfter(log: LogDb, upTo: U64) returns (entries: set<Key>, changes: set<Key>)
    ensures entries == Removed(log, upTo) && changes == ChangeKeysOf(log, Removed(log, upTo))
  {
    var start := Key(if upTo != NO_INDEX then upTo else 0, 0, 0);
    var ks := Iterate(set k | k in log.raft && !Before(k, start));
    entries, changes := {}, {};
    for i := 0 to |ks|
      invariant entries == (set k | k in ks[..i] && !IsKept(k, upTo))
      invariant entries <= log.raft.Keys
      invariant changes == ChangeKeysOf(log, entries)
    {
      var k := ks[i];
      assert ks[i] in ks;
      assert ks[..i + 1] == ks[..i] + [k];
      if upTo == NO_INDEX || k.a > upTo {
        var listed := ListedKeys(log.raft[k].entry, k.a);
        SlotsOfOne(log, k);
        SlotsOfUnion(log, entries, {k});
        changes := changes + listed;
        entries := entries + {k};
      }
    }
    assert ks[..|ks|] == ks;
    assert entries == Removed(log, upTo);
  }

  // ----- Pending records

  ghost predicate InOrder(ps: seq<Pending>) {
    forall i, j :: 0 <= i < j < |ps| ==>
                     ps[i].index < ps[j].index || (ps[i].index == ps[j].index && ps[i].number < ps[j].number)
  }

  lemma {:induction false} DueIsAll(ps: seq<Pending>, upTo: U64)
    requires InOrder(ps) && upTo != NO_INDEX
    ensures forall i :: 0 <= i < |ps| ==> (ps[i].index <= upTo <==> i < Due(ps, upTo))
  {
    if ps != [] && ps[0].index <= upTo {
      DueIsAll(ps[1..], upTo);
      assert forall i :: 0 < i < |ps| ==> ps[i] == ps[1..][i - 1];
    }
  }

  lemma DueAt(ps: seq<Pending>, upTo: U64, i: nat)
    requires InOrder(ps) && i < |ps|
    ensures upTo != NO_INDEX && ps[i].index <= upTo <==> i < Due(ps, upTo)
  {
    if upTo != NO_INDEX {
      DueIsAll(ps, upTo);
    }
  }

  /** The entry with a given index, as found by a forward scan from there. */
  method FindEntry(log: LogDb, index: U64) returns (r: Option<RaftId>)
    ensures r.Some? <==> exists k :: k in log.raft && k.a == index
    ensures r.Some? ==> r.value.index == index && exists k :: k in log.raft && k.a == index && k.b == r.value.term
  {
    var ks := Iterate(set k | k in log.raft && !Before(k, Key(index, 0, 0)));
    assert forall k :: k in log.raft && k.a == index ==> k in ks;
    assert forall k :: k in ks ==> k == ks[0] || Before(ks[0], k);
    if ks != [] {
      assert ks[0] in ks;
      if ks[0].a == index {
        return Some(RaftId(ks[0].b, index));
      }
    }
    return None;
  }

  /** `r` is the entry with the largest index, or none if there is none. */
  ghost predicate IsLastLog(log: LogDb, r: Option<RaftId>) {
    match r
    case None => log.raft == map[]
    case Some(id) =>
      && (exists k :: k in log.raft && k.a == id.index && k.b == id.term)
      && (forall k :: k in log.raft ==> k.a <= id.index)
  }

  /** The last entry of the log. */
  method LastLog(log: LogDb) returns (r: Option<RaftId>)
    requires forall k :: k in log.raft ==> k.a < NO_INDEX
    ensures IsLastLog(log, r)
    ensures r.None? <==> log.raft == map[]
    ensures r.Some? ==> RaftKey(r.value) in (set k | k in log.raft :: Key(k.a, k.b, 0))
    ensures r.Some? ==> forall k :: k in log.raft ==> k.a <= r.value.index
  {
    var ks := Iterate(log.raft.Keys);
    if ks == [] {
      assert log.raft.Keys == {};
      return None;
    }
    var last := ks[|ks| - 1];
    assert last in ks;
    assert forall k :: k in ks ==> k == last || Before(k, last);
    return Some(RaftId(last.b, last.a));
  }

  // ----- The work list of a round

  /** Accounts with the collections still to be looked at. */
  type WorkList = seq<(AccountId, set<Collection>)>

  ghost predicate DistinctAccounts(work: WorkList) {
    forall i, j :: 0 <= i < j < |work| ==> work[i].0 != work[j].0
  }

  /** Thread changes are skipped: threads hold no documents. */
  function AccountTodo(w: (AccountId, set<Collection>)): set<Slot> {
    set c | c in w.1 && c != THREAD :: Slot(w.0, c)
  }

  function Todo(work: WorkList): set<Slot> {
    if work == [] then {} else Todo(work[..|work| - 1]) + AccountTodo(work[|work| - 1])
  }

  lemma {:induction false} TodoAccount(work: WorkList, s: Slot)
    requires s in Todo(work)
    ensures exists i :: 0 <= i < |work| && work[i].0 == s.account
  {
    if s !in AccountTodo(work[|work| - 1]) {
      TodoAccount(work[..|work| - 1], s);
    }
  }

  function WorkSize(work: WorkList): nat {
    if work == [] then 0 else WorkSize(work[..|work| - 1]) + 1 + |work[|work| - 1].1|
  }

  function PopCollection(work: WorkList, c: Collection): WorkList
    requires work != []
  {
    var last := work[|work| - 1];
    work[..|work| - 1] + [(last.0, last.1 - {c})]
  }

  lemma PopSize(work: WorkList, c: Collection)
    requires work != [] && c in work[|work| - 1].1
    ensures WorkSize(PopCollection(work, c)) < WorkSize(work)
  {
    var n := |work| - 1;
    assert PopCollection(work, c)[..n] == work[..n];
  }

  lemma PopDistinct(work: WorkList, c: Collection)
    requires work != [] && DistinctAccounts(work)
    ensures DistinctAccounts(PopCollection(work, c))
  {
    var less := PopCollection(work, c);
    forall i, j | 0 <= i < j < |less| ensures less[i].0 != less[j].0 {
      assert less[i].0 == work[i].0 && less[j].0 == work[j].0;
    }
  }

  /** A slot of the last account is not among those of the others. */
  lemma OnlyLast(work: WorkList, s: Slot)
    requires work != [] && DistinctAccounts(work) && s.account == work[|work| - 1].0
    ensures s !in Todo(work[..|work| - 1])
  {
    if s in Todo(work[..|work| - 1]) {
      TodoAccount(work[..|work| - 1], s);
    }
  }

  lemma PopTodo(work: WorkList, c: Collection)
    requires work != [] && c in work[|work| - 1].1 && DistinctAccounts(work)
    ensures Todo(PopCollection(work, c)) == Todo(work) - {Slot(work[|work| - 1].0, c)}
    ensures c != THREAD ==> Slot(work[|work| - 1].0, c) in Todo(work)
  {
    var n := |work| - 1;
    var less, last, before := PopCollection(work, c), work[n], Todo(work[..n]);
    var slot := Slot(last.0, c);
    OnlyLast(work, slot);
    assert less[..n] == work[..n];
    assert AccountTodo(less[n]) == AccountTodo(last) - {slot};
    assert Todo(less) == before + (AccountTodo(last) - {slot}) && Todo(work) == before + AccountTodo(last);
    assert before + (AccountTodo(last) - {slot}) == before + AccountTodo(last) - {slot};
  }

  lemma PopWork(work: WorkList, c: Collection)
    requires work != [] && c in work[|work| - 1].1 && DistinctAccounts(work)
    ensures WorkSize(PopCollection(work, c)) < WorkSize(work)
    ensures DistinctAccounts(PopCollection(work, c))
    ensures Todo(PopCollection(work, c)) == Todo(work) - {Slot(work[|work| - 1].0, c)}
    ensures c != THREAD ==> Slot(work[|work| - 1].0, c) in Todo(work)
  {
    PopSize(work, c);
    PopDistinct(work, c);
    PopTodo(work, c);
  }

  lemma DropWork(work: WorkList)
    requires work != [] && work[|work| - 1].1 == {} && DistinctAccounts(work)
    ensures DistinctAccounts(work[..|work| - 1]) && Todo(work[..|work| - 1]) == Todo(work)
  {
  }

  /** Takes the next slot off the work list. */
  method PopSlot(work0: WorkList) returns (work: WorkList, slot: Option<Slot>)
    requires DistinctAccounts(work0)
    ensures DistinctAccounts(work) && WorkSize(work) <= WorkSize(work0)
    ensures slot.None? ==> work == [] && Todo(work0) == {}
    ensures slot.Some? ==>
              slot.value in Todo(work0) && Todo(work) == Todo(work0) - {slot.value} && WorkSize(work) < WorkSize(work0)
  {
    work := work0;
    while work != []
      invariant DistinctAccounts(work) && Todo(work) == Todo(work0) && WorkSize(work) <= WorkSize(work0)
      decreases WorkSize(work)
    {
      var (account, collections) := work[|work| - 1];
      if collections == {} {
        DropWork(work);
        work := work[..|work| - 1];
      } else {
        var c := Highest(collections);
        PopWork(work, c);
        if c == THREAD {
          NoThreads(work, Slot(account, c));
        }
        work := PopCollection(work, c);
        if c != THREAD {
          return work, Some(Slot(account, c));
        }
      }
    }
    return work, None;
  }

  lemma {:induction false} NoThreads(work: WorkList, s: Slot)
    requires s.collection == THREAD
    ensures s !in Todo(work)
  {
    if work != [] {
      NoThreads(work[..|work| - 1], s);
    }
  }

  /** What the log says happened to a slot between two indexes. */
  function ChangesBetween(changes: map<Key, ChangeValue>, s: Slot, first: U64, last: U64): seq<Change> {
    ChangesIn(changes, s, if first == NO_INDEX then -1 else first - 1, last)
  }

  lemma IsMergedBetween(changes: map<Key, ChangeValue>, s: Slot, first: U64, last: U64, m: Merged)
    requires m == Merge(ChangesIn(changes, s, if first == NO_INDEX then -1 else first - 1, last))
    ensures m == Merge(ChangesBetween(changes, s, first, last))
  {
  }

  function WithoutDocs(t: Result<Table>, ids: set<DocId>): Result<Table> {
    if t.Ok? then Ok(t.value - ids) else t
  }

  lemma EffectiveSnoc(t: Table, ps: seq<Pending>, p: Pending, s: Slot)
    ensures var before := Effective(t, ps, s);
            Effective(t, ps + [p], s) ==
            if before.Ok? && p.slot == s then Perform(before.value, p.work, s.collection == MAIL) else before
  {
    assert (ps + [p])[..|ps|] == ps;
  }

  /** The records added since `before` remove, from each of some slots, the documents that the
      round deleted there. */
  ghost predicate DeletesRecorded(docs: Tables, before: seq<Pending>, after: seq<Pending>, slots: set<Slot>,
                                  rounds: map<Slot, Merged>)
    requires slots <= rounds.Keys
  {
    forall s {:trigger Effective(TableOf(docs, s), after, s)} ::
      Effective(TableOf(docs, s), after, s) ==
      var t := Effective(TableOf(docs, s), before, s);
      if s in slots then WithoutDocs(t, rounds[s].deletes) else t
  }

  /** Some slots are done, having needed no documents. */
  ghost predicate OnlyDeletes(docs: Tables, before: seq<Pending>, after: seq<Pending>, slots: set<Slot>,
                              rounds: map<Slot, Merged>)
    requires slots <= rounds.Keys
  {
    && DeletesRecorded(docs, before, after, slots, rounds)
    && forall s :: s in slots ==> rounds[s].inserts == {} && rounds[s].updates == {}
  }

  lemma RecordDeletes(docs: Tables, before: seq<Pending>, after: seq<Pending>, slots: set<Slot>,
                      rounds: map<Slot, Merged>,
                      slot: Slot, more: seq<Pending>)
    requires slot in rounds && slots <= rounds.Keys && slot !in slots
    requires DeletesRecorded(docs, before, after, slots, rounds)
    requires var deletes := rounds[slot].deletes;
             if deletes == {} then more == []
             else |more| == 1 && more[0].slot == slot && more[0].work == Remove(deletes)
    ensures DeletesRecorded(docs, before, after + more, slots + {slot}, rounds)
  {
    if more == [] {
      assert after + more == after;
      var t := Effective(TableOf(docs, slot), before, slot);
      assert t.Ok? ==> t.value - {} == t.value;
    } else {
      forall s ensures Effective(TableOf(docs, s), after + more, s) ==
                       var t := Effective(TableOf(docs, s), before, s);
                       if s in slots + {slot} then WithoutDocs(t, rounds[s].deletes) else t
      {
        EffectiveSnoc(TableOf(docs, s), after, more[0], s);
        assert more == [more[0]];
      }
    }
  }

  class Follower {
    var log: LogDb
    var docs: Tables
    var pending: seq<Pending>
    var commitKey: Option<U64>
    var rollback: map<Key, Merged>
    var leaderCommit: U64
    var commit: U64
    var uncommitted: U64
    var mergeIndex: U64
    var sequenceId: nat

    /** The log index up to which nothing is pending any more. */
    ghost var floor: int

    function View(): Store
      reads `log, `docs, `pending, `commitKey
    {
      Store(log, docs, pending, commitKey)
    }

    /** A process that has not started yet, on a store. */
    constructor (st: Store)
      ensures View() == st && rollback == map[]
    {
      log, docs, pending, commitKey, rollback := st.log, st.docs, st.pending, st.commitKey, map[];
      leaderCommit, commit, uncommitted, mergeIndex, sequenceId := NO_INDEX, NO_INDEX, NO_INDEX, NO_INDEX, 0;
      floor := -1;
    }

    /** Performs the records that are due, one table write and one key removal at a time. */
    method ApplyDue(upTo: U64, doReset: bool) returns (ok: bool, ghost writes: seq<Write>)
      requires InOrder(pending)
      modifies this`docs, this`pending
      ensures var ps := old(pending)[..Due(old(pending), upTo)];
              && (ok <==> CommitAll(old(docs), ps).Ok?)
              && (ok ==>
                  View() == old(View()).(docs := CommitAll(old(docs), ps).value, pending := old(pending)[|ps|..]))
              && (ok ==> writes == RecordWrites(old(docs), ps))
      ensures View() == ExecAll(old(View()), writes)
    {
      ghost var st := View();
      var ps := pending;
      ghost var due := Due(ps, upTo);
      writes := [];
      var i, done := 0, false;
      assert ps[..0] == [] && ps[0..] == ps;
      while i < |ps| && !done
        invariant 0 <= i <= |ps|
        invariant !done && i < due ==> CommitAll(st.docs, ps[..i]).Ok?
        invariant Applied(st, ps, if i < due then i else due, View(), writes)
        invariant done ==> due <= i
      {
        DueAt(ps, upTo, i);
        if upTo != NO_INDEX && ps[i].index <= upTo {
          var slot := ps[i].slot;
          var t := Perform(TableOf(docs, slot), ps[i].work, slot.collection == MAIL);
          if t.Err? {
            StepFails(st.docs, ps, i, due);
            return false, writes;
          }
          StepApplies(st, ps, i, View(), writes);
          docs := docs[slot := t.value];
          pending := pending[1..];
          writes := writes + [WriteTable(slot, t.value), DropPending];
        } else if !doReset {
          done := true;
        }
        i := i + 1;
      }
      ok := true;
    }

    /** Drops all pending records, and the entries after an index with the change records they list,
        in one write. */
    method Reset(upTo: U64)
      modifies this`log, this`pending, this`commitKey
      ensures View() == Exec(old(View()), ResetLog(upTo))
    {
      var entries, changes := KeysAfter(log, upTo);
      log, pending, commitKey := LogDb(log.raft - entries, log.changes - changes), [], None;
    }

    /** `commit_follower`: performs the records up to an index, which is stored first; with a reset
        it then drops all later records, entries and change records in one write. */
    method CommitFollower(applyUpTo: U64, doReset: bool) returns (r: Result<Option<RaftId>>, ghost writes: seq<Write>)
      requires InOrder(pending)
      modifies this`log, this`docs, this`pending, this`commitKey
      ensures r.Ok? <==> Outcome(old(View()), applyUpTo, doReset).Ok?
      ensures r.Ok? ==> View() == Outcome(old(View()), applyUpTo, doReset).value
      ensures r.Ok? ==> writes == CommitWrites(old(View()), applyUpTo, doReset)
      ensures View() == ExecAll(old(View()), writes)
      ensures r.Ok? && !doReset && applyUpTo != NO_INDEX ==>
                && (r.value.Some? <==> exists k :: k in log.raft && k.a == applyUpTo)
                && (r.value.Some? ==> r.value.value.index == applyUpTo)
      ensures r.Ok? && doReset ==> r.value == None
    {
      ghost var st := View();
      var upTo := applyUpTo;
      writes := [];
      if applyUpTo != NO_INDEX {
        commitKey := Some(applyUpTo);
        writes := [SetCommitKey(applyUpTo)];
      } else if commitKey.Some? {
        upTo := commitKey.value;
      } else {
        return Ok(None), [];
      }
      ExecPre(st, applyUpTo, upTo);
      ghost var first := writes;
      var ok, records := ApplyDue(upTo, doReset);
      writes := first + records;
      ExecConcat(st, first, records);
      if !ok {
        return Err(NotFound), writes;
      }
      if doReset {
        Reset(upTo);
        assert (writes + [ResetLog(upTo)])[..|writes|] == writes;
        writes := writes + [ResetLog(upTo)];
        return Ok(None), writes;
      }
      assert writes + [] == writes;
      var found := FindEntry(log, upTo);
      return Ok(found), writes;
    }

    /** What every follower process does first: it commits what an earlier one had decided to commit,
        drops all else that was pending, and takes the end of its log as its commit index. */
    method Start() returns (ok: bool)
      requires InOrder(pending) && (forall k :: k in log.raft ==> k.a < NO_INDEX)
      modifies this
      ensures floor == old(floor) && rollback == old(rollback)
      ensures ok <==> Outcome(old(View()), NO_INDEX, true).Ok?
      ensures ok ==>
                && docs == Outcome(old(View()), NO_INDEX, true).value.docs
                && log == Outcome(old(View()), NO_INDEX, true).value.log
                && (old(commitKey).Some? || old(pending) == [] ==> pending == [] && Valid())
                && commit == uncommitted && commitKey == Some(commit) && mergeIndex == NO_INDEX && sequenceId == 0
                && (log.raft == map[] ==> commit == NO_INDEX)
                && (log.raft != map[] ==>
                      (exists k :: k in log.raft && k.a == commit) && forall k :: k in log.raft ==> k.a <= commit)
    {
      var r, _ := CommitFollower(NO_INDEX, true);
      if r.Err? {
        return false;
      }
      var last := LastLog(log);
      var index := if last.Some? then last.value.index else NO_INDEX;
      commitKey := Some(index);
      leaderCommit, commit, uncommitted, mergeIndex, sequenceId := NO_INDEX, index, index, NO_INDEX, 0;
      return true;
    }

    // ----- Rounds

    /** Writes shipped log records; the round ends with the end marker or an empty message. */
    method HandleUpdateLog(changed: set<Slot>, updates: seq<LogUpdate>, eof: bool)
      returns (changed': set<Slot>, isDone: bool)
      modifies this`log, this`uncommitted, this`mergeIndex
      ensures Writer(log, uncommitted, mergeIndex, changed') ==
              WriteAll(old(Writer(log, uncommitted, mergeIndex, changed)), updates)
      ensures isDone <==> eof || updates == []
    {
      var w := Writer(log, uncommitted, mergeIndex, changed);
      ghost var w0 := w;
      for i := 0 to |updates|
        invariant w == WriteAll(w0, updates[..i])
      {
        assert updates[..i + 1][..i] == updates[..i];
        match updates[i] {
          case LogRecord(id, value) =>
            w := w.(db := w.db.(raft := w.db.raft[RaftKey(id) := value]), last := id.index);
            if w.mergeIndex == NO_INDEX {
              w := w.(mergeIndex := id.index);
            }
          case ChangeRecord(slot, change) =>
            w := w.(db := w.db.(changes := w.db.changes[ChangeKey(slot, w.last) := change]),
                    changed := w.changed + {slot});
        }
      }
      assert updates[..|updates|] == updates;
      log, uncommitted, mergeIndex, changed' := w.db, w.last, w.mergeIndex, w.changed;
      isDone := eof || updates == [];
    }

    /** The next pending key comes after all stored ones. */
    ghost predicate Valid()
      reads `pending, `uncommitted, `sequenceId, `floor
    {
      && InOrder(pending)
      && forall i :: 0 <= i < |pending| ==>
                       && Shaped(pending[i].work) && pending[i].index > floor
                       && (pending[i].index < uncommitted
                           || (pending[i].index == uncommitted && pending[i].number < sequenceId))
    }

    method AddPending(slot: Slot, work: Work)
      requires Valid() && Shaped(work) && floor < uncommitted
      modifies this`pending, this`sequenceId
      ensures Valid()
      ensures pending == old(pending) + [Pending(uncommitted, old(sequenceId), slot, work)]
    {
      pending := pending + [Pending(uncommitted, sequenceId, slot, work)];
      sequenceId := sequenceId + 1;
    }

    function Target(s: Slot): Result<Table>
      reads `docs, `pending
    {
      Effective(TableOf(docs, s), pending, s)
    }

    /** The folded changes of a slot in the present round. */
    function Round(s: Slot): Merged
      reads `log, `mergeIndex, `uncommitted
    {
      Merge(ChangesBetween(log.changes, s, mergeIndex, uncommitted))
    }

    /** `rounds` holds the folded changes of the present round. */
    ghost predicate IsRound(rounds: map<Slot, Merged>)
      reads `log, `mergeIndex, `uncommitted
    {
      forall s {:trigger Round(s)} :: s in rounds ==> rounds[s] == Round(s)
    }

    method FoldRound(slot: Slot) returns (changes: MergedChanges)
      ensures fresh(changes) && changes.View() == Round(slot)
    {
      var logged, first, last := log.changes, mergeIndex, uncommitted;
      changes := MergeChanges(logged, slot, first, last);
      IsMergedBetween(logged, slot, first, last, changes.View());
    }

    /** Folds the changes of one slot, records their deletes, and tells what to fetch. */
    method RequestSlot(slot: Slot, ghost before: seq<Pending>, ghost slots: set<Slot>, ghost rounds: map<Slot, Merged>)
      returns (fetch: Merged)
      requires Valid() && floor < uncommitted && slots <= rounds.Keys && slot in rounds.Keys - slots && IsRound(rounds)
      requires DeletesRecorded(docs, before, pending, slots, rounds)
      modifies this`pending, this`sequenceId
      ensures old(pending) <= pending
      ensures Valid() && DeletesRecorded(docs, before, pending, slots + {slot}, rounds)
      ensures fetch == rounds[slot].(deletes := {})
    {
      ghost var stored, m := pending, rounds[slot];
      var changes := FoldRound(slot);
      assert changes.View() == m;
      fetch := Merged(changes.inserts, changes.updates, {});
      if changes.deletes != {} {
        AddPending(slot, Remove(changes.deletes));
        RecordDeletes(docs, before, stored, slots, rounds, slot, [pending[|stored|]]);
      } else {
        RecordDeletes(docs, before, stored, slots, rounds, slot, []);
        assert stored + [] == stored;
      }
    }

    /** Takes up the next slot of the work list. */
    method NextSlot(work0: WorkList, ghost before: seq<Pending>, ghost done: set<Slot>, ghost rounds: map<Slot, Merged>)
      returns (work: WorkList, next: Option<(Slot, Merged)>)
      requires Valid() && floor < uncommitted && DistinctAccounts(work0) && IsRound(rounds)
      requires done <= rounds.Keys && Todo(work0) <= rounds.Keys && done !! Todo(work0)
      requires DeletesRecorded(docs, before, pending, done, rounds)
      modifies this`pending, this`sequenceId
      ensures old(pending) <= pending
      ensures Valid() && DistinctAccounts(work) && WorkSize(work) <= WorkSize(work0)
      ensures next.None? ==> work == [] && Todo(work0) == {} && pending == old(pending)
      ensures next.Some? ==>
                var (slot, m) := next.value;
                && slot in Todo(work0) && Todo(work) == Todo(work0) - {slot} && WorkSize(work) < WorkSize(work0)
                && m == rounds[slot].(deletes := {}) && DeletesRecorded(docs, before, pending, done + {slot}, rounds)
    {
      var slot;
      work, slot := PopSlot(work0);
      if slot.None? {
        return work, None;
      }
      var fetch := RequestSlot(slot.value, before, done, rounds);
      return work, Some((slot.value, fetch));
    }

    /** Works through the slots changed in a round: records their deletes, and stops at the first
        slot that needs documents from the leader. */
    method RequestUpdates(work0: WorkList, ghost rounds: map<Slot, Merged>)
      returns (work: WorkList, ask: Option<(Slot, Merged)>)
      requires Valid() && floor < uncommitted && DistinctAccounts(work0) && Todo(work0) <= rounds.Keys
               && IsRound(rounds)
      modifies this`pending, this`sequenceId
      ensures old(pending) <= pending
      ensures Valid() && DistinctAccounts(work) && Todo(work) <= Todo(work0)
      ensures DeletesRecorded(docs, old(pending), pending, Todo(work0) - Todo(work), rounds)
      ensures match ask
              case None => work == []
              case Some((slot, m)) =>
                slot in Todo(work0) - Todo(work) && m == rounds[slot].(deletes := {}) && !m.IsEmpty()
      ensures forall s :: s in Todo(work0) - Todo(work) && (ask.None? || s != ask.value.0) ==>
              rounds[s].inserts == {} && rounds[s].updates == {}
      ensures WorkSize(work) <= WorkSize(work0) && (ask.Some? ==> WorkSize(work) < WorkSize(work0))
    {
      work := work0;
      ghost var before, done: set<Slot> := pending, {};
      while true
        invariant Valid() && DistinctAccounts(work) && WorkSize(work) <= WorkSize(work0)
        invariant done !! Todo(work) && done == Todo(work0) - Todo(work) && Todo(work) <= Todo(work0)
        invariant OnlyDeletes(docs, before, pending, done, rounds) && before <= pending
        decreases WorkSize(work)
      {
        var next;
        work, next := NextSlot(work, before, done, rounds);
        if next.None? {
          return work, None;
        }
        done := done + {next.value.0};
        if next.value.1.inserts != {} || next.value.1.updates != {} {
          return work, next;
        }
      }
    }

    /** Stores the fetched documents of a slot as a pending record. */
    method StoreUpdates(slot: Slot, updates: seq<DocUpdate>)
      requires Valid() && floor < uncommitted && Shaped(Apply(updates))
      modifies this`pending, this`sequenceId
      ensures old(pending) <= pending
      ensures Valid()
      ensures forall s :: Target(s) ==
                          var t := old(Target(s));
                          if s == slot && t.Ok? then ApplyUpdates(t.value, updates, s.collection == MAIL) else t
    {
      ghost var stored := pending;
      AddPending(slot, Apply(updates));
      forall s ensures Target(s) ==
                       var t := Effective(TableOf(docs, s), stored, s);
                       if s == slot && t.Ok? then ApplyUpdates(t.value, updates, s.collection == MAIL) else t
      {
        EffectiveSnoc(TableOf(docs, s), stored, pending[|stored|], s);
      }
    }

    ghost predicate IsDue()
      reads `leaderCommit, `uncommitted
    {
      leaderCommit != NO_INDEX && uncommitted <= leaderCommit
    }

    /** Commits everything stored so far if the leader has committed that far. */
    method CommitUpdates() returns (ok: bool)
      requires Valid()
      modifies this`log, this`docs, this`pending, this`commitKey, this`commit
      ensures ok ==> Valid() && log == old(log)
      ensures ok <==> old(IsDue()) ==>
              CommitAll(old(docs), old(pending)).Ok? && exists k :: k in old(log).raft && k.a == uncommitted
      ensures ok && old(IsDue()) ==>
                && docs == CommitAll(old(docs), old(pending)).value && pending == []
                && commit == uncommitted && commitKey == Some(uncommitted)
      ensures !old(IsDue()) ==>
              docs == old(docs) && pending == old(pending) && commit == old(commit) && commitKey == old(commitKey)
    {
      if leaderCommit != NO_INDEX && uncommitted <= leaderCommit {
        DueWhole(pending, uncommitted);
        assert pending[..|pending|] == pending;
        ghost var st := View();
        var r, _ := CommitFollower(uncommitted, false);
        if r.Err? || r.value.None? {
          return false;
        }
        commit := uncommitted;
      }
      return true;
    }
  }

  lemma {:induction false} DueWhole(ps: seq<Pending>, upTo: U64)
    requires upTo != NO_INDEX && forall i :: 0 <= i < |ps| ==> ps[i].index <= upTo
    ensures Due(ps, upTo) == |ps|
  {
    if ps != [] {
      DueWhole(ps[1..], upTo);
    }
  }

  // ----- Committing step by step

  /** The first `k` records have been performed. */
  ghost predicate Applied(st: Store, ps: seq<Pending>, k: nat, st': Store, writes: seq<Write>) {
    && k <= |ps| && CommitAll(st.docs, ps[..k]).Ok?
    && st' == st.(docs := CommitAll(st.docs, ps[..k]).value, pending := ps[k..])
    && writes == RecordWrites(st.docs, ps[..k])
    && st' == ExecAll(st, writes)
  }

  lemma StepApplies(st: Store, ps: seq<Pending>, i: nat, st': Store, writes: seq<Write>)
    requires ps == st.pending && i < |ps| && Applied(st, ps, i, st', writes) && CommitOne(st'.docs, ps[i]).Ok?
    ensures var t := TableOf(CommitOne(st'.docs, ps[i]).value, ps[i].slot);
            Applied(st, ps, i + 1, st'.(docs := st'.docs[ps[i].slot := t], pending := ps[i + 1..]),
                    writes + [WriteTable(ps[i].slot, t), DropPending])
  {
    assert ps[..i + 1][..i] == ps[..i];
    assert ps[..i + 1] == ps[..i] + [ps[i]];
    WholeRecords(st, ps[..i + 1]);
  }

  lemma StepFails(docs: Tables, ps: seq<Pending>, i: nat, due: nat)
    requires i < due <= |ps| && CommitAll(docs, ps[..i]).Ok? && CommitOne(CommitAll(docs, ps[..i]).value, ps[i]).Err?
    ensures CommitAll(docs, ps[..due]).Err?
  {
    assert ps[..i + 1][..i] == ps[..i];
    if CommitAll(docs, ps[..due]).Ok? {
      PrefixCommits(docs, ps[..due], i + 1);
      assert ps[..due][..i + 1] == ps[..i + 1];
    }
  }
}

/** Shipping the log in batches: the leader's paged reader, the follower's writer, and the proof
    that any paging transfers exactly the missing part of the log. */
module LogShipping {
  import opened Common
  import opened KeyOrder
  import opened ChangeLog
  import opened LogStore

  /** What a batch carries: a raft entry, or the change record of the last entry for a slot. */
  datatype LogUpdate = LogRecord(id: RaftId, log: LogValue) | ChangeRecord(slot: Slot, change: ChangeValue)

  /** A batch, closed by an end marker or not, and where to continue. */
  datatype Batch = Batch(updates: seq<LogUpdate>, eof: bool, pending: AccountGroups, last: U64)

  const RAFT_ID_SIZE := 16
  const CHANGE_HEADER_SIZE := 5

  // ----- What is to be sent

  function ChangeUpdates(db: LogDb, account: AccountId, collections: set<Collection>, id: nat): seq<LogUpdate>
    decreases |collections|
  {
    if collections == {} then []
    else
      var c := Highest(collections);
      var k := Key(account, c, id);
      (if k in db.changes then [ChangeRecord(Slot(account, c), db.changes[k])] else [])
        + ChangeUpdates(db, account, collections - {c}, id)
  }

  function GroupsSize(groups: AccountGroups): nat {
    if groups == [] then 0 else GroupsSize(groups[..|groups| - 1]) + 1 + |groups[|groups| - 1].1|
  }

  /** Takes one account off the last group. */
  function PopAccount(groups: AccountGroups): AccountGroups
    requires groups != [] && groups[|groups| - 1].1 != []
  {
    var (collections, accounts) := groups[|groups| - 1];
    groups[..|groups| - 1] + [(collections, accounts[..|accounts| - 1])]
  }

  lemma PopShrinks(groups: AccountGroups)
    requires groups != [] && groups[|groups| - 1].1 != []
    ensures PopAccount(groups) != []
    ensures GroupsSize(PopAccount(groups)) == GroupsSize(groups) - 1
  {
    assert PopAccount(groups)[..|groups| - 1] == groups[..|groups| - 1];
  }

  function GroupUpdates(db: LogDb, groups: AccountGroups, id: nat): seq<LogUpdate>
    decreases GroupsSize(groups)
  {
    if groups == [] then []
    else
      var (collections, accounts) := groups[|groups| - 1];
      if accounts == [] then GroupUpdates(db, groups[..|groups| - 1], id)
      else
        PopShrinks(groups);
        ChangeUpdates(db, accounts[|accounts| - 1], collections, id) + GroupUpdates(db, PopAccount(groups), id)
  }

  function EntryUpdates(db: LogDb, entry: Entry, id: nat): seq<LogUpdate> {
    match entry
    case Item(account, collections) => ChangeUpdates(db, account, collections, id)
    case SnapshotOf(groups) => GroupUpdates(db, groups, id)
  }

  /** An entry with its change records. */
  function Whole(db: LogDb, k: Key): seq<LogUpdate>
    requires k in db.raft && k.a < NO_INDEX
  {
    [LogRecord(RaftId(k.b, k.a), db.raft[k])] + EntryUpdates(db, db.raft[k].entry, k.a)
  }

  predicate IsAfter(k: Key, start: U64) {
    k.a > start || start == NO_INDEX
  }

  /** The updates of the entries at `ks[i..]` that lie after `start`, up to the one with index `to`. */
  function Stream(db: LogDb, ks: seq<Key>, i: nat, start: U64, to: U64): seq<LogUpdate>
    requires i <= |ks| && forall k :: k in ks ==> k in db.raft && k.a < NO_INDEX
    decreases |ks| - i
  {
    if i == |ks| then []
    else
      var k := ks[i];
      assert k in ks;
      if !IsAfter(k, start) then Stream(db, ks, i + 1, start, to)
      else Whole(db, k) + if k.a == to then [] else Stream(db, ks, i + 1, start, to)
  }

  /** Everything still to be sent when the accounts `pending` of entry `last` have not been sent. */
  function Rest(db: LogDb, ks: seq<Key>, last: U64, pending: AccountGroups, to: U64): seq<LogUpdate>
    requires forall k :: k in ks ==> k in db.raft && k.a < NO_INDEX
  {
    GroupUpdates(db, pending, last) + if last == to then [] else Stream(db, ks, 0, last, to)
  }

  // ----- Resuming a stream

  lemma {:induction false} StreamSkips(db: LogDb, ks: seq<Key>, i: nat, j: nat, start: U64, to: U64)
    requires forall k :: k in ks ==> k in db.raft && k.a < NO_INDEX
    requires i <= j <= |ks| && forall n :: i <= n < j ==> !IsAfter(ks[n], start)
    ensures Stream(db, ks, i, start, to) == Stream(db, ks, j, start, to)
    decreases j - i
  {
    if i < j {
      assert ks[i] in ks;
      StreamSkips(db, ks, i + 1, j, start, to);
    }
  }

  lemma StreamNext(db: LogDb, ks: seq<Key>, i: nat, start: U64, to: U64)
    requires forall k :: k in ks ==> k in db.raft && k.a < NO_INDEX
    requires i < |ks| && IsAfter(ks[i], start)
    ensures ks[i] in ks
    ensures Stream(db, ks, i, start, to) ==
            Whole(db, ks[i]) + if ks[i].a == to then [] else Stream(db, ks, i + 1, start, to)
  {
  }

  lemma {:induction false} StreamSame(db: LogDb, ks: seq<Key>, i: nat, start: U64, start': U64, to: U64)
    requires forall k :: k in ks ==> k in db.raft && k.a < NO_INDEX
    requires i <= |ks| && forall n :: i <= n < |ks| ==> IsAfter(ks[n], start) && IsAfter(ks[n], start')
    ensures Stream(db, ks, i, start, to) == Stream(db, ks, i, start', to)
    decreases |ks| - i
  {
    if i < |ks| {
      StreamSame(db, ks, i + 1, start, start', to);
      StreamNext(db, ks, i, start, to);
      StreamNext(db, ks, i, start', to);
      assert Stream(db, ks, i + 1, start, to) == Stream(db, ks, i + 1, start', to);
    }
  }

  /** After the entry at `ks[i - 1]` the stream goes on as if it had been started there. */
  lemma StreamResumes(db: LogDb, ks: seq<Key>, i: nat, start: U64, to: U64)
    requires ValidLog(db) && IsScan(ks, db.raft.Keys)
    requires 0 < i <= |ks| && IsAfter(ks[i - 1], start)
    ensures ks[i - 1].a < NO_INDEX
    ensures Stream(db, ks, i, start, to) == Stream(db, ks, 0, ks[i - 1].a, to)
  {
    assert ks[i - 1] in ks;
    var last: U64 := ks[i - 1].a;
    forall n | i <= n < |ks| ensures IsAfter(ks[n], start) && IsAfter(ks[n], last) {
      assert ks[n] in ks && Before(ks[i - 1], ks[n]);
    }
    forall n | 0 <= n < i ensures !IsAfter(ks[n], last) {
      assert ks[n] in ks && (n < i - 1 ==> Before(ks[n], ks[i - 1]));
    }
    StreamSame(db, ks, i, start, last, to);
    StreamSkips(db, ks, 0, i, last, to);
  }

  // ----- The size of a batch

  /** An entry counts with its id of two numbers, a change record with its account and collection. */
  function UpdateSize(u: LogUpdate): nat {
    match u
    case LogRecord(_, log) => log.size + 8 + 8
    case ChangeRecord(_, change) => change.size + 4 + 1
  }

  function Bytes(us: seq<LogUpdate>): nat {
    if us == [] then 0 else Bytes(us[..|us| - 1]) + UpdateSize(us[|us| - 1])
  }

  lemma {:induction false} BytesConcat(us: seq<LogUpdate>, vs: seq<LogUpdate>)
    ensures Bytes(us + vs) == Bytes(us) + Bytes(vs)
    decreases |vs|
  {
    if vs == [] {
      assert us + vs == us;
    } else {
      var n := |vs| - 1;
      BytesConcat(us, vs[..n]);
      assert (us + vs)[..|us| + n] == us + vs[..n];
    }
  }

  /** Without its last entry, the one with index `last`, a batch is below the limit. */
  ghost predicate EntriesFit(db: LogDb, us: seq<LogUpdate>, last: nat, batchSize: nat) {
    us == [] || exists k, n: nat :: EndsWithEntry(db, us, n, k) && k.a == last && (n == 0 || Bytes(us[..n]) < batchSize)
  }

  ghost predicate EndsWithEntry(db: LogDb, us: seq<LogUpdate>, n: nat, k: Key) {
    n <= |us| && k in db.raft && k.a < NO_INDEX && us[n..] == Head(db, k)
  }

  /** Without the change records of its last account a batch, which was filled before, is below the limit. */
  ghost predicate AccountsFit(db: LogDb, us: seq<LogUpdate>, id: nat, filled: nat, batchSize: nat) {
    || us == []
    || exists account, collections, n: nat ::
         EndsWithAccount(db, us, n, account, collections, id) && (n == 0 || filled + Bytes(us[..n]) < batchSize)
  }

  ghost predicate EndsWithAccount(db: LogDb, us: seq<LogUpdate>, n: nat, account: AccountId,
                                  collections: set<Collection>, id: nat)
  {
    n <= |us| && us[n..] == ChangeUpdates(db, account, collections, id)
  }

  /** Why no further entry was read: it was the last one, the batch is full, or a snapshot comes first. */
  ghost predicate Stopped(db: LogDb, us: seq<LogUpdate>, last: U64, to: U64, batchSize: nat) {
    || last == to || Bytes(us) >= batchSize
    || (exists k :: k in db.raft && k.a == last && db.raft[k].entry.SnapshotOf?)
    || (forall k :: k in db.raft ==> !IsAfter(k, last))
  }

  /** A batch exceeds the limit by its last entry or account only, and ends before that for a reason only. */
  ghost predicate IsFilled(db: LogDb, isFirst: bool, b: Batch, to: U64, batchSize: nat) {
    && (exists m :: 0 <= m <= |b.updates| && EntriesFit(db, b.updates[..m], b.last, batchSize)
                    && AccountsFit(db, b.updates[m..], b.last, Bytes(b.updates[..m]), batchSize))
    && (b.pending != [] ==> Bytes(b.updates) >= batchSize)
    && (isFirst ==> Stopped(db, b.updates, b.last, to, batchSize))
  }

  lemma OneMoreEntry(db: LogDb, us: seq<LogUpdate>, k: Key, batchSize: nat)
    requires k in db.raft && k.a < NO_INDEX && (us == [] || Bytes(us) < batchSize)
    ensures EntriesFit(db, us + Head(db, k), k.a, batchSize)
  {
    var all := us + Head(db, k);
    assert all[|us|..] == Head(db, k) && all[..|us|] == us;
    assert EndsWithEntry(db, all, |us|, k);
  }

  lemma OneMoreAccount(db: LogDb, us: seq<LogUpdate>, account: AccountId, collections: set<Collection>, id: nat,
                       filled: nat, batchSize: nat)
    requires us == [] || filled + Bytes(us) < batchSize
    ensures AccountsFit(db, us + ChangeUpdates(db, account, collections, id), id, filled, batchSize)
  {
    var more := ChangeUpdates(db, account, collections, id);
    var all := us + more;
    assert all[|us|..] == more && all[..|us|] == us;
    assert EndsWithAccount(db, all, |us|, account, collections, id);
  }

  /** The entries read so far, their size, and whether to stop. */
  ghost predicate Measured(db: LogDb, us: seq<LogUpdate>, last: U64, to: U64, size: nat, batchSize: nat, done: bool) {
    && size == Bytes(us) && EntriesFit(db, us, last, batchSize)
    && if done then Stopped(db, us, last, to, batchSize) else us == [] || size < batchSize
  }

  lemma MeasureOne(db: LogDb, us: seq<LogUpdate>, last: U64, to: U64, size: nat, batchSize: nat, k: Key)
    requires Measured(db, us, last, to, size, batchSize, false) && k in db.raft && k.a < NO_INDEX
    ensures var size' := size + Bytes(Head(db, k));
            var done := db.raft[k].entry.SnapshotOf? || k.a == to || size' >= batchSize;
            Measured(db, us + Head(db, k), k.a, to, size', batchSize, done)
  {
    OneMoreEntry(db, us, k, batchSize);
    BytesConcat(us, Head(db, k));
  }

  /** The accounts sent so far, the size with them, and whether the batch is full. */
  ghost predicate MeasuredAccounts(db: LogDb, us: seq<LogUpdate>, id: nat, filled: nat, size: nat, batchSize: nat,
                                   isFull: bool)
  {
    && size == filled + Bytes(us) && AccountsFit(db, us, id, filled, batchSize)
    && if isFull then size >= batchSize else us == [] || size < batchSize
  }

  lemma MeasureAccount(db: LogDb, us: seq<LogUpdate>, id: nat, filled: nat, size: nat, batchSize: nat,
                       account: AccountId, collections: set<Collection>, more: seq<LogUpdate>)
    requires MeasuredAccounts(db, us, id, filled, size, batchSize, false)
    requires more == ChangeUpdates(db, account, collections, id)
    ensures var size' := size + Bytes(more);
            MeasuredAccounts(db, us + more, id, filled, size', batchSize, size' >= batchSize)
  {
    OneMoreAccount(db, us, account, collections, id, filled, batchSize);
    BytesConcat(us, more);
  }

  lemma Filled(db: LogDb, us: seq<LogUpdate>, vs: seq<LogUpdate>, isFirst: bool, pending: AccountGroups, last: U64,
               to: U64, batchSize: nat, eof: bool)
    requires EntriesFit(db, us, last, batchSize) && AccountsFit(db, vs, last, Bytes(us), batchSize)
    requires pending != [] ==> Bytes(us) + Bytes(vs) >= batchSize
    requires isFirst ==> Stopped(db, us, last, to, batchSize)
    ensures IsFilled(db, isFirst, Batch(us + vs, eof, pending, last), to, batchSize)
  {
    var all := us + vs;
    BytesConcat(us, vs);
    assert all[..|us|] == us && all[|us|..] == vs;
  }

  // ----- The leader's reader

  /** Every change record that an entry lists is in the store. */
  predicate Recorded(db: LogDb, account: AccountId, collections: set<Collection>, id: nat) {
    forall c :: c in collections ==> Key(account, c, id) in db.changes
  }

  /** Every group names collections, and every change record it lists is in the store. */
  ghost predicate GroupsRecorded(db: LogDb, groups: AccountGroups, id: nat) {
    && (forall g :: g in groups ==> g.0 != {})
    && (forall g, a :: g in groups && a in g.1 ==> Recorded(db, a, g.0, id))
  }

  ghost predicate EntryRecorded(db: LogDb, entry: Entry, id: nat) {
    match entry
    case Item(account, collections) => Recorded(db, account, collections, id)
    case SnapshotOf(groups) => GroupsRecorded(db, groups, id)
  }

  ghost predicate Complete(db: LogDb) {
    forall k :: k in db.raft ==> EntryRecorded(db, db.raft[k].entry, k.a)
  }

  method GetLogChanges(db: LogDb, account: AccountId, collections: set<Collection>, id: nat)
    returns (r: Result<(seq<LogUpdate>, nat)>)
    ensures r.Ok? <==> Recorded(db, account, collections, id)
    ensures r.Ok? ==> r.value.0 == ChangeUpdates(db, account, collections, id) && r.value.1 == Bytes(r.value.0)
  {
    var todo := collections;
    var entries: seq<LogUpdate>, size: nat := [], 0;
    while todo != {}
      invariant todo <= collections
      invariant forall c :: c in collections - todo ==> Key(account, c, id) in db.changes
      invariant entries + ChangeUpdates(db, account, todo, id) == ChangeUpdates(db, account, collections, id)
      invariant size == Bytes(entries)
      decreases |todo|
    {
      var c := Highest(todo);
      var k := Key(account, c, id);
      if k !in db.changes {
        return Err(InternalError);
      }
      size := size + db.changes[k].size + CHANGE_HEADER_SIZE;
      entries := entries + [ChangeRecord(Slot(account, c), db.changes[k])];
      todo := todo - {c};
    }
    return Ok((entries, size));
  }

  /** The change records of the last account of the last group. */
  method ReadAccount(db: LogDb, groups: AccountGroups, id: nat) returns (r: Result<(seq<LogUpdate>, nat)>)
    requires groups != [] && groups[|groups| - 1].1 != []
    ensures r.Err? ==> !GroupsRecorded(db, groups, id)
    ensures r.Ok? ==>
              && GroupUpdates(db, groups, id) == r.value.0 + GroupUpdates(db, PopAccount(groups), id)
              && (GroupsRecorded(db, groups, id) ==> r.value.0 != [])
              && r.value.1 == Bytes(r.value.0)
              && var (collections, accounts) := groups[|groups| - 1];
                 r.value.0 == ChangeUpdates(db, accounts[|accounts| - 1], collections, id)
  {
    var n := |groups| - 1;
    var (collections, accounts) := groups[n];
    var account := accounts[|accounts| - 1];
    assert groups[n] in groups && account in accounts;
    r := GetLogChanges(db, account, collections, id);
  }

  /** Sending accounts has come from `groups` to `pending`. */
  ghost predicate SentAccounts(db: LogDb, groups: AccountGroups, id: nat, pending: AccountGroups,
                               entries: seq<LogUpdate>, isFull: bool)
  {
    && GroupUpdates(db, groups, id) == entries + GroupUpdates(db, pending, id)
    && ((pending == groups && !isFull) || GroupsSize(pending) < GroupsSize(groups))
    && (GroupsRecorded(db, groups, id) ==> GroupsRecorded(db, pending, id) && (isFull ==> entries != []))
  }

  lemma SendAccount(db: LogDb, groups: AccountGroups, id: nat, pending: AccountGroups, entries: seq<LogUpdate>,
                    more: seq<LogUpdate>, isFull: bool)
    requires SentAccounts(db, groups, id, pending, entries, false)
    requires pending != [] && pending[|pending| - 1].1 != []
    requires GroupUpdates(db, pending, id) == more + GroupUpdates(db, PopAccount(pending), id)
    requires GroupsRecorded(db, pending, id) ==> more != []
    ensures SentAccounts(db, groups, id, PopAccount(pending), entries + more, isFull)
  {
    PopShrinks(pending);
    PopKeepsRecorded(db, pending, id);
    var rest := GroupUpdates(db, PopAccount(pending), id);
    assert entries + (more + rest) == (entries + more) + rest;
  }

  lemma DropGroup(db: LogDb, groups: AccountGroups, id: nat, pending: AccountGroups, entries: seq<LogUpdate>)
    requires SentAccounts(db, groups, id, pending, entries, false)
    requires pending != [] && pending[|pending| - 1].1 == []
    ensures SentAccounts(db, groups, id, pending[..|pending| - 1], entries, false)
  {
  }

  /** Sends accounts of the last group until the batch is full. A group is dropped only when it is
      looked at again, so an emptied group may be left behind. */
  method ReadPending(db: LogDb, groups: AccountGroups, id: nat, filled: nat, batchSize: nat)
    returns (r: Result<(seq<LogUpdate>, AccountGroups)>)
    requires groups != []
    ensures r.Err? ==> !GroupsRecorded(db, groups, id)
    ensures r.Ok? ==>
              && GroupUpdates(db, groups, id) == r.value.0 + GroupUpdates(db, r.value.1, id)
              && GroupsSize(r.value.1) < GroupsSize(groups)
              && (GroupsRecorded(db, groups, id) ==>
                  GroupsRecorded(db, r.value.1, id) && (r.value.0 == [] ==> r.value.1 == []))
              && AccountsFit(db, r.value.0, id, filled, batchSize)
              && (r.value.1 != [] ==> filled + Bytes(r.value.0) >= batchSize)
  {
    var pending := groups;
    var entries: seq<LogUpdate>, size: nat := [], filled;
    var isFull := false;
    while pending != [] && !isFull
      invariant SentAccounts(db, groups, id, pending, entries, isFull)
      invariant MeasuredAccounts(db, entries, id, filled, size, batchSize, isFull)
      decreases GroupsSize(pending), !isFull
    {
      var n := |pending| - 1;
      if pending[n].1 != [] {
        var changes := ReadAccount(db, pending, id);
        if changes.Err? {
          return Err(changes.error);
        }
        var more := changes.value.0;
        isFull := size + changes.value.1 >= batchSize;
        SendAccount(db, groups, id, pending, entries, more, isFull);
        MeasureAccount(db, entries, id, filled, size, batchSize, pending[n].1[|pending[n].1| - 1], pending[n].0, more);
        PopShrinks(pending);
        pending := PopAccount(pending);
        entries := entries + more;
        size := size + changes.value.1;
      } else {
        DropGroup(db, groups, id, pending, entries);
        pending := pending[..n];
      }
    }
    return Ok((entries, pending));
  }

  lemma PopKeepsRecorded(db: LogDb, groups: AccountGroups, id: nat)
    requires groups != [] && groups[|groups| - 1].1 != []
    ensures GroupsRecorded(db, groups, id) ==> GroupsRecorded(db, PopAccount(groups), id)
  {
    var n := |groups| - 1;
    var last := groups[n];
    assert last in groups;
    assert forall a :: a in last.1[..|last.1| - 1] ==> a in last.1;
    forall g | g in PopAccount(groups) && GroupsRecorded(db, groups, id) ensures g.0 != {} {
      if g in groups[..n] {
        assert g in groups;
      }
    }
    forall g, a | g in PopAccount(groups) && a in g.1 && GroupsRecorded(db, groups, id)
      ensures Recorded(db, a, g.0, id)
    {
      if g in groups[..n] {
        assert g in groups;
      }
    }
  }

  /** Reading from `start` has come to the entry `last`, or there is nothing after `start`. */
  ghost predicate Reached(db: LogDb, start: U64, last: U64, pending: AccountGroups) {
    || (last == start && pending == [] && forall k :: k in db.raft ==> !IsAfter(k, start))
    || exists k :: k in db.raft && IsAfter(k, start) && k.a == last && pending == Deferred(db.raft[k].entry)
  }

  /** Reading on to `last'` has not passed an entry `to` that was ahead. */
  ghost predicate Within(db: LogDb, last: U64, to: U64, last': U64) {
    forall k :: k in db.raft && k.a == to && IsAfter(k, last) ==> last' == to || IsAfter(k, last')
  }

  /** What is left of a stream once the entries before `ks[i]` have been read. */
  ghost function Tail(db: LogDb, ks: seq<Key>, i: nat, start: U64, last: U64, pending: AccountGroups,
                      to: U64): seq<LogUpdate>
    requires i <= |ks| && forall k :: k in ks ==> k in db.raft && k.a < NO_INDEX
  {
    GroupUpdates(db, pending, last) + if last == to then [] else Stream(db, ks, i, start, to)
  }

  /** What reading one entry sends at once: a snapshot leaves its change records for later. */
  function Head(db: LogDb, k: Key): seq<LogUpdate>
    requires k in db.raft && k.a < NO_INDEX
  {
    var entry := db.raft[k].entry;
    [LogRecord(RaftId(k.b, k.a), db.raft[k])]
      + if entry.Item? then ChangeUpdates(db, entry.account, entry.collections, k.a) else []
  }

  function Deferred(entry: Entry): AccountGroups {
    if entry.Item? then [] else entry.groups
  }

  lemma TailStep(db: LogDb, ks: seq<Key>, i: nat, start: U64, last: U64, to: U64)
    requires i < |ks| && forall k :: k in ks ==> k in db.raft && k.a < NO_INDEX
    requires last != to
    ensures ks[i] in ks
    ensures !IsAfter(ks[i], start) ==> Tail(db, ks, i, start, last, [], to) == Tail(db, ks, i + 1, start, last, [], to)
    ensures var k := ks[i];
            IsAfter(k, start) ==>
              Tail(db, ks, i, start, last, [], to) ==
              Head(db, k) + Tail(db, ks, i + 1, start, k.a, Deferred(db.raft[k].entry), to)
  {
    assert ks[i] in ks;
    if IsAfter(ks[i], start) {
      StreamNext(db, ks, i, start, to);
      WholeIsHead(db, ks[i]);
      var k := ks[i];
      var rest := if k.a == to then [] else Stream(db, ks, i + 1, start, to);
      var groups := GroupUpdates(db, Deferred(db.raft[k].entry), k.a);
      assert (Head(db, k) + groups) + rest == Head(db, k) + (groups + rest);
    }
  }

  /** What is sent of an entry is sent at once or deferred. */
  lemma WholeIsHead(db: LogDb, k: Key)
    requires k in db.raft && k.a < NO_INDEX
    ensures Whole(db, k) == Head(db, k) + GroupUpdates(db, Deferred(db.raft[k].entry), k.a)
  {
  }

  method ReadEntry(db: LogDb, k: Key) returns (r: Result<(seq<LogUpdate>, nat)>)
    requires k in db.raft && k.a < NO_INDEX
    ensures r.Err? ==> !EntryRecorded(db, db.raft[k].entry, k.a)
    ensures r.Ok? ==> r.value.0 == Head(db, k) && r.value.1 == Bytes(r.value.0)
  {
    var entries := [LogRecord(RaftId(k.b, k.a), db.raft[k])];
    var size: nat := db.raft[k].size + RAFT_ID_SIZE;
    assert entries[..0] == [] && Bytes(entries) == size;
    match db.raft[k].entry {
      case Item(account, collections) =>
        var changes := GetLogChanges(db, account, collections, k.a);
        if changes.Err? {
          return Err(changes.error);
        }
        BytesConcat(entries, changes.value.0);
        return Ok((entries + changes.value.0, size + changes.value.1));
      case SnapshotOf(_) =>
        return Ok((entries, size));
    }
  }

  /** What reading entries after `start` has come to before `ks[i]`. */
  ghost predicate ReadTo(db: LogDb, ks: seq<Key>, i: nat, start: U64, to: U64, last: U64, pending: AccountGroups,
                         entries: seq<LogUpdate>, size: nat, batchSize: nat, done: bool)
    requires i <= |ks| && ValidLog(db) && IsScan(ks, db.raft.Keys)
  {
    && Read(db, ks, i, start, last, pending, to, entries) && Unpassed(ks, i, start, last, to)
    && Measured(db, entries, last, to, size, batchSize, done)
    && (!done ==> pending == [] && last != to) && (last == start ==> !done)
  }

  lemma ReadNext(db: LogDb, ks: seq<Key>, i: nat, start: U64, to: U64, last: U64, entries: seq<LogUpdate>, size: nat,
                 batchSize: nat)
    requires i < |ks| && ValidLog(db) && IsScan(ks, db.raft.Keys) && IsAfter(ks[i], start)
    requires ReadTo(db, ks, i, start, to, last, [], entries, size, batchSize, false)
    ensures ks[i] in db.raft && ks[i].a < NO_INDEX
    ensures var k := ks[i];
            var size' := size + Bytes(Head(db, k));
            var done := db.raft[k].entry.SnapshotOf? || k.a == to || size' >= batchSize;
            ReadTo(db, ks, i + 1, start, to, k.a, Deferred(db.raft[k].entry),
                   entries + Head(db, k), size', batchSize, done)
  {
    assert ks[i] in ks;
    ReadOne(db, ks, i, start, last, to, entries);
    MeasureOne(db, entries, last, to, size, batchSize, ks[i]);
  }

  lemma ReadSkips(db: LogDb, ks: seq<Key>, i: nat, start: U64, to: U64, last: U64, entries: seq<LogUpdate>, size: nat,
                  batchSize: nat)
    requires i < |ks| && ValidLog(db) && IsScan(ks, db.raft.Keys) && !IsAfter(ks[i], start)
    requires ReadTo(db, ks, i, start, to, last, [], entries, size, batchSize, false)
    ensures ReadTo(db, ks, i + 1, start, to, last, [], entries, size, batchSize, false)
  {
    SkipOne(db, ks, i, start, last, to, entries);
  }

  lemma ReadEnds(db: LogDb, ks: seq<Key>, i: nat, start: U64, to: U64, last: U64, pending: AccountGroups,
                 entries: seq<LogUpdate>, size: nat, batchSize: nat, done: bool)
    requires i <= |ks| && ValidLog(db) && IsScan(ks, db.raft.Keys) && (done || i == |ks|)
    requires ReadTo(db, ks, i, start, to, last, pending, entries, size, batchSize, done)
    ensures Stream(db, ks, 0, start, to) == entries + Rest(db, ks, last, pending, to)
    ensures Reached(db, start, last, pending) && Within(db, start, to, last)
    ensures Measured(db, entries, last, to, size, batchSize, true)
  {
    TailIsRest(db, ks, i, start, last, pending, to, entries);
    UnpassedIsWithin(db, ks, i, start, last, to);
    if !done {
      AllRead(db, ks, start, last, pending, to, entries);
    }
  }

  /** Reads entries after `start` until `to`, a snapshot, or a full batch. */
  method ReadEntries(db: LogDb, ks: seq<Key>, start: U64, to: U64, batchSize: nat)
    returns (r: Result<(seq<LogUpdate>, AccountGroups, U64, nat)>)
    requires ValidLog(db) && IsScan(ks, db.raft.Keys) && start != to
    ensures r.Err? ==> !Complete(db)
    ensures r.Ok? ==>
              var (entries, pending, last, size) := r.value;
              && Stream(db, ks, 0, start, to) == entries + Rest(db, ks, last, pending, to)
              && Reached(db, start, last, pending)
              && Within(db, start, to, last)
              && size == Bytes(entries) && EntriesFit(db, entries, last, batchSize)
              && Stopped(db, entries, last, to, batchSize)
  {
    var entries: seq<LogUpdate>, pending: AccountGroups, last: U64, size: nat := [], [], start, 0;
    var i, done := 0, false;
    while i < |ks| && !done
      invariant 0 <= i <= |ks|
      invariant ReadTo(db, ks, i, start, to, last, pending, entries, size, batchSize, done)
    {
      var k := ks[i];
      if IsAfter(k, start) {
        assert k in ks;
        var entry := ReadEntry(db, k);
        if entry.Err? {
          return Err(entry.error);
        }
        ReadNext(db, ks, i, start, to, last, entries, size, batchSize);
        last := k.a;
        size := size + entry.value.1;
        entries := entries + entry.value.0;
        pending := Deferred(db.raft[k].entry);
        done := db.raft[k].entry.SnapshotOf? || k.a == to || size >= batchSize;
      } else {
        ReadSkips(db, ks, i, start, to, last, entries, size, batchSize);
      }
      i := i + 1;
    }
    ReadEnds(db, ks, i, start, to, last, pending, entries, size, batchSize, done);
    return Ok((entries, pending, last, size));
  }

  predicate At(db: LogDb, k: Key, start: U64, last: U64, pending: AccountGroups) {
    k in db.raft && IsAfter(k, start) && k.a == last && pending == Deferred(db.raft[k].entry)
  }

  /** The entries before `ks[i]` have been read into `entries`. */
  ghost predicate Read(db: LogDb, ks: seq<Key>, i: nat, start: U64, last: U64, pending: AccountGroups, to: U64,
                       entries: seq<LogUpdate>)
    requires i <= |ks| && ValidLog(db) && IsScan(ks, db.raft.Keys)
  {
    && Stream(db, ks, 0, start, to) == entries + Tail(db, ks, i, start, last, pending, to)
    && (last == start ==> pending == [] && forall n :: 0 <= n < i ==> !IsAfter(ks[n], start))
    && (last != start ==> i > 0 && At(db, ks[i - 1], start, last, pending))
  }

  /** None of the entries read so far is `to`, unless it is the last one. */
  ghost predicate Unpassed(ks: seq<Key>, i: nat, start: U64, last: U64, to: U64)
    requires i <= |ks|
  {
    forall n :: 0 <= n < i && ks[n].a == to && IsAfter(ks[n], start) ==> last == to
  }

  lemma ReadOne(db: LogDb, ks: seq<Key>, i: nat, start: U64, last: U64, to: U64, entries: seq<LogUpdate>)
    requires i < |ks| && ValidLog(db) && IsScan(ks, db.raft.Keys) && last != to
    requires Read(db, ks, i, start, last, [], to, entries) && IsAfter(ks[i], start)
    ensures ks[i] in db.raft && ks[i].a < NO_INDEX && ks[i].a != start
    ensures Read(db, ks, i + 1, start, ks[i].a, Deferred(db.raft[ks[i]].entry), to, entries + Head(db, ks[i]))
  {
    TailStep(db, ks, i, start, last, to);
    var tail := Tail(db, ks, i + 1, start, ks[i].a, Deferred(db.raft[ks[i]].entry), to);
    assert entries + (Head(db, ks[i]) + tail) == (entries + Head(db, ks[i])) + tail;
  }

  lemma SkipOne(db: LogDb, ks: seq<Key>, i: nat, start: U64, last: U64, to: U64, entries: seq<LogUpdate>)
    requires i < |ks| && ValidLog(db) && IsScan(ks, db.raft.Keys) && last != to
    requires Read(db, ks, i, start, last, [], to, entries) && !IsAfter(ks[i], start)
    ensures last == start && Read(db, ks, i + 1, start, last, [], to, entries)
  {
    TailStep(db, ks, i, start, last, to);
  }

  lemma TailIsRest(db: LogDb, ks: seq<Key>, i: nat, start: U64, last: U64, pending: AccountGroups, to: U64,
                   entries: seq<LogUpdate>)
    requires i <= |ks| && ValidLog(db) && IsScan(ks, db.raft.Keys)
    requires Read(db, ks, i, start, last, pending, to, entries) && (last == start ==> i == |ks|)
    ensures Stream(db, ks, 0, start, to) == entries + Rest(db, ks, last, pending, to)
    ensures Reached(db, start, last, pending)
  {
    if last != start {
      StreamResumes(db, ks, i, start, to);
    } else {
      StreamSkips(db, ks, 0, i, start, to);
      assert forall k :: k in db.raft ==> k in ks;
    }
  }

  lemma AllRead(db: LogDb, ks: seq<Key>, start: U64, last: U64, pending: AccountGroups, to: U64,
                entries: seq<LogUpdate>)
    requires ValidLog(db) && IsScan(ks, db.raft.Keys) && Read(db, ks, |ks|, start, last, pending, to, entries)
    ensures forall k :: k in db.raft ==> !IsAfter(k, last)
  {
    forall k | k in db.raft ensures !IsAfter(k, last) {
      var n :| 0 <= n < |ks| && ks[n] == k;
      if last != start {
        assert ks[|ks| - 1] in ks && (n < |ks| - 1 ==> Before(ks[n], ks[|ks| - 1]));
      }
    }
  }

  lemma UnpassedIsWithin(db: LogDb, ks: seq<Key>, i: nat, start: U64, last: U64, to: U64)
    requires i <= |ks| && IsScan(ks, db.raft.Keys) && Unpassed(ks, i, start, last, to)
    requires last != start ==> i > 0 && ks[i - 1].a == last
    ensures Within(db, start, to, last)
  {
    forall k | k in db.raft && k.a == to && IsAfter(k, start) ensures last == to || IsAfter(k, last) {
      var n :| 0 <= n < |ks| && ks[n] == k;
      if last != start && n >= i {
        assert Before(ks[i - 1], ks[n]);
      }
    }
  }

  /** How much is left to do: entries after `last`, and accounts not sent yet. */
  ghost function EntriesLeft(db: LogDb, last: U64): nat {
    |set k | k in db.raft && IsAfter(k, last)|
  }

  lemma FewerLeft(db: LogDb, start: U64, k: Key)
    requires ValidLog(db) && k in db.raft && IsAfter(k, start)
    ensures EntriesLeft(db, k.a) < EntriesLeft(db, start)
  {
    var less, more := set x | x in db.raft && IsAfter(x, k.a), set x | x in db.raft && IsAfter(x, start);
    assert less <= more && k in more && k !in less;
    StrictSubsetSize(less, more, k);
  }

  lemma StrictSubsetSize(a: set<Key>, b: set<Key>, k: Key)
    requires a <= b && k in b && k !in a
    ensures |a| < |b|
  {
    assert a <= b - {k};
    SubsetSize(a, b - {k});
  }

  lemma {:induction false} SubsetSize(a: set<Key>, b: set<Key>)
    requires a <= b
    ensures |a| <= |b|
  {
    if a != {} {
      var x :| x in a;
      SubsetSize(a - {x}, b - {x});
    }
  }

  ghost predicate Progress(db: LogDb, last: U64, pending: AccountGroups, last': U64, pending': AccountGroups) {
    || EntriesLeft(db, last') < EntriesLeft(db, last)
    || (last' == last && GroupsSize(pending') < GroupsSize(pending))
  }

  /** Sending `us` has moved on from (`last`, `pending`) to (`last'`, `pending'`). */
  ghost predicate Sent(db: LogDb, ks: seq<Key>, last: U64, pending: AccountGroups, to: U64,
                       us: seq<LogUpdate>, last': U64, pending': AccountGroups)
    requires forall k :: k in ks ==> k in db.raft && k.a < NO_INDEX
  {
    && Rest(db, ks, last, pending, to) == us + Rest(db, ks, last', pending', to)
    && (Complete(db) && GroupsRecorded(db, pending, last) ==> GroupsRecorded(db, pending', last'))
    && (last' == last || exists k :: k in db.raft && IsAfter(k, last) && k.a == last')
    && (last == to ==> last' == to) && Within(db, last, to, last')
  }

  /** There is something left to send. */
  ghost predicate Unfinished(db: LogDb, last: U64, pending: AccountGroups, to: U64) {
    pending != [] || (last != to && exists k :: k in db.raft && IsAfter(k, last))
  }

  /** One batch of the log after `last`, whose accounts `pending` have not been sent. The batch is
      exactly the next part of what is left, and it is closed exactly if nothing is left. */
  method GetLogEntries(db: LogDb, ks: seq<Key>, last: U64, to: U64, pending: AccountGroups, batchSize: nat)
    returns (r: Result<Batch>)
    requires ValidLog(db) && IsScan(ks, db.raft.Keys)
    ensures r.Err? ==> !Complete(db) || !GroupsRecorded(db, pending, last)
    ensures r.Ok? ==>
              var b := r.value;
              && Sent(db, ks, last, pending, to, b.updates, b.last, b.pending)
              && (b.eof <==> b.last == to && b.pending == [])
              && (Complete(db) && GroupsRecorded(db, pending, last) && b.updates == [] ==> b.pending == [])
              && (Unfinished(db, last, pending, to) ==> Progress(db, last, pending, b.last, b.pending))
              && IsFilled(db, pending == [] && last != to, b, to, batchSize)
              && (pending != [] ==> b.last == last)
  {
    var entries: seq<LogUpdate>, pending1, last1, size := [], pending, last, 0;
    if pending == [] && last != to {
      var read := ReadEntries(db, ks, last, to, batchSize);
      if read.Err? {
        return Err(read.error);
      }
      entries, pending1, last1, size := read.value.0, read.value.1, read.value.2, read.value.3;
      ReadSends(db, ks, last, to, entries, last1, pending1);
    }
    ghost var isFirst := pending == [] && last != to;
    if pending1 == [] {
      Filled(db, entries, [], isFirst, [], last1, to, batchSize, last1 == to);
      assert entries + [] == entries;
      return Ok(Batch(entries, last1 == to, [], last1));
    }
    var sent := ReadPending(db, pending1, last1, size, batchSize);
    if sent.Err? {
      return Err(sent.error);
    }
    RestSplit(db, ks, last1, pending1, to, sent.value.0, sent.value.1);
    SentTrans(db, ks, last, pending, to, entries, last1, pending1, sent.value.0, sent.value.1);
    Filled(db, entries, sent.value.0, isFirst, sent.value.1, last1, to, batchSize, last1 == to && sent.value.1 == []);
    return Ok(Batch(entries + sent.value.0, last1 == to && sent.value.1 == [], sent.value.1, last1));
  }

  lemma ReadSends(db: LogDb, ks: seq<Key>, start: U64, to: U64, us: seq<LogUpdate>, last: U64, pending: AccountGroups)
    requires ValidLog(db) && IsScan(ks, db.raft.Keys) && start != to
    requires Stream(db, ks, 0, start, to) == us + Rest(db, ks, last, pending, to)
    requires Reached(db, start, last, pending) && Within(db, start, to, last)
    ensures Sent(db, ks, start, [], to, us, last, pending)
    ensures (exists k :: k in db.raft && IsAfter(k, start)) ==> EntriesLeft(db, last) < EntriesLeft(db, start)
  {
    if exists k :: k in db.raft && IsAfter(k, start) {
      var k :| k in db.raft && IsAfter(k, start) && k.a == last && pending == Deferred(db.raft[k].entry);
      FewerLeft(db, start, k);
      if Complete(db) {
        assert EntryRecorded(db, db.raft[k].entry, k.a);
      }
    }
    assert GroupUpdates(db, [], start) == [];
    assert Rest(db, ks, start, [], to) == Stream(db, ks, 0, start, to);
  }

  lemma RestSplit(db: LogDb, ks: seq<Key>, last: U64, pending: AccountGroups, to: U64, sent: seq<LogUpdate>,
                  pending': AccountGroups)
    requires forall k :: k in ks ==> k in db.raft && k.a < NO_INDEX
    requires GroupUpdates(db, pending, last) == sent + GroupUpdates(db, pending', last)
    ensures Rest(db, ks, last, pending, to) == sent + Rest(db, ks, last, pending', to)
  {
  }

  lemma SentTrans(db: LogDb, ks: seq<Key>, last: U64, pending: AccountGroups, to: U64, us: seq<LogUpdate>,
                  last1: U64, pending1: AccountGroups, us': seq<LogUpdate>, pending2: AccountGroups)
    requires forall k :: k in ks ==> k in db.raft && k.a < NO_INDEX
    requires Sent(db, ks, last, pending, to, us, last1, pending1)
    requires Rest(db, ks, last1, pending1, to) == us' + Rest(db, ks, last1, pending2, to)
    requires GroupsRecorded(db, pending1, last1) ==> GroupsRecorded(db, pending2, last1)
    ensures Sent(db, ks, last, pending, to, us + us', last1, pending2)
  {
    assert us + (us' + Rest(db, ks, last1, pending2, to)) == (us + us') + Rest(db, ks, last1, pending2, to);
  }

  // ----- The follower's writer

  /** The follower's log, the index of its last entry, the first index of the present round, and
      the slots changed in this round. */
  datatype Writer = Writer(db: LogDb, last: U64, mergeIndex: U64, changed: set<Slot>)

  function WriteOne(w: Writer, u: LogUpdate): Writer {
    match u
    case LogRecord(id, log) =>
      Writer(w.db.(raft := w.db.raft[RaftKey(id) := log]), id.index,
             if w.mergeIndex == NO_INDEX then id.index else w.mergeIndex, w.changed)
    case ChangeRecord(slot, change) =>
      w.(db := w.db.(changes := w.db.changes[ChangeKey(slot, w.last) := change]), changed := w.changed + {slot})
  }

  function WriteAll(w: Writer, us: seq<LogUpdate>): Writer
    decreases |us|
  {
    if us == [] then w else WriteOne(WriteAll(w, us[..|us| - 1]), us[|us| - 1])
  }

  lemma {:induction false} WriteConcat(w: Writer, us: seq<LogUpdate>, vs: seq<LogUpdate>)
    ensures WriteAll(w, us + vs) == WriteAll(WriteAll(w, us), vs)
    decreases |vs|
  {
    if vs == [] {
      assert us + vs == us;
    } else {
      var n := |vs| - 1;
      WriteConcat(w, us, vs[..n]);
      assert (us + vs)[..|us| + n] == us + vs[..n];
    }
  }

  /** `before` with the values of `src` under some keys. */
  function Overlay<V>(before: map<Key, V>, src: map<Key, V>, keys: set<Key>): map<Key, V>
    requires keys <= src.Keys
  {
    before + map k | k in keys :: src[k]
  }

  lemma OverlayTwice<V>(before: map<Key, V>, src: map<Key, V>, a: set<Key>, b: set<Key>)
    requires a <= src.Keys && b <= src.Keys
    ensures Overlay(Overlay(before, src, a), src, b) == Overlay(before, src, a + b)
  {
  }

  function ItemSlots(account: AccountId, collections: set<Collection>): set<Slot> {
    set c | c in collections :: Slot(account, c)
  }

  function GroupSlots(groups: AccountGroups): set<Slot>
    decreases GroupsSize(groups)
  {
    if groups == [] then {}
    else
      var (collections, accounts) := groups[|groups| - 1];
      if accounts == [] then GroupSlots(groups[..|groups| - 1])
      else
        PopShrinks(groups);
        ItemSlots(accounts[|accounts| - 1], collections) + GroupSlots(PopAccount(groups))
  }

  function EntrySlots(entry: Entry): set<Slot> {
    match entry
    case Item(account, collections) => ItemSlots(account, collections)
    case SnapshotOf(groups) => GroupSlots(groups)
  }

  function SlotKeys(slots: set<Slot>, id: nat): set<Key> {
    set s | s in slots :: ChangeKey(s, id)
  }

  lemma SlotKeysUnion(a: set<Slot>, b: set<Slot>, id: nat)
    ensures SlotKeys(a + b, id) == SlotKeys(a, id) + SlotKeys(b, id)
  {
  }

  /** The writer after the change records of some slots of entry `id` have been written. */
  function Wrote(w: Writer, db: LogDb, slots: set<Slot>, id: nat): Writer
    requires SlotKeys(slots, id) <= db.changes.Keys
  {
    w.(db := w.db.(changes := Overlay(w.db.changes, db.changes, SlotKeys(slots, id))), changed := w.changed + slots)
  }

  lemma WroteTwice(w: Writer, db: LogDb, a: set<Slot>, b: set<Slot>, id: nat)
    requires SlotKeys(a, id) <= db.changes.Keys && SlotKeys(b, id) <= db.changes.Keys
    ensures SlotKeys(a + b, id) <= db.changes.Keys
    ensures Wrote(Wrote(w, db, a, id), db, b, id) == Wrote(w, db, a + b, id)
  {
    SlotKeysUnion(a, b, id);
    OverlayTwice(w.db.changes, db.changes, SlotKeys(a, id), SlotKeys(b, id));
  }

  lemma {:induction false} WriteChanges(w: Writer, db: LogDb, account: AccountId, collections: set<Collection>)
    requires Recorded(db, account, collections, w.last)
    ensures SlotKeys(ItemSlots(account, collections), w.last) <= db.changes.Keys
    ensures WriteAll(w, ChangeUpdates(db, account, collections, w.last)) ==
            Wrote(w, db, ItemSlots(account, collections), w.last)
    decreases |collections|
  {
    if collections == {} {
      assert ItemSlots(account, collections) == {};
    } else {
      var c := Highest(collections);
      var rest := collections - {c};
      var slot := Slot(account, c);
      var u := ChangeRecord(slot, db.changes[ChangeKey(slot, w.last)]);
      assert ItemSlots(account, collections) == {slot} + ItemSlots(account, rest);
      assert SlotKeys({slot}, w.last) == {ChangeKey(slot, w.last)};
      var w1 := WriteOne(w, u);
      assert w1 == Wrote(w, db, {slot}, w.last);
      assert WriteAll(w, [u]) == w1;
      WriteConcat(w, [u], ChangeUpdates(db, account, rest, w.last));
      WriteChanges(w1, db, account, rest);
      WroteTwice(w, db, {slot}, ItemSlots(account, rest), w.last);
    }
  }

  lemma {:induction false} WriteGroups(w: Writer, db: LogDb, groups: AccountGroups)
    requires GroupsRecorded(db, groups, w.last)
    ensures SlotKeys(GroupSlots(groups), w.last) <= db.changes.Keys
    ensures WriteAll(w, GroupUpdates(db, groups, w.last)) == Wrote(w, db, GroupSlots(groups), w.last)
    decreases GroupsSize(groups)
  {
    if groups != [] {
      var n := |groups| - 1;
      var (collections, accounts) := groups[n];
      assert groups[n] in groups;
      if accounts == [] {
        WriteGroups(w, db, groups[..n]);
      } else {
        var account := accounts[|accounts| - 1];
        PopShrinks(groups);
        PopKeepsRecorded(db, groups, w.last);
        WriteChanges(w, db, account, collections);
        var w1 := Wrote(w, db, ItemSlots(account, collections), w.last);
        WriteConcat(w, ChangeUpdates(db, account, collections, w.last), GroupUpdates(db, PopAccount(groups), w.last));
        WriteGroups(w1, db, PopAccount(groups));
        WroteTwice(w, db, ItemSlots(account, collections), GroupSlots(PopAccount(groups)), w.last);
      }
    }
  }

  /** Entries of the log after `start` and up to `to`. */
  function Span(db: LogDb, start: U64, to: nat): set<Key> {
    set k | k in db.raft && IsAfter(k, start) && k.a <= to
  }

  function SlotsOf(db: LogDb, entries: set<Key>): set<Slot>
    requires entries <= db.raft.Keys
  {
    set k, s | k in entries && s in EntrySlots(db.raft[k].entry) :: s
  }

  function ChangeKeysOf(db: LogDb, entries: set<Key>): set<Key>
    requires entries <= db.raft.Keys
  {
    set k, s | k in entries && s in EntrySlots(db.raft[k].entry) :: ChangeKey(s, k.a)
  }

  /** `w'` is `w` with some entries of `db` and their change records copied into it. */
  ghost predicate Copied(w: Writer, db: LogDb, entries: set<Key>, w': Writer)
    requires entries <= db.raft.Keys
  {
    && ChangeKeysOf(db, entries) <= db.changes.Keys
    && w'.db.raft == Overlay(w.db.raft, db.raft, entries)
    && w'.db.changes == Overlay(w.db.changes, db.changes, ChangeKeysOf(db, entries))
    && w'.changed == w.changed + SlotsOf(db, entries)
    && (w.mergeIndex != NO_INDEX || entries == {} ==> w'.mergeIndex == w.mergeIndex)
    && (w.mergeIndex == NO_INDEX && entries != {} ==>
          && (exists k :: k in entries && k.a == w'.mergeIndex)
          && forall k :: k in entries ==> w'.mergeIndex <= k.a)
  }

  lemma SlotsOfOne(db: LogDb, k: Key)
    requires k in db.raft
    ensures SlotsOf(db, {k}) == EntrySlots(db.raft[k].entry)
    ensures ChangeKeysOf(db, {k}) == SlotKeys(EntrySlots(db.raft[k].entry), k.a)
  {
  }

  lemma SlotsOfUnion(db: LogDb, a: set<Key>, b: set<Key>)
    requires a <= db.raft.Keys && b <= db.raft.Keys
    ensures SlotsOf(db, a + b) == SlotsOf(db, a) + SlotsOf(db, b)
    ensures ChangeKeysOf(db, a + b) == ChangeKeysOf(db, a) + ChangeKeysOf(db, b)
  {
  }

  lemma WriteWhole(w: Writer, db: LogDb, k: Key)
    requires k in db.raft && k.a < NO_INDEX && k.c == 0 && EntryRecorded(db, db.raft[k].entry, k.a)
    ensures var w' := WriteAll(w, Whole(db, k));
            Copied(w, db, {k}, w') && w'.last == k.a
  {
    var log := LogRecord(RaftId(k.b, k.a), db.raft[k]);
    var w1 := WriteOne(w, log);
    WriteSingle(w, log);
    WriteConcat(w, [log], EntryUpdates(db, db.raft[k].entry, k.a));
    SlotsOfOne(db, k);
    WriteEntry(w1, db, db.raft[k].entry);
    assert RaftKey(RaftId(k.b, k.a)) == k;
    assert w1.db.raft == Overlay(w.db.raft, db.raft, {k});
  }

  lemma WriteSingle(w: Writer, u: LogUpdate)
    ensures WriteAll(w, [u]) == WriteOne(w, u)
  {
    assert [u][..0] == [] && WriteAll(w, []) == w;
  }

  /** The change records of an entry are written under its index. */
  lemma WriteEntry(w: Writer, db: LogDb, entry: Entry)
    requires EntryRecorded(db, entry, w.last)
    ensures SlotKeys(EntrySlots(entry), w.last) <= db.changes.Keys
    ensures WriteAll(w, EntryUpdates(db, entry, w.last)) == Wrote(w, db, EntrySlots(entry), w.last)
  {
    match entry {
      case Item(account, collections) => WriteChanges(w, db, account, collections);
      case SnapshotOf(groups) => WriteGroups(w, db, groups);
    }
  }

  lemma CopiedTwice(w: Writer, db: LogDb, k: Key, b: set<Key>, w1: Writer, w2: Writer)
    requires k in db.raft && b <= db.raft.Keys && k.a < NO_INDEX
    requires Copied(w, db, {k}, w1) && Copied(w1, db, b, w2)
    requires forall y :: y in b ==> k.a <= y.a
    ensures Copied(w, db, {k} + b, w2)
  {
    SlotsOfUnion(db, {k}, b);
    OverlayTwice(w.db.raft, db.raft, {k}, b);
    OverlayTwice(w.db.changes, db.changes, ChangeKeysOf(db, {k}), ChangeKeysOf(db, b));
    assert k in {k} + b;
  }

  /** The keys at `ks[i..]` after `start` and up to `to`. */
  function SpanFrom(ks: seq<Key>, i: nat, start: U64, to: nat): set<Key>
    requires i <= |ks|
    decreases |ks| - i
  {
    if i == |ks| then {}
    else (if IsAfter(ks[i], start) && ks[i].a <= to then {ks[i]} else {}) + SpanFrom(ks, i + 1, start, to)
  }

  lemma {:induction false} SpanFromMembers(ks: seq<Key>, i: nat, start: U64, to: nat)
    requires i <= |ks|
    ensures forall k :: k in SpanFrom(ks, i, start, to) <==> k in ks[i..] && IsAfter(k, start) && k.a <= to
    decreases |ks| - i
  {
    if i < |ks| {
      SpanFromMembers(ks, i + 1, start, to);
      assert ks[i..] == [ks[i]] + ks[i + 1..];
    }
  }

  lemma LaterKeys(db: LogDb, ks: seq<Key>, i: nat, start: U64, to: nat)
    requires ValidLog(db) && IsScan(ks, db.raft.Keys) && i < |ks|
    ensures ks[i] in db.raft
    ensures SpanFrom(ks, i + 1, start, to) <= db.raft.Keys
    ensures forall y :: y in SpanFrom(ks, i + 1, start, to) ==> ks[i].a < y.a <= to
  {
    SpanFromMembers(ks, i + 1, start, to);
    assert ks[i] in ks;
    forall y | y in ks[i + 1..] ensures ks[i].a < y.a && y in db.raft {
      var j :| i + 1 <= j < |ks| && ks[j] == y;
      assert ks[j] in ks && Before(ks[i], ks[j]);
    }
  }

  lemma StreamUnrolled(db: LogDb, ks: seq<Key>, i: nat, start: U64, to: U64)
    requires i < |ks| && forall k :: k in ks ==> k in db.raft && k.a < NO_INDEX
    ensures ks[i] in ks
    ensures Stream(db, ks, i, start, to) ==
            if !IsAfter(ks[i], start) then Stream(db, ks, i + 1, start, to)
            else if ks[i].a == to then Whole(db, ks[i])
            else Whole(db, ks[i]) + Stream(db, ks, i + 1, start, to)
  {
    assert ks[i] in ks;
  }

  /** Writing the stream from `ks[i]` on copies the span from there. */
  ghost predicate StreamCopies(w: Writer, db: LogDb, ks: seq<Key>, i: nat, start: U64, to: U64)
    requires i <= |ks| && forall k :: k in ks ==> k in db.raft && k.a < NO_INDEX
  {
    var w' := WriteAll(w, Stream(db, ks, i, start, to));
    && SpanFrom(ks, i, start, to) <= db.raft.Keys
    && Copied(w, db, SpanFrom(ks, i, start, to), w') && w'.last == to
  }

  lemma StreamEnds(w: Writer, db: LogDb, ks: seq<Key>, i: nat, start: U64, to: U64)
    requires ValidLog(db) && IsScan(ks, db.raft.Keys) && Complete(db)
    requires i < |ks| && IsAfter(ks[i], start) && ks[i].a == to
    ensures StreamCopies(w, db, ks, i, start, to)
  {
    LaterKeys(db, ks, i, start, to);
    StreamUnrolled(db, ks, i, start, to);
    WriteWhole(w, db, ks[i]);
    assert SpanFrom(ks, i + 1, start, to) == {};
    assert SpanFrom(ks, i, start, to) == {ks[i]};
  }

  lemma StreamGoesOn(w: Writer, db: LogDb, ks: seq<Key>, i: nat, start: U64, to: U64)
    requires ValidLog(db) && IsScan(ks, db.raft.Keys) && Complete(db)
    requires i < |ks| && IsAfter(ks[i], start) && ks[i].a < to
    requires ks[i] in db.raft && ks[i].a < NO_INDEX
    requires StreamCopies(WriteAll(w, Whole(db, ks[i])), db, ks, i + 1, start, to)
    ensures StreamCopies(w, db, ks, i, start, to)
  {
    LaterKeys(db, ks, i, start, to);
    StreamUnrolled(db, ks, i, start, to);
    WriteWhole(w, db, ks[i]);
    var w1, span := WriteAll(w, Whole(db, ks[i])), SpanFrom(ks, i + 1, start, to);
    WriteConcat(w, Whole(db, ks[i]), Stream(db, ks, i + 1, start, to));
    CopiedTwice(w, db, ks[i], span, w1, WriteAll(w1, Stream(db, ks, i + 1, start, to)));
    assert SpanFrom(ks, i, start, to) == {ks[i]} + span;
  }

  lemma StreamPasses(w: Writer, db: LogDb, ks: seq<Key>, i: nat, start: U64, to: U64)
    requires i < |ks| && (forall k :: k in ks ==> k in db.raft && k.a < NO_INDEX) && !IsAfter(ks[i], start)
    requires StreamCopies(w, db, ks, i + 1, start, to)
    ensures StreamCopies(w, db, ks, i, start, to)
  {
    StreamUnrolled(db, ks, i, start, to);
    assert SpanFrom(ks, i, start, to) == SpanFrom(ks, i + 1, start, to);
  }

  lemma {:induction false} WriteStream(w: Writer, db: LogDb, ks: seq<Key>, i: nat, n: nat, start: U64, to: U64)
    requires ValidLog(db) && IsScan(ks, db.raft.Keys) && Complete(db)
    requires i <= n < |ks| && ks[n].a == to && IsAfter(ks[n], start)
    ensures StreamCopies(w, db, ks, i, start, to)
    decreases |ks| - i
  {
    assert ks[i] in ks && ks[n] in ks;
    if !IsAfter(ks[i], start) {
      WriteStream(w, db, ks, i + 1, n, start, to);
      StreamPasses(w, db, ks, i, start, to);
    } else if ks[i].a == to {
      StreamEnds(w, db, ks, i, start, to);
    } else {
      assert Before(ks[i], ks[n]);
      WriteStream(WriteAll(w, Whole(db, ks[i])), db, ks, i + 1, n, start, to);
      StreamGoesOn(w, db, ks, i, start, to);
    }
  }

  // ----- Any paging transfers the missing part of the log

  lemma SpanIsSpan(db: LogDb, ks: seq<Key>, start: U64, to: nat)
    requires IsScan(ks, db.raft.Keys)
    ensures SpanFrom(ks, 0, start, to) == Span(db, start, to)
  {
    SpanFromMembers(ks, 0, start, to);
    assert ks[0..] == ks;
  }

  /** Writing what is to be sent from `start` to `to` copies exactly the entries in between, and
      exactly the change records they list. */
  lemma WriteRest(w: Writer, db: LogDb, ks: seq<Key>, start: U64, to: U64, k: Key)
    requires ValidLog(db) && IsScan(ks, db.raft.Keys) && Complete(db)
    requires start != to && k in db.raft && k.a == to && IsAfter(k, start)
    ensures var w' := WriteAll(w, Rest(db, ks, start, [], to));
            Copied(w, db, Span(db, start, to), w') && w'.last == to
  {
    var n :| 0 <= n < |ks| && ks[n] == k;
    WriteStream(w, db, ks, 0, n, start, to);
    SpanIsSpan(db, ks, start, to);
    assert GroupUpdates(db, [], start) == [];
    assert Rest(db, ks, start, [], to) == Stream(db, ks, 0, start, to);
  }

  lemma StreamGoesPast(db: LogDb, ks: seq<Key>, i: nat, start: U64, mid: U64, to: U64, tail: seq<LogUpdate>)
    requires i < |ks| && (forall k :: k in ks ==> k in db.raft && k.a < NO_INDEX) && ks[i].a != mid && ks[i].a != to
    requires Stream(db, ks, i + 1, start, to) == Stream(db, ks, i + 1, start, mid) + tail
    ensures Stream(db, ks, i, start, to) == Stream(db, ks, i, start, mid) + tail
  {
    StreamUnrolled(db, ks, i, start, to);
    StreamUnrolled(db, ks, i, start, mid);
    if IsAfter(ks[i], start) {
      Assoc(Whole(db, ks[i]), Stream(db, ks, i + 1, start, mid), tail);
    }
  }

  lemma Assoc(a: seq<LogUpdate>, b: seq<LogUpdate>, c: seq<LogUpdate>)
    ensures a + (b + c) == (a + b) + c
  {
  }

  /** A stream can be cut at any entry on its way. */
  lemma {:induction false} StreamCut(db: LogDb, ks: seq<Key>, i: nat, j: nat, start: U64, mid: U64, to: U64,
                                     tail: seq<LogUpdate>)
    requires (forall k :: k in ks ==> k in db.raft && k.a < NO_INDEX) && i <= j < |ks|
    requires forall n :: i <= n < j ==> ks[n].a != mid && ks[n].a != to
    requires Stream(db, ks, j, start, to) == Stream(db, ks, j, start, mid) + tail
    ensures Stream(db, ks, i, start, to) == Stream(db, ks, i, start, mid) + tail
    decreases j - i
  {
    if i < j {
      StreamCut(db, ks, i + 1, j, start, mid, to, tail);
      StreamGoesPast(db, ks, i, start, mid, to, tail);
    }
  }

  lemma StreamStops(db: LogDb, ks: seq<Key>, j: nat, start: U64, to: U64)
    requires j < |ks| && (forall k :: k in ks ==> k in db.raft && k.a < NO_INDEX) && IsAfter(ks[j], start)
             && ks[j].a < NO_INDEX
    ensures Stream(db, ks, j, start, to) ==
            Stream(db, ks, j, start, ks[j].a) + if ks[j].a == to then [] else Stream(db, ks, j + 1, start, to)
  {
    StreamUnrolled(db, ks, j, start, to);
    StreamUnrolled(db, ks, j, start, ks[j].a);
  }

  lemma RestIsStream(db: LogDb, ks: seq<Key>, start: U64, to: U64)
    requires forall k :: k in ks ==> k in db.raft && k.a < NO_INDEX
    ensures Rest(db, ks, start, [], to) == if start == to then [] else Stream(db, ks, 0, start, to)
  {
    assert GroupUpdates(db, [], start) == [];
  }

  lemma StreamCutAt(db: LogDb, ks: seq<Key>, j: nat, start: U64, mid: U64, to: U64)
    requires ValidLog(db) && IsScan(ks, db.raft.Keys)
    requires j < |ks| && ks[j].a == mid <= to && IsAfter(ks[j], start)
    ensures Stream(db, ks, 0, start, to) ==
            Stream(db, ks, 0, start, mid) + if mid == to then [] else Stream(db, ks, 0, mid, to)
  {
    assert ks[j] in ks;
    forall n | 0 <= n < j ensures ks[n].a != mid && ks[n].a != to {
      assert ks[n] in ks && Before(ks[n], ks[j]);
    }
    StreamStops(db, ks, j, start, to);
    StreamCut(db, ks, 0, j, start, mid, to, if mid == to then [] else Stream(db, ks, j + 1, start, to));
    StreamResumes(db, ks, j + 1, start, to);
  }

  lemma RestCut(db: LogDb, ks: seq<Key>, start: U64, mid: Key, to: U64)
    requires ValidLog(db) && IsScan(ks, db.raft.Keys) && start != to
    requires mid in db.raft && IsAfter(mid, start) && mid.a <= to && mid.a < NO_INDEX
    ensures Rest(db, ks, start, [], to) == Rest(db, ks, start, [], mid.a) + Rest(db, ks, mid.a, [], to)
  {
    var j :| 0 <= j < |ks| && ks[j] == mid;
    StreamCutAt(db, ks, j, start, mid.a, to);
    RestIsStream(db, ks, start, to);
    RestIsStream(db, ks, start, mid.a);
    RestIsStream(db, ks, mid.a, to);
  }

  /** The leader's loop: batches until no accounts are pending and the last index is reached. Its
      batches carry exactly what was to be sent, in order, and only the last one is closed. */
  method ShipLog(db: LogDb, ks: seq<Key>, start: U64, to: U64, batchSize: nat) returns (r: Result<seq<Batch>>)
    requires ValidLog(db) && IsScan(ks, db.raft.Keys) && start != to
    requires exists k :: k in db.raft && k.a == to && IsAfter(k, start)
    ensures Complete(db) ==> r.Ok?
    ensures r.Ok? ==>
              && r.value != []
              && Sum(r.value) == Rest(db, ks, start, [], to)
              && (forall i :: 0 <= i < |r.value| ==> (r.value[i].eof <==> i == |r.value| - 1))
              && AreFilled(db, r.value, to, batchSize)
  {
    var batches: seq<Batch>, last: U64, pending: AccountGroups := [], start, [];
    ghost var goal :| goal in db.raft && goal.a == to && IsAfter(goal, start);
    while pending != [] || last != to
      invariant Rest(db, ks, start, [], to) == Sum(batches) + Rest(db, ks, last, pending, to)
      invariant Complete(db) ==> GroupsRecorded(db, pending, last)
      invariant last != to ==> IsAfter(goal, last)
      invariant forall i :: 0 <= i < |batches| ==>
                (batches[i].eof <==> i == |batches| - 1 && last == to && pending == [])
      invariant batches == [] ==> last == start
      invariant pending == if batches == [] then [] else batches[|batches| - 1].pending
      invariant AreFilled(db, batches, to, batchSize)
      decreases EntriesLeft(db, last), GroupsSize(pending)
    {
      var b := GetLogEntries(db, ks, last, to, pending, batchSize);
      if b.Err? {
        return Err(b.error);
      }
      ghost var rest := Rest(db, ks, b.value.last, b.value.pending, to);
      SumSnoc(batches, b.value, rest);
      FilledSnoc(db, batches, b.value, to, batchSize);
      batches, last, pending := batches + [b.value], b.value.last, b.value.pending;
    }
    assert GroupUpdates(db, [], last) == [];
    return Ok(batches);
  }

  ghost predicate FilledAt(db: LogDb, batches: seq<Batch>, i: nat, to: U64, batchSize: nat)
    requires i < |batches|
  {
    IsFilled(db, i == 0 || batches[i - 1].pending == [], batches[i], to, batchSize)
  }

  /** Every batch exceeds the limit by its last entry or account only, and ends before that for a reason only. */
  ghost predicate AreFilled(db: LogDb, batches: seq<Batch>, to: U64, batchSize: nat) {
    forall i: nat :: i < |batches| ==> FilledAt(db, batches, i, to, batchSize)
  }

  lemma FilledSame(db: LogDb, batches: seq<Batch>, b: Batch, i: nat, to: U64, batchSize: nat)
    requires i < |batches| && FilledAt(db, batches, i, to, batchSize)
    ensures FilledAt(db, batches + [b], i, to, batchSize)
  {
    assert (batches + [b])[i] == batches[i] && (i > 0 ==> (batches + [b])[i - 1] == batches[i - 1]);
  }

  lemma FilledSnoc(db: LogDb, batches: seq<Batch>, b: Batch, to: U64, batchSize: nat)
    requires AreFilled(db, batches, to, batchSize)
    requires IsFilled(db, batches == [] || batches[|batches| - 1].pending == [], b, to, batchSize)
    ensures AreFilled(db, batches + [b], to, batchSize)
  {
    var more := batches + [b];
    forall i: nat | i < |more| ensures FilledAt(db, more, i, to, batchSize) {
      if i < |batches| {
        FilledSame(db, batches, b, i, to, batchSize);
      } else {
        assert more[i] == b && (i > 0 ==> more[i - 1] == batches[i - 1]);
      }
    }
  }

  function Sum(batches: seq<Batch>): seq<LogUpdate> {
    if batches == [] then [] else Sum(batches[..|batches| - 1]) + batches[|batches| - 1].updates
  }

  lemma SumSnoc(batches: seq<Batch>, b: Batch, rest: seq<LogUpdate>)
    ensures Sum(batches) + (b.updates + rest) == Sum(batches + [b]) + rest
  {
    assert (batches + [b])[..|batches|] == batches;
    assert Sum(batches) + (b.updates + rest) == (Sum(batches) + b.updates) + rest;
  }
}

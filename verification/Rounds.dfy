/** One round of catching up: the leader ships log records, the follower folds them and fetches
    the documents they concern. */
module Rounds {
  import opened Common
  import opened KeyOrder
  import opened ChangeLog
  import opened DocumentSync
  import opened LogStore
  import opened LogShipping
  import opened Replica
  import opened FollowerCommit
  import opened FollowerProcess
  import opened UndoLog

  /** A leader that does not change during an exchange: its log up to the index `last`, and its
      documents. */
  datatype Leader = Leader(log: LogDb, docs: Tables, last: U64)

  /** The log is well formed: it ends with entry `last`, and every change record is listed by the
      entry of its index. */
  ghost predicate WellFormed(l: Leader) {
    && ValidLog(l.log) && Complete(l.log)
    && (forall k :: k in l.log.raft ==> k.a <= l.last)
    && (exists k :: k in l.log.raft && k.a == l.last)
    && Listed(l.log)
  }

  ghost predicate Listed(log: LogDb) {
    forall k :: k in log.changes ==> exists e :: IsListed(log, e, k)
  }

  predicate IsListed(log: LogDb, e: Key, k: Key) {
    e in log.raft && e.a == k.c && SlotOf(k) in EntrySlots(log.raft[e].entry)
  }

  /** The part of a log up to an index. */
  function Prefix(log: LogDb, upTo: U64): LogDb {
    LogDb(map k | k in log.raft && IsKept(k, upTo) :: log.raft[k],
          map k | k in log.changes && upTo != NO_INDEX && k.c <= upTo :: log.changes[k])
  }

  // ----- Shipping the log records of a round

  /** Batches until one is closed or empty; the follower writes each. Afterwards the follower has
      written exactly the records of the entries after `start` up to the one where it stopped. */
  method ShipRound(l: Leader, f: Follower, ks: seq<Key>, start: U64, batchSize: nat)
    returns (changed: set<Slot>, ghost sent: seq<LogUpdate>, ghost stop: Key)
    requires WellFormed(l) && IsScan(ks, l.log.raft.Keys)
    requires exists k :: k in l.log.raft && k.a == l.last && IsAfter(k, start)
    requires start != l.last
    modifies f`log, f`uncommitted, f`mergeIndex
    ensures stop in l.log.raft && IsAfter(stop, start) && stop.a < NO_INDEX
    ensures sent == Rest(l.log, ks, start, [], stop.a)
    ensures Writer(f.log, f.uncommitted, f.mergeIndex, changed) ==
            WriteAll(Writer(old(f.log), old(f.uncommitted), NO_INDEX, {}), sent)
  {
    f.mergeIndex := NO_INDEX;
    ghost var w0 := Writer(f.log, f.uncommitted, NO_INDEX, {});
    ghost var goal :| goal in l.log.raft && goal.a == l.last && IsAfter(goal, start);
    var pending: AccountGroups, last, done := [], start, false;
    changed, sent, stop := {}, [], goal;
    while !done
      invariant Rest(l.log, ks, start, [], l.last) == sent + Rest(l.log, ks, last, pending, l.last)
      invariant Writer(f.log, f.uncommitted, f.mergeIndex, changed) == WriteAll(w0, sent)
      invariant GroupsRecorded(l.log, pending, last)
      invariant last != l.last ==> IsAfter(goal, last)
      invariant last == start || (stop in l.log.raft && IsAfter(stop, start) && stop.a == last)
      invariant !done ==> pending != [] || last != l.last
      invariant done ==> pending == [] && last != start
      decreases !done, EntriesLeft(l.log, last), GroupsSize(pending)
    {
      var b := GetLogEntries(l.log, ks, last, l.last, pending, batchSize);
      if b.Err? {
        assert false;
      }
      ghost var rest := Rest(l.log, ks, b.value.last, b.value.pending, l.last);
      Assoc(sent, b.value.updates, rest);
      WriteConcat(w0, sent, b.value.updates);
      changed, done := f.HandleUpdateLog(changed, b.value.updates, b.value.eof);
      if b.value.last != last {
        stop :| stop in l.log.raft && IsAfter(stop, last) && stop.a == b.value.last;
      }
      sent, last, pending := sent + b.value.updates, b.value.last, b.value.pending;
    }
    RestCut(l.log, ks, start, stop, l.last);
    CutOff(sent, Rest(l.log, ks, start, [], stop.a), Rest(l.log, ks, last, [], l.last));
  }

  lemma CutOff(a: seq<LogUpdate>, b: seq<LogUpdate>, c: seq<LogUpdate>)
    requires a + c == b + c
    ensures a == b
  {
    assert |a| == |b|;
    assert a == (a + c)[..|a|] && b == (b + c)[..|b|];
  }

  /** The change keys of the entries in a span are those with an index in the span. */
  lemma SpanChanges(l: Leader, start: U64, upTo: U64)
    requires WellFormed(l)
    ensures ChangeKeysOf(l.log, Span(l.log, start, upTo)) * l.log.changes.Keys ==
            set k | k in l.log.changes && (start == NO_INDEX || k.c > start) && k.c <= upTo
  {
    var span := Span(l.log, start, upTo);
    forall k | k in l.log.changes && (start == NO_INDEX || k.c > start) && k.c <= upTo
      ensures k in ChangeKeysOf(l.log, span)
    {
      var e :| IsListed(l.log, e, k);
      assert e in span && ChangeKey(SlotOf(k), e.a) == k;
    }
  }

  lemma OverlayOf<V>(before: map<Key, V>, src: map<Key, V>, keys: set<Key>, after: map<Key, V>)
    requires keys <= src.Keys && after.Keys == before.Keys + keys
    requires forall k :: k in before ==> k in src && before[k] == src[k]
    requires forall k :: k in after ==> k in src && after[k] == src[k]
    ensures Overlay(before, src, keys) == after
  {
  }

  /** Writing a span makes a prefix of the leader's log a longer prefix. */
  lemma PrefixGrows(l: Leader, start: U64, upTo: U64, w: Writer, w': Writer)
    requires WellFormed(l) && upTo != NO_INDEX && (start == NO_INDEX || start <= upTo)
    requires w.db == Prefix(l.log, start) && Copied(w, l.log, Span(l.log, start, upTo), w')
    ensures w'.db == Prefix(l.log, upTo)
  {
    PrefixKeys(l, start, upTo);
    var span, more := Span(l.log, start, upTo), Prefix(l.log, upTo);
    OverlayOf(w.db.raft, l.log.raft, span, more.raft);
    OverlayOf(w.db.changes, l.log.changes, ChangeKeysOf(l.log, span), more.changes);
  }

  lemma PrefixKeys(l: Leader, start: U64, upTo: U64)
    requires WellFormed(l) && upTo != NO_INDEX && (start == NO_INDEX || start <= upTo)
    requires ChangeKeysOf(l.log, Span(l.log, start, upTo)) <= l.log.changes.Keys
    ensures var less, more, span := Prefix(l.log, start), Prefix(l.log, upTo), Span(l.log, start, upTo);
            && more.raft.Keys == less.raft.Keys + span
            && more.changes.Keys == less.changes.Keys + ChangeKeysOf(l.log, span)
  {
    SpanChanges(l, start, upTo);
    var span := Span(l.log, start, upTo);
    assert ChangeKeysOf(l.log, span) == ChangeKeysOf(l.log, span) * l.log.changes.Keys;
  }

  lemma ChangesInSame(changes: map<Key, ChangeValue>, other: map<Key, ChangeValue>, s: Slot, lo: int, lo': int, hi: nat)
    requires forall k :: k in changes && InRange(k, s, lo, hi) <==> k in other && InRange(k, s, lo', hi)
    requires forall k :: k in changes && InRange(k, s, lo, hi) ==> changes[k] == other[k]
    ensures ChangesIn(changes, s, lo, hi) == ChangesIn(other, s, lo', hi)
  {
    var keys := RangeKeys(changes.Keys, s, lo, hi);
    assert keys == RangeKeys(other.Keys, s, lo', hi);
    assert forall k :: k in Scan(keys) ==> k in keys;
  }

  /** Changes of a slot after `start` and up to `upTo` are listed by entries in between. */
  lemma ListedInSpan(l: Leader, start: U64, upTo: U64, s: Slot, k: Key) returns (e: Key)
    requires WellFormed(l) && k in l.log.changes && InRange(k, s, Floor(start), upTo)
    ensures e in Span(l.log, start, upTo) && e.a == k.c && s in SlotsOf(l.log, Span(l.log, start, upTo))
  {
    e :| IsListed(l.log, e, k);
    assert e in Span(l.log, start, upTo);
  }

  /** The first index of a round, as the follower noted it. */
  lemma RoundStart(l: Leader, start: U64, upTo: U64, w: Writer, w': Writer)
    requires ValidLog(l.log) && exists e :: e in Span(l.log, start, upTo)
    requires w.mergeIndex == NO_INDEX && w.changed == {} && Copied(w, l.log, Span(l.log, start, upTo), w')
    ensures Floor(start) < w'.mergeIndex < NO_INDEX
    ensures forall e :: e in Span(l.log, start, upTo) ==> w'.mergeIndex <= e.a
    ensures w'.changed == SlotsOf(l.log, Span(l.log, start, upTo))
  {
    var e :| e in Span(l.log, start, upTo) && e.a == w'.mergeIndex;
  }

  /** After the records of a round are written, folding from its first index gives the leader's
      changes since the last round, and the changed slots are those with such changes. */
  lemma RoundIsSpan(l: Leader, start: U64, upTo: U64, first: U64, s: Slot)
    requires WellFormed(l) && upTo != NO_INDEX && Floor(start) < first < NO_INDEX
    requires forall e :: e in Span(l.log, start, upTo) ==> first <= e.a
    ensures ChangesBetween(Prefix(l.log, upTo).changes, s, first, upTo) ==
            ChangesIn(l.log.changes, s, Floor(start), upTo)
    ensures s !in SlotsOf(l.log, Span(l.log, start, upTo)) ==> ChangesIn(l.log.changes, s, Floor(start), upTo) == []
  {
    var slots := SlotsOf(l.log, Span(l.log, start, upTo));
    forall k | k in l.log.changes && InRange(k, s, Floor(start), upTo)
      ensures InRange(k, s, first - 1, upTo) && s in slots
    {
      var e := ListedInSpan(l, start, upTo, s, k);
    }
    ChangesInSame(Prefix(l.log, upTo).changes, l.log.changes, s, first - 1, Floor(start), upTo);
    if s !in slots {
      assert RangeKeys(l.log.changes.Keys, s, Floor(start), upTo) == {};
    }
  }

  // ----- Fetching the documents of a round

  /** The changed slots as a work list, account by account in any order. */
  method ListWork(changed: set<Slot>) returns (work: WorkList)
    ensures DistinctAccounts(work) && Todo(work) == set s | s in changed && s.collection != THREAD
  {
    work := [];
    var todo := changed;
    while todo != {}
      invariant todo <= changed && DistinctAccounts(work)
      invariant Todo(work) == set s | s in changed - todo && s.collection != THREAD
      invariant forall i, s :: 0 <= i < |work| && s in todo ==> work[i].0 != s.account
      decreases todo
    {
      var next :| next in todo;
      var slots := set s | s in todo && s.account == next.account;
      var entry := (next.account, set s | s in slots :: s.collection);
      assert next in slots;
      assert AccountTodo(entry) == set s | s in slots && s.collection != THREAD;
      assert (work + [entry])[..|work|] == work;
      work := work + [entry];
      todo := todo - slots;
    }
  }

  /** A table that a round has been applied to. */
  function CaughtUp(t: Result<Table>, m: Merged, leader: Table, s: Slot): Result<Table> {
    if t.Ok? then CatchUp(t.value, m, leader, s.collection == MAIL) else t
  }

  lemma NothingToFetch(t: Result<Table>, m: Merged, leader: Table, s: Slot)
    requires m.inserts == {} && m.updates == {}
    ensures CaughtUp(t, m, leader, s) == WithoutDocs(t, m.deletes)
  {
    assert Requests(Merged(m.inserts, m.updates, {})) == [];
    if t.Ok? {
      assert WriteBatch(t.value - m.deletes, [], s.collection == MAIL) == t.value - m.deletes;
    }
  }

  lemma {:induction false} ItemsAreShaped(leader: Table, rs: seq<Request>, n: nat)
    requires n <= |rs|
    ensures Shaped(Apply(Items(leader, rs, n, false)))
    decreases n
  {
    if n > 0 {
      ItemsAreShaped(leader, rs, n - 1);
    }
  }

  /** The requested documents of a slot fit into one batch. */
  predicate Fits(leader: Table, m: Merged, maxBatchSize: nat) {
    var rs := Requests(m);
    |rs| <= 1 || SizeOf(leader, rs, |rs| - 1) < maxBatchSize
  }

  /** The leader's answer to a request for documents. */
  method AnswerRequest(leader: Tables, slot: Slot, m: Merged, maxBatchSize: nat) returns (updates: seq<DocUpdate>)
    requires Fits(TableOf(leader, slot), m, maxBatchSize)
    ensures updates == Items(TableOf(leader, slot), Requests(m), |Requests(m)|, false)
    ensures Shaped(Apply(updates))
  {
    var request := new MergedChanges(m);
    ghost var rs := Requests(m);
    var served: nat;
    updates, served := PrepareChanges(TableOf(leader, slot), request, false, maxBatchSize);
    AnswerComplete(TableOf(leader, slot), rs, served, maxBatchSize);
    ItemsAreShaped(TableOf(leader, slot), rs, |rs|);
  }

  /** The slots of a round that are done are caught up; the others are as before. */
  ghost predicate Advanced(docs: Tables, before: seq<Pending>, after: seq<Pending>, leader: Tables,
                           rounds: map<Slot, Merged>,
                           done: set<Slot>, asked: Option<Slot>)
    requires done <= rounds.Keys && (asked.Some? ==> asked.value in rounds)
  {
    forall s {:trigger Effective(TableOf(docs, s), after, s)} ::
      Effective(TableOf(docs, s), after, s) ==
      var t := Effective(TableOf(docs, s), before, s);
      if Some(s) == asked then WithoutDocs(t, rounds[s].deletes)
      else if s in done then CaughtUp(t, rounds[s], TableOf(leader, s), s) else t
  }

  lemma AdvanceDeletes(docs: Tables, before: seq<Pending>, mid: seq<Pending>, after: seq<Pending>, leader: Tables,
                       rounds: map<Slot, Merged>, done: set<Slot>, more: set<Slot>, asked: Option<Slot>)
    requires done <= rounds.Keys && more <= rounds.Keys && done !! more && (asked.Some? ==> asked.value in more)
    requires Advanced(docs, before, mid, leader, rounds, done, None)
    requires DeletesRecorded(docs, mid, after, more, rounds)
    requires forall s :: s in more && Some(s) != asked ==> rounds[s].inserts == {} && rounds[s].updates == {}
    ensures Advanced(docs, before, after, leader, rounds, done + more, asked)
  {
    forall s ensures Effective(TableOf(docs, s), after, s) ==
                     var t := Effective(TableOf(docs, s), before, s);
                     if Some(s) == asked then WithoutDocs(t, rounds[s].deletes)
                     else if s in done + more then CaughtUp(t, rounds[s], TableOf(leader, s), s) else t
    {
      if s in more && Some(s) != asked {
        NothingToFetch(Effective(TableOf(docs, s), before, s), rounds[s], TableOf(leader, s), s);
      }
    }
  }

  lemma AdvanceFetch(docs: Tables, before: seq<Pending>, mid: seq<Pending>, after: seq<Pending>, leader: Tables,
                     rounds: map<Slot, Merged>, done: set<Slot>, slot: Slot, updates: seq<DocUpdate>)
    requires done <= rounds.Keys && slot in done
    requires Advanced(docs, before, mid, leader, rounds, done, Some(slot))
    requires var rs := Requests(rounds[slot].(deletes := {})); updates == Items(TableOf(leader, slot), rs, |rs|, false)
    requires forall s :: Effective(TableOf(docs, s), after, s) ==
                         var t := Effective(TableOf(docs, s), mid, s);
                         if s == slot && t.Ok? then ApplyUpdates(t.value, updates, s.collection == MAIL) else t
    ensures Advanced(docs, before, after, leader, rounds, done, None)
  {
    assert rounds[slot].(deletes := {}) == Merged(rounds[slot].inserts, rounds[slot].updates, {});
  }

  /** Answers one request. */
  method FetchSlot(l: Leader, f: Follower, slot: Slot, m: Merged, maxBatchSize: nat,
                   ghost before: seq<Pending>, ghost done: set<Slot>, ghost rounds: map<Slot, Merged>)
    requires f.Valid() && f.floor < f.uncommitted
    requires done <= rounds.Keys && slot in done && m == rounds[slot].(deletes := {})
    requires Advanced(f.docs, before, f.pending, l.docs, rounds, done, Some(slot))
    requires Fits(TableOf(l.docs, slot), m, maxBatchSize)
    modifies f`pending, f`sequenceId
    ensures old(f.pending) <= f.pending
    ensures f.Valid() && Advanced(f.docs, before, f.pending, l.docs, rounds, done, None)
  {
    ghost var mid := f.pending;
    var updates := AnswerRequest(l.docs, slot, m, maxBatchSize);
    f.StoreUpdates(slot, updates);
    AdvanceFetch(f.docs, before, mid, f.pending, l.docs, rounds, done, slot, updates);
  }

  /** Answers one request and goes on to the next. */
  method FetchNext(l: Leader, f: Follower, work0: WorkList, slot: Slot, m: Merged, maxBatchSize: nat,
                   ghost before: seq<Pending>, ghost done: set<Slot>, ghost rounds: map<Slot, Merged>)
    returns (work: WorkList, ask: Option<(Slot, Merged)>)
    requires f.Valid() && f.floor < f.uncommitted && DistinctAccounts(work0) && Todo(work0) <= rounds.Keys
             && f.IsRound(rounds)
    requires done <= rounds.Keys && slot in done && done !! Todo(work0) && m == rounds[slot].(deletes := {})
    requires Advanced(f.docs, before, f.pending, l.docs, rounds, done, Some(slot))
    requires Fits(TableOf(l.docs, slot), m, maxBatchSize)
    modifies f`pending, f`sequenceId
    ensures old(f.pending) <= f.pending
    ensures f.Valid() && DistinctAccounts(work) && Todo(work) <= Todo(work0)
    ensures match ask
            case None => work == []
            case Some((slot', m')) =>
              && slot' in Todo(work0) - Todo(work) && m' == rounds[slot'].(deletes := {})
              && WorkSize(work) < WorkSize(work0)
    ensures Advanced(f.docs, before, f.pending, l.docs, rounds, done + (Todo(work0) - Todo(work)), AskedSlot(ask))
  {
    FetchSlot(l, f, slot, m, maxBatchSize, before, done, rounds);
    ghost var mid := f.pending;
    work, ask := f.RequestUpdates(work0, rounds);
    AdvanceDeletes(f.docs, before, mid, f.pending, l.docs, rounds, done, Todo(work0) - Todo(work), AskedSlot(ask));
  }

  method FetchFirst(l: Leader, f: Follower, work0: WorkList, ghost rounds: map<Slot, Merged>)
    returns (work: WorkList, ask: Option<(Slot, Merged)>)
    requires f.Valid() && f.floor < f.uncommitted && DistinctAccounts(work0) && Todo(work0) <= rounds.Keys
             && f.IsRound(rounds)
    modifies f`pending, f`sequenceId
    ensures old(f.pending) <= f.pending
    ensures f.Valid() && DistinctAccounts(work) && Todo(work) <= Todo(work0)
    ensures match ask
            case None => work == []
            case Some((slot', m')) => slot' in Todo(work0) - Todo(work) && m' == rounds[slot'].(deletes := {})
    ensures Advanced(f.docs, old(f.pending), f.pending, l.docs, rounds, Todo(work0) - Todo(work), AskedSlot(ask))
  {
    ghost var before := f.pending;
    work, ask := f.RequestUpdates(work0, rounds);
    AdvanceDeletes(f.docs, before, before, f.pending, l.docs, rounds, {}, Todo(work0) - Todo(work), AskedSlot(ask));
    assert {} + (Todo(work0) - Todo(work)) == Todo(work0) - Todo(work);
  }

  /** The follower asks for what the round inserted and updated in one of its slots. */
  ghost predicate IsRequest(rounds: map<Slot, Merged>, slots: set<Slot>, ask: Option<(Slot, Merged)>)
    requires slots <= rounds.Keys
  {
    ask.Some? ==> ask.value.0 in slots && ask.value.1 == rounds[ask.value.0].(deletes := {})
  }

  ghost function AskedSlot(ask: Option<(Slot, Merged)>): Option<Slot> {
    if ask.Some? then Some(ask.value.0) else None
  }

  /** Answers requests until there are none. */
  method FetchRest(l: Leader, f: Follower, work: WorkList, ask: Option<(Slot, Merged)>, maxBatchSize: nat,
                   ghost before: seq<Pending>, ghost slots: set<Slot>, ghost rounds: map<Slot, Merged>)
    requires f.Valid() && f.floor < f.uncommitted && DistinctAccounts(work) && f.IsRound(rounds)
    requires Todo(work) <= slots <= rounds.Keys
    requires IsRequest(rounds, slots - Todo(work), ask) && (ask.None? ==> work == [])
    requires Advanced(f.docs, before, f.pending, l.docs, rounds, slots - Todo(work), AskedSlot(ask))
    requires forall s :: s in rounds ==> Fits(TableOf(l.docs, s), rounds[s].(deletes := {}), maxBatchSize)
    modifies f`pending, f`sequenceId
    ensures old(f.pending) <= f.pending
    ensures f.Valid()
    ensures Advanced(f.docs, before, f.pending, l.docs, rounds, slots, None)
    decreases ask.Some?, WorkSize(work)
  {
    if ask.Some? {
      var (slot, m) := ask.value;
      var work', ask' := FetchNext(l, f, work, slot, m, maxBatchSize, before, slots - Todo(work), rounds);
      assert (slots - Todo(work)) + (Todo(work) - Todo(work')) == slots - Todo(work');
      FetchRest(l, f, work', ask', maxBatchSize, before, slots, rounds);
    } else {
      assert slots - Todo(work) == slots;
    }
  }

  /** Works through all slots of a round with the leader's help. */
  method FetchRound(l: Leader, f: Follower, work0: WorkList, maxBatchSize: nat, ghost rounds: map<Slot, Merged>)
    requires f.Valid() && f.floor < f.uncommitted && DistinctAccounts(work0) && Todo(work0) <= rounds.Keys
             && f.IsRound(rounds)
    requires forall s :: s in rounds ==> Fits(TableOf(l.docs, s), rounds[s].(deletes := {}), maxBatchSize)
    modifies f`pending, f`sequenceId
    ensures old(f.pending) <= f.pending
    ensures f.Valid()
    ensures Advanced(f.docs, old(f.pending), f.pending, l.docs, rounds, Todo(work0), None)
  {
    ghost var before := f.pending;
    var work, ask := FetchFirst(l, f, work0, rounds);
    FetchRest(l, f, work, ask, maxBatchSize, before, Todo(work0), rounds);
  }
}

/** Undoing a divergent suffix of the log: turning it into rollback records, and working these
    off with the leader's documents. */
module UndoLog {
  import opened Common
  import opened KeyOrder
  import opened ChangeLog
  import opened DocumentSync
  import opened LogStore
  import opened LogShipping
  import opened Replica
  import opened FollowerProcess

  // ----- Preparing a rollback

  function SlotOf(k: Key): Slot {
    Slot(k.a, k.b)
  }

  function RollbackKey(s: Slot): Key {
    Key(s.account, s.collection, 0)
  }

  predicate SlotBefore(s: Slot, t: Slot) {
    s.account < t.account || (s.account == t.account && s.collection < t.collection)
  }

  function Floor(index: U64): int {
    if index == NO_INDEX then -1 else index
  }

  predicate IsLate(k: Key, after: U64) {
    after == NO_INDEX || k.c > after
  }

  /** The rollback record of a slot for all its changes after an index. */
  function RollbackRecord(changes: map<Key, ChangeValue>, s: Slot, after: U64, restoreDeletions: bool): Merged {
    var m := Merge(ChangesIn(changes, s, Floor(after), NO_INDEX));
    if restoreDeletions then m else m.(deletes := {})
  }

  function WithRecord(rollback: map<Key, Merged>, s: Slot, m: Merged): map<Key, Merged> {
    if m.IsEmpty() then rollback else rollback[RollbackKey(s) := m]
  }

  function GetRecord(rollback: map<Key, Merged>, k: Key): Option<Merged> {
    if k in rollback then Some(rollback[k]) else None
  }

  function LateKeys(ks: seq<Key>, i: nat, after: U64): set<Key>
    requires i <= |ks|
  {
    set k | k in ks[..i] && IsLate(k, after)
  }

  lemma LateNext(ks: seq<Key>, i: nat, after: U64)
    requires i < |ks|
    ensures LateKeys(ks, i + 1, after) == LateKeys(ks, i, after) + if IsLate(ks[i], after) then {ks[i]} else {}
  {
    assert ks[..i + 1] == ks[..i] + [ks[i]];
  }

  /** The group being collected: the late keys of slot `s` among the first `i`, all other late
      keys among them belonging to earlier slots. */
  ghost predicate Collected(ks: seq<Key>, i: nat, after: U64, s: Slot, group: set<Key>)
    requires i <= |ks|
  {
    && group != {}
    && group == (set k | k in LateKeys(ks, i, after) && SlotOf(k) == s)
    && forall k :: k in LateKeys(ks, i, after) ==> SlotOf(k) == s || SlotBefore(SlotOf(k), s)
  }

  lemma GroupEnds(ks: seq<Key>, i: nat, after: U64, s: Slot, group: set<Key>)
    requires i < |ks| && Sorted(ks) && Collected(ks, i, after, s, group) && SlotOf(ks[i]) != s
    ensures SlotBefore(s, SlotOf(ks[i]))
  {
    var k :| k in group;
    var j :| 0 <= j < i && ks[j] == k;
    assert Before(ks[j], ks[i]);
  }

  /** Once the scan has left a slot, all its late keys have been seen. */
  lemma SlotSeen(ks: seq<Key>, i: nat, keys: set<Key>, s: Slot, lo: int)
    requires IsScan(ks, keys) && i <= |ks| && (i < |ks| ==> SlotBefore(s, SlotOf(ks[i])))
    ensures Seen(ks, i, s, lo, NO_INDEX) == RangeKeys(keys, s, lo, NO_INDEX)
  {
    SeenMembers(ks, i, s, lo, NO_INDEX);
    assert forall k :: k in ks[..i] ==> k in ks;
    forall k | k in keys && InRange(k, s, lo, NO_INDEX) ensures k in ks[..i] {
      assert k in ks;
      var j :| 0 <= j < |ks| && ks[j] == k;
    }
  }

  lemma FoldIsRecord(changes: map<Key, ChangeValue>, ks: seq<Key>, i: nat, s: Slot, after: U64)
    requires IsScan(ks, changes.Keys) && i <= |ks| && (i < |ks| ==> SlotBefore(s, SlotOf(ks[i])))
    ensures MergeSeen(changes, ks, i, s, Floor(after), NO_INDEX) == Merge(ChangesIn(changes, s, Floor(after), NO_INDEX))
  {
    MergeSeenIsMerge(changes, ks, i, s, Floor(after), NO_INDEX);
    SlotSeen(ks, i, changes.Keys, s, Floor(after));
  }

  lemma {:induction false} NoneSeen(changes: map<Key, ChangeValue>, ks: seq<Key>, i: nat, s: Slot, after: U64)
    requires i <= |ks| && forall k :: k in ks ==> k in changes
    requires forall k :: k in LateKeys(ks, i, after) ==> SlotOf(k) != s
    ensures MergeSeen(changes, ks, i, s, Floor(after), NO_INDEX) == EMPTY_CHANGES
  {
    if i > 0 {
      LateNext(ks, i - 1, after);
      NoneSeen(changes, ks, i - 1, s, after);
    }
  }

  lemma CollectFirst(ks: seq<Key>, i: nat, after: U64)
    requires i < |ks| && IsLate(ks[i], after)
    requires forall k :: k in LateKeys(ks, i, after) ==> SlotBefore(SlotOf(k), SlotOf(ks[i]))
    ensures Collected(ks, i + 1, after, SlotOf(ks[i]), {ks[i]})
  {
    LateNext(ks, i, after);
  }

  lemma CollectMore(ks: seq<Key>, i: nat, after: U64, s: Slot, group: set<Key>)
    requires i < |ks| && Collected(ks, i, after, s, group) && (IsLate(ks[i], after) ==> SlotOf(ks[i]) == s)
    ensures Collected(ks, i + 1, after, s, group + if IsLate(ks[i], after) then {ks[i]} else {})
  {
    LateNext(ks, i, after);
  }

  /** The records of the slots `done` have been written over `before`. */
  ghost predicate Flushed(before: map<Key, Merged>, records: map<Slot, Merged>, done: set<Slot>,
                          rollback: map<Key, Merged>)
  {
    forall k :: GetRecord(rollback, k) ==
                var s := SlotOf(k);
                if s in done && s in records && !records[s].IsEmpty() && k == RollbackKey(s)
                then Some(records[s]) else GetRecord(before, k)
  }

  lemma FlushOne(before: map<Key, Merged>, records: map<Slot, Merged>, done: set<Slot>, rollback: map<Key, Merged>,
                 s: Slot)
    requires s in records && Flushed(before, records, done, rollback)
    ensures Flushed(before, records, done + {s}, WithRecord(rollback, s, records[s]))
  {
  }

  /** Writes the record of a group and deletes its change keys, in one write. */
  method FlushGroup(f: Follower, slot: Slot, changes: MergedChanges, group: set<Key>, restoreDeletions: bool)
    modifies f`log, f`rollback, changes
    ensures f.log == old(f.log).(changes := old(f.log).changes - group)
    ensures f.rollback ==
            WithRecord(old(f.rollback), slot,
                       if restoreDeletions then old(changes.View()) else old(changes.View()).(deletes := {}))
  {
    if !restoreDeletions && changes.deletes != {} {
      changes.deletes := {};
    }
    if changes.inserts != {} || changes.updates != {} || changes.deletes != {} {
      f.rollback := f.rollback[RollbackKey(slot) := Merged(changes.inserts, changes.updates, changes.deletes)];
    }
    f.log := f.log.(changes := f.log.changes - group);
  }

  function SlotsOfKeys(keys: set<Key>): set<Slot> {
    set k | k in keys :: SlotOf(k)
  }

  /** Where the grouped scan stands before `ks[i]`: the late keys seen so far are those flushed and
      those of the present group, whose records are folded into `m`. */
  ghost predicate Grouping(changes: map<Key, ChangeValue>, ks: seq<Key>, i: nat, after: U64,
                           cur: Option<Slot>, group: set<Key>, flushed: set<Key>, m: Merged)
    requires i <= |ks| && forall k :: k in ks ==> k in changes
  {
    && flushed + group == LateKeys(ks, i, after)
    && (cur.None? ==> group == {} && flushed == {})
    && (cur.Some? ==>
          && Collected(ks, i, after, cur.value, group)
          && m == MergeSeen(changes, ks, i, cur.value, Floor(after), NO_INDEX))
  }

  lemma SkipKey(changes: map<Key, ChangeValue>, ks: seq<Key>, i: nat, after: U64,
                cur: Option<Slot>, group: set<Key>, flushed: set<Key>, m: Merged)
    requires i < |ks| && IsScan(ks, changes.Keys) && !IsLate(ks[i], after)
    requires Grouping(changes, ks, i, after, cur, group, flushed, m)
    ensures Grouping(changes, ks, i + 1, after, cur, group, flushed, m)
  {
    LateNext(ks, i, after);
    if cur.Some? {
      CollectMore(ks, i, after, cur.value, group);
    }
  }

  lemma SameGroup(changes: map<Key, ChangeValue>, ks: seq<Key>, i: nat, after: U64,
                  cur: Option<Slot>, group: set<Key>, flushed: set<Key>, m: Merged)
    requires i < |ks| && IsScan(ks, changes.Keys) && IsLate(ks[i], after) && ks[i].c <= NO_INDEX && ks[i] in ks
    requires Grouping(changes, ks, i, after, cur, group, flushed, m) && cur == Some(SlotOf(ks[i]))
    ensures Grouping(changes, ks, i + 1, after, cur, group + {ks[i]}, flushed, Absorb(m, changes[ks[i]].change))
  {
    LateNext(ks, i, after);
    CollectMore(ks, i, after, cur.value, group);
  }

  lemma NextGroup(changes: map<Key, ChangeValue>, ks: seq<Key>, i: nat, after: U64,
                  cur: Option<Slot>, group: set<Key>, flushed: set<Key>, m: Merged)
    requires i < |ks| && IsScan(ks, changes.Keys) && IsLate(ks[i], after) && ks[i].c <= NO_INDEX && ks[i] in ks
    requires Grouping(changes, ks, i, after, cur, group, flushed, m) && cur != Some(SlotOf(ks[i]))
    ensures Grouping(changes, ks, i + 1, after, Some(SlotOf(ks[i])), {ks[i]},
                     flushed + group, Absorb(EMPTY_CHANGES, changes[ks[i]].change))
    ensures cur.Some? ==> GroupClosed(changes, after, cur.value, group, m)
  {
    var slot := SlotOf(ks[i]);
    LateNext(ks, i, after);
    if cur.Some? {
      GroupEnds(ks, i, after, cur.value, group);
      GroupCloses(changes, ks, i, after, cur.value, group, m);
    }
    NoneSeen(changes, ks, i, slot, after);
    CollectFirst(ks, i, after);
  }

  /** A finished group: its keys are of one slot, and the fold is that of all its late changes. */
  ghost predicate GroupClosed(changes: map<Key, ChangeValue>, after: U64, s: Slot, group: set<Key>, m: Merged) {
    && group != {} && group <= changes.Keys && (forall k :: k in group ==> SlotOf(k) == s)
    && m == Merge(ChangesIn(changes, s, Floor(after), NO_INDEX))
  }

  lemma GroupCloses(changes: map<Key, ChangeValue>, ks: seq<Key>, i: nat, after: U64, s: Slot, group: set<Key>,
                    m: Merged)
    requires i <= |ks| && IsScan(ks, changes.Keys) && Collected(ks, i, after, s, group)
    requires m == MergeSeen(changes, ks, i, s, Floor(after), NO_INDEX)
    requires i < |ks| ==> SlotBefore(s, SlotOf(ks[i]))
    ensures GroupClosed(changes, after, s, group, m)
  {
    FoldIsRecord(changes, ks, i, s, after);
    assert forall k :: k in ks[..i] ==> k in ks;
  }

  /** Writes out a finished group. */
  method CloseGroup(f: Follower, slot: Slot, changes: MergedChanges, group: set<Key>, after: U64,
                    restoreDeletions: bool,
                    ghost log0: LogDb, ghost rollback0: map<Key, Merged>, ghost flushed: set<Key>,
                    ghost records: map<Slot, Merged>)
    requires GroupClosed(log0.changes, after, slot, group, changes.View())
    requires slot in records && records[slot] == RollbackRecord(log0.changes, slot, after, restoreDeletions)
    requires f.log == log0.(changes := log0.changes - flushed)
    requires Flushed(rollback0, records, SlotsOfKeys(flushed), f.rollback)
    modifies f`log, f`rollback, changes
    ensures f.log == log0.(changes := log0.changes - (flushed + group))
    ensures Flushed(rollback0, records, SlotsOfKeys(flushed + group), f.rollback)
  {
    FlushOne(rollback0, records, SlotsOfKeys(flushed), f.rollback, slot);
    assert SlotsOfKeys(flushed + group) == SlotsOfKeys(flushed) + {slot} by {
      var k :| k in group;
      assert k in flushed + group;
    }
    FlushGroup(f, slot, changes, group, restoreDeletions);
    assert (log0.changes - flushed) - group == log0.changes - (flushed + group);
  }

  function Late(log: LogDb, after: U64): set<Key> {
    set k | k in log.changes && IsLate(k, after)
  }

  /** Closes the present group, if there is one. */
  method CloseCurrent(f: Follower, cur: Option<Slot>, changes: MergedChanges, group: set<Key>, after: U64,
                      restoreDeletions: bool,
                      ghost log0: LogDb, ghost rollback0: map<Key, Merged>, ghost flushed: set<Key>,
                      ghost records: map<Slot, Merged>)
    requires cur.None? ==> group == {}
    requires cur.Some? ==> GroupClosed(log0.changes, after, cur.value, group, changes.View())
    requires forall k :: k in log0.changes ==> SlotOf(k) in records
    requires forall s :: s in records ==> records[s] == RollbackRecord(log0.changes, s, after, restoreDeletions)
    requires f.log == log0.(changes := log0.changes - flushed)
    requires Flushed(rollback0, records, SlotsOfKeys(flushed), f.rollback)
    modifies f`log, f`rollback, changes
    ensures f.log == log0.(changes := log0.changes - (flushed + group))
    ensures Flushed(rollback0, records, SlotsOfKeys(flushed + group), f.rollback)
  {
    if cur.Some? {
      CloseGroup(f, cur.value, changes, group, after, restoreDeletions, log0, rollback0, flushed, records);
    } else {
      assert flushed + group == flushed;
    }
  }

  /** Closes the present group and starts the next with one key. */
  method StartGroup(f: Follower, ks: seq<Key>, i: nat, after: U64, restoreDeletions: bool,
                    cur: Option<Slot>, changes: MergedChanges, group: set<Key>, log0: LogDb,
                    ghost rollback0: map<Key, Merged>, ghost flushed: set<Key>, ghost records: map<Slot, Merged>)
    returns (changes': MergedChanges)
    requires i < |ks| && IsScan(ks, log0.changes.Keys) && IsLate(ks[i], after) && ks[i].c <= NO_INDEX && ks[i] in ks
    requires Grouping(log0.changes, ks, i, after, cur, group, flushed, changes.View()) && cur != Some(SlotOf(ks[i]))
    requires forall k :: k in log0.changes ==> SlotOf(k) in records
    requires forall s :: s in records ==> records[s] == RollbackRecord(log0.changes, s, after, restoreDeletions)
    requires f.log == log0.(changes := log0.changes - flushed)
    requires Flushed(rollback0, records, SlotsOfKeys(flushed), f.rollback)
    modifies f`log, f`rollback, changes
    ensures fresh(changes')
    ensures Grouping(log0.changes, ks, i + 1, after, Some(SlotOf(ks[i])), {ks[i]}, flushed + group, changes'.View())
    ensures f.log == log0.(changes := log0.changes - (flushed + group))
    ensures Flushed(rollback0, records, SlotsOfKeys(flushed + group), f.rollback)
  {
    NextGroup(log0.changes, ks, i, after, cur, group, flushed, changes.View());
    CloseCurrent(f, cur, changes, group, after, restoreDeletions, log0, rollback0, flushed, records);
    changes' := new MergedChanges(EMPTY_CHANGES);
    changes'.DeserializeChanges(log0.changes[ks[i]].change);
  }

  /** Takes up one late key: it joins the present group, or closes it and starts the next. */
  method TakeKey(f: Follower, ks: seq<Key>, i: nat, after: U64, restoreDeletions: bool,
                 cur: Option<Slot>, changes: MergedChanges, group: set<Key>, log0: LogDb,
                 ghost rollback0: map<Key, Merged>, ghost flushed: set<Key>, ghost records: map<Slot, Merged>)
    returns (changes': MergedChanges, group': set<Key>, ghost flushed': set<Key>)
    requires i < |ks| && IsScan(ks, log0.changes.Keys) && IsLate(ks[i], after) && ks[i].c <= NO_INDEX && ks[i] in ks
    requires Grouping(log0.changes, ks, i, after, cur, group, flushed, changes.View())
    requires forall k :: k in log0.changes ==> SlotOf(k) in records
    requires forall s :: s in records ==> records[s] == RollbackRecord(log0.changes, s, after, restoreDeletions)
    requires f.log == log0.(changes := log0.changes - flushed)
    requires Flushed(rollback0, records, SlotsOfKeys(flushed), f.rollback)
    modifies f`log, f`rollback, changes
    ensures changes' == changes || fresh(changes')
    ensures Grouping(log0.changes, ks, i + 1, after, Some(SlotOf(ks[i])), group', flushed', changes'.View())
    ensures f.log == log0.(changes := log0.changes - flushed')
    ensures Flushed(rollback0, records, SlotsOfKeys(flushed'), f.rollback)
  {
    var k := ks[i];
    if cur == Some(SlotOf(k)) {
      SameGroup(log0.changes, ks, i, after, cur, group, flushed, changes.View());
      changes', group', flushed' := changes, group + {k}, flushed;
      changes.DeserializeChanges(log0.changes[k].change);
    } else {
      changes' := StartGroup(f, ks, i, after, restoreDeletions, cur, changes, group, log0, rollback0, flushed, records);
      group', flushed' := {k}, flushed + group;
    }
  }

  /** The grouped scan over the change keys, which leaves the last group open; `records` are the
      records to be written. */
  method GroupChanges(f: Follower, ks: seq<Key>, after: U64, restoreDeletions: bool, ghost records: map<Slot, Merged>)
    returns (cur: Option<Slot>, changes: MergedChanges, group: set<Key>, ghost flushed: set<Key>)
    requires IsScan(ks, f.log.changes.Keys)
    requires forall k :: k in f.log.changes ==> k.c <= NO_INDEX && SlotOf(k) in records
    requires forall s :: s in records ==> records[s] == RollbackRecord(f.log.changes, s, after, restoreDeletions)
    modifies f`log, f`rollback
    ensures fresh(changes)
    ensures Grouping(old(f.log).changes, ks, |ks|, after, cur, group, flushed, changes.View())
    ensures f.log == old(f.log).(changes := old(f.log).changes - flushed)
    ensures Flushed(old(f.rollback), records, SlotsOfKeys(flushed), f.rollback)
  {
    var log0 := f.log;
    ghost var rollback0 := f.rollback;
    cur, group, flushed := None, {}, {};
    changes := new MergedChanges(EMPTY_CHANGES);
    for i := 0 to |ks|
      invariant fresh(changes)
      invariant Grouping(log0.changes, ks, i, after, cur, group, flushed, changes.View())
      invariant f.log == log0.(changes := log0.changes - flushed)
      invariant Flushed(rollback0, records, SlotsOfKeys(flushed), f.rollback)
    {
      assert ks[i] in ks;
      if IsLate(ks[i], after) {
        changes, group, flushed := TakeKey(f, ks, i, after, restoreDeletions, cur, changes, group, log0, rollback0,
                                           flushed, records);
        cur := Some(SlotOf(ks[i]));
      } else {
        SkipKey(log0.changes, ks, i, after, cur, group, flushed, changes.View());
      }
    }
  }

  lemma LastGroup(log: LogDb, ks: seq<Key>, after: U64, cur: Option<Slot>, group: set<Key>, flushed: set<Key>,
                  m: Merged)
    requires IsScan(ks, log.changes.Keys) && Grouping(log.changes, ks, |ks|, after, cur, group, flushed, m)
    ensures flushed + group == Late(log, after)
    ensures group == {} ==> flushed == Late(log, after)
    ensures group != {} ==> cur.Some? && GroupClosed(log.changes, after, cur.value, group, m)
  {
    assert ks[..|ks|] == ks;
    assert LateKeys(ks, |ks|, after) == Late(log, after);
    if cur.Some? {
      GroupCloses(log.changes, ks, |ks|, after, cur.value, group, m);
    }
  }

  method FlushChanges(f: Follower, after: U64, restoreDeletions: bool, ghost records: map<Slot, Merged>)
    requires forall k :: k in f.log.changes ==> k.c <= NO_INDEX && SlotOf(k) in records
    requires forall s :: s in records ==> records[s] == RollbackRecord(f.log.changes, s, after, restoreDeletions)
    modifies f`log, f`rollback
    ensures f.log == old(f.log).(changes := old(f.log).changes - Late(old(f.log), after))
    ensures Flushed(old(f.rollback), records, SlotsOfKeys(Late(old(f.log), after)), f.rollback)
  {
    ghost var log0, rollback0 := f.log, f.rollback;
    var ks := Iterate(f.log.changes.Keys);
    var cur, changes, group, flushed := GroupChanges(f, ks, after, restoreDeletions, records);
    LastGroup(log0, ks, after, cur, group, flushed, changes.View());
    if group != {} {
      CloseGroup(f, cur.value, changes, group, after, restoreDeletions, log0, rollback0, flushed, records);
    }
  }

  /** Records of slots without late changes are empty. */
  lemma NoLateChanges(changes: map<Key, ChangeValue>, s: Slot, after: U64, restoreDeletions: bool)
    requires forall k :: k in changes && IsLate(k, after) ==> SlotOf(k) != s
    ensures RollbackRecord(changes, s, after, restoreDeletions).IsEmpty()
  {
    assert RangeKeys(changes.Keys, s, Floor(after), NO_INDEX) == {};
    assert ChangesIn(changes, s, Floor(after), NO_INDEX) == [];
  }

  /** One record per slot with late changes, over the records there were before. */
  ghost predicate Prepared(changes: map<Key, ChangeValue>, after: U64, restoreDeletions: bool,
                           before: map<Key, Merged>, rollback: map<Key, Merged>) {
    && (forall k: Key :: k.c != 0 ==> GetRecord(rollback, k) == GetRecord(before, k))
    && forall s :: GetRecord(rollback, RollbackKey(s)) ==
                   var m := RollbackRecord(changes, s, after, restoreDeletions);
                   if m.IsEmpty() then GetRecord(before, RollbackKey(s)) else Some(m)
  }

  lemma FlushedIsPrepared(log: LogDb, after: U64, restoreDeletions: bool,
                          before: map<Key, Merged>, records: map<Slot, Merged>, rollback: map<Key, Merged>)
    requires forall s :: s in records <==> s in SlotsOfKeys(log.changes.Keys)
    requires forall s :: s in records ==> records[s] == RollbackRecord(log.changes, s, after, restoreDeletions)
    requires Flushed(before, records, SlotsOfKeys(Late(log, after)), rollback)
    ensures Prepared(log.changes, after, restoreDeletions, before, rollback)
  {
    forall s ensures GetRecord(rollback, RollbackKey(s)) ==
                     var m := RollbackRecord(log.changes, s, after, restoreDeletions);
                     if m.IsEmpty() then GetRecord(before, RollbackKey(s)) else Some(m)
    {
      assert SlotOf(RollbackKey(s)) == s;
      if s in SlotsOfKeys(Late(log, after)) {
        var k :| k in Late(log, after) && SlotOf(k) == s;
        assert k in log.changes.Keys && s in records;
      } else {
        NoLateChanges(log.changes, s, after, restoreDeletions);
      }
    }
  }

  function LateEntries(log: LogDb, after: U64): set<Key> {
    set k | k in log.raft && (after == NO_INDEX || k.a > after)
  }

  method CutEntries(f: Follower, after: U64)
    modifies f`log
    ensures f.log == old(f.log).(raft := old(f.log).raft - LateEntries(old(f.log), after))
  {
    var ks := Iterate(f.log.raft.Keys);
    var batch: set<Key> := {};
    for i := 0 to |ks|
      invariant batch == set k | k in ks[..i] && (after == NO_INDEX || k.a > after)
    {
      assert ks[..i + 1] == ks[..i] + [ks[i]];
      if after == NO_INDEX || ks[i].a > after {
        batch := batch + {ks[i]};
      }
    }
    assert ks[..|ks|] == ks;
    assert batch == LateEntries(f.log, after);
    f.log := f.log.(raft := f.log.raft - batch);
  }

  /** `prepare_rollback_changes`: folds all changes after an index into one rollback record per
      slot, and cuts the log back to the index. */
  method PrepareRollback(f: Follower, after: U64, restoreDeletions: bool)
    requires forall k :: k in f.log.changes ==> k.c <= NO_INDEX
    modifies f`log, f`rollback
    ensures Prepared(old(f.log).changes, after, restoreDeletions, old(f.rollback), f.rollback)
    ensures f.log ==
            LogDb(old(f.log).raft - LateEntries(old(f.log), after), old(f.log).changes - Late(old(f.log), after))
  {
    ghost var log0, rollback0 := f.log, f.rollback;
    ghost var records := map s | s in SlotsOfKeys(log0.changes.Keys) ::
                           RollbackRecord(log0.changes, s, after, restoreDeletions);
    FlushChanges(f, after, restoreDeletions, records);
    FlushedIsPrepared(log0, after, restoreDeletions, rollback0, records, f.rollback);
    CutEntries(f, after);
  }

  // ----- Working off the records

  /** The leader's answer to a request for documents, closed by an end marker or not. */
  datatype Answer = NoAnswer | Documents(updates: seq<DocUpdate>, eof: bool)

  /** A finished rollback reports the last entry of the log; without one the process ends. */
  datatype Reply =
    | AskFor(slot: Slot, changes: Merged)
    | Continue(slot: Slot, changes: Merged)
    | Finished(lastLog: Option<RaftId>)
    | Failed

  /** Documents that were inserted are deleted again; a missing one is an error except for e-mail. */
  function DeleteInserts(t: Table, inserts: set<DocId>, s: Slot): Result<Table> {
    if s.collection == THREAD || inserts == {} then Ok(t)
    else if inserts <= t.Keys || s.collection == MAIL then Ok(t - inserts)
    else Err(NotFound)
  }

  /** What the first turn of the loop makes of the table of its slot. */
  function FirstTurn(t: Table, changes: Merged, answer: Answer, s: Slot): Result<Table> {
    var t' :- DeleteInserts(t, changes.inserts, s);
    match answer
    case NoAnswer => Ok(t')
    case Documents(updates, _) => ApplyUpdates(t', updates, s.collection == MAIL)
  }

  /** A record that needs no documents from the leader. */
  predicate IsSimple(s: Slot, m: Merged) {
    s.collection == THREAD || (m.updates == {} && m.deletes == {})
  }

  /** The records gone since `before` were simple, and their inserts have been deleted; slots with
      records still to come are as they were. Nothing is said about the slot `except`. */
  ghost predicate WorkedOff(docs0: Tables, before: map<Key, Merged>, docs: Tables, rollback: map<Key, Merged>,
                            except: Slot)
  {
    && (forall k :: k in rollback ==> k in before && rollback[k] == before[k])
    && forall x :: x != except ==>
                     var k := RollbackKey(x);
                     if k in before && k !in rollback then
                       && IsSimple(x, before[k])
                       && DeleteInserts(TableOf(docs0, x), before[k].inserts, x) == Ok(TableOf(docs, x))
                     else TableOf(docs, x) == TableOf(docs0, x)
  }

  ghost predicate SlotKeyed(rollback: map<Key, Merged>) {
    forall k :: k in rollback ==> k.c == 0
  }

  lemma DropRecord(docs0: Tables, before: map<Key, Merged>, docs: Tables, rollback: map<Key, Merged>, except: Slot,
                   s: Slot, t: Table)
    requires SlotKeyed(before) && WorkedOff(docs0, before, docs, rollback, except) && s != except
    requires RollbackKey(s) in rollback && IsSimple(s, rollback[RollbackKey(s)])
    requires DeleteInserts(TableOf(docs, s), rollback[RollbackKey(s)].inserts, s) == Ok(t)
    ensures WorkedOff(docs0, before, docs[s := t], rollback - {RollbackKey(s)}, except)
  {
    var docs', rollback' := docs[s := t], rollback - {RollbackKey(s)};
    forall x | x != except
      ensures var k := RollbackKey(x);
              if k in before && k !in rollback' then
                && IsSimple(x, before[k])
                && DeleteInserts(TableOf(docs0, x), before[k].inserts, x) == Ok(TableOf(docs', x))
              else TableOf(docs', x) == TableOf(docs0, x)
    {
      assert RollbackKey(x) == RollbackKey(s) <==> x == s;
    }
  }

  /** What remains to be fetched for a slot after a turn. */
  function Remaining(changes: Merged, answer: Answer, s: Slot): Merged {
    if s.collection == THREAD || (answer.Documents? && answer.eof) then EMPTY_CHANGES else changes.(inserts := {})
  }

  /** One turn for one slot: deletes its inserts, and applies the leader's answer if there is one. */
  method TakeTurn(f: Follower, slot: Slot, changes: Merged, answer: Answer) returns (ok: bool, rest: Merged)
    requires answer.Documents? ==> slot.collection != THREAD
    modifies f`docs
    ensures ok <==> FirstTurn(TableOf(old(f.docs), slot), changes, answer, slot).Ok?
    ensures ok ==> f.docs == old(f.docs)[slot := FirstTurn(TableOf(old(f.docs), slot), changes, answer, slot).value]
    ensures ok ==> rest == Remaining(changes, answer, slot)
  {
    rest := changes;
    if slot.collection == THREAD {
      rest := EMPTY_CHANGES;
    }
    var t := TableOf(f.docs, slot);
    if rest.inserts != {} {
      if !(rest.inserts <= t.Keys) && slot.collection != MAIL {
        return false, rest;
      }
      t := t - rest.inserts;
      f.docs := f.docs[slot := t];
      rest := rest.(inserts := {});
    }
    if answer.Documents? {
      var applied := ApplyUpdates(t, answer.updates, slot.collection == MAIL);
      if applied.Err? {
        return false, rest;
      }
      t := applied.value;
      if answer.eof {
        rest := EMPTY_CHANGES;
      }
    }
    f.docs := f.docs[slot := t];
    return true, rest;
  }

  /** What a call has done when it answers: `docs0` and `before` are the state it started from. */
  ghost predicate Answers(docs0: Tables, before: map<Key, Merged>, docs: Tables, rollback: map<Key, Merged>,
                          slot0: Slot, changes0: Merged, answer: Answer, reply: Reply)
  {
    match reply
    case Failed => true
    case Continue(slot, changes) =>
      && answer.Documents? && !answer.eof && slot == slot0 && changes == Remaining(changes0, answer, slot0)
      && rollback == before && WorkedOff(docs0, before, docs, rollback, slot0)
    case AskFor(slot, changes) =>
      && RollbackKey(slot) in rollback && !IsSimple(slot, changes)
      && if slot == slot0 then
           && changes == Remaining(changes0, answer, slot0)
           && rollback == before && WorkedOff(docs0, before, docs, rollback, slot0)
         else
           && RollbackKey(slot0) !in rollback && IsSimple(slot0, Remaining(changes0, answer, slot0))
           && changes == rollback[RollbackKey(slot)].(inserts := {})
           && DeleteInserts(TableOf(docs0, slot), rollback[RollbackKey(slot)].inserts, slot) == Ok(TableOf(docs, slot))
           && WorkedOff(docs0, before, docs[slot := TableOf(docs0, slot)], rollback, slot0)
    case Finished(_) =>
      && rollback == map[] && IsSimple(slot0, Remaining(changes0, answer, slot0))
      && WorkedOff(docs0, before, docs, rollback, slot0)
  }

  /** The turns after the first, which have no answer at hand. */
  method WorkOff(f: Follower, slot0: Slot, ghost docs0: Tables, ghost before: map<Key, Merged>) returns (reply: Reply)
    requires SlotKeyed(before) && WorkedOff(docs0, before, f.docs, f.rollback, slot0)
    requires RollbackKey(slot0) !in f.rollback
    requires forall k :: k in f.log.raft ==> k.a < NO_INDEX
    modifies f`docs, f`rollback
    ensures reply != Failed ==>
            TableOf(f.docs, slot0) == old(TableOf(f.docs, slot0)) && RollbackKey(slot0) !in f.rollback
    ensures match reply
            case Failed =>
              exists s :: s != slot0 && RollbackKey(s) in before
                && DeleteInserts(TableOf(docs0, s), before[RollbackKey(s)].inserts, s).Err?
            case AskFor(slot, changes) =>
              && slot != slot0 && RollbackKey(slot) in f.rollback && !IsSimple(slot, changes)
              && changes == f.rollback[RollbackKey(slot)].(inserts := {})
              && DeleteInserts(TableOf(docs0, slot), f.rollback[RollbackKey(slot)].inserts, slot) ==
                 Ok(TableOf(f.docs, slot))
              && WorkedOff(docs0, before, f.docs[slot := TableOf(docs0, slot)], f.rollback, slot0)
            case Finished(last) =>
              && f.rollback == map[] && WorkedOff(docs0, before, f.docs, f.rollback, slot0)
              && IsLastLog(f.log, last)
            case Continue(_, _) => false
  {
    while f.rollback != map[]
      invariant WorkedOff(docs0, before, f.docs, f.rollback, slot0) && RollbackKey(slot0) !in f.rollback
      invariant TableOf(f.docs, slot0) == old(TableOf(f.docs, slot0))
      decreases |f.rollback|
    {
      var k := First(f.rollback.Keys);
      var slot := SlotOf(k);
      ghost var docs1 := f.docs;
      assert k == RollbackKey(slot) && slot != slot0;
      var ok, rest := TakeTurn(f, slot, f.rollback[k], NoAnswer);
      if !ok {
        return Failed;
      }
      if rest.deletes != {} || rest.updates != {} {
        PutBack(docs0, before, docs1, f.rollback, slot0, slot, TableOf(f.docs, slot));
        return AskFor(slot, rest);
      }
      DropRecord(docs0, before, docs1, f.rollback, slot0, slot, TableOf(f.docs, slot));
      f.rollback := f.rollback - {k};
    }
    var last := LastLog(f.log);
    reply := Finished(last);
  }

  lemma PutBack(docs0: Tables, before: map<Key, Merged>, docs: Tables, rollback: map<Key, Merged>, except: Slot,
                s: Slot, t: Table)
    requires WorkedOff(docs0, before, docs, rollback, except) && RollbackKey(s) in rollback && s != except
    ensures WorkedOff(docs0, before, docs[s := t][s := TableOf(docs0, s)], rollback, except)
  {
  }

  /** `handle_rollback_updates`: works off rollback records in key order, beginning with the one at
      hand, until documents are needed from the leader or no record is left. */
  method HandleRollbackUpdates(f: Follower, slot0: Slot, changes0: Merged, answer: Answer) returns (reply: Reply)
    requires SlotKeyed(f.rollback) && RollbackKey(slot0) in f.rollback
    requires forall k :: k in f.log.raft ==> k.a < NO_INDEX
    requires answer.Documents? ==> slot0.collection != THREAD
    modifies f`docs, f`rollback
    ensures Answers(old(f.docs), old(f.rollback), f.docs, f.rollback, slot0, changes0, answer, reply)
    ensures reply != Failed ==>
            FirstTurn(TableOf(old(f.docs), slot0), changes0, answer, slot0) == Ok(TableOf(f.docs, slot0))
    ensures reply == Failed ==>
              || FirstTurn(TableOf(old(f.docs), slot0), changes0, answer, slot0).Err?
              || (exists s ::
                    && s != slot0 && RollbackKey(s) in old(f.rollback)
                    && DeleteInserts(TableOf(old(f.docs), s), old(f.rollback)[RollbackKey(s)].inserts, s).Err?)
    ensures reply.Finished? ==> IsLastLog(f.log, reply.lastLog)
  {
    ghost var docs0, before := f.docs, f.rollback;
    var ok, rest := TakeTurn(f, slot0, changes0, answer);
    if !ok {
      return Failed;
    }
    if answer.Documents? && !answer.eof {
      return Continue(slot0, rest);
    }
    if rest.deletes != {} || rest.updates != {} {
      return AskFor(slot0, rest);
    }
    f.rollback := f.rollback - {RollbackKey(slot0)};
    reply := WorkOff(f, slot0, docs0, before);
  }
}

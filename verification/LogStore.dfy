/** The replicated log as it lies in the key-value store: raft entries by index, and one change
    record per entry, account and collection. */
module LogStore {
  import opened Common
  import opened KeyOrder
  import opened ChangeLog

  type AccountId = nat

  /** Collections by their code; threads exist for change tracking only and hold no documents. */
  type Collection = nat
  const MAIL: Collection := 2
  const MAILBOX: Collection := 3
  const THREAD: Collection := 4

  datatype Slot = Slot(account: AccountId, collection: Collection)

  /** Accounts whose changes are still to be sent, in groups that changed the same collections. */
  type AccountGroups = seq<(set<Collection>, seq<AccountId>)>

  datatype Entry = Item(account: AccountId, collections: set<Collection>) | SnapshotOf(groups: AccountGroups)

  /** Stored values carry the length of their serialization. */
  datatype LogValue = LogValue(entry: Entry, size: nat)
  datatype ChangeValue = ChangeValue(change: Change, size: nat)

  datatype LogDb = LogDb(raft: map<Key, LogValue>, changes: map<Key, ChangeValue>)

  function RaftKey(id: RaftId): Key {
    Key(id.index, id.term, 0)
  }

  function ChangeKey(s: Slot, id: nat): Key {
    Key(s.account, s.collection, id)
  }

  /** One entry per index, and no entry under the index that stands for "no entry". */
  ghost predicate ValidLog(db: LogDb) {
    && (forall k :: k in db.raft ==> k.a < NO_INDEX && k.c == 0)
    && (forall k, k' :: k in db.raft && k' in db.raft && k.a == k'.a ==> k == k')
  }

  // ----- Changes of one account and collection

  predicate InRange(k: Key, s: Slot, lo: int, hi: nat) {
    k.a == s.account && k.b == s.collection && lo < k.c <= hi
  }

  function RangeKeys(keys: set<Key>, s: Slot, lo: int, hi: nat): set<Key> {
    set k | k in keys && InRange(k, s, lo, hi)
  }

  function Values(changes: map<Key, ChangeValue>, ks: seq<Key>): seq<Change>
    requires forall k :: k in ks ==> k in changes
  {
    seq(|ks|, i requires 0 <= i < |ks| => assert ks[i] in ks; changes[ks[i]].change)
  }

  lemma ValuesConcat(changes: map<Key, ChangeValue>, a: seq<Key>, b: seq<Key>)
    requires forall k :: k in a || k in b ==> k in changes
    ensures Values(changes, a + b) == Values(changes, a) + Values(changes, b)
  {
  }

  /** The change records under some keys, in key order. */
  function ChangesOf(changes: map<Key, ChangeValue>, keys: set<Key>): seq<Change>
    requires keys <= changes.Keys
  {
    Values(changes, Scan(keys))
  }

  /** The change records of a slot with ids above `lo` and up to `hi`, oldest first. */
  function ChangesIn(changes: map<Key, ChangeValue>, s: Slot, lo: int, hi: nat): seq<Change> {
    ChangesOf(changes, RangeKeys(changes.Keys, s, lo, hi))
  }

  lemma ChangesOfConcat(changes: map<Key, ChangeValue>, a: set<Key>, b: set<Key>)
    requires a <= changes.Keys && b <= changes.Keys
    requires forall x, y :: x in a && y in b ==> Before(x, y)
    ensures ChangesOf(changes, a + b) == ChangesOf(changes, a) + ChangesOf(changes, b)
  {
    ScanConcat(a, b);
    ValuesConcat(changes, Scan(a), Scan(b));
  }

  lemma MergeNext(changes: map<Key, ChangeValue>, seen: set<Key>, k: Key)
    requires seen <= changes.Keys && k in changes
    requires forall x :: x in seen ==> Before(x, k)
    ensures Merge(ChangesOf(changes, seen + {k})) == Absorb(Merge(ChangesOf(changes, seen)), changes[k].change)
  {
    ScanSnoc(seen, k);
    ValuesConcat(changes, Scan(seen), [k]);
    var cs := ChangesOf(changes, seen);
    assert ChangesOf(changes, seen + {k}) == cs + [changes[k].change];
    assert (cs + [changes[k].change])[..|cs|] == cs;
  }

  lemma ChangesInSplit(changes: map<Key, ChangeValue>, s: Slot, lo: int, mid: nat, hi: nat)
    requires lo <= mid <= hi
    ensures ChangesIn(changes, s, lo, hi) == ChangesIn(changes, s, lo, mid) + ChangesIn(changes, s, mid, hi)
  {
    var a, b := RangeKeys(changes.Keys, s, lo, mid), RangeKeys(changes.Keys, s, mid, hi);
    assert RangeKeys(changes.Keys, s, lo, hi) == a + b;
    ChangesOfConcat(changes, a, b);
  }

  /** The keys in range among the first `n` of a scan. */
  function Seen(ks: seq<Key>, n: nat, s: Slot, lo: int, hi: nat): set<Key>
    requires n <= |ks|
  {
    if n == 0 then {}
    else Seen(ks, n - 1, s, lo, hi) + if InRange(ks[n - 1], s, lo, hi) then {ks[n - 1]} else {}
  }

  lemma SeenNext(ks: seq<Key>, n: nat, s: Slot, lo: int, hi: nat)
    requires n < |ks|
    ensures Seen(ks, n + 1, s, lo, hi) ==
            if InRange(ks[n], s, lo, hi) then Seen(ks, n, s, lo, hi) + {ks[n]} else Seen(ks, n, s, lo, hi)
  {
  }

  lemma {:induction false} SeenMembers(ks: seq<Key>, n: nat, s: Slot, lo: int, hi: nat)
    requires n <= |ks|
    ensures forall k :: k in Seen(ks, n, s, lo, hi) <==> InRange(k, s, lo, hi) && k in ks[..n]
  {
    if n > 0 {
      SeenMembers(ks, n - 1, s, lo, hi);
      assert ks[..n] == ks[..n - 1] + [ks[n - 1]];
    }
  }

  lemma SeenBefore(ks: seq<Key>, n: nat, s: Slot, lo: int, hi: nat)
    requires n < |ks| && Sorted(ks)
    ensures forall k :: k in Seen(ks, n, s, lo, hi) ==> k in ks && Before(k, ks[n])
  {
    SeenMembers(ks, n, s, lo, hi);
  }

  /** From the first key of another slot on, a scan that starts in the slot has left the range. */
  lemma SeenAll(keys: set<Key>, start: Key, ks: seq<Key>, n: nat, s: Slot, lo: int, hi: nat)
    requires IsScan(ks, set k | k in keys && !Before(k, start))
    requires start == ChangeKey(s, if lo < 0 then 0 else lo + 1)
    requires n <= |ks| && (n < |ks| ==> !(ks[n].a == s.account && ks[n].b == s.collection))
    ensures Seen(ks, n, s, lo, hi) == RangeKeys(keys, s, lo, hi)
  {
    SeenMembers(ks, n, s, lo, hi);
    assert forall k :: k in ks[..n] ==> k in ks;
    forall k | k in keys && InRange(k, s, lo, hi) ensures k in ks[..n] {
      assert k in ks;
      var j :| 0 <= j < |ks| && ks[j] == k;
      if n < |ks| {
        assert ks[n] in ks;
        assert j < n;
      }
    }
  }

  /** The fold of the records in range among the first `n` keys of a scan. */
  function MergeSeen(changes: map<Key, ChangeValue>, ks: seq<Key>, n: nat, s: Slot, lo: int, hi: nat): Merged
    requires n <= |ks| && forall k :: k in ks ==> k in changes
  {
    if n == 0 then EMPTY_CHANGES
    else
      var m := MergeSeen(changes, ks, n - 1, s, lo, hi);
      assert ks[n - 1] in ks;
      if InRange(ks[n - 1], s, lo, hi) then Absorb(m, changes[ks[n - 1]].change) else m
  }

  /** `m` is the fold of the records under some keys. */
  ghost predicate IsMergeOf(changes: map<Key, ChangeValue>, seen: set<Key>, m: Merged) {
    seen <= changes.Keys && m == Merge(ChangesOf(changes, seen))
  }

  lemma NothingMerged(changes: map<Key, ChangeValue>)
    ensures IsMergeOf(changes, {}, EMPTY_CHANGES)
  {
    assert ChangesOf(changes, {}) == [];
  }

  lemma MergeOneMore(changes: map<Key, ChangeValue>, ks: seq<Key>, n: nat, s: Slot, lo: int, hi: nat, m: Merged)
    requires n < |ks| && Sorted(ks) && ks[n] in changes && IsMergeOf(changes, Seen(ks, n, s, lo, hi), m)
    ensures IsMergeOf(changes, Seen(ks, n, s, lo, hi) + {ks[n]}, Absorb(m, changes[ks[n]].change))
  {
    SeenBefore(ks, n, s, lo, hi);
    MergeNext(changes, Seen(ks, n, s, lo, hi), ks[n]);
  }

  lemma MergeStep(changes: map<Key, ChangeValue>, ks: seq<Key>, n: nat, s: Slot, lo: int, hi: nat, m: Merged)
    requires n < |ks| && Sorted(ks) && ks[n] in changes && IsMergeOf(changes, Seen(ks, n, s, lo, hi), m)
    ensures IsMergeOf(changes, Seen(ks, n + 1, s, lo, hi),
                      if InRange(ks[n], s, lo, hi) then Absorb(m, changes[ks[n]].change) else m)
  {
    SeenNext(ks, n, s, lo, hi);
    if InRange(ks[n], s, lo, hi) {
      MergeOneMore(changes, ks, n, s, lo, hi, m);
    }
  }

  lemma {:induction false} MergeSeenIsMerge(changes: map<Key, ChangeValue>, ks: seq<Key>, n: nat, s: Slot, lo: int,
                                            hi: nat)
    requires n <= |ks| && Sorted(ks) && forall k :: k in ks ==> k in changes
    ensures IsMergeOf(changes, Seen(ks, n, s, lo, hi), MergeSeen(changes, ks, n, s, lo, hi))
  {
    if n == 0 {
      NothingMerged(changes);
    } else {
      MergeSeenIsMerge(changes, ks, n - 1, s, lo, hi);
      assert ks[n - 1] in ks;
      MergeStep(changes, ks, n - 1, s, lo, hi, MergeSeen(changes, ks, n - 1, s, lo, hi));
    }
  }

  /** `merge_changes`: folds the records of a slot between two ids, reading the store from the
      first possible key up to the end of the slot. */
  method MergeChanges(changes: map<Key, ChangeValue>, s: Slot, fromId: U64, toId: U64) returns (merged: MergedChanges)
    ensures fresh(merged)
    ensures merged.View() == Merge(ChangesIn(changes, s, if fromId == NO_INDEX then -1 else fromId - 1, toId))
  {
    merged := new MergedChanges(EMPTY_CHANGES);
    var start := ChangeKey(s, if fromId != NO_INDEX then fromId else 0);
    ghost var lo: int := if fromId == NO_INDEX then -1 else fromId - 1;
    var ks := Iterate(set k | k in changes.Keys && !Before(k, start));
    var i := 0;
    while i < |ks|
      invariant 0 <= i <= |ks|
      invariant merged.View() == MergeSeen(changes, ks, i, s, lo, toId)
    {
      var k := ks[i];
      assert k in ks;
      if !(k.a == s.account && k.b == s.collection) {
        break;
      }
      if (k.c >= fromId || fromId == NO_INDEX) && k.c <= toId {
        merged.DeserializeChanges(changes[k].change);
      }
      i := i + 1;
    }
    MergeSeenIsMerge(changes, ks, i, s, lo, toId);
    SeenAll(changes.Keys, start, ks, i, s, lo, toId);
  }
}

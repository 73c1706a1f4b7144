/** The follower's store: documents, log, pending records and rollback records, and what its
    operations do to them. */
module Replica {
  import opened Common
  import opened KeyOrder
  import opened ChangeLog
  import opened DocumentSync
  import opened LogStore
  import opened LogShipping

  /** The documents of every account and collection; a slot without a table has no documents. */
  type Tables = map<Slot, Table>

  function TableOf(docs: Tables, s: Slot): Table {
    if s in docs then docs[s] else map[]
  }

  /** What a pending record does to its slot: remove documents, or write fetched ones. */
  datatype Work = Remove(ids: set<DocId>) | Apply(updates: seq<DocUpdate>)

  /** A pending record under its key (index, sequence number). Both writers put exactly one slot
      in a record. */
  datatype Pending = Pending(index: U64, number: nat, slot: Slot, work: Work)

  /** The part of the store that committing reads and writes. */
  datatype Store = Store(log: LogDb, docs: Tables, pending: seq<Pending>, commitKey: Option<U64>)

  // ----- Meaning of pending records

  /** Missing documents are no error when a record removes them, and an update of a missing
      document fails the record. */
  function Perform(t: Table, w: Work, isMail: bool): Result<Table> {
    match w
    case Remove(ids) => Ok(t - ids)
    case Apply(updates) => ApplyUpdates(t, updates, isMail)
  }

  /** The table of a slot once all records that concern it have been performed. */
  function Effective(t: Table, ps: seq<Pending>, s: Slot): Result<Table>
    decreases |ps|
  {
    if ps == [] then Ok(t)
    else
      var t' :- Effective(t, ps[..|ps| - 1], s);
      var p := ps[|ps| - 1];
      if p.slot == s then Perform(t', p.work, s.collection == MAIL) else Ok(t')
  }

  /** What a batch of updates makes of one document. */
  function WrittenDoc(x: Lookup, us: seq<DocUpdate>, d: DocId, isMail: bool): Lookup {
    if us == [] then x
    else
      var y, u := WrittenDoc(x, us[..|us| - 1], d, isMail), us[|us| - 1];
      if u.id != d then y
      else
        match u
        case Insert(_, doc) => Present(doc)
        case Update(_, doc) => Present(doc)
        case Delete(_) => if x.Present? || isMail then Absent else y
  }

  /** What pending records make of one document. */
  function DocAfter(x: Lookup, ps: seq<Pending>, s: Slot, d: DocId): Lookup
    decreases |ps|
  {
    if ps == [] then x
    else
      var y, p := DocAfter(x, ps[..|ps| - 1], s, d), ps[|ps| - 1];
      if p.slot != s then y
      else
        match p.work
        case Remove(ids) => if d in ids then Absent else y
        case Apply(updates) => WrittenDoc(y, updates, d, s.collection == MAIL)
  }

  lemma {:induction false} BatchByDoc(t0: Table, us: seq<DocUpdate>, isMail: bool, d: DocId)
    ensures Get(WriteBatch(t0, us, isMail), d) == WrittenDoc(Get(t0, d), us, d, isMail)
    decreases |us|
  {
    if us != [] {
      BatchByDoc(t0, us[..|us| - 1], isMail, d);
    }
  }

  /** The table after some records, document by document. */
  lemma {:induction false} EffectiveByDoc(t: Table, ps: seq<Pending>, s: Slot, d: DocId)
    requires Effective(t, ps, s).Ok?
    ensures Get(Effective(t, ps, s).value, d) == DocAfter(Get(t, d), ps, s, d)
    decreases |ps|
  {
    if ps != [] {
      var front, p := ps[..|ps| - 1], ps[|ps| - 1];
      EffectiveByDoc(t, front, s, d);
      if p.slot == s && p.work.Apply? {
        BatchByDoc(Effective(t, front, s).value, p.work.updates, s.collection == MAIL, d);
      }
    }
  }

  function CommitOne(docs: Tables, p: Pending): Result<Tables> {
    var t :- Perform(TableOf(docs, p.slot), p.work, p.slot.collection == MAIL);
    Ok(docs[p.slot := t])
  }

  function CommitAll(docs: Tables, ps: seq<Pending>): Result<Tables>
    decreases |ps|
  {
    if ps == [] then Ok(docs)
    else
      var docs' :- CommitAll(docs, ps[..|ps| - 1]);
      CommitOne(docs', ps[|ps| - 1])
  }

  /** Committing is slot-wise: it succeeds if every slot's records do, and each slot then holds
      what its own records make of it. */
  lemma {:induction false} CommitIsSlotwise(docs: Tables, ps: seq<Pending>)
    ensures CommitAll(docs, ps).Ok? <==> forall s :: Effective(TableOf(docs, s), ps, s).Ok?
    ensures CommitAll(docs, ps).Ok? ==>
              forall s :: Effective(TableOf(docs, s), ps, s) == Ok(TableOf(CommitAll(docs, ps).value, s))
    decreases |ps|
  {
    if ps != [] {
      var front, p := ps[..|ps| - 1], ps[|ps| - 1];
      CommitIsSlotwise(docs, front);
      var r := CommitAll(docs, front);
      if r.Ok? {
        assert Effective(TableOf(docs, p.slot), ps, p.slot) ==
               Perform(TableOf(r.value, p.slot), p.work, p.slot.collection == MAIL);
        if CommitAll(docs, ps).Ok? {
          forall s ensures Effective(TableOf(docs, s), ps, s) == Ok(TableOf(CommitAll(docs, ps).value, s)) {
            assert Effective(TableOf(docs, s), front, s) == Ok(TableOf(r.value, s));
          }
        }
      } else {
        var s :| Effective(TableOf(docs, s), front, s).Err?;
        assert Effective(TableOf(docs, s), ps, s).Err?;
      }
    }
  }

  lemma {:induction false} CommitConcat(docs: Tables, ps: seq<Pending>, qs: seq<Pending>)
    requires CommitAll(docs, ps).Ok?
    ensures CommitAll(docs, ps + qs) == CommitAll(CommitAll(docs, ps).value, qs)
    decreases |qs|
  {
    if qs == [] {
      assert ps + qs == ps;
    } else {
      CommitConcat(docs, ps, qs[..|qs| - 1]);
      assert (ps + qs)[..|ps + qs| - 1] == ps + qs[..|qs| - 1];
    }
  }

  // ----- Performing a record twice

  /** Fetched documents only; removals come in records of their own. */
  predicate Shaped(w: Work) {
    w.Apply? ==> forall i :: 0 <= i < |w.updates| ==> !w.updates[i].Delete?
  }

  lemma {:induction false} BatchTwice(t0: Table, t1: Table, us: seq<DocUpdate>, isMail: bool, d: DocId)
    requires Shaped(Apply(us)) && Get(t1, d) in {Get(t0, d), Get(WriteBatch(t0, us, isMail), d)}
    ensures Get(WriteBatch(t1, us, isMail), d) == Get(WriteBatch(t0, us, isMail), d)
    decreases |us|
  {
    if us != [] {
      var front, u := us[..|us| - 1], us[|us| - 1];
      if u.id != d {
        BatchTwice(t0, t1, front, isMail, d);
      }
    }
  }

  lemma {:induction false} BatchKeeps(t0: Table, us: seq<DocUpdate>, isMail: bool)
    requires Shaped(Apply(us))
    ensures t0.Keys <= WriteBatch(t0, us, isMail).Keys
    decreases |us|
  {
    if us != [] {
      BatchKeeps(t0, us[..|us| - 1], isMail);
    }
  }

  lemma PerformTwice(t: Table, w: Work, isMail: bool)
    requires Shaped(w) && Perform(t, w, isMail).Ok?
    ensures Perform(Perform(t, w, isMail).value, w, isMail) == Perform(t, w, isMail)
  {
    if w.Apply? {
      var t1 := WriteBatch(t, w.updates, isMail);
      BatchKeeps(t, w.updates, isMail);
      forall d ensures Get(WriteBatch(t1, w.updates, isMail), d) == Get(t1, d) {
        BatchTwice(t, t1, w.updates, isMail, d);
      }
      SameTable(WriteBatch(t1, w.updates, isMail), t1);
    } else {
      assert (t - w.ids) - w.ids == t - w.ids;
    }
  }

  lemma CommitOneTwice(docs: Tables, p: Pending)
    requires Shaped(p.work) && CommitOne(docs, p).Ok?
    ensures CommitOne(CommitOne(docs, p).value, p) == CommitOne(docs, p)
  {
    PerformTwice(TableOf(docs, p.slot), p.work, p.slot.collection == MAIL);
    var docs' := CommitOne(docs, p).value;
    assert docs'[p.slot := docs'[p.slot]] == docs';
  }
}

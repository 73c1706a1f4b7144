/** The change log of one account and collection, and its compression into three bitmaps.

    A change record names the documents one log entry inserted, updated or deleted. A follower
    never replays such records: it folds a range of them into `MergedChanges` and fetches the
    leader's current documents for the result. This module models the fold and proves its net
    effect against an independent description of what the records did to the documents. */
module ChangeLog {

  type DocId = nat

  /** A JMAP id is a document id with a prefix, the thread id in the case of e-mails. */
  datatype JmapId = JmapId(prefix: nat, doc: DocId)

  datatype Change =
    | Entry(inserts: seq<JmapId>, updates: seq<JmapId>, childUpdates: seq<JmapId>, deletes: seq<JmapId>)
    | Snapshot(ids: seq<JmapId>)

  datatype Merged = Merged(inserts: set<DocId>, updates: set<DocId>, deletes: set<DocId>)
  {
    predicate IsEmpty() {
      inserts == {} && updates == {} && deletes == {}
    }
  }

  const EMPTY_CHANGES := Merged({}, {}, {})

  /** Prefix and fields of a stored document. */
  datatype Doc = Doc(prefix: nat, fields: seq<nat>)

  /** The documents of one account and collection. */
  type Table = map<DocId, Doc>

  datatype Lookup = Absent | Present(doc: Doc)

  function Get(t: Table, d: DocId): Lookup {
    if d in t then Present(t[d]) else Absent
  }

  function Docs(ids: seq<JmapId>): set<DocId> {
    set id | id in ids :: id.doc
  }

  // ----- The fold, loop by loop

  function AddUpdates(m: Merged, ids: seq<JmapId>): Merged
    decreases |ids|
  {
    if ids == [] then m
    else
      var rest := AddUpdates(m, ids[..|ids| - 1]);
      var d := ids[|ids| - 1].doc;
      if d in rest.inserts then rest else rest.(updates := rest.updates + {d})
  }

  /** Position of the first inserted id that moves the same document to another prefix. */
  function MovedTo(inserted: seq<JmapId>, id: JmapId): (pos: nat)
    ensures pos <= |inserted|
    ensures pos < |inserted| ==> inserted[pos].doc == id.doc && inserted[pos].prefix != id.prefix
    ensures forall k :: 0 <= k < pos ==> !(inserted[k].doc == id.doc && inserted[k].prefix != id.prefix)
  {
    if inserted == [] then 0
    else if inserted[0].doc == id.doc && inserted[0].prefix != id.prefix then 0
    else 1 + MovedTo(inserted[1..], id)
  }

  function DeleteOne(m: Merged, inserted: seq<JmapId>, id: JmapId): (Merged, seq<JmapId>) {
    var pos := MovedTo(inserted, id);
    if pos < |inserted| then
      (if id.doc in m.inserts then m else m.(updates := m.updates + {id.doc}),
       inserted[..pos] + inserted[pos + 1..])
    else
      (Merged(m.inserts - {id.doc},
              m.updates - {id.doc},
              if id.doc in m.inserts then m.deletes else m.deletes + {id.doc}),
       inserted)
  }

  function DeleteAll(m: Merged, inserted: seq<JmapId>, deletes: seq<JmapId>): (Merged, seq<JmapId>)
    decreases |deletes|
  {
    if deletes == [] then (m, inserted)
    else
      var (m', left) := DeleteAll(m, inserted, deletes[..|deletes| - 1]);
      DeleteOne(m', left, deletes[|deletes| - 1])
  }

  function Absorb(m: Merged, c: Change): Merged {
    match c
    case Entry(inserts, updates, _, deletes) =>
      var (m', left) := DeleteAll(AddUpdates(m, updates), inserts, deletes);
      m'.(inserts := m'.inserts + Docs(left))
    case Snapshot(ids) => m.(inserts := m.inserts + Docs(ids))
  }

  function Merge(cs: seq<Change>): Merged
    decreases |cs|
  {
    if cs == [] then EMPTY_CHANGES else Absorb(Merge(cs[..|cs| - 1]), cs[|cs| - 1])
  }

  class MergedChanges {
    var inserts: set<DocId>
    var updates: set<DocId>
    var deletes: set<DocId>

    function View(): Merged
      reads this
    {
      Merged(inserts, updates, deletes)
    }

    constructor (m: Merged)
      ensures View() == m
    {
      inserts, updates, deletes := m.inserts, m.updates, m.deletes;
    }

    /** Folds one change record into the three bitmaps. */
    method DeserializeChanges(c: Change)
      modifies this
      ensures View() == Absorb(old(View()), c)
    {
      ghost var m0 := View();
      match c {
        case Entry(ins, ups, _, dels) =>
          var insertedIds := ins;
          for i := 0 to |ups|
            invariant View() == AddUpdates(m0, ups[..i])
          {
            assert ups[..i + 1][..i] == ups[..i];
            if ups[i].doc !in inserts {
              updates := updates + {ups[i].doc};
            }
          }
          assert ups[..|ups|] == ups;
          ghost var m1 := View();
          for i := 0 to |dels|
            invariant (View(), insertedIds) == DeleteAll(m1, ins, dels[..i])
          {
            assert dels[..i + 1][..i] == dels[..i];
            var deleted := dels[i];
            var pos := MovedTo(insertedIds, deleted);
            if pos < |insertedIds| {
              insertedIds := insertedIds[..pos] + insertedIds[pos + 1..];
              if deleted.doc !in inserts {
                updates := updates + {deleted.doc};
              }
            } else {
              assert deleted.doc !in inserts ==> inserts - {deleted.doc} == inserts;
              if deleted.doc in inserts {
                inserts := inserts - {deleted.doc};
              } else {
                deletes := deletes + {deleted.doc};
              }
              updates := updates - {deleted.doc};
            }
          }
          assert dels[..|dels|] == dels;
          AddInserts(insertedIds);
        case Snapshot(ids) =>
          AddInserts(ids);
      }
    }

    method AddInserts(ids: seq<JmapId>)
      modifies this`inserts
      ensures inserts == old(inserts) + Docs(ids)
    {
      for i := 0 to |ids|
        invariant inserts == old(inserts) + Docs(ids[..i])
      {
        assert ids[..i + 1] == ids[..i] + [ids[i]];
        inserts := inserts + {ids[i].doc};
      }
      assert ids[..|ids|] == ids;
    }
  }

  // ----- What a change record says about the documents

  ghost predicate DistinctDocs(ids: seq<JmapId>) {
    forall i, j :: 0 <= i < j < |ids| ==> ids[i].doc != ids[j].doc
  }

  /** Documents the entry moves to another prefix. */
  function Moved(inserts: seq<JmapId>, deletes: seq<JmapId>): set<DocId> {
    set x, y | x in deletes && y in inserts && x.doc == y.doc && x.prefix != y.prefix :: x.doc
  }

  function Touched(c: Change): set<DocId> {
    match c
    case Entry(inserts, updates, _, deletes) => Docs(inserts) + Docs(updates) + Docs(deletes)
    case Snapshot(ids) => Docs(ids)
  }

  /** The change record `c` describes a step of the documents from `s` to `t`: it deletes live
      documents only, inserts ids that are free or freed by the same record, updates documents
      that are live or inserted by it, and leaves every other document alone. */
  ghost predicate Describes(s: Table, c: Change, t: Table) {
    && (match c
        case Entry(inserts, updates, _, deletes) =>
          && DistinctDocs(inserts)
          && DistinctDocs(deletes)
          && Docs(deletes) <= s.Keys
          && Docs(inserts) * s.Keys <= Docs(deletes)
          && Docs(updates) <= s.Keys + Docs(inserts)
          && t.Keys == (s.Keys - Docs(deletes)) + Docs(inserts)
        case Snapshot(ids) => s == map[] && t.Keys == Docs(ids))
    && forall d :: d !in Touched(c) ==> Get(s, d) == Get(t, d)
  }

  /** Stores `h[0]`, `h[1]`, ... of which each follows from the one before by one record. */
  ghost predicate History(h: seq<Table>, cs: seq<Change>) {
    && |h| == |cs| + 1
    && forall i :: 0 <= i < |cs| ==> Describes(h[i], cs[i], h[i + 1])
  }

  function TouchedBy(cs: seq<Change>): set<DocId> {
    set c, d | c in cs && d in Touched(c) :: d
  }

  /** Documents that some record inserted and updated at once, and no later record deleted. */
  function BornUpdated(cs: seq<Change>): set<DocId>
    decreases |cs|
  {
    if cs == [] then {}
    else
      var born := BornUpdated(cs[..|cs| - 1]);
      match cs[|cs| - 1]
      case Entry(inserts, updates, _, deletes) =>
        var moved := Moved(inserts, deletes);
        var killed := Docs(deletes) - moved;
        (born - killed) + ((Docs(inserts) - moved) * Docs(updates) - killed)
      case Snapshot(_) => born
  }

  // ----- Closed form of the fold

  lemma {:induction false} AddUpdatesClosed(m: Merged, ids: seq<JmapId>)
    ensures AddUpdates(m, ids) == m.(updates := m.updates + (Docs(ids) - m.inserts))
    decreases |ids|
  {
    if ids != [] {
      var n := |ids| - 1;
      AddUpdatesClosed(m, ids[..n]);
      assert ids == ids[..n] + [ids[n]];
      assert Docs(ids) == Docs(ids[..n]) + {ids[n].doc};
    }
  }

  /** What `DeleteAll` leaves behind when no document occurs twice in either list. */
  ghost predicate Deleted(m: Merged, inserts: seq<JmapId>, deletes: seq<JmapId>, m': Merged, left: seq<JmapId>) {
    var moved := Moved(inserts, deletes);
    var killed := Docs(deletes) - moved;
    && DistinctDocs(left)
    && (forall id :: id in left <==> id in inserts && id.doc !in moved)
    && m'.inserts == m.inserts - killed
    && m'.updates == (m.updates + (moved - m.inserts)) - killed
    && m'.deletes == m.deletes + (killed - m.inserts)
  }

  lemma DocsSnoc(ids: seq<JmapId>, id: JmapId)
    ensures Docs(ids + [id]) == Docs(ids) + {id.doc}
  {
    var more := ids + [id];
    assert forall x :: x in more <==> x in ids || x == id;
    assert id in more;
    forall d | d in Docs(ids) + {id.doc} ensures d in Docs(more) {
      if d != id.doc {
        var x :| x in ids && x.doc == d;
        assert x in more;
      }
    }
  }

  /** Deleting one more id adds its document to the moved ones exactly if a move is left for it. */
  lemma MovedSnoc(inserts: seq<JmapId>, front: seq<JmapId>, id: JmapId, left: seq<JmapId>)
    requires id.doc !in Docs(front)
    requires forall x :: x in left <==> x in inserts && x.doc !in Moved(inserts, front)
    ensures id.doc !in Moved(inserts, front)
    ensures Moved(inserts, front + [id])
         == Moved(inserts, front) + (if MovedTo(left, id) < |left| then {id.doc} else {})
  {
    var more := front + [id];
    assert forall x :: x in more <==> x in front || x == id;
    var pos := MovedTo(left, id);
    if pos < |left| {
      assert left[pos] in inserts && id in more;
    }
    forall y | y in inserts && y.doc == id.doc && y.prefix != id.prefix ensures pos < |left| {
      assert y in left;
    }
  }

  lemma RemoveAt(left: seq<JmapId>, pos: nat)
    requires pos < |left| && DistinctDocs(left)
    ensures DistinctDocs(left[..pos] + left[pos + 1..])
    ensures forall x :: x in left[..pos] + left[pos + 1..] <==> x in left && x.doc != left[pos].doc
  {
    var rest := left[..pos] + left[pos + 1..];
    forall x | x in left && x.doc != left[pos].doc ensures x in rest {
      var k :| 0 <= k < |left| && left[k] == x;
      if k < pos { assert rest[k] == x; } else { assert rest[k - 1] == x; }
    }
  }

  /** What is left of the inserts when a move has been taken out. */
  lemma MoveTaken(inserts: seq<JmapId>, front: seq<JmapId>, id: JmapId, left: seq<JmapId>)
    requires DistinctDocs(left) && id.doc !in Docs(front) && MovedTo(left, id) < |left|
    requires forall x :: x in left <==> x in inserts && x.doc !in Moved(inserts, front)
    ensures var pos, moved := MovedTo(left, id), Moved(inserts, front) + {id.doc};
            var left2 := left[..pos] + left[pos + 1..];
            && Moved(inserts, front + [id]) == moved && id.doc !in Moved(inserts, front)
            && DistinctDocs(left2) && forall x :: x in left2 <==> x in inserts && x.doc !in moved
  {
    MovedSnoc(inserts, front, id, left);
    RemoveAt(left, MovedTo(left, id));
  }

  lemma DeleteOneMoved(m: Merged, inserts: seq<JmapId>, front: seq<JmapId>, id: JmapId, m1: Merged, left: seq<JmapId>)
    requires Deleted(m, inserts, front, m1, left)
    requires id.doc !in Docs(front)
    requires MovedTo(left, id) < |left|
    ensures var (m2, left2) := DeleteOne(m1, left, id); Deleted(m, inserts, front + [id], m2, left2)
  {
    DocsSnoc(front, id);
    MoveTaken(inserts, front, id, left);
    var moved := Moved(inserts, front);
    assert Docs(front + [id]) - (moved + {id.doc}) == Docs(front) - moved;
  }

  lemma DeleteOneKilled(m: Merged, inserts: seq<JmapId>, front: seq<JmapId>, id: JmapId, m1: Merged, left: seq<JmapId>)
    requires Deleted(m, inserts, front, m1, left)
    requires id.doc !in Docs(front)
    requires MovedTo(left, id) == |left|
    ensures var (m2, left2) := DeleteOne(m1, left, id); Deleted(m, inserts, front + [id], m2, left2)
  {
    DocsSnoc(front, id);
    MovedSnoc(inserts, front, id, left);
    var moved := Moved(inserts, front);
    assert moved == Moved(inserts, front + [id]);
    assert Docs(front + [id]) - moved == (Docs(front) - moved) + {id.doc};
  }

  lemma {:induction false} DeleteAllClosed(m: Merged, inserts: seq<JmapId>, deletes: seq<JmapId>)
    requires DistinctDocs(inserts) && DistinctDocs(deletes)
    ensures var (m', left) := DeleteAll(m, inserts, deletes);
            Deleted(m, inserts, deletes, m', left)
    decreases |deletes|
  {
    if deletes != [] {
      var n := |deletes| - 1;
      var front, id := deletes[..n], deletes[n];
      assert deletes == front + [id];
      assert id.doc !in Docs(front);
      DeleteAllClosed(m, inserts, front);
      var (m1, left) := DeleteAll(m, inserts, front);
      if MovedTo(left, id) < |left| {
        DeleteOneMoved(m, inserts, front, id, m1, left);
      } else {
        DeleteOneKilled(m, inserts, front, id, m1, left);
      }
    }
  }

  /** Closed form of folding one entry: which documents are killed, moved and freshly inserted is
      read off the entry alone. */
  lemma AbsorbClosed(m: Merged, c: Change)
    requires c.Entry? && DistinctDocs(c.inserts) && DistinctDocs(c.deletes)
    ensures
      var moved := Moved(c.inserts, c.deletes);
      var killed := Docs(c.deletes) - moved;
      var r := Absorb(m, c);
      && r.inserts == (m.inserts - killed) + (Docs(c.inserts) - moved)
      && r.updates == (m.updates + ((Docs(c.updates) + moved) - m.inserts)) - killed
      && r.deletes == m.deletes + (killed - m.inserts)
  {
    AddUpdatesClosed(m, c.updates);
    DeleteAllClosed(AddUpdates(m, c.updates), c.inserts, c.deletes);
    var (m', left) := DeleteAll(AddUpdates(m, c.updates), c.inserts, c.deletes);
    var moved := Moved(c.inserts, c.deletes);
    assert Docs(left) == Docs(c.inserts) - moved by {
      forall d | d in Docs(c.inserts) - moved ensures d in Docs(left) {
        var id :| id in c.inserts && id.doc == d;
        assert id in left;
      }
    }
  }

  // ----- Net effect of a fold

  /** The three bitmaps are the net effect of a run of changes from `s` to `t`. */
  ghost predicate NetEffect(s: Table, m: Merged, t: Table) {
    && m.deletes <= s.Keys
    && t.Keys == (s.Keys - m.deletes) + m.inserts
    && m.inserts * s.Keys <= m.deletes
    && m.updates <= t.Keys
    && m.updates - m.inserts <= s.Keys - m.deletes
    && forall d :: d !in m.inserts + m.updates + m.deletes ==> Get(s, d) == Get(t, d)
  }

  lemma NetEffectStep(s: Table, m: Merged, t: Table, c: Change, u: Table)
    requires NetEffect(s, m, t) && Describes(t, c, u)
    ensures NetEffect(s, Absorb(m, c), u)
  {
    var r := Absorb(m, c);
    if c.Entry? {
      AbsorbClosed(m, c);
      var moved := Moved(c.inserts, c.deletes);
      assert moved <= Docs(c.inserts) && moved <= Docs(c.deletes);
      forall d | d !in r.inserts + r.updates + r.deletes ensures Get(s, d) == Get(u, d) {
        if d !in Touched(c) {
          assert d !in m.inserts + m.updates + m.deletes;
        }
      }
    }
  }

  /** A document that was touched without ending up in a bitmap was born and died on the way. */
  ghost predicate Transient(s: Table, m: Merged, touched: set<DocId>, t: Table) {
    forall d :: d in touched && d !in m.inserts + m.updates + m.deletes ==> d !in s && d !in t
  }

  lemma TransientStep(s: Table, m: Merged, touched: set<DocId>, t: Table, c: Change, u: Table)
    requires NetEffect(s, m, t) && Describes(t, c, u) && Transient(s, m, touched, t)
    ensures Transient(s, Absorb(m, c), touched + Touched(c), u)
  {
    if c.Entry? {
      AbsorbClosed(m, c);
      assert Moved(c.inserts, c.deletes) <= Docs(c.inserts) * Docs(c.deletes);
    }
  }

  lemma BornUpdatedStep(s: Table, m: Merged, t: Table, c: Change, u: Table, born: set<DocId>)
    requires NetEffect(s, m, t) && Describes(t, c, u)
    requires c.Entry? && m.updates * m.inserts == born
    ensures
      var moved := Moved(c.inserts, c.deletes);
      var killed := Docs(c.deletes) - moved;
      Absorb(m, c).updates * Absorb(m, c).inserts
        == (born - killed) + ((Docs(c.inserts) - moved) * Docs(c.updates) - killed)
  {
    AbsorbClosed(m, c);
    assert Moved(c.inserts, c.deletes) <= Docs(c.inserts) * Docs(c.deletes);
  }

  lemma TouchedBySnoc(cs: seq<Change>, c: Change)
    ensures TouchedBy(cs + [c]) == TouchedBy(cs) + Touched(c)
  {
    var more := cs + [c];
    assert forall x :: x in more <==> x in cs || x == c;
    forall d | d in TouchedBy(cs) + Touched(c) ensures d in TouchedBy(more) {
      if d in Touched(c) {
        assert c in more;
      } else {
        var x :| x in cs && d in Touched(x);
        assert x in more;
      }
    }
  }

  /** For every run of change records the folded bitmaps are its net effect: live documents at
      the end are those at the start without the deletes and with the inserts, every document
      outside the bitmaps has kept its content, and the updates overlap the inserts in exactly
      the documents that one record both inserted and updated. */
  lemma {:induction false} MergeNetEffect(h: seq<Table>, cs: seq<Change>)
    requires History(h, cs)
    ensures NetEffect(h[0], Merge(cs), h[|cs|])
    ensures Transient(h[0], Merge(cs), TouchedBy(cs), h[|cs|])
    ensures Merge(cs).updates * Merge(cs).inserts == BornUpdated(cs)
    decreases |cs|
  {
    if cs != [] {
      var n := |cs| - 1;
      var front, c := cs[..n], cs[n];
      assert cs == front + [c];
      MergeNetEffect(h[..n + 1], front);
      NetEffectStep(h[0], Merge(front), h[n], c, h[n + 1]);
      TouchedBySnoc(front, c);
      TransientStep(h[0], Merge(front), TouchedBy(front), h[n], c, h[n + 1]);
      if c.Entry? {
        BornUpdatedStep(h[0], Merge(front), h[n], c, h[n + 1], BornUpdated(front));
      }
    }
  }
}
